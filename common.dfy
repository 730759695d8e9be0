/** Option and Result values, and the exceptions the converter can raise. */
module Common {

  datatype Option<+T> = None | Some(value: T)

  /** The Python exceptions that abort a conversion run, one constructor each. */
  datatype Failure =
    | IndexError           // a list index out of range, or a field missing from a line
    | KeyError             // a residue or an atomic number missing from a dictionary
    | ValueError           // a token that int() or float() rejects, or a negative base for a sixth root
    | ZeroDivisionError    // a division by a parsed zero
    | IllegalAtomicNumber  // Python's ValueError: atomic number -1 on a class that starts with neither 'C' nor 'H'
    | BadNonbondedType     // Python's ValueError: the van der Waals kind is neither RE nor AC
    | MissingVdwType       // the van der Waals kind was never read (an AttributeError)
    | UnboundLocalError    // a local variable read before any assignment to it
    | NameError            // a call of a name that is neither local nor global

  datatype Result<+T> = Ok(value: T) | Err(failure: Failure)

  /** Done or failed, for operations that return nothing. */
  datatype Outcome = Pass | Fail(failure: Failure)
}
