/**
 * The reader for Amber OFF/lib residue libraries, process_library_file
 * (scripts/processAmberForceField.py:97-146), as a step function on one line
 * and a run over the lines of a file. The state is the current section and
 * the current residue; they start as OTHER and None.
 */
module LibraryReader {
  import opened Common
  import opened Text
  import opened Records

  datatype Section = Other | Atoms | Connect | Connectivity | ResidueConnect

  datatype LibState = LibState(section: Section, residue: Option<string>)

  const LibStart := LibState(Other, None)

  /** Amber's generic ions, identical to real ions defined elsewhere. */
  const SkipResidues: set<string> := {"CIO", "IB"}

  function SectionOf(key: string): Section {
    if key == "atoms" then Atoms
    else if key == "connect" then Connect
    else if key == "connectivity" then Connectivity
    else if key == "residueconnect" then ResidueConnect
    else Other
  }

  /** An `atoms` entry (re)starts the residue's atom, bond and external-bond lists. */
  function OpenResidue(m: Model, r: string): Model {
    m.(residueAtoms := m.residueAtoms[r := []],
       residueBonds := m.residueBonds[r := []],
       residueConnections := m.residueConnections[r := []])
  }

  function Lookup(elements: map<int, Element>, z: int): (r: Result<Element>)
    ensures r.Ok? <==> z in elements
    ensures r.Ok? ==> r.value == elements[z]
    ensures r.Err? ==> r.failure == KeyError
  {
    if z in elements then Ok(elements[z]) else Err(KeyError)
  }

  /**
   * The element of an atom line. Atomic number "-1" is a known defect of some
   * Amber files: a class starting with 'C' is carbon, one starting with 'H' is
   * hydrogen, anything else is an error.
   */
  function ElementFor(elements: map<int, Element>, number: string, atomClass: string): (r: Result<Element>)
    ensures number == "-1" && atomClass != [] && atomClass[0] == 'C' ==> r == Lookup(elements, 6)
    ensures number == "-1" && atomClass != [] && atomClass[0] == 'H' ==> r == Lookup(elements, 1)
    ensures number == "-1" && atomClass != [] && atomClass[0] != 'C' && atomClass[0] != 'H' ==>
      r == Err(IllegalAtomicNumber)
    ensures number == "-1" && atomClass == [] ==> r == Err(IndexError)
    ensures number != "-1" ==>
      (r.Ok? <==> ParseInt(number).Some? && ParseInt(number).value in elements) &&
      (r.Ok? ==> r.value == elements[ParseInt(number).value])
    ensures r.Err? && r.failure == IllegalAtomicNumber ==> number == "-1"
  {
    if number == "-1" then
      if atomClass == [] then Err(IndexError)
      else if atomClass[0] == 'C' then Lookup(elements, 6)
      else if atomClass[0] == 'H' then Lookup(elements, 1)
      else Err(IllegalAtomicNumber)
    else
      match ParseInt(number)
      case None => Err(ValueError)
      case Some(z) => Lookup(elements, z)
  }

  datatype AtomRow = AtomRow(name: string, atomClass: string, element: Element, charge: real)

  /** An atom line: quoted name, quoted class, atomic number in field 6, charge in field 7. */
  function AtomRowOf(elements: map<int, Element>, line: string): Result<AtomRow> {
    var fields := Split(line);
    if |fields| < 2 then Err(IndexError)
    else
      var name := PySlice(fields[0], 1, -1);
      var atomClass := PySlice(fields[1], 1, -1);
      if |fields| < 7 then Err(IndexError)
      else
        match ElementFor(elements, fields[6], atomClass)
        case Err(f) => Err(f)
        case Ok(e) =>
          if |fields| < 8 then Err(IndexError)
          else
            match ParseReal(fields[7])
            case None => Err(ValueError)
            case Some(q) => Ok(AtomRow(name, atomClass, e, q))
  }

  /** The first two fields of a connectivity line, read by int(). */
  function IndexPair(line: string): Result<(int, int)> {
    var fields := Split(line);
    if |fields| < 1 then Err(IndexError)
    else
      match ParseInt(fields[0])
      case None => Err(ValueError)
      case Some(a) =>
        if |fields| < 2 then Err(IndexError)
        else
          match ParseInt(fields[1])
          case None => Err(ValueError)
          case Some(b) => Ok((a, b))
  }

  /** The pair is exactly the first two whitespace-separated fields, each read by int(). */
  lemma IndexPairReadsFirstTwo(line: string)
    ensures IndexPair(line).Ok? <==>
      |Split(line)| >= 2 && ParseInt(Split(line)[0]).Some? && ParseInt(Split(line)[1]).Some?
    ensures IndexPair(line).Ok? ==>
      IndexPair(line).value == (ParseInt(Split(line)[0]).value, ParseInt(Split(line)[1]).value)
  { }

  /** Every token read as an integer and made zero-based; None when a token is not an integer. */
  function ZeroBased(tokens: seq<string>): (r: Option<seq<int>>)
    ensures r.Some? ==> |r.value| == |tokens|
    ensures r.Some? <==> forall i :: 0 <= i < |tokens| ==> ParseInt(tokens[i]).Some?
    ensures r.Some? ==> forall i :: 0 <= i < |tokens| ==> r.value[i] == ParseInt(tokens[i]).value - 1
  {
    if tokens == [] then Some([])
    else
      match ParseInt(tokens[|tokens| - 1])
      case None => None
      case Some(k) =>
        match ZeroBased(tokens[..|tokens| - 1])
        case None => None
        case Some(ks) => Some(ks + [k - 1])
  }

  /** addExternalBond for each index in turn. */
  function AddExternalBonds(m: Model, residue: Option<string>, atoms: seq<int>): Result<Model> {
    if atoms == [] then Ok(m)
    else
      match AddExternalBonds(m, residue, atoms[..|atoms| - 1])
      case Err(f) => Err(f)
      case Ok(n) => AddExternalBond(n, residue, atoms[|atoms| - 1])
  }

  /** Once an index fails, the whole row fails with the same exception. */
  lemma {:induction false} AddExternalBondsFailureSticks(m: Model, residue: Option<string>, atoms: seq<int>, k: nat)
    requires k <= |atoms| && AddExternalBonds(m, residue, atoms[..k]).Err?
    ensures AddExternalBonds(m, residue, atoms) == AddExternalBonds(m, residue, atoms[..k])
    decreases |atoms| - k
  {
    if k < |atoms| {
      assert atoms[..k + 1][..k] == atoms[..k];
      AddExternalBondsFailureSticks(m, residue, atoms, k + 1);
    } else {
      assert atoms[..k] == atoms;
    }
  }

  /** A `!entry.<residue>.<...>.<section> ...` line. */
  function EntryStep(m: Model, st: LibState, line: string): Result<(Model, LibState)> {
    var fields := SplitOn(line, '.');
    if |fields| < 2 then Err(IndexError)
    else if fields[1] in SkipResidues then Ok((m, st.(residue := None)))
    else if |fields| < 4 then Err(IndexError)
    else
      var words := Split(fields[3]);
      if words == [] then Err(IndexError)
      else
        var section := SectionOf(words[0]);
        Ok((if section == Atoms then OpenResidue(m, fields[1]) else m, LibState(section, Some(fields[1]))))
  }

  /** A data line of the current section; it leaves the state as it is. */
  function DataStep(elements: map<int, Element>, m: Model, st: LibState, line: string): Result<Model> {
    match st.section
    case Other => Ok(m)
    case Atoms =>
      (match AtomRowOf(elements, line)
       case Err(f) => Err(f)
       case Ok(a) => AddAtom(m, st.residue, a.name, a.atomClass, a.element, a.charge, true))
    case Connect =>
      (match ParseInt(line)
       case None => Err(ValueError)
       case Some(k) => AddExternalBond(m, st.residue, k - 1))
    case Connectivity =>
      var pair := IndexPair(line);
      if pair.Err? then Err(pair.failure) else AddBond(m, st.residue, pair.value.0 - 1, pair.value.1 - 1)
    case ResidueConnect =>
      (match ZeroBased(PyFrom(Split(line), 2))
       case None => Err(ValueError)
       case Some(atoms) => AddExternalBonds(m, st.residue, atoms))
  }

  function LibStep(elements: map<int, Element>, m: Model, st: LibState, line: string): Result<(Model, LibState)> {
    if StartsWith(line, "!entry") then EntryStep(m, st, line)
    else
      match DataStep(elements, m, st, line)
      case Err(f) => Err(f)
      case Ok(n) => Ok((n, st))
  }

  /** The reader over the first |lines| lines; a failure ends the run. */
  function LibRun(elements: map<int, Element>, m: Model, st: LibState, lines: seq<string>): Result<(Model, LibState)> {
    if lines == [] then Ok((m, st))
    else
      match LibRun(elements, m, st, lines[..|lines| - 1])
      case Err(f) => Err(f)
      case Ok((n, s)) => LibStep(elements, n, s, lines[|lines| - 1])
  }

  /** One more line continues a run that has not failed with one more step. */
  lemma LibRunStep(elements: map<int, Element>, m: Model, st: LibState, lines: seq<string>, i: nat)
    requires i < |lines| && LibRun(elements, m, st, lines[..i]).Ok?
    ensures var (n, s) := LibRun(elements, m, st, lines[..i]).value;
      LibRun(elements, m, st, lines[..i + 1]) == LibStep(elements, n, s, lines[i])
  {
    assert lines[..i + 1][..i] == lines[..i];
  }

  /** Once a line fails, the whole file fails with the same exception. */
  lemma {:induction false} LibRunFailureSticks(elements: map<int, Element>, m: Model, st: LibState, lines: seq<string>, k: nat)
    requires k <= |lines|
    requires LibRun(elements, m, st, lines[..k]).Err?
    ensures LibRun(elements, m, st, lines) == LibRun(elements, m, st, lines[..k])
    decreases |lines| - k
  {
    if k < |lines| {
      assert lines[..k + 1][..k] == lines[..k];
      LibRunFailureSticks(elements, m, st, lines, k + 1);
    } else {
      assert lines[..k] == lines;
    }
  }

  // ---------------------------------------------------------------- skipped residues

  predicate IsSkipEntry(line: string) {
    StartsWith(line, "!entry") && |SplitOn(line, '.')| >= 2 && SplitOn(line, '.')[1] in SkipResidues
  }

  lemma {:induction false} AddExternalBondsWithoutResidue(m: Model, atoms: seq<int>)
    ensures AddExternalBonds(m, None, atoms) == Ok(m)
  {
    if atoms != [] { AddExternalBondsWithoutResidue(m, atoms[..|atoms| - 1]); }
  }

  /** With no current residue a data line is still parsed, but records nothing. */
  lemma DataStepWithoutResidue(elements: map<int, Element>, m: Model, st: LibState, line: string)
    requires st.residue.None?
    ensures DataStep(elements, m, st, line).Ok? ==> DataStep(elements, m, st, line).value == m
  {
    if st.section == ResidueConnect && ZeroBased(PyFrom(Split(line), 2)).Some? {
      AddExternalBondsWithoutResidue(m, ZeroBased(PyFrom(Split(line), 2)).value);
    }
  }

  /**
   * A block of a library that opens with an entry for a skipped residue (CIO, IB),
   * and holds no entry for any other residue, records no atom, bond or external
   * bond: the model is unchanged and there is no current residue.
   */
  lemma {:induction false} SkippedResidueRecordsNothing(elements: map<int, Element>, m: Model, st: LibState, lines: seq<string>)
    requires lines != [] && IsSkipEntry(lines[0])
    requires forall i :: 0 < i < |lines| ==> !StartsWith(lines[i], "!entry") || IsSkipEntry(lines[i])
    ensures LibRun(elements, m, st, lines).Ok? ==>
      LibRun(elements, m, st, lines).value.0 == m && LibRun(elements, m, st, lines).value.1.residue.None?
  {
    var n := |lines|;
    if n == 1 {
      assert lines[..0] == [];
    } else {
      var prefix := lines[..n - 1];
      SkippedResidueRecordsNothing(elements, m, st, prefix);
      if LibRun(elements, m, st, lines).Ok? {
        var (m1, s1) := LibRun(elements, m, st, prefix).value;
        if !StartsWith(lines[n - 1], "!entry") {
          DataStepWithoutResidue(elements, m1, s1, lines[n - 1]);
        }
      }
    }
  }

  // ---------------------------------------------------------------- indices

  /** A connect line holds one one-based index; it is stored zero-based, and 0 (stored as -1) is dropped. */
  lemma ConnectIsZeroBased(elements: map<int, Element>, m: Model, st: LibState, line: string, r: string, k: int)
    requires !StartsWith(line, "!entry") && st == LibState(Connect, Some(r))
    requires ParseInt(line) == Some(k) && r in m.residueConnections
    ensures LibStep(elements, m, st, line) ==
      Ok((m.(residueConnections := m.residueConnections[r := m.residueConnections[r] + (if k == 0 then [] else [k - 1])]), st))
  {
    if k == 0 {
      assert m.residueConnections[r] + [] == m.residueConnections[r];
      assert m.residueConnections[r := m.residueConnections[r]] == m.residueConnections;
    }
  }

  /** A connectivity line's two one-based indices become one zero-based bond. */
  lemma ConnectivityIsZeroBased(elements: map<int, Element>, m: Model, st: LibState, line: string, r: string, a: int, b: int)
    requires !StartsWith(line, "!entry") && st == LibState(Connectivity, Some(r))
    requires IndexPair(line) == Ok((a, b)) && r in m.residueBonds
    ensures LibStep(elements, m, st, line) ==
      Ok((m.(residueBonds := m.residueBonds[r := m.residueBonds[r] + [(a - 1, b - 1)]]), st))
  {
    ConnectivityStep(elements, m, st, line);
  }

  lemma ConnectivityStep(elements: map<int, Element>, m: Model, st: LibState, line: string)
    requires st.section == Connectivity && IndexPair(line).Ok?
    ensures DataStep(elements, m, st, line) == AddBond(m, st.residue, IndexPair(line).value.0 - 1, IndexPair(line).value.1 - 1)
  { }

  /** A residueconnect line's first two fields never matter: the connect section supplies those. */
  lemma ResidueConnectIgnoresFirstTwo(elements: map<int, Element>, m: Model, st: LibState, line1: string, line2: string)
    requires st.section == ResidueConnect
    requires !StartsWith(line1, "!entry") && !StartsWith(line2, "!entry")
    requires PyFrom(Split(line1), 2) == PyFrom(Split(line2), 2)
    ensures LibStep(elements, m, st, line1) == LibStep(elements, m, st, line2)
  { }

  /** The fields after the first two are read as one-based indices and stored zero-based, skipping 0. */
  lemma {:induction false} ResidueConnectAppends(m: Model, r: string, atoms: seq<int>)
    requires r in m.residueConnections
    ensures AddExternalBonds(m, Some(r), atoms).Ok?
    ensures AddExternalBonds(m, Some(r), atoms).value ==
      m.(residueConnections := m.residueConnections[r := m.residueConnections[r] + Present(atoms)])
  {
    if atoms != [] {
      var init := atoms[..|atoms| - 1];
      var last := atoms[|atoms| - 1];
      ResidueConnectAppends(m, r, init);
      var rc := m.residueConnections;
      var n := AddExternalBonds(m, Some(r), init).value;
      assert n.residueConnections[r] == rc[r] + Present(init);
      if last == -1 {
        assert Present(atoms) == Present(init) + [];
        assert Present(atoms) == Present(init);
      } else {
        assert Present(atoms) == Present(init) + [last];
        assert rc[r] + Present(init) + [last] == rc[r] + Present(atoms);
      }
    } else {
      assert m.residueConnections[r] + [] == m.residueConnections[r];
      assert m.residueConnections[r := m.residueConnections[r] + []] == m.residueConnections;
    }
  }

  /** The indices other than -1, in order. */
  function Present(atoms: seq<int>): seq<int> {
    if atoms == [] then []
    else Present(atoms[..|atoms| - 1]) + (if atoms[|atoms| - 1] == -1 then [] else [atoms[|atoms| - 1]])
  }

  // ---------------------------------------------------------------- invariant

  lemma AddBondKeepsInvariant(m: Model, residue: Option<string>, a: int, b: int)
    requires ReaderInvariant(m) && AddBond(m, residue, a, b).Ok?
    ensures ReaderInvariant(AddBond(m, residue, a, b).value)
  { }

  lemma AddExternalBondKeepsInvariant(m: Model, residue: Option<string>, a: int)
    requires ReaderInvariant(m) && AddExternalBond(m, residue, a).Ok?
    ensures ReaderInvariant(AddExternalBond(m, residue, a).value)
  { }

  lemma {:induction false} AddExternalBondsKeepsInvariant(m: Model, residue: Option<string>, atoms: seq<int>)
    requires ReaderInvariant(m) && AddExternalBonds(m, residue, atoms).Ok?
    ensures ReaderInvariant(AddExternalBonds(m, residue, atoms).value)
  {
    if atoms != [] {
      AddExternalBondsKeepsInvariant(m, residue, atoms[..|atoms| - 1]);
      AddExternalBondKeepsInvariant(AddExternalBonds(m, residue, atoms[..|atoms| - 1]).value, residue, atoms[|atoms| - 1]);
    }
  }

  lemma OpenResidueKeepsInvariant(m: Model, r: string)
    requires ReaderInvariant(m)
    ensures ReaderInvariant(OpenResidue(m, r))
  {
    var n := OpenResidue(m, r);
    forall r1, i1, r2, i2 |
      r1 in n.residueAtoms && r2 in n.residueAtoms &&
      0 <= i1 < |n.residueAtoms[r1]| && 0 <= i2 < |n.residueAtoms[r2]| && (r1 != r2 || i1 != i2)
      ensures n.residueAtoms[r1][i1].typeId != n.residueAtoms[r2][i2].typeId
    {
      assert r1 != r && r2 != r;
    }
  }

  lemma DataStepKeepsInvariant(elements: map<int, Element>, m: Model, st: LibState, line: string)
    requires ReaderInvariant(m)
    ensures DataStep(elements, m, st, line).Ok? ==> ReaderInvariant(DataStep(elements, m, st, line).value)
  {
    var d := DataStep(elements, m, st, line);
    if d.Ok? {
      match st.section
      case Other =>
      case Atoms =>
        var a := AtomRowOf(elements, line).value;
        assert d == AddAtom(m, st.residue, a.name, a.atomClass, a.element, a.charge, true);
        AddAtomKeepsInvariant(m, st.residue, a.name, a.atomClass, a.element, a.charge);
      case Connect =>
        var k := ParseInt(line).value;
        assert d == AddExternalBond(m, st.residue, k - 1);
        AddExternalBondKeepsInvariant(m, st.residue, k - 1);
      case Connectivity =>
        ConnectivityStep(elements, m, st, line);
        AddBondKeepsInvariant(m, st.residue, IndexPair(line).value.0 - 1, IndexPair(line).value.1 - 1);
      case ResidueConnect =>
        var atoms := ZeroBased(PyFrom(Split(line), 2)).value;
        assert d == AddExternalBonds(m, st.residue, atoms);
        AddExternalBondsKeepsInvariant(m, st.residue, atoms);
    }
  }

  lemma LibStepKeepsInvariant(elements: map<int, Element>, m: Model, st: LibState, line: string)
    requires ReaderInvariant(m)
    ensures LibStep(elements, m, st, line).Ok? ==> ReaderInvariant(LibStep(elements, m, st, line).value.0)
  {
    if LibStep(elements, m, st, line).Ok? {
      if StartsWith(line, "!entry") {
        var fields := SplitOn(line, '.');
        if fields[1] !in SkipResidues { OpenResidueKeepsInvariant(m, fields[1]); }
      } else {
        DataStepKeepsInvariant(elements, m, st, line);
      }
    }
  }

  /**
   * Reading a library keeps every residue atom on its own valid type id, the type
   * names equal to the decimal ids, the torsions well formed and the three residue
   * tables on the same keys.
   */
  lemma {:induction false} LibRunKeepsInvariant(elements: map<int, Element>, m: Model, st: LibState, lines: seq<string>)
    requires ReaderInvariant(m)
    ensures LibRun(elements, m, st, lines).Ok? ==> ReaderInvariant(LibRun(elements, m, st, lines).value.0)
  {
    if lines != [] {
      LibRunKeepsInvariant(elements, m, st, lines[..|lines| - 1]);
      if LibRun(elements, m, st, lines[..|lines| - 1]).Ok? {
        var (n, s) := LibRun(elements, m, st, lines[..|lines| - 1]).value;
        LibStepKeepsInvariant(elements, n, s, lines[|lines| - 1]);
      }
    }
  }

  // ---------------------------------------------------------------- the reader as written

  /**
   * The state of process_library_file as the method is written. `section` and
   * `residue` are locals of the method (the module-level `section = OTHER` is
   * shadowed), so `section` is unbound (None) until an entry line that is not
   * skipped assigns it.
   */
  datatype WrittenState = WrittenState(section: Option<Section>, residue: Option<string>)

  const WrittenStart := WrittenState(None, None)

  /** An entry line as written: a skipped residue clears `residue` and leaves `section` as it was. */
  function WrittenEntry(m: Model, st: WrittenState, line: string): Result<(Model, WrittenState)> {
    match EntryStep(m, LibState(Other, st.residue), line)
    case Err(f) => Err(f)
    case Ok((n, s)) =>
      if SplitOn(line, '.')[1] in SkipResidues then Ok((n, WrittenState(st.section, None)))
      else Ok((n, WrittenState(Some(s.section), s.residue)))
  }

  /**
   * A data line as written. Reading the unbound `section` raises
   * UnboundLocalError; in the atoms, connect and connectivity sections the
   * recording call names a global that does not exist (the methods are
   * addAtom, addBond and addExternalBond of self), which raises NameError once
   * the arguments that come before it in evaluation order have been read.
   */
  function WrittenData(elements: map<int, Element>, st: WrittenState, line: string): Result<()> {
    match st.section
    case None => Err(UnboundLocalError)
    case Some(Other) => Ok(())
    case Some(Atoms) =>
      (match AtomRowOf(elements, line)
       case Err(f) => Err(f)
       case Ok(_) => Err(NameError))
    case Some(Connect) => Err(NameError)
    case Some(Connectivity) => Err(NameError)
    case Some(ResidueConnect) =>
      (match ZeroBased(PyFrom(Split(line), 2))
       case None => Err(ValueError)
       case Some(atoms) => if atoms == [] then Ok(()) else Err(NameError))
  }

  function WrittenStep(elements: map<int, Element>, m: Model, st: WrittenState, line: string)
    : Result<(Model, WrittenState)>
  {
    if StartsWith(line, "!entry") then WrittenEntry(m, st, line)
    else
      match WrittenData(elements, st, line)
      case Err(f) => Err(f)
      case Ok(_) => Ok((m, st))
  }

  function WrittenRun(elements: map<int, Element>, m: Model, st: WrittenState, lines: seq<string>)
    : Result<(Model, WrittenState)>
  {
    if lines == [] then Ok((m, st))
    else
      match WrittenRun(elements, m, st, lines[..|lines| - 1])
      case Err(f) => Err(f)
      case Ok((n, s)) => WrittenStep(elements, n, s, lines[|lines| - 1])
  }

  /**
   * As written, a library whose first line is not an entry line stops at that
   * line with UnboundLocalError.
   */
  lemma WrittenFailsBeforeFirstEntry(elements: map<int, Element>, m: Model, line: string)
    requires !StartsWith(line, "!entry")
    ensures WrittenRun(elements, m, WrittenStart, [line]) == Err(UnboundLocalError)
  {
    assert [line][..0] == [];
  }

  /** With `section` starting at OTHER, a line before the first entry is passed over. */
  lemma LineBeforeFirstEntryPassed(elements: map<int, Element>, m: Model, line: string)
    requires !StartsWith(line, "!entry")
    ensures LibRun(elements, m, LibStart, [line]) == Ok((m, LibStart))
  {
    assert [line][..0] == [];
  }

  /** Amber OFF libraries open with `!!index array str`: as written, no library can be read. */
  lemma IndexHeaderShowsUnboundSection(elements: map<int, Element>, m: Model)
    ensures WrittenRun(elements, m, WrittenStart, ["!!index array str"]) == Err(UnboundLocalError)
    ensures LibRun(elements, m, LibStart, ["!!index array str"]) == Ok((m, LibStart))
  {
    assert !StartsWith("!!index array str", "!entry") by {
      assert "!!index array str"[1] != "!entry"[1];
    }
    WrittenFailsBeforeFirstEntry(elements, m, "!!index array str");
    LineBeforeFirstEntryPassed(elements, m, "!!index array str");
  }

  /** As written, a well-formed atom line of an atoms section raises NameError. */
  lemma WrittenRejectsAtomLine(elements: map<int, Element>, m: Model, r: string, line: string)
    requires !StartsWith(line, "!entry") && AtomRowOf(elements, line).Ok?
    ensures WrittenStep(elements, m, WrittenState(Some(Atoms), Some(r)), line) == Err(NameError)
  { }

  /**
   * Calling self.addAtom, a well-formed atom line of an atoms section records
   * one new type, named by its id, and one new atom of the residue that refers
   * to it.
   */
  lemma AtomLineRecorded(elements: map<int, Element>, m: Model, r: string, line: string)
    requires !StartsWith(line, "!entry") && AtomRowOf(elements, line).Ok? && r in m.residueAtoms
    ensures var a := AtomRowOf(elements, line).value;
      var st := LibState(Atoms, Some(r));
      LibStep(elements, m, st, line).Ok? &&
      var (n, s) := LibStep(elements, m, st, line).value;
      s == st &&
      n.types == m.types + [AtomType(a.atomClass, a.element, a.charge)] &&
      n.typeNames == m.typeNames + [NatToString(|m.types|)] &&
      n.residueAtoms == m.residueAtoms[r := m.residueAtoms[r] + [ResidueAtom(a.name, |m.types|)]]
  {
    var a := AtomRowOf(elements, line).value;
    AddAtomAppends(m, r, a.name, a.atomClass, a.element, a.charge, true);
  }

  /**
   * n holds the types of m, and every residue list of n is empty or the list m
   * holds for that residue: nothing was recorded, at most lists were reset.
   */
  ghost predicate NothingRecorded(m: Model, n: Model) {
    n.types == m.types && n.typeNames == m.typeNames &&
    (forall r :: r in n.residueAtoms ==> n.residueAtoms[r] == [] || (r in m.residueAtoms && n.residueAtoms[r] == m.residueAtoms[r])) &&
    (forall r :: r in n.residueBonds ==> n.residueBonds[r] == [] || (r in m.residueBonds && n.residueBonds[r] == m.residueBonds[r])) &&
    (forall r :: r in n.residueConnections ==>
       n.residueConnections[r] == [] || (r in m.residueConnections && n.residueConnections[r] == m.residueConnections[r]))
  }

  lemma WrittenStepRecordsNothing(elements: map<int, Element>, m: Model, st: WrittenState, line: string)
    ensures WrittenStep(elements, m, st, line).Ok? ==> NothingRecorded(m, WrittenStep(elements, m, st, line).value.0)
  {
    if WrittenStep(elements, m, st, line).Ok? {
      var n := WrittenStep(elements, m, st, line).value.0;
      if StartsWith(line, "!entry") {
        var fields := SplitOn(line, '.');
        assert n == m || n == OpenResidue(m, fields[1]);
      } else {
        assert n == m;
      }
    }
  }

  /**
   * As written, no run that ends without an exception has recorded an atom, a
   * bond or an external bond: every line that would record one raises first.
   */
  lemma {:induction false} WrittenRecordsNothing(elements: map<int, Element>, m: Model, st: WrittenState, lines: seq<string>)
    ensures WrittenRun(elements, m, st, lines).Ok? ==> NothingRecorded(m, WrittenRun(elements, m, st, lines).value.0)
  {
    if lines != [] {
      var init := lines[..|lines| - 1];
      WrittenRecordsNothing(elements, m, st, init);
      if WrittenRun(elements, m, st, init).Ok? {
        var (n, s) := WrittenRun(elements, m, st, init).value;
        WrittenStepRecordsNothing(elements, n, s, lines[|lines| - 1]);
      }
    }
  }
}
