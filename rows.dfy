/**
 * The line formats the parameter-file reader and the frcmod reader share
 * (scripts/processAmberForceField.py:156-213 and 226-248 parse them with the
 * same expressions): mass lines, fixed-column bond, angle, torsion and
 * improper lines, and van der Waals lines, plus the torsion continuation
 * rule.
 */
module Rows {
  import opened Common
  import opened Text
  import opened Records

  /** A mass line: the class in the first field and the mass parsed from the second. */
  function MassRow(line: string): Result<(string, real)> {
    var fields := Split(line);
    if |fields| < 2 then Err(IndexError)
    else
      match ParseReal(fields[1])
      case None => Err(ValueError)
      case Some(mass) => Ok((fields[0], mass))
  }

  /** Classes in columns [0:2] and [3:5] of the stripped line, then two tokens from column 5 on. */
  function BondRow(line: string): Result<BondParam> {
    var fields := Split(PyFrom(line, 5));
    if |fields| < 2 then Err(IndexError)
    else Ok(BondParam(Strip(PySlice(line, 0, 2)), Strip(PySlice(line, 3, 5)), fields[0], fields[1]))
  }

  /** Classes in columns [0:2], [3:5] and [6:8], then two tokens from column 8 on. */
  function AngleRow(line: string): Result<AngleParam> {
    var fields := Split(PyFrom(line, 8));
    if |fields| < 2 then Err(IndexError)
    else Ok(AngleParam(Strip(PySlice(line, 0, 2)), Strip(PySlice(line, 3, 5)), Strip(PySlice(line, 6, 8)),
                       fields[0], fields[1]))
  }

  /** A torsion line: its four classes, its term, and whether its periodicity field was negative. */
  datatype TorsionRow = TorsionRow(class1: string, class2: string, class3: string, class4: string,
                                   term: Term, continues: bool)

  /**
   * A torsion line: classes in columns [0:2], [3:5], [6:8] and [9:11]; from
   * column 11 on the path divisor, the barrier, the phase and the periodicity.
   * The term's force constant is the barrier over the divisor and its
   * periodicity the absolute value of the truncated periodicity field; a
   * negative periodicity says the next line continues this torsion.
   */
  function TorsionRowOf(line: string): (r: Result<TorsionRow>)
    ensures r.Ok? ==> r.value.term.periodicity >= 0
    ensures var fields := Split(PyFrom(line, 11));
      (r.Ok? <==> |fields| >= 4 && ParseReal(fields[3]).Some? && ParseReal(fields[1]).Some? &&
                  ParseReal(fields[0]).Some? && ParseReal(fields[0]).value != 0.0) &&
      (r.Ok? ==>
        var p := Truncate(ParseReal(fields[3]).value);
        r.value.term == Term(ParseReal(fields[1]).value / ParseReal(fields[0]).value, fields[2], Abs(p)) &&
        r.value.continues == (p < 0) &&
        r.value.class1 == Strip(PySlice(line, 0, 2)) && r.value.class2 == Strip(PySlice(line, 3, 5)) &&
        r.value.class3 == Strip(PySlice(line, 6, 8)) && r.value.class4 == Strip(PySlice(line, 9, 11))) &&
      (r.Err? ==>
        (r.failure == IndexError <==> |fields| < 4) &&
        (r.failure == ZeroDivisionError <==>
          |fields| >= 4 && ParseReal(fields[3]).Some? && ParseReal(fields[1]).Some? &&
          ParseReal(fields[0]) == Some(0.0)) &&
        r.failure in {IndexError, ValueError, ZeroDivisionError})
  {
    var fields := Split(PyFrom(line, 11));
    if |fields| < 4 then Err(IndexError)
    else
      match ParseReal(fields[3])
      case None => Err(ValueError)
      case Some(p) =>
        var periodicity := Truncate(p);
        match ParseReal(fields[1])
        case None => Err(ValueError)
        case Some(barrier) =>
          match ParseReal(fields[0])
          case None => Err(ValueError)
          case Some(divisor) =>
            if divisor == 0.0 then Err(ZeroDivisionError)
            else Ok(TorsionRow(Strip(PySlice(line, 0, 2)), Strip(PySlice(line, 3, 5)), Strip(PySlice(line, 6, 8)),
                               Strip(PySlice(line, 9, 11)),
                               Term(barrier / divisor, fields[2], Abs(periodicity)), periodicity < 0))
  }

  /** Classes in columns [0:2], [3:5], [6:8] and [9:11], then three tokens from column 11 on. */
  function ImproperRow(line: string): Result<ImproperParam> {
    var fields := Split(PyFrom(line, 11));
    if |fields| < 3 then Err(IndexError)
    else Ok(ImproperParam(Strip(PySlice(line, 0, 2)), Strip(PySlice(line, 3, 5)), Strip(PySlice(line, 6, 8)),
                          Strip(PySlice(line, 9, 11)), fields[0], fields[1], fields[2]))
  }

  /** A van der Waals line: the class in the first field and the next two fields as tokens. */
  function VdwRow(line: string): Result<(string, (string, string))> {
    var fields := Split(line);
    if |fields| < 3 then Err(IndexError)
    else Ok((fields[0], (fields[1], fields[2])))
  }

  /**
   * One torsion line joins the model: with the continuation flag set its term is
   * appended to the last torsion, otherwise it opens a new torsion. The new flag
   * is whether the line's periodicity was negative.
   */
  function AddTorsion(torsions: seq<TorsionParam>, continueTorsion: bool, row: TorsionRow): Result<(seq<TorsionParam>, bool)> {
    if continueTorsion then
      if torsions == [] then Err(IndexError)
      else
        var last := torsions[|torsions| - 1];
        Ok((torsions[..|torsions| - 1] + [last.(terms := last.terms + [row.term])], row.continues))
    else
      Ok((torsions + [TorsionParam(row.class1, row.class2, row.class3, row.class4, [row.term])], row.continues))
  }

  /**
   * The continuation rule: a flagged line adds a term to the last torsion and opens
   * none; an unflagged one opens exactly one torsion with exactly one term; no
   * earlier torsion changes; and torsions keep at least one term each with
   * non-negative periodicities. After either, the flag is set exactly when a
   * torsion exists to continue.
   */
  lemma AddTorsionShape(torsions: seq<TorsionParam>, continueTorsion: bool, row: TorsionRow)
    requires TorsionsWellFormed(torsions)
    requires continueTorsion ==> torsions != []
    requires row.term.periodicity >= 0
    ensures AddTorsion(torsions, continueTorsion, row).Ok?
    ensures var (ts, flag) := AddTorsion(torsions, continueTorsion, row).value;
      TorsionsWellFormed(ts) && ts != [] && flag == row.continues &&
      (continueTorsion ==>
        |ts| == |torsions| && ts[..|ts| - 1] == torsions[..|torsions| - 1] &&
        ts[|ts| - 1].terms == torsions[|torsions| - 1].terms + [row.term] &&
        ts[|ts| - 1].class1 == torsions[|torsions| - 1].class1 &&
        ts[|ts| - 1].class4 == torsions[|torsions| - 1].class4) &&
      (!continueTorsion ==>
        ts == torsions + [TorsionParam(row.class1, row.class2, row.class3, row.class4, [row.term])])
  {
    var (ts, flag) := AddTorsion(torsions, continueTorsion, row).value;
    forall i | 0 <= i < |ts|
      ensures |ts[i].terms| >= 1 && forall j :: 0 <= j < |ts[i].terms| ==> ts[i].terms[j].periodicity >= 0
    {
      if i < |torsions| - 1 || (!continueTorsion && i < |torsions|) {
        assert ts[i] == torsions[i];
      } else if continueTorsion {
        assert ts[i].terms == torsions[i].terms + [row.term];
        forall j | 0 <= j < |ts[i].terms| ensures ts[i].terms[j].periodicity >= 0 {
          if j < |torsions[i].terms| { assert ts[i].terms[j] == torsions[i].terms[j]; }
        }
      }
    }
  }

  // ---------------------------------------------------------------- recording a parsed line

  /** Each class of atoms, in turn, is made equivalent to target. */
  function Equate(eq: map<string, string>, target: string, atoms: seq<string>): (r: map<string, string>)
    ensures forall a :: a in r <==> a in eq || a in atoms
    ensures forall a :: a in atoms ==> r[a] == target
    ensures forall a :: a in eq && a !in atoms ==> r[a] == eq[a]
  {
    if atoms == [] then eq else Equate(eq, target, atoms[..|atoms| - 1])[atoms[|atoms| - 1] := target]
  }

  /** One parsed data line of a parameter or frcmod file. */
  datatype Entry =
    | MassEntry(atomClass: string, mass: real)
    | BondEntry(bond: BondParam)
    | AngleEntry(angle: AngleParam)
    | TorsionEntry(row: TorsionRow)
    | ImproperEntry(improper: ImproperParam)
    | EquivalenceEntry(target: string, classes: seq<string>)
    | VdwEntry(atomClass: string, params: (string, string))

  /**
   * What the two readers do with a parsed line, given the torsion continuation
   * flag; the result carries the new flag, which only a torsion line changes.
   */
  function Record(m: Model, continueTorsion: bool, e: Entry): Result<(Model, bool)> {
    match e
    case MassEntry(c, mass) => Ok((m.(masses := m.masses[c := mass]), continueTorsion))
    case BondEntry(b) => Ok((m.(bonds := m.bonds + [b]), continueTorsion))
    case AngleEntry(a) => Ok((m.(angles := m.angles + [a]), continueTorsion))
    case TorsionEntry(row) =>
      (match AddTorsion(m.torsions, continueTorsion, row)
       case Err(f) => Err(f)
       case Ok((ts, flag)) => Ok((m.(torsions := ts), flag)))
    case ImproperEntry(i) => Ok((m.(impropers := m.impropers + [i]), continueTorsion))
    case EquivalenceEntry(target, classes) =>
      Ok((m.(vdwEquivalents := Equate(m.vdwEquivalents, target, classes)), continueTorsion))
    case VdwEntry(c, pair) => Ok((m.(vdw := m.vdw[c := pair]), continueTorsion))
  }

  /** The reader invariant, and a set continuation flag always has a torsion to continue. */
  ghost predicate ParameterInvariant(m: Model, continueTorsion: bool) {
    ReaderInvariant(m) && (continueTorsion ==> m.torsions != [])
  }

  /**
   * Recording a line keeps the invariant, never fails once it holds, and never
   * touches the residue tables, the type tables or the van der Waals kind.
   */
  lemma RecordKeepsInvariant(m: Model, continueTorsion: bool, e: Entry)
    requires ParameterInvariant(m, continueTorsion)
    requires e.TorsionEntry? ==> e.row.term.periodicity >= 0
    ensures Record(m, continueTorsion, e).Ok?
    ensures var (n, flag) := Record(m, continueTorsion, e).value;
      ParameterInvariant(n, flag) &&
      n.residueAtoms == m.residueAtoms && n.residueBonds == m.residueBonds &&
      n.residueConnections == m.residueConnections && n.types == m.types &&
      n.typeNames == m.typeNames && n.vdwType == m.vdwType
  {
    var (n, flag) := Record(m, continueTorsion, e).value;
    if e.TorsionEntry? {
      AddTorsionShape(m.torsions, continueTorsion, e.row);
    } else {
      assert n.torsions == m.torsions;
    }
    ReaderInvariantFrame(m, n);
  }

  /** Only a torsion line can fail to record, and only by continuing when there is no torsion. */
  lemma RecordFails(m: Model, continueTorsion: bool, e: Entry)
    ensures Record(m, continueTorsion, e).Err? <==> e.TorsionEntry? && continueTorsion && m.torsions == []
    ensures !e.TorsionEntry? ==> Record(m, continueTorsion, e).Ok? && Record(m, continueTorsion, e).value.1 == continueTorsion
  { }
}
