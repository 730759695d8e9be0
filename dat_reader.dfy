/**
 * The reader for Amber parameter files (parm.dat), process_dat_file
 * (scripts/processAmberForceField.py:148-213). Each raw line is stripped and
 * handled by the block it falls in: 0 title, 1 masses, 2 hydrophilic atoms,
 * 3 bonds, 4 angles, 5 torsions, 6 impropers, 7 10-12 hydrogen-bond terms,
 * 8 van der Waals equivalences, 9 van der Waals kind, 10 van der Waals
 * parameters; lines after block 10 are ignored.
 */
module DatReader {
  import opened Common
  import opened Text
  import opened Records
  import opened Rows

  /** The block counter and the torsion continuation flag. */
  datatype DatState = DatState(block: nat, continueTorsion: bool)

  const DatStart := DatState(0, false)

  /** The two van der Waals kinds the converter accepts: radius-epsilon and A-C coefficients. */
  const VdwKinds: set<string> := {"RE", "AC"}

  /** What a stripped line means in its block. */
  datatype DatLine =
    | Advance             // the line ends its block
    | Stay                // the line is read and ignored
    | Kind(kind: string)  // the van der Waals kind line
    | Data(entry: Entry)  // a line recorded in the model

  /** The van der Waals kind line: its second field, which must be RE or AC. */
  function KindRow(line: string): Result<string> {
    var fields := Split(line);
    if |fields| < 2 then Err(IndexError)
    else if fields[1] !in VdwKinds then Err(BadNonbondedType)
    else Ok(fields[1])
  }

  function AsData(r: Result<Entry>): Result<DatLine> {
    match r
    case Err(f) => Err(f)
    case Ok(e) => Ok(Data(e))
  }

  /** A van der Waals equivalence line: the first class, then the classes redirected to it. */
  function EquivalenceRow(line: string): Result<Entry> {
    var fields := Split(line);
    if fields == [] then Err(IndexError) else Ok(EquivalenceEntry(fields[0], fields[1..]))
  }

  /** A data line of blocks 1, 3, 4, 5, 6, 8 and 10. */
  function DataRow(block: nat, line: string): Result<Entry> {
    if block == 1 then
      (match MassRow(line)
       case Err(f) => Err(f)
       case Ok((c, mass)) => Ok(MassEntry(c, mass)))
    else if block == 3 then
      (match BondRow(line)
       case Err(f) => Err(f)
       case Ok(b) => Ok(BondEntry(b)))
    else if block == 4 then
      (match AngleRow(line)
       case Err(f) => Err(f)
       case Ok(a) => Ok(AngleEntry(a)))
    else if block == 5 then
      (match TorsionRowOf(line)
       case Err(f) => Err(f)
       case Ok(t) => Ok(TorsionEntry(t)))
    else if block == 6 then
      (match ImproperRow(line)
       case Err(f) => Err(f)
       case Ok(i) => Ok(ImproperEntry(i)))
    else if block == 8 then EquivalenceRow(line)
    else
      match VdwRow(line)
      case Err(f) => Err(f)
      case Ok((c, pair)) => Ok(VdwEntry(c, pair))
  }

  /** How a stripped line of the given block parses. */
  function DatParse(block: nat, line: string): Result<DatLine> {
    if block == 0 || block == 2 then Ok(Advance)
    else if block == 9 then
      (match KindRow(line)
       case Err(f) => Err(f)
       case Ok(k) => Ok(Kind(k)))
    else if block >= 11 then Ok(Stay)
    else if block == 1 && Split(line) == [] then Ok(Advance)
    else if block != 1 && line == [] then Ok(Advance)
    else if block == 7 then Ok(Stay)
    else AsData(DataRow(block, line))
  }

  /** The effect of a parsed line on the model and the reader state. */
  function DatApply(m: Model, st: DatState, d: DatLine): Result<(Model, DatState)> {
    match d
    case Advance => Ok((m, st.(block := st.block + 1)))
    case Stay => Ok((m, st))
    case Kind(k) => Ok((m.(vdwType := Some(k)), st.(block := st.block + 1)))
    case Data(e) =>
      match Record(m, st.continueTorsion, e)
      case Err(f) => Err(f)
      case Ok((n, flag)) => Ok((n, st.(continueTorsion := flag)))
  }

  /** One stripped line of a parameter file. */
  function DatStep(m: Model, st: DatState, line: string): Result<(Model, DatState)> {
    match DatParse(st.block, line)
    case Err(f) => Err(f)
    case Ok(d) => DatApply(m, st, d)
  }

  /** The reader over the first |lines| raw lines, each stripped; a failure ends the run. */
  function DatRun(m: Model, st: DatState, lines: seq<string>): Result<(Model, DatState)> {
    if lines == [] then Ok((m, st))
    else
      match DatRun(m, st, lines[..|lines| - 1])
      case Err(f) => Err(f)
      case Ok((n, s)) => DatStep(n, s, Strip(lines[|lines| - 1]))
  }

  /** Once a line fails, the whole file fails with the same exception. */
  lemma {:induction false} DatRunFailureSticks(m: Model, st: DatState, lines: seq<string>, k: nat)
    requires k <= |lines|
    requires DatRun(m, st, lines[..k]).Err?
    ensures DatRun(m, st, lines) == DatRun(m, st, lines[..k])
    decreases |lines| - k
  {
    if k < |lines| {
      assert lines[..k + 1][..k] == lines[..k];
      DatRunFailureSticks(m, st, lines, k + 1);
    } else {
      assert lines[..k] == lines;
    }
  }

  // ---------------------------------------------------------------- the block counter

  /** A line never moves the counter back, and moves it forward by at most one. */
  lemma DatApplyBlock(m: Model, st: DatState, d: DatLine)
    ensures DatApply(m, st, d).Ok? ==>
      var s := DatApply(m, st, d).value.1;
      s.block == (if d.Advance? || d.Kind? then st.block + 1 else st.block)
  { }

  /** Only an advancing line, or the kind line, moves the counter. */
  lemma DatStepBlock(m: Model, st: DatState, line: string)
    ensures DatStep(m, st, line).Ok? ==>
      st.block <= DatStep(m, st, line).value.1.block <= st.block + 1
  {
    if DatParse(st.block, line).Ok? {
      DatApplyBlock(m, st, DatParse(st.block, line).value);
    }
  }

  /** The block counter only increases: every prefix of a file ends in a block no later than the whole file. */
  lemma {:induction false} DatRunBlockMonotone(m: Model, st: DatState, lines: seq<string>, k: nat)
    requires k <= |lines| && DatRun(m, st, lines).Ok?
    ensures DatRun(m, st, lines[..k]).Ok?
    ensures st.block <= DatRun(m, st, lines[..k]).value.1.block <= DatRun(m, st, lines).value.1.block
    decreases |lines|
  {
    if lines == [] {
      assert lines[..k] == lines;
    } else {
      var init := lines[..|lines| - 1];
      assert DatRun(m, st, init).Ok?;
      var (n, s) := DatRun(m, st, init).value;
      DatStepBlock(n, s, Strip(lines[|lines| - 1]));
      DatRunBlockMonotone(m, st, init, if k == |lines| then |init| else k);
      if k == |lines| {
        assert lines[..k] == lines;
        assert init[..|init|] == init;
      } else {
        assert init[..k] == lines[..k];
      }
    }
  }

  /** The title, hydrophilic-atom and van der Waals kind blocks each take exactly one line. */
  lemma OneLineBlocks(m: Model, st: DatState, line: string)
    requires st.block in {0, 2, 9}
    ensures DatStep(m, st, line).Ok? ==> DatStep(m, st, line).value.1.block == st.block + 1
    ensures st.block != 9 ==> DatStep(m, st, line) == Ok((m, st.(block := st.block + 1)))
  {
    if DatParse(st.block, line).Ok? {
      DatApplyBlock(m, st, DatParse(st.block, line).value);
    }
  }

  /**
   * Every other block up to 10 ends at the first blank line, which changes
   * nothing else; any other line stays in the block.
   */
  lemma BlankLineEndsBlock(m: Model, st: DatState, raw: string)
    requires st.block in {1, 3, 4, 5, 6, 7, 8, 10}
    ensures IsBlank(raw) ==> DatStep(m, st, Strip(raw)) == Ok((m, st.(block := st.block + 1)))
    ensures !IsBlank(raw) && DatStep(m, st, Strip(raw)).Ok? ==> DatStep(m, st, Strip(raw)).value.1.block == st.block
  {
    SplitStrippedEmptyIffBlank(raw);
    var line := Strip(raw);
    var d := DatParse(st.block, line);
    if IsBlank(raw) {
      assert line == [] && Split(line) == [];
      assert d == Ok(Advance);
    } else {
      assert line != [] && Split(line) != [];
      if st.block == 7 {
        assert d == Ok(Stay);
      } else {
        assert d == AsData(DataRow(st.block, line));
        assert d.Ok? ==> d.value.Data?;
      }
      if d.Ok? {
        DatApplyBlock(m, st, d.value);
      }
    }
  }

  /** After block 10 the rest of the file is read and ignored. */
  lemma {:induction false} IgnoredAfterBlockTen(m: Model, st: DatState, lines: seq<string>)
    requires st.block >= 11
    ensures DatRun(m, st, lines) == Ok((m, st))
  {
    if lines != [] {
      var init := lines[..|lines| - 1];
      var last := Strip(lines[|lines| - 1]);
      IgnoredAfterBlockTen(m, st, init);
      assert DatParse(st.block, last) == Ok(Stay);
      assert DatStep(m, st, last) == Ok((m, st));
      assert DatRun(m, st, lines) == DatStep(m, st, last);
    }
  }

  // ---------------------------------------------------------------- fixed columns

  /**
   * A bond line's classes are the stripped columns [0:2] and [3:5] of the
   * stripped line, and its constants the first two fields after column 5.
   */
  lemma BondColumns(line: string)
    requires line != []
    ensures var fields := Split(PyFrom(line, 5));
      (DatParse(3, line).Ok? <==> |fields| >= 2) &&
      (DatParse(3, line).Ok? ==> (DatParse(3, line).value ==
        Data(BondEntry(BondParam(Strip(PySlice(line, 0, 2)), Strip(PySlice(line, 3, 5)), fields[0], fields[1])))))
  {
    assert DatParse(3, line) == AsData(DataRow(3, line));
    assert BondRow(line).Ok? ==> DataRow(3, line) == Ok(BondEntry(BondRow(line).value));
    assert BondRow(line).Err? ==> DataRow(3, line).Err?;
  }

  /** An angle line's classes are columns [0:2], [3:5] and [6:8]; its constants follow column 8. */
  lemma AngleColumns(line: string)
    requires line != []
    ensures var fields := Split(PyFrom(line, 8));
      (DatParse(4, line).Ok? <==> |fields| >= 2) &&
      (DatParse(4, line).Ok? ==> (DatParse(4, line).value ==
        Data(AngleEntry(AngleParam(Strip(PySlice(line, 0, 2)), Strip(PySlice(line, 3, 5)),
                                   Strip(PySlice(line, 6, 8)), fields[0], fields[1])))))
  {
    assert DatParse(4, line) == AsData(DataRow(4, line));
    assert AngleRow(line).Ok? ==> DataRow(4, line) == Ok(AngleEntry(AngleRow(line).value));
    assert AngleRow(line).Err? ==> DataRow(4, line).Err?;
  }

  /** A torsion line's classes are columns [0:2], [3:5], [6:8] and [9:11]. */
  lemma TorsionColumns(line: string)
    requires line != []
    ensures DatParse(5, line).Ok? <==> TorsionRowOf(line).Ok?
    ensures DatParse(5, line).Ok? ==>
      var row := TorsionRowOf(line).value;
      DatParse(5, line).value == Data(TorsionEntry(row)) &&
      row.class1 == Strip(PySlice(line, 0, 2)) && row.class2 == Strip(PySlice(line, 3, 5)) &&
      row.class3 == Strip(PySlice(line, 6, 8)) && row.class4 == Strip(PySlice(line, 9, 11))
  {
    assert DatParse(5, line) == AsData(DataRow(5, line));
    assert TorsionRowOf(line).Ok? ==> DataRow(5, line) == Ok(TorsionEntry(TorsionRowOf(line).value));
    assert TorsionRowOf(line).Err? ==> DataRow(5, line).Err?;
  }

  /** An improper line's classes are columns [0:2], [3:5], [6:8] and [9:11]; its three tokens follow column 11. */
  lemma ImproperColumns(line: string)
    requires line != []
    ensures var fields := Split(PyFrom(line, 11));
      (DatParse(6, line).Ok? <==> |fields| >= 3) &&
      (DatParse(6, line).Ok? ==> (DatParse(6, line).value ==
        Data(ImproperEntry(ImproperParam(Strip(PySlice(line, 0, 2)), Strip(PySlice(line, 3, 5)),
                                         Strip(PySlice(line, 6, 8)), Strip(PySlice(line, 9, 11)),
                                         fields[0], fields[1], fields[2])))))
  {
    assert DatParse(6, line) == AsData(DataRow(6, line));
    assert ImproperRow(line).Ok? ==> DataRow(6, line) == Ok(ImproperEntry(ImproperRow(line).value));
    assert ImproperRow(line).Err? ==> DataRow(6, line).Err?;
  }

  // ---------------------------------------------------------------- van der Waals

  /** The van der Waals kind line succeeds exactly when its second field is RE or AC, and records it. */
  lemma VdwKindChecked(m: Model, st: DatState, line: string)
    requires st.block == 9
    ensures var fields := Split(line);
      (DatStep(m, st, line).Ok? <==> |fields| >= 2 && fields[1] in VdwKinds) &&
      (|fields| >= 2 && fields[1] !in VdwKinds ==> DatStep(m, st, line) == Err(BadNonbondedType)) &&
      (DatStep(m, st, line).Ok? ==>
        DatStep(m, st, line).value == (m.(vdwType := Some(fields[1])), DatState(10, st.continueTorsion)))
  { }

  /** An equivalence line points every class after the first at the first, and touches no other entry. */
  lemma EquivalenceLineRedirects(m: Model, st: DatState, raw: string)
    requires st.block == 8 && !IsBlank(raw)
    ensures DatStep(m, st, Strip(raw)).Ok?
    ensures var fields := Split(Strip(raw));
      var n := DatStep(m, st, Strip(raw)).value.0;
      fields != [] && n == m.(vdwEquivalents := n.vdwEquivalents) &&
      (forall a :: a in fields[1..] ==> a in n.vdwEquivalents && n.vdwEquivalents[a] == fields[0]) &&
      (forall a :: a !in fields[1..] ==> (a in n.vdwEquivalents <==> a in m.vdwEquivalents)) &&
      (forall a :: a in m.vdwEquivalents && a !in fields[1..] ==> n.vdwEquivalents[a] == m.vdwEquivalents[a])
  {
    SplitStrippedEmptyIffBlank(raw);
    var line := Strip(raw);
    var fields := Split(line);
    assert DatParse(8, line) == AsData(DataRow(8, line));
    assert DataRow(8, line) == EquivalenceRow(line);
    assert DatParse(8, line) == Ok(Data(EquivalenceEntry(fields[0], fields[1..])));
    assert DatStep(m, st, line) == DatApply(m, st, Data(EquivalenceEntry(fields[0], fields[1..])));
  }

  // ---------------------------------------------------------------- torsions and the invariant

  /**
   * A torsion line with the flag set adds its term to the last torsion; without
   * the flag it opens one torsion with its four classes and one term. Either
   * way the new flag is whether the periodicity field was negative.
   */
  lemma TorsionLineContinues(m: Model, st: DatState, line: string)
    requires st.block == 5 && line != [] && ParameterInvariant(m, st.continueTorsion)
    requires TorsionRowOf(line).Ok?
    ensures DatStep(m, st, line).Ok?
    ensures var row := TorsionRowOf(line).value;
      var (n, s) := DatStep(m, st, line).value;
      s == DatState(5, row.continues) && n == m.(torsions := n.torsions) &&
      (st.continueTorsion ==>
        |n.torsions| == |m.torsions| && n.torsions[..|m.torsions| - 1] == m.torsions[..|m.torsions| - 1] &&
        n.torsions[|m.torsions| - 1].terms == m.torsions[|m.torsions| - 1].terms + [row.term]) &&
      (!st.continueTorsion ==>
        n.torsions == m.torsions + [TorsionParam(row.class1, row.class2, row.class3, row.class4, [row.term])])
  {
    var row := TorsionRowOf(line).value;
    TorsionColumns(line);
    TorsionApplied(m, st, row);
  }

  /** Applying a parsed torsion line is adding its term under the current flag. */
  lemma TorsionApplied(m: Model, st: DatState, row: TorsionRow)
    requires ParameterInvariant(m, st.continueTorsion) && row.term.periodicity >= 0
    ensures DatApply(m, st, Data(TorsionEntry(row))).Ok?
    ensures var (n, s) := DatApply(m, st, Data(TorsionEntry(row))).value;
      var (ts, flag) := AddTorsion(m.torsions, st.continueTorsion, row).value;
      n == m.(torsions := ts) && s == st.(continueTorsion := flag)
  {
    AddTorsionShape(m.torsions, st.continueTorsion, row);
  }

  /** A parsed torsion line always carries a non-negative periodicity. */
  lemma DatParseTorsionWellFormed(block: nat, line: string)
    ensures DatParse(block, line).Ok? && DatParse(block, line).value.Data? && DatParse(block, line).value.entry.TorsionEntry? ==>
      DatParse(block, line).value.entry.row.term.periodicity >= 0
  {
    if DatParse(block, line).Ok? && DatParse(block, line).value.Data? {
      assert DatParse(block, line) == AsData(DataRow(block, line));
    }
  }

  lemma DatStepKeepsInvariant(m: Model, st: DatState, line: string)
    requires ParameterInvariant(m, st.continueTorsion)
    ensures DatStep(m, st, line).Ok? ==>
      var (n, s) := DatStep(m, st, line).value;
      ParameterInvariant(n, s.continueTorsion) &&
      n.residueAtoms == m.residueAtoms && n.residueBonds == m.residueBonds &&
      n.residueConnections == m.residueConnections && n.types == m.types && n.typeNames == m.typeNames
  {
    if DatParse(st.block, line).Ok? {
      var d := DatParse(st.block, line).value;
      DatParseTorsionWellFormed(st.block, line);
      if d.Data? {
        RecordKeepsInvariant(m, st.continueTorsion, d.entry);
      } else if d.Kind? {
        ReaderInvariantFrame(m, m.(vdwType := Some(d.kind)));
      }
    }
  }

  /**
   * Reading a parameter file keeps the reader invariant — in particular every
   * torsion keeps at least one term, every stored periodicity is non-negative,
   * and the continuation flag is only set when there is a torsion to extend —
   * and never touches the residue or type tables.
   */
  lemma {:induction false} DatRunKeepsInvariant(m: Model, st: DatState, lines: seq<string>)
    requires ParameterInvariant(m, st.continueTorsion)
    ensures DatRun(m, st, lines).Ok? ==>
      var (n, s) := DatRun(m, st, lines).value;
      ParameterInvariant(n, s.continueTorsion) &&
      n.residueAtoms == m.residueAtoms && n.residueBonds == m.residueBonds &&
      n.residueConnections == m.residueConnections && n.types == m.types && n.typeNames == m.typeNames
  {
    if lines != [] {
      DatRunKeepsInvariant(m, st, lines[..|lines| - 1]);
      if DatRun(m, st, lines[..|lines| - 1]).Ok? {
        var (n, s) := DatRun(m, st, lines[..|lines| - 1]).value;
        DatStepKeepsInvariant(n, s, Strip(lines[|lines| - 1]));
      }
    }
  }
}
