/**
 * The reader for frcmod files, process_frc_file
 * (scripts/processAmberForceField.py:215-248). The first line and every blank
 * line close the current section; the next line names the new section; the
 * lines after it are read in the format the section name's first four letters
 * choose (MASS, BOND, ANGL, DIHE, IMPR, NONB), and sections with any other
 * name are skipped. The formats are those of the parameter file.
 */
module FrcReader {
  import opened Common
  import opened Text
  import opened Records
  import opened Rows
  import opened DatReader

  /**
   * The name of the current section (None right after a section closed, so that
   * the next line is taken as a name), the torsion continuation flag, and
   * whether the first line is still to come.
   */
  datatype FrcState = FrcState(header: Option<string>, continueTorsion: bool, first: bool)

  const FrcStart := FrcState(Some(""), false, true)

  /** What a stripped line means in the current section. */
  datatype FrcLine =
    | Reset               // the first line or a blank line: the section closes
    | Header(name: string) // the name of a new section
    | Ignored             // a line of a section the reader skips
    | Line(entry: Entry)  // a line recorded in the model

  /**
   * The parameter-file block whose line format a section uses: masses 1, bonds 3,
   * angles 4, torsions 5, impropers 6, van der Waals parameters 10; 0 for a
   * section the reader skips.
   */
  function SectionBlock(name: string): (b: nat)
    ensures b == 1 <==> StartsWith(name, "MASS")
    ensures b == 3 <==> StartsWith(name, "BOND")
    ensures b == 4 <==> StartsWith(name, "ANGL")
    ensures b == 5 <==> StartsWith(name, "DIHE")
    ensures b == 6 <==> StartsWith(name, "IMPR")
    ensures b == 10 <==> StartsWith(name, "NONB")
    ensures b in {0, 1, 3, 4, 5, 6, 10}
  {
    if StartsWith(name, "MASS") then 1
    else if StartsWith(name, "BOND") then 3
    else if StartsWith(name, "ANGL") then 4
    else if StartsWith(name, "DIHE") then 5
    else if StartsWith(name, "IMPR") then 6
    else if StartsWith(name, "NONB") then 10
    else 0
  }

  function AsLine(r: Result<Entry>): Result<FrcLine> {
    match r
    case Err(f) => Err(f)
    case Ok(e) => Ok(Line(e))
  }

  /** How a stripped line parses under the current section name. */
  function FrcParse(header: Option<string>, first: bool, line: string): Result<FrcLine> {
    if line == [] || first then Ok(Reset)
    else if header.None? then Ok(Header(line))
    else
      var b := SectionBlock(header.value);
      if b == 0 then Ok(Ignored) else AsLine(DataRow(b, line))
  }

  /** The effect of a parsed line on the model and the reader state. */
  function FrcApply(m: Model, st: FrcState, d: FrcLine): Result<(Model, FrcState)> {
    match d
    case Reset => Ok((m, st.(header := None, first := false)))
    case Header(name) => Ok((m, st.(header := Some(name))))
    case Ignored => Ok((m, st))
    case Line(e) =>
      match Record(m, st.continueTorsion, e)
      case Err(f) => Err(f)
      case Ok((n, flag)) => Ok((n, st.(continueTorsion := flag)))
  }

  /** One stripped line of an frcmod file. */
  function FrcStep(m: Model, st: FrcState, line: string): Result<(Model, FrcState)> {
    match FrcParse(st.header, st.first, line)
    case Err(f) => Err(f)
    case Ok(d) => FrcApply(m, st, d)
  }

  /** The reader over the first |lines| raw lines, each stripped; a failure ends the run. */
  function FrcRun(m: Model, st: FrcState, lines: seq<string>): Result<(Model, FrcState)> {
    if lines == [] then Ok((m, st))
    else
      match FrcRun(m, st, lines[..|lines| - 1])
      case Err(f) => Err(f)
      case Ok((n, s)) => FrcStep(n, s, Strip(lines[|lines| - 1]))
  }

  /** Once a line fails, the whole file fails with the same exception. */
  lemma {:induction false} FrcRunFailureSticks(m: Model, st: FrcState, lines: seq<string>, k: nat)
    requires k <= |lines|
    requires FrcRun(m, st, lines[..k]).Err?
    ensures FrcRun(m, st, lines) == FrcRun(m, st, lines[..k])
    decreases |lines| - k
  {
    if k < |lines| {
      assert lines[..k + 1][..k] == lines[..k];
      FrcRunFailureSticks(m, st, lines, k + 1);
    } else {
      assert lines[..k] == lines;
    }
  }

  // ---------------------------------------------------------------- sections

  /**
   * The first line and every blank line close the section and record nothing;
   * the torsion continuation flag survives into the next section.
   */
  lemma ResetLine(m: Model, st: FrcState, raw: string)
    requires st.first || IsBlank(raw)
    ensures FrcStep(m, st, Strip(raw)) == Ok((m, FrcState(None, st.continueTorsion, false)))
  { }

  /** After a section closed, the next non-blank line is the name of the new section. */
  lemma HeaderLine(m: Model, st: FrcState, raw: string)
    requires !st.first && st.header.None? && !IsBlank(raw)
    ensures FrcStep(m, st, Strip(raw)) == Ok((m, st.(header := Some(Strip(raw)))))
  { }

  /** Inside a section with any other name, a non-blank line changes nothing. */
  lemma SkippedSectionLine(m: Model, st: FrcState, raw: string)
    requires !st.first && st.header.Some? && SectionBlock(st.header.value) == 0 && !IsBlank(raw)
    ensures FrcStep(m, st, Strip(raw)) == Ok((m, st))
  { }

  /**
   * Inside a MASS, BOND, ANGL, DIHE, IMPR or NONB section, a non-blank line
   * parses exactly as the parameter-file reader parses it in the block of the
   * same format: the same failure, or the same entry.
   */
  lemma SectionParsesLikeParameterFile(name: string, line: string)
    requires Split(line) != [] && SectionBlock(name) != 0
    ensures var frc := FrcParse(Some(name), false, line);
      var dat := DatParse(SectionBlock(name), line);
      (frc.Err? <==> dat.Err?) &&
      (frc.Err? ==> frc.failure == dat.failure) &&
      (frc.Ok? ==> frc.value.Line? && dat.value.Data? && frc.value.entry == dat.value.entry)
  {
    var b := SectionBlock(name);
    assert line != [];
    assert FrcParse(Some(name), false, line) == AsLine(DataRow(b, line));
    assert DatParse(b, line) == AsData(DataRow(b, line));
  }

  /** Both readers record an entry alike and keep the rest of their state. */
  lemma EntryRecordedLikeParameterFile(m: Model, st: FrcState, block: nat, e: Entry)
    ensures var frc := FrcApply(m, st, Line(e));
      var dat := DatApply(m, DatState(block, st.continueTorsion), Data(e));
      (frc.Err? <==> dat.Err?) &&
      (frc.Err? ==> frc.failure == dat.failure) &&
      (frc.Ok? ==> frc.value == (dat.value.0, st.(continueTorsion := dat.value.1.continueTorsion)) &&
                   dat.value.1.block == block)
  { }

  /**
   * Inside a MASS, BOND, ANGL, DIHE, IMPR or NONB section, a non-blank line is
   * read exactly as the parameter-file reader reads it in the block of the same
   * format: the same failure, or the same model and continuation flag, and the
   * section stays open.
   */
  lemma SectionReadsLikeParameterFile(m: Model, st: FrcState, raw: string)
    requires !st.first && st.header.Some? && SectionBlock(st.header.value) != 0 && !IsBlank(raw)
    ensures var b := SectionBlock(st.header.value);
      var dat := DatStep(m, DatState(b, st.continueTorsion), Strip(raw));
      var frc := FrcStep(m, st, Strip(raw));
      (frc.Err? <==> dat.Err?) &&
      (frc.Err? ==> frc.failure == dat.failure) &&
      (frc.Ok? ==> frc.value == (dat.value.0, st.(continueTorsion := dat.value.1.continueTorsion)) &&
                   dat.value.1.block == b)
  {
    SplitStrippedEmptyIffBlank(raw);
    var line := Strip(raw);
    var b := SectionBlock(st.header.value);
    SectionParsesLikeParameterFile(st.header.value, line);
    var p := DatParse(b, line);
    if p.Ok? {
      EntryRecordedLikeParameterFile(m, st, b, p.value.entry);
    }
  }

  // ---------------------------------------------------------------- the invariant

  lemma FrcStepKeepsInvariant(m: Model, st: FrcState, line: string)
    requires ParameterInvariant(m, st.continueTorsion)
    ensures FrcStep(m, st, line).Ok? ==>
      var (n, s) := FrcStep(m, st, line).value;
      ParameterInvariant(n, s.continueTorsion) &&
      n.residueAtoms == m.residueAtoms && n.residueBonds == m.residueBonds &&
      n.residueConnections == m.residueConnections && n.types == m.types &&
      n.typeNames == m.typeNames && n.vdwType == m.vdwType
  {
    var p := FrcParse(st.header, st.first, line);
    if p.Ok? && p.value.Line? {
      var b := SectionBlock(st.header.value);
      assert p == AsLine(DataRow(b, line));
      DatParseTorsionWellFormed(b, line);
      assert b != 0 && b != 2 && b != 7 && b != 9 && b < 11;
      RecordKeepsInvariant(m, st.continueTorsion, p.value.entry);
    }
  }

  /**
   * Reading an frcmod file keeps the reader invariant and never touches the
   * residue tables, the type tables or the van der Waals kind.
   */
  lemma {:induction false} FrcRunKeepsInvariant(m: Model, st: FrcState, lines: seq<string>)
    requires ParameterInvariant(m, st.continueTorsion)
    ensures FrcRun(m, st, lines).Ok? ==>
      var (n, s) := FrcRun(m, st, lines).value;
      ParameterInvariant(n, s.continueTorsion) &&
      n.residueAtoms == m.residueAtoms && n.residueBonds == m.residueBonds &&
      n.residueConnections == m.residueConnections && n.types == m.types &&
      n.typeNames == m.typeNames && n.vdwType == m.vdwType
  {
    if lines != [] {
      FrcRunKeepsInvariant(m, st, lines[..|lines| - 1]);
      if FrcRun(m, st, lines[..|lines| - 1]).Ok? {
        var (n, s) := FrcRun(m, st, lines[..|lines| - 1]).value;
        FrcStepKeepsInvariant(n, s, Strip(lines[|lines| - 1]));
      }
    }
  }
}
