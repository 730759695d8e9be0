/**
 * The AmberParser object (scripts/processAmberForceField.py:34-401): its
 * dictionaries and lists as fields that its methods update in place. Every
 * method is proved against the function that specifies it in the other
 * modules: on success the object holds exactly what that function computes
 * from the object before the call, and on failure the method reports the same
 * exception. What the object holds after a failure is left open, as the
 * source leaves it half-updated.
 */
module Amber {
  import opened Common
  import opened Text
  import opened Records
  import opened Rows
  import opened LibraryReader
  import opened DatReader
  import opened FrcReader
  import Reducer
  import opened Emitter
  import Writer

  // ---------------------------------------------------------------- reduce_atomtypes, then print_xml

  /**
   * reduce_atomtypes shortens the type list but leaves type_names as it was.
   * With the names addAtom gives by default, the output still holds together:
   * every type line has a name, and every atom is written under the name of
   * the type line of its new type; the names past the new end go unused, and
   * the names stay numeric, so NonbondedWrittenIff applies to the result.
   */
  lemma ReducedNamesStillMatch(m: Model)
    requires Reducer.Reducible(m) && NumericNames(m)
    ensures Reducer.Reduce(m).Ok?
    ensures var n := Reducer.Reduce(m).value;
      n.typeNames == m.typeNames && NumericNamesCover(n) && TypeLines(n.types, n.typeNames).Ok? &&
      forall r, x :: r in n.residueAtoms && 0 <= x < |n.residueAtoms[r]| ==>
        0 <= n.residueAtoms[r][x].typeId < |n.types| &&
        AtomLineOf(n.typeNames, n.residueAtoms[r][x]).Ok? &&
        AtomLineOf(n.typeNames, n.residueAtoms[r][x]).value.typeName ==
          TypeLines(n.types, n.typeNames).value[n.residueAtoms[r][x].typeId].name
  {
    Reducer.ReduceCharacterised(m);
  }

  /**
   * The nonbonded section print_xml writes after reduce_atomtypes: a surviving
   * type i has a line exactly when its charge or its well depth is nonzero, and
   * that line carries its name, charge, sigma and epsilon.
   */
  lemma ReducedNonbondedWritten(m: Model, num: Numerics, i: nat)
    requires Reducer.Reducible(m) && NumericNames(m)
    requires Reducer.Reduce(m).Ok? && i < |Reducer.Reduce(m).value.types|
    requires NonbondedLines(Reducer.Reduce(m).value, num, |Reducer.Reduce(m).value.types|).Ok?
    ensures var n := Reducer.Reduce(m).value;
      LennardJones(n, num, n.types[i].atomClass).Ok? &&
      var (sigma, epsilon) := LennardJones(n, num, n.types[i].atomClass).value;
      var q := n.types[i].charge;
      var lines := NonbondedLines(n, num, |n.types|).value;
      ((exists j :: 0 <= j < |lines| && lines[j].typeName == NatToString(i)) <==> q != 0.0 || epsilon != 0.0) &&
      (q != 0.0 || epsilon != 0.0 ==> NonbondedLine(NatToString(i), q, sigma, epsilon) in lines)
  {
    ReducedNamesStillMatch(m);
    NonbondedWrittenIff(Reducer.Reduce(m).value, num, i);
  }

  // ---------------------------------------------------------------- pieces of reduce_atomtypes

  /** The positions of removeType that are set. */
  ghost function Marked(flags: seq<bool>): set<int> {
    set t | 0 <= t < |flags| && flags[t]
  }

  lemma MarkedSet(flags: seq<bool>, t: nat)
    requires t < |flags|
    ensures Marked(flags[t := true]) == Marked(flags) + {t}
  {
    assert flags[t := true][t];
  }

  /** The neighbour list of every atom, built bond by bond; a bond naming no atom raises IndexError. */
  method NeighbourLists(n: nat, bonds: seq<(int, int)>) returns (r: Result<seq<seq<int>>>)
    ensures r == Reducer.AtomBonds(n, bonds)
  {
    var lists: seq<seq<int>> := seq(n, _ => []);
    var i := 0;
    while i < |bonds|
      invariant 0 <= i <= |bonds|
      invariant Reducer.BondsIndexable(n, bonds[..i])
      invariant |lists| == n && forall j :: 0 <= j < n ==> lists[j] == Reducer.NeighboursOf(n, bonds[..i], j)
    {
      var (a, b) := bonds[i];
      assert bonds[..i + 1][..i] == bonds[..i];
      var ia := PyIndex(a, n);
      if ia.None? {
        return Err(IndexError);
      }
      lists := lists[ia.value := lists[ia.value] + [b]];
      var ib := PyIndex(b, n);
      if ib.None? {
        return Err(IndexError);
      }
      lists := lists[ib.value := lists[ib.value] + [a]];
      i := i + 1;
    }
    assert bonds[..i] == bonds;
    assert lists == seq(n, j requires 0 <= j < n => Reducer.NeighboursOf(n, bonds, j));
    return Ok(lists);
  }

  /** The `hydrogens` comprehension over the neighbours xs of one atom. */
  method HydrogensAmong(types: seq<AtomType>, atoms: seq<ResidueAtom>, xs: seq<int>) returns (r: Result<seq<int>>)
    ensures r == Reducer.HydrogensOf(types, atoms, xs)
  {
    var hydrogens: seq<int> := [];
    var i := 0;
    while i < |xs|
      invariant 0 <= i <= |xs|
      invariant forall i' :: 0 <= i' < i ==> Reducer.Typed(types, atoms, xs[i'])
      invariant hydrogens == Reducer.HydrogenFilter(types, atoms, xs[..i])
    {
      assert xs[..i + 1][..i] == xs[..i];
      var atom := PyGet(atoms, xs[i]);
      if atom.None? {
        return Err(IndexError);
      }
      var t := PyGet(types, atom.value.typeId);
      if t.None? {
        return Err(IndexError);
      }
      if IsHydrogen(t.value.element) {
        hydrogens := hydrogens + [xs[i]];
      }
      i := i + 1;
    }
    assert xs[..i] == xs;
    return Ok(hydrogens);
  }

  /** Every hydrogen after the leader: its type is marked for removal and it takes the leader's type. */
  method RedirectHydrogens(removeType: array<bool>, atoms: seq<ResidueAtom>, leader: int, hs: seq<int>)
    returns (r: Result<seq<ResidueAtom>>)
    modifies removeType
    ensures var e := Reducer.Redirect(removeType.Length, atoms, Marked(old(removeType[..])), leader, hs);
      (e.Ok? ==> r == Ok(e.value.0) && Marked(removeType[..]) == e.value.1) &&
      (e.Err? ==> r == Err(e.failure))
  {
    var n := removeType.Length;
    ghost var marks0 := Marked(removeType[..]);
    var a := atoms;
    var i := 0;
    while i < |hs|
      invariant 0 <= i <= |hs|
      invariant Reducer.Redirect(n, atoms, marks0, leader, hs[..i]) == Ok((a, Marked(removeType[..])))
    {
      assert hs[..i + 1][..i] == hs[..i];
      var k := PyIndex(hs[i], |a|);
      if k.None? {
        Reducer.RedirectFailureSticks(n, atoms, marks0, leader, hs, i + 1);
        return Err(IndexError);
      }
      var t := PyIndex(a[k.value].typeId, n);
      if t.None? {
        Reducer.RedirectFailureSticks(n, atoms, marks0, leader, hs, i + 1);
        return Err(IndexError);
      }
      MarkedSet(removeType[..], t.value);
      removeType[t.value] := true;
      var l := PyIndex(leader, |a|);
      if l.None? {
        Reducer.RedirectFailureSticks(n, atoms, marks0, leader, hs, i + 1);
        return Err(IndexError);
      }
      a := a[k.value := a[k.value].(typeId := a[l.value].typeId)];
      i := i + 1;
    }
    assert hs[..i] == hs;
    return Ok(a);
  }

  /** The atom loop of one residue, given its neighbour lists. */
  method MergeAtoms(removeType: array<bool>, types: seq<AtomType>, atoms: seq<ResidueAtom>, lists: seq<seq<int>>)
    returns (r: Result<seq<ResidueAtom>>)
    requires removeType.Length == |types| && |lists| == |atoms|
    modifies removeType
    ensures var e := Reducer.AtomPass(types, atoms, lists, |atoms|);
      (e.Ok? ==> r == Ok(e.value.0) && Marked(removeType[..]) == Marked(old(removeType[..])) + e.value.1) &&
      (e.Err? ==> r == Err(e.failure))
  {
    ghost var marks0 := Marked(removeType[..]);
    var a := atoms;
    ghost var mk: set<int> := {};
    var index := 0;
    while index < |atoms|
      invariant 0 <= index <= |atoms|
      invariant Reducer.AtomPass(types, atoms, lists, index) == Ok((a, mk))
      invariant Marked(removeType[..]) == marks0 + mk
    {
      var hydrogens := HydrogensAmong(types, a, lists[index]);
      if hydrogens.Err? {
        Reducer.AtomPassFailureSticks(types, atoms, lists, index + 1, |atoms|);
        return Err(hydrogens.failure);
      }
      var hs := hydrogens.value;
      if hs != [] {
        Reducer.RedirectFromMore(|types|, a, marks0, mk, hs[0], hs[1..]);
        var redirected := RedirectHydrogens(removeType, a, hs[0], hs[1..]);
        if redirected.Err? {
          Reducer.AtomPassFailureSticks(types, atoms, lists, index + 1, |atoms|);
          return redirected;
        }
        mk := Reducer.Redirect(|types|, a, mk, hs[0], hs[1..]).value.1;
        a := redirected.value;
      }
      index := index + 1;
    }
    return Ok(a);
  }

  /** Each atom of one residue takes the replacement of its type id. */
  method RenumberAtoms(replaceWithType: seq<int>, atoms: seq<ResidueAtom>) returns (r: Result<seq<ResidueAtom>>)
    ensures r == Reducer.Renumber(replaceWithType, atoms)
    ensures r.Err? ==> r.failure == IndexError
  {
    var renumbered: seq<ResidueAtom> := [];
    var i := 0;
    while i < |atoms|
      invariant 0 <= i <= |atoms|
      invariant Reducer.Renumber(replaceWithType, atoms[..i]) == Ok(renumbered)
    {
      assert atoms[..i + 1][..i] == atoms[..i];
      var k := PyIndex(atoms[i].typeId, |replaceWithType|);
      if k.None? {
        Reducer.RenumberFailureSticks(replaceWithType, atoms, i + 1);
        return Err(IndexError);
      }
      renumbered := renumbered + [atoms[i].(typeId := replaceWithType[k.value])];
      i := i + 1;
    }
    assert atoms[..i] == atoms;
    return Ok(renumbered);
  }

  class AmberParser {
    var residueAtoms: map<string, seq<ResidueAtom>>
    var residueBonds: map<string, seq<(int, int)>>
    var residueConnections: map<string, seq<int>>
    var types: seq<AtomType>
    var typeNames: seq<string>
    var masses: map<string, real>
    var vdwEquivalents: map<string, string>
    var vdw: map<string, (string, string)>
    var vdwType: Option<string>
    var bonds: seq<BondParam>
    var angles: seq<AngleParam>
    var torsions: seq<TorsionParam>
    var impropers: seq<ImproperParam>

    /** The object's fields as one model value. */
    function Snapshot(): Model
      reads this
    {
      Model(residueAtoms, residueBonds, residueConnections, types, typeNames, masses, vdwEquivalents,
            vdw, vdwType, bonds, angles, torsions, impropers)
    }

    /** Every field but residueAtoms holds what the model m does. */
    predicate OnlyResiduesDiffer(m: Model)
      reads this
    {
      residueBonds == m.residueBonds && residueConnections == m.residueConnections && types == m.types &&
      typeNames == m.typeNames && masses == m.masses && vdwEquivalents == m.vdwEquivalents && vdw == m.vdw &&
      vdwType == m.vdwType && bonds == m.bonds && angles == m.angles && torsions == m.torsions &&
      impropers == m.impropers
    }

    /** A new parser holds nothing, and the van der Waals kind is not yet read. */
    constructor()
      ensures Snapshot() == EmptyModel
      ensures ReaderInvariant(Snapshot())
    {
      residueAtoms, residueBonds, residueConnections := map[], map[], map[];
      types, typeNames := [], [];
      masses, vdwEquivalents, vdw := map[], map[], map[];
      vdwType := None;
      bonds, angles, torsions, impropers := [], [], [], [];
      EmptyModelInvariant();
    }

    // ------------------------------------------------------------ mutators

    /** addAtom; a missing residue raises KeyError before anything changes. */
    method AddAtom(residue: Option<string>, atomName: string, atomClass: string, element: Element,
                   charge: real, numericNames: bool) returns (outcome: Outcome)
      modifies this
      ensures var r := Records.AddAtom(old(Snapshot()), residue, atomName, atomClass, element, charge, numericNames);
        (r.Ok? ==> outcome == Pass && Snapshot() == r.value) &&
        (r.Err? ==> outcome == Fail(r.failure) && Snapshot() == old(Snapshot()))
    {
      if residue.None? {
        return Pass;
      }
      var res := residue.value;
      if res !in residueAtoms {
        return Fail(KeyError);
      }
      var typeId := |types|;
      residueAtoms := residueAtoms[res := residueAtoms[res] + [ResidueAtom(atomName, typeId)]];
      types := types + [AtomType(atomClass, element, charge)];
      typeNames := typeNames + [TypeName(res, atomName, typeId, numericNames)];
      return Pass;
    }

    /** addBond; a missing residue raises KeyError before anything changes. */
    method AddBond(residue: Option<string>, atom1: int, atom2: int) returns (outcome: Outcome)
      modifies this
      ensures var r := Records.AddBond(old(Snapshot()), residue, atom1, atom2);
        (r.Ok? ==> outcome == Pass && Snapshot() == r.value) &&
        (r.Err? ==> outcome == Fail(r.failure) && Snapshot() == old(Snapshot()))
    {
      if residue.None? {
        return Pass;
      }
      var res := residue.value;
      if res !in residueBonds {
        return Fail(KeyError);
      }
      residueBonds := residueBonds[res := residueBonds[res] + [(atom1, atom2)]];
      return Pass;
    }

    /** addExternalBond; a missing residue raises KeyError before anything changes. */
    method AddExternalBond(residue: Option<string>, atom: int) returns (outcome: Outcome)
      modifies this
      ensures var r := Records.AddExternalBond(old(Snapshot()), residue, atom);
        (r.Ok? ==> outcome == Pass && Snapshot() == r.value) &&
        (r.Err? ==> outcome == Fail(r.failure) && Snapshot() == old(Snapshot()))
    {
      if residue.None? {
        return Pass;
      }
      var res := residue.value;
      if atom != -1 {
        if res !in residueConnections {
          return Fail(KeyError);
        }
        residueConnections := residueConnections[res := residueConnections[res] + [atom]];
      }
      return Pass;
    }

    // ------------------------------------------------------------ the library reader

    /** An `!entry` line: it picks the residue and the section, and an atoms section opens the residue. */
    method EntryLine(st: LibState, line: string) returns (outcome: Outcome, st': LibState)
      modifies this
      ensures var r := EntryStep(old(Snapshot()), st, line);
        (r.Ok? ==> outcome == Pass && (Snapshot(), st') == r.value) &&
        (r.Err? ==> outcome == Fail(r.failure))
    {
      st' := st;
      var fields := SplitOn(line, '.');
      if |fields| < 2 {
        return Fail(IndexError), st';
      }
      var residue := fields[1];
      if residue in SkipResidues {
        return Pass, st.(residue := None);
      }
      if |fields| < 4 {
        return Fail(IndexError), st';
      }
      var words := Split(fields[3]);
      if words == [] {
        return Fail(IndexError), st';
      }
      var section := SectionOf(words[0]);
      if section == Atoms {
        residueAtoms := residueAtoms[residue := []];
        residueBonds := residueBonds[residue := []];
        residueConnections := residueConnections[residue := []];
      }
      return Pass, LibState(section, Some(residue));
    }

    /** The indices of a residueconnect row, one addExternalBond after another. */
    method AddExternalBondRow(residue: Option<string>, atoms: seq<int>) returns (outcome: Outcome)
      modifies this
      ensures var r := AddExternalBonds(old(Snapshot()), residue, atoms);
        (r.Ok? ==> outcome == Pass && Snapshot() == r.value) &&
        (r.Err? ==> outcome == Fail(r.failure))
    {
      var m0 := Snapshot();
      var j := 0;
      while j < |atoms|
        invariant 0 <= j <= |atoms|
        invariant AddExternalBonds(m0, residue, atoms[..j]) == Ok(Snapshot())
      {
        assert atoms[..j + 1][..j] == atoms[..j];
        outcome := AddExternalBond(residue, atoms[j]);
        if outcome.Fail? {
          AddExternalBondsFailureSticks(m0, residue, atoms, j + 1);
          return;
        }
        j := j + 1;
      }
      assert atoms[..j] == atoms;
      return Pass;
    }

    /** A data line of the current section. */
    method DataLine(elements: map<int, Element>, st: LibState, line: string) returns (outcome: Outcome)
      modifies this
      ensures var r := DataStep(elements, old(Snapshot()), st, line);
        (r.Ok? ==> outcome == Pass && Snapshot() == r.value) &&
        (r.Err? ==> outcome == Fail(r.failure))
    {
      match st.section
      case Other =>
        outcome := Pass;
      case Atoms =>
        var row := AtomRowOf(elements, line);
        if row.Err? {
          return Fail(row.failure);
        }
        outcome := AddAtom(st.residue, row.value.name, row.value.atomClass, row.value.element, row.value.charge, true);
      case Connect =>
        var k := ParseInt(line);
        if k.None? {
          return Fail(ValueError);
        }
        outcome := AddExternalBond(st.residue, k.value - 1);
      case Connectivity =>
        var pair := IndexPair(line);
        if pair.Err? {
          return Fail(pair.failure);
        }
        outcome := AddBond(st.residue, pair.value.0 - 1, pair.value.1 - 1);
      case ResidueConnect =>
        var atoms := ZeroBased(PyFrom(Split(line), 2));
        if atoms.None? {
          return Fail(ValueError);
        }
        outcome := AddExternalBondRow(st.residue, atoms.value);
    }

    /** One line of a library file. */
    method LibraryLine(elements: map<int, Element>, st: LibState, line: string) returns (outcome: Outcome, st': LibState)
      modifies this
      ensures var r := LibStep(elements, old(Snapshot()), st, line);
        (r.Ok? ==> outcome == Pass && (Snapshot(), st') == r.value) &&
        (r.Err? ==> outcome == Fail(r.failure))
    {
      if StartsWith(line, "!entry") {
        outcome, st' := EntryLine(st, line);
      } else {
        outcome := DataLine(elements, st, line);
        st' := st;
      }
    }

    /**
     * process_library_file over the lines of a file, with the section and the
     * residue starting as OTHER and None.
     */
    method ProcessLibraryFile(elements: map<int, Element>, lines: seq<string>) returns (outcome: Outcome)
      modifies this
      ensures var r := LibRun(elements, old(Snapshot()), LibStart, lines);
        (r.Ok? ==> outcome == Pass && Snapshot() == r.value.0) &&
        (r.Err? ==> outcome == Fail(r.failure))
    {
      var m0 := Snapshot();
      var st := LibStart;
      var i := 0;
      while i < |lines|
        invariant 0 <= i <= |lines|
        invariant LibRun(elements, m0, LibStart, lines[..i]) == Ok((Snapshot(), st))
      {
        LibRunStep(elements, m0, LibStart, lines, i);
        outcome, st := LibraryLine(elements, st, lines[i]);
        if outcome.Fail? {
          LibRunFailureSticks(elements, m0, LibStart, lines, i + 1);
          return;
        }
        i := i + 1;
      }
      assert lines[..i] == lines;
      return Pass;
    }

    // ------------------------------------------------------------ the parameter readers

    /** What both parameter readers do with a parsed data line; flag is the new continuation flag. */
    method RecordEntry(continueTorsion: bool, e: Entry) returns (outcome: Outcome, flag: bool)
      modifies this
      ensures var r := Record(old(Snapshot()), continueTorsion, e);
        (r.Ok? ==> outcome == Pass && (Snapshot(), flag) == r.value) &&
        (r.Err? ==> outcome == Fail(r.failure))
    {
      outcome, flag := Pass, continueTorsion;
      match e
      case MassEntry(c, mass) =>
        masses := masses[c := mass];
      case BondEntry(b) =>
        bonds := bonds + [b];
      case AngleEntry(a) =>
        angles := angles + [a];
      case TorsionEntry(row) =>
        if continueTorsion {
          if torsions == [] {
            return Fail(IndexError), flag;
          }
          var last := torsions[|torsions| - 1];
          torsions := torsions[..|torsions| - 1] + [last.(terms := last.terms + [row.term])];
        } else {
          torsions := torsions + [TorsionParam(row.class1, row.class2, row.class3, row.class4, [row.term])];
        }
        flag := row.continues;
      case ImproperEntry(i) =>
        impropers := impropers + [i];
      case EquivalenceEntry(target, classes) =>
        var m0 := Snapshot();
        var j := 0;
        while j < |classes|
          invariant 0 <= j <= |classes|
          invariant Snapshot() == m0.(vdwEquivalents := Equate(m0.vdwEquivalents, target, classes[..j]))
        {
          assert classes[..j + 1][..j] == classes[..j];
          vdwEquivalents := vdwEquivalents[classes[j] := target];
          j := j + 1;
        }
        assert classes[..j] == classes;
      case VdwEntry(c, pair) =>
        vdw := vdw[c := pair];
    }

    /** One raw line of a parameter file, stripped first. */
    method DatLine(st: DatState, raw: string) returns (outcome: Outcome, st': DatState)
      modifies this
      ensures var r := DatStep(old(Snapshot()), st, Strip(raw));
        (r.Ok? ==> outcome == Pass && (Snapshot(), st') == r.value) &&
        (r.Err? ==> outcome == Fail(r.failure))
    {
      st' := st;
      var parsed := DatParse(st.block, Strip(raw));
      if parsed.Err? {
        return Fail(parsed.failure), st';
      }
      match parsed.value
      case Advance =>
        outcome, st' := Pass, st.(block := st.block + 1);
      case Stay =>
        outcome := Pass;
      case Kind(k) =>
        vdwType := Some(k);
        outcome, st' := Pass, st.(block := st.block + 1);
      case Data(e) =>
        var flag;
        outcome, flag := RecordEntry(st.continueTorsion, e);
        st' := st.(continueTorsion := flag);
    }

    /** process_dat_file over the lines of a file, from block 0 with no torsion to continue. */
    method ProcessDatFile(lines: seq<string>) returns (outcome: Outcome)
      modifies this
      ensures var r := DatRun(old(Snapshot()), DatStart, lines);
        (r.Ok? ==> outcome == Pass && Snapshot() == r.value.0) &&
        (r.Err? ==> outcome == Fail(r.failure))
    {
      var m0 := Snapshot();
      var st := DatStart;
      var i := 0;
      while i < |lines|
        invariant 0 <= i <= |lines|
        invariant DatRun(m0, DatStart, lines[..i]) == Ok((Snapshot(), st))
      {
        assert lines[..i + 1][..i] == lines[..i];
        outcome, st := DatLine(st, lines[i]);
        if outcome.Fail? {
          DatRunFailureSticks(m0, DatStart, lines, i + 1);
          return;
        }
        i := i + 1;
      }
      assert lines[..i] == lines;
      return Pass;
    }

    /** One raw line of an frcmod file, stripped first. */
    method FrcLine(st: FrcState, raw: string) returns (outcome: Outcome, st': FrcState)
      modifies this
      ensures var r := FrcStep(old(Snapshot()), st, Strip(raw));
        (r.Ok? ==> outcome == Pass && (Snapshot(), st') == r.value) &&
        (r.Err? ==> outcome == Fail(r.failure))
    {
      st' := st;
      var parsed := FrcParse(st.header, st.first, Strip(raw));
      if parsed.Err? {
        return Fail(parsed.failure), st';
      }
      match parsed.value
      case Reset =>
        outcome, st' := Pass, st.(header := None, first := false);
      case Header(name) =>
        outcome, st' := Pass, st.(header := Some(name));
      case Ignored =>
        outcome := Pass;
      case Line(e) =>
        var flag;
        outcome, flag := RecordEntry(st.continueTorsion, e);
        st' := st.(continueTorsion := flag);
    }

    /** process_frc_file over the lines of a file. */
    method ProcessFrcFile(lines: seq<string>) returns (outcome: Outcome)
      modifies this
      ensures var r := FrcRun(old(Snapshot()), FrcStart, lines);
        (r.Ok? ==> outcome == Pass && Snapshot() == r.value.0) &&
        (r.Err? ==> outcome == Fail(r.failure))
    {
      var m0 := Snapshot();
      var st := FrcStart;
      var i := 0;
      while i < |lines|
        invariant 0 <= i <= |lines|
        invariant FrcRun(m0, FrcStart, lines[..i]) == Ok((Snapshot(), st))
      {
        assert lines[..i + 1][..i] == lines[..i];
        outcome, st := FrcLine(st, lines[i]);
        if outcome.Fail? {
          FrcRunFailureSticks(m0, FrcStart, lines, i + 1);
          return;
        }
        i := i + 1;
      }
      assert lines[..i] == lines;
      return Pass;
    }

    // ------------------------------------------------------------ reduce_atomtypes

    /** One residue of the first pass; a residue without a bond list is skipped. */
    method MergeResidue(removeType: array<bool>, res: string) returns (outcome: Outcome)
      requires removeType.Length == |types| && res in residueAtoms
      modifies this, removeType
      ensures var e := Reducer.MergeOf(old(Snapshot()), res);
        (e.Ok? ==> outcome == Pass && Snapshot() == old(Snapshot()).(residueAtoms := old(residueAtoms)[res := e.value.0]) &&
                   Marked(removeType[..]) == Marked(old(removeType[..])) + e.value.1) &&
        (e.Err? ==> outcome == Fail(IndexError))
    {
      if res !in residueBonds {
        assert residueAtoms[res := residueAtoms[res]] == residueAtoms;
        return Pass;
      }
      var lists := NeighbourLists(|residueAtoms[res]|, residueBonds[res]);
      if lists.Err? {
        return Fail(IndexError);
      }
      var merged := MergeAtoms(removeType, types, residueAtoms[res], lists.value);
      if merged.Err? {
        return Fail(IndexError);
      }
      residueAtoms := residueAtoms[res := merged.value];
      return Pass;
    }

    /**
     * The first pass: in every residue with a bond list, hydrogens bound to one
     * atom take the type of the first of them, and their own types are marked.
     */
    method MergeResidues(removeType: array<bool>) returns (outcome: Outcome)
      requires removeType.Length == |types|
      modifies this, removeType
      ensures Reducer.MergesSucceed(old(Snapshot())) ==>
        outcome == Pass && Snapshot() == old(Snapshot()).(residueAtoms := Reducer.Merged(old(Snapshot()))) &&
        Marked(removeType[..]) == Marked(old(removeType[..])) + Reducer.Removed(old(Snapshot()))
      ensures !Reducer.MergesSucceed(old(Snapshot())) ==> outcome == Fail(IndexError)
    {
      var m0 := Snapshot();
      ghost var marks0 := Marked(removeType[..]);
      ghost var done: set<string> := {};
      var todo := residueAtoms.Keys;
      while todo != {}
        invariant removeType.Length == |types|
        invariant OnlyResiduesDiffer(m0)
        invariant MergedSoFar(m0, residueAtoms, done, todo)
        invariant Marked(removeType[..]) == marks0 + Reducer.MarksOver(m0, done)
        decreases todo
      {
        var res :| res in todo;
        ghost var before := residueAtoms;
        Reducer.MergeOfFrame(m0, Snapshot(), res);
        outcome := MergeResidue(removeType, res);
        if outcome.Fail? {
          return;
        }
        var merged := Reducer.MergeOf(m0, res).value;
        MergedStep(m0, before, done, todo, res, merged.0);
        Reducer.MarksOverAdd(m0, marks0, done, res);
        done := done + {res};
        todo := todo - {res};
      }
      MergedAll(m0, residueAtoms, done);
      return Pass;
    }

    /** One residue of the third pass. */
    method RenumberResidue(replaceWithType: seq<int>, res: string) returns (outcome: Outcome)
      requires res in residueAtoms
      modifies this
      ensures var e := Reducer.Renumber(replaceWithType, old(residueAtoms[res]));
        (e.Ok? ==> outcome == Pass && residueAtoms == old(residueAtoms)[res := e.value]) &&
        (e.Err? ==> outcome == Fail(IndexError))
      ensures OnlyResiduesDiffer(old(Snapshot()))
    {
      var renumbered := RenumberAtoms(replaceWithType, residueAtoms[res]);
      if renumbered.Err? {
        return Fail(renumbered.failure);
      }
      residueAtoms := residueAtoms[res := renumbered.value];
      return Pass;
    }

    /**
     * The third pass: every type id of every residue is replaced by its entry
     * in replaceWithType, which the pass only reads.
     */
    method RenumberResidues(replaceWithType: seq<int>) returns (outcome: Outcome)
      modifies this
      ensures var e := Reducer.RenumberEach(replaceWithType, old(residueAtoms));
        (e.Ok? ==> outcome == Pass && Snapshot() == old(Snapshot()).(residueAtoms := e.value)) &&
        (e.Err? ==> outcome == Fail(e.failure))
    {
      var m0 := Snapshot();
      ghost var done: set<string> := {};
      var todo := residueAtoms.Keys;
      while todo != {}
        invariant OnlyResiduesDiffer(m0)
        invariant RenumberedSoFar(replaceWithType, m0.residueAtoms, residueAtoms, done, todo)
        decreases todo
      {
        var res :| res in todo;
        ghost var before := residueAtoms;
        outcome := RenumberResidue(replaceWithType, res);
        if outcome.Fail? {
          RenumberedFails(replaceWithType, m0.residueAtoms, before, done, todo, res);
          return;
        }
        RenumberedStep(replaceWithType, m0.residueAtoms, before, done, todo, res, residueAtoms[res]);
        done := done + {res};
        todo := todo - {res};
      }
      RenumberedAll(replaceWithType, m0.residueAtoms, residueAtoms, done);
      return Pass;
    }

    /**
     * reduce_atomtypes: the three passes, with removeType and replaceWithType as
     * arrays of one entry per type.
     */
    method ReduceAtomTypes() returns (outcome: Outcome)
      modifies this
      ensures var r := Reducer.Reduce(old(Snapshot()));
        (r.Ok? ==> outcome == Pass && Snapshot() == r.value) &&
        (r.Err? ==> outcome == Fail(r.failure))
    {
      var m0 := Snapshot();
      var removeType := new bool[|types|](_ => false);
      assert Marked(removeType[..]) == {};
      outcome := MergeResidues(removeType);
      if outcome.Fail? {
        return;
      }
      ghost var removed := Reducer.Removed(m0);
      ghost var merged := Reducer.Merged(m0);
      assert Snapshot() == m0.(residueAtoms := merged) && Marked(removeType[..]) == removed;
      var newTypes, replaceWithType := Compact(types, removeType);
      types := newTypes;
      ghost var rw := Reducer.ReplaceTable(|m0.types|, removed);
      assert Snapshot() == m0.(types := Reducer.Survivors(m0.types, removed), residueAtoms := merged);
      assert replaceWithType[..] == rw && residueAtoms == merged;
      Reducer.ReduceOfPasses(m0);
      outcome := RenumberResidues(replaceWithType[..]);
    }

    /**
     * print_xml: the force field the object's tables describe, section by
     * section, or the exception that stops the writing. The object is not changed.
     */
    method PrintXml(num: Numerics) returns (r: Result<ForceField>)
      ensures r == Emitter.PrintXml(Snapshot(), num)
    {
      r := Writer.WriteForceField(Snapshot(), num);
    }
  }

  /** What the first pass has done after visiting the residues in done; those in todo are still as read. */
  ghost predicate MergedSoFar(m0: Model, residues: map<string, seq<ResidueAtom>>, done: set<string>, todo: set<string>) {
    residues.Keys == m0.residueAtoms.Keys && done !! todo && done + todo == m0.residueAtoms.Keys &&
    (forall r :: r in done ==> Reducer.MergeOf(m0, r).Ok? && residues[r] == Reducer.MergeOf(m0, r).value.0) &&
    (forall r :: r in todo ==> residues[r] == m0.residueAtoms[r])
  }

  /** What the third pass has done after visiting the residues in done; those in todo are still as before. */
  ghost predicate RenumberedSoFar(rw: seq<int>, before: map<string, seq<ResidueAtom>>,
                                  residues: map<string, seq<ResidueAtom>>, done: set<string>, todo: set<string>) {
    residues.Keys == before.Keys && done !! todo && done + todo == before.Keys &&
    (forall r :: r in done ==> Reducer.Renumber(rw, before[r]).Ok? && residues[r] == Reducer.Renumber(rw, before[r]).value) &&
    (forall r :: r in todo ==> residues[r] == before[r])
  }

  lemma MergedStep(m0: Model, residues: map<string, seq<ResidueAtom>>, done: set<string>, todo: set<string>,
                    res: string, a: seq<ResidueAtom>)
    requires MergedSoFar(m0, residues, done, todo) && res in todo
    requires Reducer.MergeOf(m0, res).Ok? && Reducer.MergeOf(m0, res).value.0 == a
    ensures MergedSoFar(m0, residues[res := a], done + {res}, todo - {res})
  { }

  lemma MergedAll(m0: Model, residues: map<string, seq<ResidueAtom>>, done: set<string>)
    requires MergedSoFar(m0, residues, done, {})
    ensures Reducer.MergesSucceed(m0) && residues == Reducer.Merged(m0)
  { }

  lemma RenumberedStep(rw: seq<int>, before: map<string, seq<ResidueAtom>>, residues: map<string, seq<ResidueAtom>>,
                       done: set<string>, todo: set<string>, res: string, a: seq<ResidueAtom>)
    requires RenumberedSoFar(rw, before, residues, done, todo) && res in todo
    requires Reducer.Renumber(rw, residues[res]) == Ok(a)
    ensures RenumberedSoFar(rw, before, residues[res := a], done + {res}, todo - {res})
  { }

  lemma RenumberedAll(rw: seq<int>, before: map<string, seq<ResidueAtom>>, residues: map<string, seq<ResidueAtom>>,
                      done: set<string>)
    requires RenumberedSoFar(rw, before, residues, done, {})
    ensures Reducer.RenumberEach(rw, before) == Ok(residues)
  {
    assert !exists r :: r in before && Reducer.Renumber(rw, before[r]).Err?;
    assert residues == map r | r in before :: Reducer.Renumber(rw, before[r]).value;
  }

  lemma RenumberedFails(rw: seq<int>, before: map<string, seq<ResidueAtom>>, residues: map<string, seq<ResidueAtom>>,
                        done: set<string>, todo: set<string>, res: string)
    requires RenumberedSoFar(rw, before, residues, done, todo) && res in todo
    requires Reducer.Renumber(rw, residues[res]).Err?
    ensures Reducer.RenumberEach(rw, before) == Err(IndexError)
  { }

  /**
   * The second pass: newTypes keeps the types not marked, and replaceWithType
   * gives each position the index in newTypes of the last type kept at or
   * before it.
   */
  method Compact(types: seq<AtomType>, removeType: array<bool>) returns (newTypes: seq<AtomType>, replaceWithType: array<int>)
    requires removeType.Length == |types|
    ensures fresh(replaceWithType)
    ensures newTypes == Reducer.Survivors(types, Marked(removeType[..]))
    ensures replaceWithType[..] == Reducer.ReplaceTable(|types|, Marked(removeType[..]))
  {
    ghost var removed := Marked(removeType[..]);
    newTypes := [];
    replaceWithType := new int[|types|];
    var i := 0;
    while i < |types|
      invariant 0 <= i <= |types| == replaceWithType.Length
      invariant newTypes == Reducer.Survivors(types[..i], removed)
      invariant |newTypes| == Reducer.Kept(removed, i)
      invariant forall j :: 0 <= j < i ==> replaceWithType[j] == Reducer.Kept(removed, j + 1) - 1
    {
      assert types[..i + 1][..i] == types[..i];
      assert removeType[i] <==> i in removed;
      if !removeType[i] {
        newTypes := newTypes + [types[i]];
      }
      replaceWithType[i] := |newTypes| - 1;
      i := i + 1;
    }
    assert types[..i] == types;
  }
}
