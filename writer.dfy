/**
 * The loops of print_xml (scripts/processAmberForceField.py:250-357), one
 * method per section, each proved to write exactly what the matching function
 * of the emitter describes. Printing is replaced by collecting the lines of a
 * section in order; the first exception ends the section and the run.
 */
module Writer {
  import opened Common
  import opened Text
  import opened Records
  import opened Emitter

  /** The type section: one line per type, named by the type name at its position. */
  method WriteTypes(types: seq<AtomType>, typeNames: seq<string>) returns (r: Result<seq<TypeLine>>)
    ensures r == TypeLines(types, typeNames)
  {
    var lines: seq<TypeLine> := [];
    var index := 0;
    while index < |types|
      invariant 0 <= index <= |types|
      invariant TypeLines(types[..index], typeNames) == Ok(lines)
    {
      assert types[..index + 1][..index] == types[..index];
      var name := PyGet(typeNames, index);
      if name.None? {
        return Err(IndexError);
      }
      var t := types[index];
      lines := lines + [TypeLine(name.value, t.atomClass, t.element.symbol, t.element.mass)];
      index := index + 1;
    }
    assert types[..index] == types;
    return Ok(lines);
  }

  /** The residue names in sorted order, each put into its place one by one. */
  method SortedNames(keys: set<string>) returns (names: seq<string>)
    ensures names == SortedKeys(keys)
  {
    names := [];
    var todo := keys;
    while todo != {}
      invariant todo <= keys
      invariant StrictlySorted(names) && Elems(names) == keys - todo
      decreases todo
    {
      var name :| name in todo;
      assert name !in Elems(names);
      names := InsertSorted(names, name);
      todo := todo - {name};
    }
    StrictlySortedUnique(names, SortedKeys(keys));
  }

  /** The atoms of one residue, each written with `self.type_names[type_id]`. */
  method WriteAtoms(typeNames: seq<string>, atoms: seq<ResidueAtom>) returns (r: Result<seq<AtomLine>>)
    ensures r == MapResult(atoms, AtomNamer(typeNames))
  {
    var lines: seq<AtomLine> := [];
    var i := 0;
    while i < |atoms|
      invariant 0 <= i <= |atoms|
      invariant MapResult(atoms[..i], AtomNamer(typeNames)) == Ok(lines)
    {
      assert atoms[..i + 1][..i] == atoms[..i];
      var atomType := PyGet(typeNames, atoms[i].typeId);
      if atomType.None? {
        assert AtomNamer(typeNames)(atoms[i]).Err?;
        MapResultFailureSticks(atoms, AtomNamer(typeNames), i + 1);
        return Err(IndexError);
      }
      lines := lines + [AtomLine(atoms[i].name, atomType.value)];
      i := i + 1;
    }
    assert atoms[..i] == atoms;
    return Ok(lines);
  }

  /** One residue: its atoms, then its bonds and external bonds where it has them. */
  method WriteResidue(m: Model, res: string) returns (r: Result<ResidueBlock>)
    ensures r == ResidueBlockOf(m, res)
  {
    if res !in m.residueAtoms {
      return Err(KeyError);
    }
    var atoms := WriteAtoms(m.typeNames, m.residueAtoms[res]);
    if atoms.Err? {
      return Err(atoms.failure);
    }
    var bonds := if res in m.residueBonds then m.residueBonds[res] else [];
    var externalBonds := if res in m.residueConnections then m.residueConnections[res] else [];
    return Ok(ResidueBlock(res, atoms.value, bonds, externalBonds));
  }

  /** The residue section: one block per residue, in sorted name order. */
  method WriteResidues(m: Model) returns (r: Result<seq<ResidueBlock>>)
    ensures r == ResidueBlocks(m)
  {
    var names := SortedNames(m.residueAtoms.Keys);
    var blocks: seq<ResidueBlock> := [];
    var i := 0;
    while i < |names|
      invariant 0 <= i <= |names|
      invariant MapResult(names[..i], ResidueWriter(m)) == Ok(blocks)
    {
      MapResultStep(names, ResidueWriter(m), i);
      var block := WriteResidue(m, names[i]);
      assert ResidueWriter(m)(names[i]) == block;
      if block.Err? {
        MapResultFailureSticks(names, ResidueWriter(m), i + 1);
        return Err(block.failure);
      }
      blocks := blocks + [block.value];
      i := i + 1;
    }
    assert names[..i] == names;
    return Ok(blocks);
  }

  /**
   * A de-duplicating scan: a record whose signature is in `processed`, or has a
   * class in skipClasses, is passed over; otherwise its signature is added to
   * `processed` and the record is converted and written.
   */
  method Scan<T, U>(xs: seq<T>, sig: T -> seq<string>, convert: T -> Result<U>) returns (r: Result<seq<U>>)
    ensures r == MapResult(Select(xs, sig), convert)
  {
    var processed: set<seq<string>> := {};
    var lines: seq<U> := [];
    var i := 0;
    while i < |xs|
      invariant 0 <= i <= |xs|
      invariant processed == Processed(xs[..i], sig)
      invariant MapResult(Select(xs[..i], sig), convert) == Ok(lines)
    {
      assert xs[..i + 1][..i] == xs[..i];
      var signature := sig(xs[i]);
      if signature !in processed && !Skipped(signature) {
        processed := processed + {signature};
        var sel := Select(xs[..i], sig);
        assert (sel + [xs[i]])[..|sel|] == sel;
        var line := convert(xs[i]);
        if line.Err? {
          SelectPrefix(xs, sig, i + 1);
          MapResultFailureSticks(Select(xs, sig), convert, |Select(xs[..i + 1], sig)|);
          return Err(line.failure);
        }
        lines := lines + [line.value];
      }
      i := i + 1;
    }
    assert xs[..i] == xs;
    return Ok(lines);
  }

  /**
   * `while i < len(tor)`: the terms of a proper torsion, term j at list position
   * i = 4 + 3j, numbered i/3 with integer division.
   */
  method WriteTerms(num: Numerics, terms: seq<Term>) returns (r: Result<seq<PeriodicTerm>>)
    ensures r == ConvertTerms(num, terms)
  {
    ghost var numbered := Numbered(terms);
    var written: seq<PeriodicTerm> := [];
    var j := 0;
    while j < |terms|
      invariant 0 <= j <= |terms|
      invariant MapResult(numbered[..j], TermConverter(num)) == Ok(written)
    {
      var i := 4 + 3 * j;
      var index := i / 3;
      assert index == j + 1 by {
        assert i == 3 * (j + 1) + 1;
      }
      MapResultStep(numbered, TermConverter(num), j);
      assert TermConverter(num)(numbered[j]) == ConvertTerm(num, index, terms[j]);
      var phase := ParseReal(terms[j].phase);
      if phase.None? {
        MapResultFailureSticks(numbered, TermConverter(num), j + 1);
        return Err(ValueError);
      }
      written := written + [PeriodicTerm(index, terms[j].periodicity, Radians(num, phase.value), terms[j].k * 4.184)];
      j := j + 1;
    }
    assert numbered[..j] == numbered;
    return Ok(written);
  }

  /** One proper torsion: its wildcard-rewritten classes and its terms. */
  method WriteProper(num: Numerics, tor: TorsionParam) returns (r: Result<ProperLine>)
    ensures r == ConvertProper(num, tor)
  {
    var terms := WriteTerms(num, tor.terms);
    if terms.Err? {
      return Err(terms.failure);
    }
    return Ok(ProperLine(Fix(tor.class1), Fix(tor.class2), Fix(tor.class3), Fix(tor.class4), terms.value));
  }

  /** The proper-torsion scan over the torsions in the order given, with the term loop inside. */
  method ScanPropers(num: Numerics, xs: seq<TorsionParam>) returns (r: Result<seq<ProperLine>>)
    ensures r == MapResult(Select(xs, ProperSignature), ProperConverter(num))
  {
    var processed: set<seq<string>> := {};
    var lines: seq<ProperLine> := [];
    var i := 0;
    while i < |xs|
      invariant 0 <= i <= |xs|
      invariant processed == Processed(xs[..i], ProperSignature)
      invariant MapResult(Select(xs[..i], ProperSignature), ProperConverter(num)) == Ok(lines)
    {
      var tor := xs[i];
      var signature := ProperSignature(tor);
      ScanStep(xs, ProperSignature, i);
      if signature !in processed && !Skipped(signature) {
        processed := processed + {signature};
        MapResultSnoc(Select(xs[..i], ProperSignature), tor, ProperConverter(num));
        var line := WriteProper(num, tor);
        if line.Err? {
          SelectPrefix(xs, ProperSignature, i + 1);
          MapResultFailureSticks(Select(xs, ProperSignature), ProperConverter(num), |Select(xs[..i + 1], ProperSignature)|);
          return Err(line.failure);
        }
        lines := lines + [line.value];
      }
      i := i + 1;
    }
    assert xs[..i] == xs;
    return Ok(lines);
  }

  /** The torsion section, walked from the last torsion to the first, so the last record of a signature is written. */
  method WritePropers(num: Numerics, torsions: seq<TorsionParam>) returns (r: Result<seq<ProperLine>>)
    ensures r == ProperLines(num, torsions)
  {
    r := ScanPropers(num, Reversed(torsions));
  }

  /**
   * The nonbonded line of the type at `index`: the Lennard-Jones pair of its
   * class after the one-step redirect, and a line only if the charge or the well
   * depth is nonzero.
   */
  method WriteNonbondedType(m: Model, num: Numerics, index: nat) returns (r: Result<Option<NonbondedLine>>)
    requires index < |m.types|
    ensures r == NonbondedLineOf(m, num, index)
  {
    var atomClass := VdwClass(m, m.types[index].atomClass);
    var q := m.types[index].charge;
    var sigma, epsilon := 0.0, 0.0;
    if atomClass in m.vdw {
      var a := ParseReal(m.vdw[atomClass].0);
      var b := ParseReal(m.vdw[atomClass].1);
      if a.None? || b.None? {
        return Err(ValueError);
      }
      if m.vdwType.None? {
        return Err(MissingVdwType);
      }
      var pair := VdwPair(num, m.vdwType.value, a.value, b.value);
      if pair.Err? {
        return Err(pair.failure);
      }
      sigma, epsilon := pair.value.0, pair.value.1;
    }
    if q != 0.0 || epsilon != 0.0 {
      var name := PyGet(m.typeNames, index);
      if name.None? {
        return Err(IndexError);
      }
      return Ok(Some(NonbondedLine(name.value, q, sigma, epsilon)));
    }
    return Ok(None);
  }

  /** The nonbonded section: every type in order, each with its line if it gets one. */
  method WriteNonbonded(m: Model, num: Numerics) returns (r: Result<seq<NonbondedLine>>)
    ensures r == NonbondedLines(m, num, |m.types|)
  {
    var lines: seq<NonbondedLine> := [];
    var index := 0;
    while index < |m.types|
      invariant 0 <= index <= |m.types|
      invariant NonbondedLines(m, num, index) == Ok(lines)
    {
      var line := WriteNonbondedType(m, num, index);
      if line.Err? {
        NonbondedLinesFailureSticks(m, num, index + 1, |m.types|);
        return Err(line.failure);
      }
      if line.value.Some? {
        lines := lines + [line.value.value];
      }
      index := index + 1;
    }
    return Ok(lines);
  }

  /** print_xml: the sections in the order written. */
  method WriteForceField(m: Model, num: Numerics) returns (r: Result<ForceField>)
    ensures r == PrintXml(m, num)
  {
    var types := WriteTypes(m.types, m.typeNames);
    if types.Err? {
      return Err(types.failure);
    }
    var residues := WriteResidues(m);
    if residues.Err? {
      return Err(residues.failure);
    }
    var bonds := Scan(m.bonds, BondSignature, ConvertBond);
    if bonds.Err? {
      return Err(bonds.failure);
    }
    var angles := Scan(m.angles, AngleSignature, AngleConverter(num));
    if angles.Err? {
      return Err(angles.failure);
    }
    var propers := WritePropers(num, m.torsions);
    if propers.Err? {
      return Err(propers.failure);
    }
    var impropers := Scan(Reversed(m.impropers), ImproperSignature, ImproperConverter(num));
    if impropers.Err? {
      return Err(impropers.failure);
    }
    var nonbonded := WriteNonbonded(m, num);
    if nonbonded.Err? {
      return Err(nonbonded.failure);
    }
    return Ok(ForceField(types.value, residues.value, bonds.value, angles.value, propers.value, impropers.value,
                         Charge14Scale, Epsilon14Scale, nonbonded.value));
  }
}
