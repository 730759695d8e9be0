/**
 * The accumulating parameter model of the Amber converter: the fields of an
 * AmberParser object as one value, and its three mutators addAtom, addBond and
 * addExternalBond (scripts/processAmberForceField.py:34-74).
 */
module Records {
  import opened Common
  import opened Text

  /** An element of the periodic table, as the element lookup returns it. */
  datatype Element = Element(atomicNumber: int, symbol: string, mass: real)

  /** The reducer's test `type[1] == element.hydrogen`. */
  predicate IsHydrogen(e: Element) {
    e.atomicNumber == 1
  }

  /** One entry of `types`: the tuple (atom class, element, charge). */
  datatype AtomType = AtomType(atomClass: string, element: Element, charge: real)

  /** One entry of a residue's atom list: the pair [atom name, type id]. */
  datatype ResidueAtom = ResidueAtom(name: string, typeId: int)

  /** A bond line: two classes, then the force constant and the length as the tokens read. */
  datatype BondParam = BondParam(class1: string, class2: string, k: string, length: string)

  /** An angle line: three classes, then the force constant and the angle in degrees as tokens. */
  datatype AngleParam = AngleParam(class1: string, class2: string, class3: string, k: string, angle: string)

  /** One Fourier term of a torsion: barrier divided by the path count, phase token, |periodicity|. */
  datatype Term = Term(k: real, phase: string, periodicity: int)

  /** A torsion list: four classes followed by one or more terms (length 4 + 3k in the source). */
  datatype TorsionParam = TorsionParam(class1: string, class2: string, class3: string, class4: string, terms: seq<Term>)

  /** An improper line: four classes, then barrier, phase and periodicity as tokens. */
  datatype ImproperParam = ImproperParam(class1: string, class2: string, class3: string, class4: string,
                                         k: string, phase: string, periodicity: string)

  /**
   * What an AmberParser accumulates and its output reads. The parser's
   * residue-to-type table and its charge counter are not part of it: nothing
   * ever reads them.
   */
  datatype Model = Model(
    residueAtoms: map<string, seq<ResidueAtom>>,
    residueBonds: map<string, seq<(int, int)>>,
    residueConnections: map<string, seq<int>>,
    types: seq<AtomType>,
    typeNames: seq<string>,
    masses: map<string, real>,
    vdwEquivalents: map<string, string>,
    vdw: map<string, (string, string)>,
    vdwType: Option<string>,
    bonds: seq<BondParam>,
    angles: seq<AngleParam>,
    torsions: seq<TorsionParam>,
    impropers: seq<ImproperParam>)

  /** The state right after AmberParser() is constructed. */
  const EmptyModel := Model(map[], map[], map[], [], [], map[], map[], map[], None, [], [], [], [])

  /** The two models agree on everything but the residue tables and the type tables. */
  predicate SameParameters(m: Model, n: Model) {
    n.masses == m.masses && n.vdwEquivalents == m.vdwEquivalents && n.vdw == m.vdw &&
    n.vdwType == m.vdwType && n.bonds == m.bonds && n.angles == m.angles &&
    n.torsions == m.torsions && n.impropers == m.impropers
  }

  /** The name addAtom gives a new type: its id in decimal, or "residue-atom". */
  function TypeName(residue: string, atomName: string, id: nat, numericNames: bool): string {
    if numericNames then NatToString(id) else residue + "-" + atomName
  }

  /** addAtom: a new type with the next free id, and a new atom of the residue referring to it. */
  function AddAtom(m: Model, residue: Option<string>, atomName: string, atomClass: string,
                   element: Element, charge: real, numericNames: bool): (r: Result<Model>)
    ensures residue.None? ==> r == Ok(m)
    ensures residue.Some? ==> (r.Ok? <==> residue.value in m.residueAtoms)
    ensures r.Err? ==> r.failure == KeyError
  {
    match residue
    case None => Ok(m)
    case Some(res) =>
      if res !in m.residueAtoms then Err(KeyError)
      else
        var id := |m.types|;
        Ok(m.(residueAtoms := m.residueAtoms[res := m.residueAtoms[res] + [ResidueAtom(atomName, id)]],
              types := m.types + [AtomType(atomClass, element, charge)],
              typeNames := m.typeNames + [TypeName(res, atomName, id, numericNames)]))
  }

  /** addBond: one more intra-residue bond, as the two atom indices given. */
  function AddBond(m: Model, residue: Option<string>, atom1: int, atom2: int): (r: Result<Model>)
    ensures residue.None? ==> r == Ok(m)
    ensures residue.Some? ==> (r.Ok? <==> residue.value in m.residueBonds)
    ensures r.Err? ==> r.failure == KeyError
  {
    match residue
    case None => Ok(m)
    case Some(res) =>
      if res !in m.residueBonds then Err(KeyError)
      else Ok(m.(residueBonds := m.residueBonds[res := m.residueBonds[res] + [(atom1, atom2)]]))
  }

  /**
   * addAtom on an existing residue appends exactly one type and one type name,
   * and one atom to that residue whose type id is the new type's index; no
   * other residue and no parameter changes.
   */
  lemma AddAtomAppends(m: Model, res: string, atomName: string, atomClass: string,
                       element: Element, charge: real, numericNames: bool)
    requires res in m.residueAtoms
    ensures AddAtom(m, Some(res), atomName, atomClass, element, charge, numericNames).Ok?
    ensures var n := AddAtom(m, Some(res), atomName, atomClass, element, charge, numericNames).value;
      n.types == m.types + [AtomType(atomClass, element, charge)] &&
      n.typeNames == m.typeNames + [TypeName(res, atomName, |m.types|, numericNames)] &&
      n.residueAtoms.Keys == m.residueAtoms.Keys &&
      n.residueAtoms[res] == m.residueAtoms[res] + [ResidueAtom(atomName, |m.types|)] &&
      (forall q :: q in m.residueAtoms && q != res ==> n.residueAtoms[q] == m.residueAtoms[q]) &&
      n.residueBonds == m.residueBonds && n.residueConnections == m.residueConnections &&
      SameParameters(m, n)
  { }

  /** addBond on an existing residue appends the pair to that residue's bonds and changes nothing else. */
  lemma AddBondAppends(m: Model, res: string, atom1: int, atom2: int)
    requires res in m.residueBonds
    ensures AddBond(m, Some(res), atom1, atom2).Ok?
    ensures var n := AddBond(m, Some(res), atom1, atom2).value;
      n.residueBonds.Keys == m.residueBonds.Keys &&
      n.residueBonds[res] == m.residueBonds[res] + [(atom1, atom2)] &&
      (forall q :: q in m.residueBonds && q != res ==> n.residueBonds[q] == m.residueBonds[q]) &&
      n.residueAtoms == m.residueAtoms && n.residueConnections == m.residueConnections &&
      n.types == m.types && n.typeNames == m.typeNames && SameParameters(m, n)
  { }

  /** addExternalBond: one more external-bond anchor, unless the index is -1. */
  function AddExternalBond(m: Model, residue: Option<string>, atom: int): (r: Result<Model>)
    ensures residue.None? || atom == -1 ==> r == Ok(m)
    ensures residue.Some? && atom != -1 ==> (r.Ok? <==> residue.value in m.residueConnections)
    ensures r.Err? ==> r.failure == KeyError
  {
    match residue
    case None => Ok(m)
    case Some(res) =>
      if atom == -1 then Ok(m)
      else if res !in m.residueConnections then Err(KeyError)
      else Ok(m.(residueConnections := m.residueConnections[res := m.residueConnections[res] + [atom]]))
  }

  /** addExternalBond on an existing residue with an index other than -1 appends it and changes nothing else. */
  lemma AddExternalBondAppends(m: Model, res: string, atom: int)
    requires res in m.residueConnections && atom != -1
    ensures AddExternalBond(m, Some(res), atom).Ok?
    ensures var n := AddExternalBond(m, Some(res), atom).value;
      n.residueConnections.Keys == m.residueConnections.Keys &&
      n.residueConnections[res] == m.residueConnections[res] + [atom] &&
      (forall q :: q in m.residueConnections && q != res ==> n.residueConnections[q] == m.residueConnections[q]) &&
      n.residueAtoms == m.residueAtoms && n.residueBonds == m.residueBonds &&
      n.types == m.types && n.typeNames == m.typeNames && SameParameters(m, n)
  { }

  // ---------------------------------------------------------------- invariants

  /** Every type id a residue atom holds is a valid index into types, and no two atoms share one. */
  ghost predicate FreshIds(m: Model) {
    (forall r, i :: r in m.residueAtoms && 0 <= i < |m.residueAtoms[r]| ==>
       0 <= m.residueAtoms[r][i].typeId < |m.types|) &&
    (forall r1, i1, r2, i2 ::
       r1 in m.residueAtoms && r2 in m.residueAtoms &&
       0 <= i1 < |m.residueAtoms[r1]| && 0 <= i2 < |m.residueAtoms[r2]| &&
       (r1 != r2 || i1 != i2) ==>
       m.residueAtoms[r1][i1].typeId != m.residueAtoms[r2][i2].typeId)
  }

  /** The i-th type is named by its id in decimal, as addAtom's default naming does. */
  ghost predicate NumericNames(m: Model) {
    |m.typeNames| == |m.types| &&
    forall i :: 0 <= i < |m.typeNames| ==> m.typeNames[i] == NatToString(i)
  }

  /**
   * Every type has a name, and every name is its position in decimal; names past
   * the end of the type list may remain, as reduce_atomtypes leaves them.
   */
  ghost predicate NumericNamesCover(m: Model) {
    |m.types| <= |m.typeNames| &&
    forall i :: 0 <= i < |m.typeNames| ==> m.typeNames[i] == NatToString(i)
  }

  /** Every torsion has at least one term, and every stored periodicity is non-negative. */
  ghost predicate TorsionsWellFormed(torsions: seq<TorsionParam>) {
    forall i :: 0 <= i < |torsions| ==>
      |torsions[i].terms| >= 1 &&
      forall j :: 0 <= j < |torsions[i].terms| ==> torsions[i].terms[j].periodicity >= 0
  }

  /** The three residue dictionaries always get their entries together. */
  ghost predicate ResidueTables(m: Model) {
    m.residueBonds.Keys == m.residueAtoms.Keys && m.residueConnections.Keys == m.residueAtoms.Keys
  }

  /** What the library, parameter and frcmod readers keep true of the model. */
  ghost predicate ReaderInvariant(m: Model) {
    FreshIds(m) && NumericNames(m) && TorsionsWellFormed(m.torsions) && ResidueTables(m)
  }

  /** The invariant depends only on the residue tables, the type tables and the torsions. */
  lemma ReaderInvariantFrame(m: Model, n: Model)
    requires ReaderInvariant(m)
    requires n.residueAtoms == m.residueAtoms && n.residueBonds == m.residueBonds
    requires n.residueConnections == m.residueConnections
    requires n.types == m.types && n.typeNames == m.typeNames
    requires TorsionsWellFormed(n.torsions)
    ensures ReaderInvariant(n)
  { }

  lemma EmptyModelInvariant()
    ensures ReaderInvariant(EmptyModel)
  { }

  /** addAtom with numeric names hands out an id no atom holds yet, so the reader invariant survives it. */
  lemma AddAtomKeepsInvariant(m: Model, residue: Option<string>, atomName: string, atomClass: string,
                              element: Element, charge: real)
    requires ReaderInvariant(m)
    requires AddAtom(m, residue, atomName, atomClass, element, charge, true).Ok?
    ensures ReaderInvariant(AddAtom(m, residue, atomName, atomClass, element, charge, true).value)
  {
    if residue.Some? {
      var n := AddAtom(m, residue, atomName, atomClass, element, charge, true).value;
      var res := residue.value;
      var id := |m.types|;
      assert forall i :: 0 <= i < |m.residueAtoms[res]| ==> n.residueAtoms[res][i] == m.residueAtoms[res][i];
      assert n.residueAtoms[res][|m.residueAtoms[res]|].typeId == id;
      forall r1, i1, r2, i2 |
        r1 in n.residueAtoms && r2 in n.residueAtoms &&
        0 <= i1 < |n.residueAtoms[r1]| && 0 <= i2 < |n.residueAtoms[r2]| && (r1 != r2 || i1 != i2)
        ensures n.residueAtoms[r1][i1].typeId != n.residueAtoms[r2][i2].typeId
      {
        var new1 := r1 == res && i1 == |m.residueAtoms[res]|;
        var new2 := r2 == res && i2 == |m.residueAtoms[res]|;
        if !new1 { assert n.residueAtoms[r1][i1] == m.residueAtoms[r1][i1]; }
        if !new2 { assert n.residueAtoms[r2][i2] == m.residueAtoms[r2][i2]; }
      }
      forall r, i | r in n.residueAtoms && 0 <= i < |n.residueAtoms[r]|
        ensures 0 <= n.residueAtoms[r][i].typeId < |n.types|
      {
        if !(r == res && i == |m.residueAtoms[res]|) { assert n.residueAtoms[r][i] == m.residueAtoms[r][i]; }
      }
      assert NumericNames(n) by {
        forall i | 0 <= i < |n.typeNames| ensures n.typeNames[i] == NatToString(i) {
          if i < |m.typeNames| { assert n.typeNames[i] == m.typeNames[i]; }
        }
      }
    }
  }
}
