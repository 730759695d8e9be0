/**
 * reduce_atomtypes (scripts/processAmberForceField.py:374-401): hydrogens bound
 * to the same atom are given one type, the types no atom uses any more are
 * dropped, and the remaining types are renumbered in order.
 *
 * The functions here follow the three passes of the source exactly, including
 * Python's negative indices and its IndexError; the lemmas then say what the
 * passes achieve when the residues are well formed.
 */
module Reducer {
  import opened Common
  import opened Text
  import opened Records

  // ---------------------------------------------------------------- neighbour lists

  /** Both ends of every bond can be used as Python list indices over n atoms. */
  predicate BondsIndexable(n: nat, bonds: seq<(int, int)>) {
    forall k :: 0 <= k < |bonds| ==> PyIndex(bonds[k].0, n).Some? && PyIndex(bonds[k].1, n).Some?
  }

  /**
   * The neighbour list of atom j after the bond loop: for each bond (a, b) in
   * order, b when a names j, then a when b names j.
   */
  function NeighboursOf(n: nat, bonds: seq<(int, int)>, j: nat): seq<int> {
    if bonds == [] then []
    else
      var (a, b) := bonds[|bonds| - 1];
      NeighboursOf(n, bonds[..|bonds| - 1], j) +
        (if PyIndex(a, n) == Some(j) then [b] else []) + (if PyIndex(b, n) == Some(j) then [a] else [])
  }

  /** One neighbour list per atom, or IndexError when a bond names no atom. */
  function AtomBonds(n: nat, bonds: seq<(int, int)>): Result<seq<seq<int>>> {
    if BondsIndexable(n, bonds) then Ok(seq(n, j requires 0 <= j < n => NeighboursOf(n, bonds, j))) else Err(IndexError)
  }

  /** Both ends of every bond are atom positions 0 <= i < n. */
  predicate BondsInRange(n: nat, bonds: seq<(int, int)>) {
    forall k :: 0 <= k < |bonds| ==> 0 <= bonds[k].0 < n && 0 <= bonds[k].1 < n
  }

  /**
   * With every bond inside the residue, y is a neighbour of j exactly when some
   * bond joins j and y, and neighbour lists hold atom positions only.
   */
  lemma {:induction false} NeighboursOfMembers(n: nat, bonds: seq<(int, int)>, j: nat, y: int)
    requires BondsInRange(n, bonds) && j < n
    ensures y in NeighboursOf(n, bonds, j) <==>
      exists k :: 0 <= k < |bonds| && (bonds[k] == (j, y) || bonds[k] == (y, j))
    ensures y in NeighboursOf(n, bonds, j) ==> 0 <= y < n
  {
    if bonds != [] {
      var last := |bonds| - 1;
      NeighboursOfMembers(n, bonds[..last], j, y);
      if exists k :: 0 <= k < last + 1 && (bonds[k] == (j, y) || bonds[k] == (y, j)) {
        var k :| 0 <= k < last + 1 && (bonds[k] == (j, y) || bonds[k] == (y, j));
        if k < last {
          assert bonds[..last][k] == bonds[k];
        }
      }
      if exists k :: 0 <= k < last && (bonds[..last][k] == (j, y) || bonds[..last][k] == (y, j)) {
        var k :| 0 <= k < last && (bonds[..last][k] == (j, y) || bonds[..last][k] == (y, j));
        assert bonds[k] == bonds[..last][k];
      }
    }
  }

  // ---------------------------------------------------------------- hydrogen lists

  /** Atom x exists, its type exists, and that type's element is hydrogen. */
  predicate IsHydrogenAtom(types: seq<AtomType>, atoms: seq<ResidueAtom>, x: int) {
    match PyGet(atoms, x)
    case None => false
    case Some(a) =>
      match PyGet(types, a.typeId)
      case None => false
      case Some(t) => IsHydrogen(t.element)
  }

  /** Atom x and its type can both be looked up. */
  predicate Typed(types: seq<AtomType>, atoms: seq<ResidueAtom>, x: int) {
    PyGet(atoms, x).Some? && PyGet(types, PyGet(atoms, x).value.typeId).Some?
  }

  /** The hydrogens among xs, in the order of xs. */
  function HydrogenFilter(types: seq<AtomType>, atoms: seq<ResidueAtom>, xs: seq<int>): seq<int> {
    if xs == [] then []
    else
      HydrogenFilter(types, atoms, xs[..|xs| - 1]) +
        (if IsHydrogenAtom(types, atoms, xs[|xs| - 1]) then [xs[|xs| - 1]] else [])
  }

  /** The `hydrogens` comprehension: IndexError when an atom or its type cannot be looked up. */
  function HydrogensOf(types: seq<AtomType>, atoms: seq<ResidueAtom>, xs: seq<int>): Result<seq<int>> {
    if forall i :: 0 <= i < |xs| ==> Typed(types, atoms, xs[i]) then Ok(HydrogenFilter(types, atoms, xs))
    else Err(IndexError)
  }

  /** The hydrogen list holds exactly the hydrogens of xs. */
  lemma {:induction false} HydrogenFilterMembers(types: seq<AtomType>, atoms: seq<ResidueAtom>, xs: seq<int>)
    ensures forall y :: y in HydrogenFilter(types, atoms, xs) <==> y in xs && IsHydrogenAtom(types, atoms, y)
  {
    if xs != [] {
      HydrogenFilterMembers(types, atoms, xs[..|xs| - 1]);
      assert xs == xs[..|xs| - 1] + [xs[|xs| - 1]];
    }
  }

  /** Its first entry is the first hydrogen of xs: the list follows the order of xs. */
  lemma {:induction false} HydrogenFilterFirst(types: seq<AtomType>, atoms: seq<ResidueAtom>, xs: seq<int>)
    requires HydrogenFilter(types, atoms, xs) != []
    ensures exists i :: (0 <= i < |xs| && xs[i] == HydrogenFilter(types, atoms, xs)[0] &&
      IsHydrogenAtom(types, atoms, xs[i]) &&
      forall i' :: 0 <= i' < i ==> !IsHydrogenAtom(types, atoms, xs[i']))
  {
    var init := xs[..|xs| - 1];
    if HydrogenFilter(types, atoms, init) == [] {
      HydrogenFilterMembers(types, atoms, init);
      var i := |xs| - 1;
      forall i' | 0 <= i' < i ensures !IsHydrogenAtom(types, atoms, xs[i']) {
        assert xs[i'] == init[i'];
      }
    } else {
      HydrogenFilterFirst(types, atoms, init);
      var i :| 0 <= i < |init| && init[i] == HydrogenFilter(types, atoms, init)[0] &&
        IsHydrogenAtom(types, atoms, init[i]) && forall i' :: 0 <= i' < i ==> !IsHydrogenAtom(types, atoms, init[i']);
      assert xs[i] == init[i];
      forall i' | 0 <= i' < i ensures !IsHydrogenAtom(types, atoms, xs[i']) {
        assert xs[i'] == init[i'];
      }
    }
  }

  /** Two residues that agree on which atoms are hydrogens pick the same hydrogens out of xs. */
  lemma {:induction false} HydrogenFilterSameKinds(types: seq<AtomType>, a1: seq<ResidueAtom>, a2: seq<ResidueAtom>,
                                                   xs: seq<int>)
    requires forall i :: 0 <= i < |xs| ==> IsHydrogenAtom(types, a1, xs[i]) == IsHydrogenAtom(types, a2, xs[i])
    ensures HydrogenFilter(types, a1, xs) == HydrogenFilter(types, a2, xs)
  {
    if xs != [] {
      HydrogenFilterSameKinds(types, a1, a2, xs[..|xs| - 1]);
    }
  }

  // ---------------------------------------------------------------- merging hydrogens

  /**
   * `for h in hydrogens[1:]`: each listed hydrogen's type is marked for removal
   * (marks are positions of removeType, a list of n flags) and the hydrogen takes
   * the type of the leader, hydrogens[0].
   */
  function Redirect(n: nat, atoms: seq<ResidueAtom>, marks: set<int>, leader: int, hs: seq<int>)
    : Result<(seq<ResidueAtom>, set<int>)>
  {
    if hs == [] then Ok((atoms, marks))
    else
      match Redirect(n, atoms, marks, leader, hs[..|hs| - 1])
      case Err(f) => Err(f)
      case Ok((a, mk)) =>
        match PyIndex(hs[|hs| - 1], |a|)
        case None => Err(IndexError)
        case Some(k) =>
          match PyIndex(a[k].typeId, n)
          case None => Err(IndexError)
          case Some(t) =>
            match PyIndex(leader, |a|)
            case None => Err(IndexError)
            case Some(l) => Ok((a[k := a[k].(typeId := a[l].typeId)], mk + {t}))
  }

  /** The atom loop of one residue over its first k atoms, given the neighbour lists. */
  function AtomPass(types: seq<AtomType>, atoms: seq<ResidueAtom>, lists: seq<seq<int>>, k: nat)
    : Result<(seq<ResidueAtom>, set<int>)>
    requires k <= |lists|
  {
    if k == 0 then Ok((atoms, {}))
    else
      match AtomPass(types, atoms, lists, k - 1)
      case Err(f) => Err(f)
      case Ok((a, mk)) =>
        match HydrogensOf(types, a, lists[k - 1])
        case Err(f) => Err(f)
        case Ok(hs) => if hs == [] then Ok((a, mk)) else Redirect(|types|, a, mk, hs[0], hs[1..])
  }

  /** The first pass over one residue: its new atom list and the type positions it marks for removal. */
  function ResidueMerge(types: seq<AtomType>, atoms: seq<ResidueAtom>, bonds: seq<(int, int)>)
    : Result<(seq<ResidueAtom>, set<int>)>
  {
    match AtomBonds(|atoms|, bonds)
    case Err(f) => Err(f)
    case Ok(lists) => AtomPass(types, atoms, lists, |atoms|)
  }

  // ---------------------------------------------------------------- what the first pass achieves

  /** Every type id of the residue is a position in a type table of n entries. */
  predicate IdsInRange(n: nat, atoms: seq<ResidueAtom>) {
    forall x :: 0 <= x < |atoms| ==> 0 <= atoms[x].typeId < n
  }

  /** The hydrogen list the first pass computes for atom j of the unchanged residue. */
  function HydrogenList(types: seq<AtomType>, atoms: seq<ResidueAtom>, bonds: seq<(int, int)>, j: nat): seq<int> {
    HydrogenFilter(types, atoms, NeighboursOf(|atoms|, bonds, j))
  }

  /** The hydrogen lists of all atoms of the residue as read. */
  function HydrogenLists(types: seq<AtomType>, atoms: seq<ResidueAtom>, bonds: seq<(int, int)>): (hl: seq<seq<int>>)
    ensures |hl| == |atoms| && forall j :: 0 <= j < |atoms| ==> hl[j] == HydrogenList(types, atoms, bonds, j)
  {
    seq(|atoms|, j requires 0 <= j < |atoms| => HydrogenList(types, atoms, bonds, j))
  }

  /** Entry i1 of list j1 and entry i2 of list j2 hold different atoms unless they are the same entry. */
  ghost predicate ListedApart(hl: seq<seq<int>>, j1: int, i1: int, j2: int, i2: int) {
    0 <= j1 < |hl| && 0 <= j2 < |hl| && 0 <= i1 < |hl[j1]| && 0 <= i2 < |hl[j2]| && hl[j1][i1] == hl[j2][i2] ==>
    j1 == j2 && i1 == i2
  }

  /** No atom occurs twice over all the lists. */
  ghost predicate ListedOnce(hl: seq<seq<int>>) {
    forall j1, i1, j2, i2 :: ListedApart(hl, j1, i1, j2, i2)
  }

  /** Every entry of every list is an atom position 0 <= x < n. */
  predicate Within(n: nat, hl: seq<seq<int>>) {
    forall j, i :: 0 <= j < |hl| && 0 <= i < |hl[j]| ==> 0 <= hl[j][i] < n
  }

  /** Every entry of every list is a hydrogen atom of the residue. */
  predicate ListsOfHydrogens(types: seq<AtomType>, atoms: seq<ResidueAtom>, hl: seq<seq<int>>) {
    Within(|atoms|, hl) && forall j, i :: 0 <= j < |hl| && 0 <= i < |hl[j]| ==> IsHydrogenAtom(types, atoms, hl[j][i])
  }

  /**
   * The residue conditions under which the first pass does what its comment
   * promises: type ids and bonds inside their tables, and no hydrogen bonded
   * to two atoms or listed twice for one.
   */
  ghost predicate WellFormedResidue(types: seq<AtomType>, atoms: seq<ResidueAtom>, bonds: seq<(int, int)>) {
    IdsInRange(|types|, atoms) && BondsInRange(|atoms|, bonds) && ListedOnce(HydrogenLists(types, atoms, bonds))
  }

  /** Hydrogen lists hold hydrogens of the residue only. */
  lemma HydrogenListInRange(types: seq<AtomType>, atoms: seq<ResidueAtom>, bonds: seq<(int, int)>, j: nat)
    requires BondsInRange(|atoms|, bonds) && j < |atoms|
    ensures forall i :: 0 <= i < |HydrogenList(types, atoms, bonds, j)| ==>
      0 <= HydrogenList(types, atoms, bonds, j)[i] < |atoms| &&
      IsHydrogenAtom(types, atoms, HydrogenList(types, atoms, bonds, j)[i])
  {
    var ns := NeighboursOf(|atoms|, bonds, j);
    HydrogenFilterMembers(types, atoms, ns);
    forall i | 0 <= i < |HydrogenList(types, atoms, bonds, j)|
      ensures 0 <= HydrogenList(types, atoms, bonds, j)[i] < |atoms|
    {
      NeighboursOfMembers(|atoms|, bonds, j, HydrogenList(types, atoms, bonds, j)[i]);
    }
  }

  /** The type ids of the atoms at positions hs, in a residue holding them all. */
  function TypeIdsOf(a: seq<ResidueAtom>, hs: seq<int>): set<int>
    requires forall i :: 0 <= i < |hs| ==> 0 <= hs[i] < |a|
  {
    if hs == [] then {} else TypeIdsOf(a, hs[..|hs| - 1]) + {a[hs[|hs| - 1]].typeId}
  }

  /**
   * Redirecting distinct hydrogens hs of a residue to a leader outside hs gives
   * each of them the leader's type, leaves every other atom alone, and marks
   * the original types of hs.
   */
  lemma {:induction false} RedirectAll(n: nat, a: seq<ResidueAtom>, mk: set<int>, l: int, hs: seq<int>)
    requires IdsInRange(n, a) && 0 <= l < |a|
    requires forall i :: 0 <= i < |hs| ==> 0 <= hs[i] < |a| && hs[i] != l
    requires forall i, i' :: 0 <= i < i' < |hs| ==> hs[i] != hs[i']
    ensures Redirect(n, a, mk, l, hs).Ok?
    ensures var (a', mk') := Redirect(n, a, mk, l, hs).value;
      |a'| == |a| && mk' == mk + TypeIdsOf(a, hs) &&
      forall x :: 0 <= x < |a| ==> a'[x] == if x in hs then a[x].(typeId := a[l].typeId) else a[x]
  {
    if hs != [] {
      var init := hs[..|hs| - 1];
      var h := hs[|hs| - 1];
      assert hs == init + [h];
      RedirectAll(n, a, mk, l, init);
      var (a1, mk1) := Redirect(n, a, mk, l, init).value;
      assert h !in init;
      assert a1[h] == a[h] && a1[l] == a[l];
      var a' := a1[h := a[h].(typeId := a[l].typeId)];
      assert Redirect(n, a, mk, l, hs) == Ok((a', mk1 + {a[h].typeId}));
    }
  }

  /** With every bond inside the residue, the hydrogen lists hold hydrogens of the residue. */
  lemma HydrogenListsOfHydrogens(types: seq<AtomType>, atoms: seq<ResidueAtom>, bonds: seq<(int, int)>)
    requires BondsInRange(|atoms|, bonds)
    ensures ListsOfHydrogens(types, atoms, HydrogenLists(types, atoms, bonds))
  {
    forall j | 0 <= j < |atoms| {
      HydrogenListInRange(types, atoms, bonds, j);
    }
  }

  /**
   * The hydrogen whose type atom x takes once the first k atoms are visited: the
   * first entry of the latest of the first k lists that holds x after its first
   * entry, or None when none does.
   */
  function LeaderBefore(n: nat, hl: seq<seq<int>>, k: nat, x: int): (r: Option<int>)
    requires Within(n, hl) && k <= |hl|
    ensures r.Some? ==> 0 <= r.value < n
  {
    if k == 0 then None
    else if hl[k - 1] != [] && x in hl[k - 1][1..] then Some(hl[k - 1][0])
    else LeaderBefore(n, hl, k - 1, x)
  }

  /** Atom x as the first k visits leave it: retyped to its leader, or as read. */
  function Expected(atoms: seq<ResidueAtom>, hl: seq<seq<int>>, k: nat, x: nat): ResidueAtom
    requires Within(|atoms|, hl) && k <= |hl| && x < |atoms|
  {
    match LeaderBefore(|atoms|, hl, k, x)
    case None => atoms[x]
    case Some(l) => atoms[x].(typeId := atoms[l].typeId)
  }

  /** The marks the first k atoms contribute: the original types of the hydrogens they redirect. */
  function MarksBefore(atoms: seq<ResidueAtom>, hl: seq<seq<int>>, k: nat): set<int>
    requires Within(|atoms|, hl) && k <= |hl|
  {
    if k == 0 then {} else MarksBefore(atoms, hl, k - 1) + TypeIdsOf(atoms, PyFrom(hl[k - 1], 1))
  }

  /** An atom listed in list k is in no other list j. */
  lemma ListedInOneList(hl: seq<seq<int>>, j: nat, k: nat, i: nat)
    requires ListedOnce(hl)
    requires j != k && j < |hl| && k < |hl| && i < |hl[k]|
    ensures hl[k][i] !in hl[j]
  {
    forall i' | 0 <= i' < |hl[j]| ensures hl[j][i'] != hl[k][i] {
      assert ListedApart(hl, j, i', k, i);
    }
  }

  /** An atom of list k has no leader among the lists before k. */
  lemma {:induction false} NotRedirectedBefore(n: nat, hl: seq<seq<int>>, k': nat, k: nat, i: nat)
    requires Within(n, hl) && ListedOnce(hl)
    requires k' <= k < |hl| && i < |hl[k]|
    ensures LeaderBefore(n, hl, k', hl[k][i]).None?
  {
    if k' > 0 {
      ListedInOneList(hl, k' - 1, k, i);
      NotRedirectedBefore(n, hl, k' - 1, k, i);
    }
  }

  /** Every atom is a hydrogen in a exactly when it is one in the residue as read. */
  ghost predicate SameKinds(types: seq<AtomType>, atoms: seq<ResidueAtom>, a: seq<ResidueAtom>) {
    forall x :: 0 <= x < |atoms| ==> IsHydrogenAtom(types, a, x) == IsHydrogenAtom(types, atoms, x)
  }

  /**
   * What the atom loop has done once it visited the first k atoms: every atom
   * is as Expected says, and the marks are the original types of the
   * redirected hydrogens.
   */
  ghost predicate Visited(types: seq<AtomType>, atoms: seq<ResidueAtom>, hl: seq<seq<int>>, k: nat,
                          a: seq<ResidueAtom>, mk: set<int>)
    requires Within(|atoms|, hl) && k <= |hl|
  {
    |a| == |atoms| && mk == MarksBefore(atoms, hl, k) && IdsInRange(|types|, a) &&
    SameKinds(types, atoms, a) &&
    forall x :: 0 <= x < |atoms| ==> a[x] == Expected(atoms, hl, k, x)
  }

  /** The conditions on the hydrogen lists hl that the step lemmas rely on. */
  ghost predicate GoodLists(types: seq<AtomType>, atoms: seq<ResidueAtom>, hl: seq<seq<int>>) {
    |hl| == |atoms| && ListsOfHydrogens(types, atoms, hl) && ListedOnce(hl)
  }

  /** The atom loop over a well-formed residue never fails, and does what Visited says. */
  lemma {:induction false} AtomPassCharacterised(types: seq<AtomType>, atoms: seq<ResidueAtom>, bonds: seq<(int, int)>,
                                                 lists: seq<seq<int>>, k: nat)
    requires WellFormedResidue(types, atoms, bonds) && k <= |atoms|
    requires |lists| == |atoms| && forall j :: 0 <= j < |atoms| ==> lists[j] == NeighboursOf(|atoms|, bonds, j)
    ensures AtomPass(types, atoms, lists, k).Ok?
    ensures var hl := HydrogenLists(types, atoms, bonds);
      GoodLists(types, atoms, hl) &&
      Visited(types, atoms, hl, k, AtomPass(types, atoms, lists, k).value.0, AtomPass(types, atoms, lists, k).value.1)
  {
    var hl := HydrogenLists(types, atoms, bonds);
    HydrogenListsOfHydrogens(types, atoms, bonds);
    if k > 0 {
      AtomPassCharacterised(types, atoms, bonds, lists, k - 1);
      var (a, mk) := AtomPass(types, atoms, lists, k - 1).value;
      var h := hl[k - 1];
      StepFindsHydrogens(types, atoms, bonds, k - 1, a);
      assert HydrogensOf(types, a, lists[k - 1]) == Ok(h);
      if h == [] {
        assert AtomPass(types, atoms, lists, k) == Ok((a, mk));
        StepWithoutHydrogens(types, atoms, hl, k - 1, a, mk);
      } else {
        StepRedirects(types, atoms, hl, k - 1, a, mk);
        assert AtomPass(types, atoms, lists, k) == Redirect(|types|, a, mk, h[0], h[1..]);
      }
    } else {
      assert IdsInRange(|types|, atoms);
      assert forall x :: 0 <= x < |atoms| ==> LeaderBefore(|atoms|, hl, 0, x).None?;
    }
  }

  /**
   * Visiting atom k, on a residue that agrees with the one read about which
   * atoms are hydrogens, computes the hydrogen list of the residue as read.
   */
  lemma StepFindsHydrogens(types: seq<AtomType>, atoms: seq<ResidueAtom>, bonds: seq<(int, int)>, k: nat,
                           a: seq<ResidueAtom>)
    requires BondsInRange(|atoms|, bonds) && k < |atoms|
    requires |a| == |atoms| && IdsInRange(|types|, a) && SameKinds(types, atoms, a)
    ensures HydrogensOf(types, a, NeighboursOf(|atoms|, bonds, k)) == Ok(HydrogenList(types, atoms, bonds, k))
  {
    var ns := NeighboursOf(|atoms|, bonds, k);
    forall i | 0 <= i < |ns| ensures Typed(types, a, ns[i]) && IsHydrogenAtom(types, a, ns[i]) == IsHydrogenAtom(types, atoms, ns[i]) {
      NeighboursOfMembers(|atoms|, bonds, k, ns[i]);
    }
    HydrogenFilterSameKinds(types, a, atoms, ns);
  }

  /** An atom with no hydrogen neighbours changes nothing. */
  lemma StepWithoutHydrogens(types: seq<AtomType>, atoms: seq<ResidueAtom>, hl: seq<seq<int>>, k: nat,
                             a: seq<ResidueAtom>, mk: set<int>)
    requires GoodLists(types, atoms, hl) && k < |hl|
    requires Visited(types, atoms, hl, k, a, mk) && hl[k] == []
    ensures Visited(types, atoms, hl, k + 1, a, mk)
  {
    forall x | 0 <= x < |atoms| ensures a[x] == Expected(atoms, hl, k + 1, x) {
      assert LeaderBefore(|atoms|, hl, k + 1, x) == LeaderBefore(|atoms|, hl, k, x);
    }
  }

  /** An atom with hydrogen neighbours redirects all but the first of them to the first. */
  lemma StepRedirects(types: seq<AtomType>, atoms: seq<ResidueAtom>, hl: seq<seq<int>>, k: nat,
                      a: seq<ResidueAtom>, mk: set<int>)
    requires GoodLists(types, atoms, hl) && k < |hl|
    requires Visited(types, atoms, hl, k, a, mk) && hl[k] != []
    ensures var h := hl[k];
      Redirect(|types|, a, mk, h[0], h[1..]).Ok? &&
      Visited(types, atoms, hl, k + 1, Redirect(|types|, a, mk, h[0], h[1..]).value.0,
              Redirect(|types|, a, mk, h[0], h[1..]).value.1)
  {
    var h := hl[k];
    var l := h[0];
    var hs := h[1..];
    FollowersUntouched(types, atoms, hl, k, a, mk);
    RedirectAll(|types|, a, mk, l, hs);
    var (a', mk') := Redirect(|types|, a, mk, l, hs).value;
    TypeIdsOfSame(a, atoms, hs);
    assert PyFrom(h, 1) == hs;
    assert mk' == MarksBefore(atoms, hl, k + 1);
    RetypedKeepsKinds(types, atoms, a, a', l, hs);
    RetypedAsExpected(atoms, hl, k, a, a');
  }

  /** Giving hydrogens the type of another hydrogen keeps every atom's kind and every type id in range. */
  lemma RetypedKeepsKinds(types: seq<AtomType>, atoms: seq<ResidueAtom>, a: seq<ResidueAtom>, a': seq<ResidueAtom>,
                          l: nat, hs: seq<int>)
    requires |a| == |atoms| == |a'| && l < |a| && a[l] == atoms[l]
    requires IdsInRange(|types|, a) && SameKinds(types, atoms, a)
    requires IsHydrogenAtom(types, atoms, l)
    requires forall i :: 0 <= i < |hs| ==> 0 <= hs[i] < |a| && IsHydrogenAtom(types, atoms, hs[i])
    requires forall x :: 0 <= x < |a| ==> a'[x] == if x in hs then a[x].(typeId := a[l].typeId) else a[x]
    ensures IdsInRange(|types|, a') && SameKinds(types, atoms, a')
  {
    forall x | 0 <= x < |atoms| ensures IsHydrogenAtom(types, a', x) == IsHydrogenAtom(types, atoms, x) {
      if x in hs {
        var i :| 0 <= i < |hs| && hs[i] == x;
        assert IsHydrogenAtom(types, a', x) == IsHydrogenAtom(types, a, l);
      }
    }
  }

  /** After the redirect of list k, every atom is as Expected says for k + 1 visits. */
  lemma RetypedAsExpected(atoms: seq<ResidueAtom>, hl: seq<seq<int>>, k: nat, a: seq<ResidueAtom>, a': seq<ResidueAtom>)
    requires Within(|atoms|, hl) && ListedOnce(hl) && k < |hl| && hl[k] != [] && |a| == |atoms| == |a'|
    requires a[hl[k][0]] == atoms[hl[k][0]]
    requires forall x :: 0 <= x < |atoms| ==> a[x] == Expected(atoms, hl, k, x)
    requires forall x :: 0 <= x < |a| ==>
      a'[x] == if x in hl[k][1..] then a[x].(typeId := a[hl[k][0]].typeId) else a[x]
    ensures forall x :: 0 <= x < |atoms| ==> a'[x] == Expected(atoms, hl, k + 1, x)
  {
    forall x | 0 <= x < |atoms| ensures a'[x] == Expected(atoms, hl, k + 1, x) {
      if x in hl[k][1..] {
        var i :| 0 <= i < |hl[k][1..]| && hl[k][1..][i] == x;
        NotRedirectedBefore(|atoms|, hl, k, k, i + 1);
        assert LeaderBefore(|atoms|, hl, k + 1, x) == Some(hl[k][0]);
      } else {
        assert LeaderBefore(|atoms|, hl, k + 1, x) == LeaderBefore(|atoms|, hl, k, x);
      }
    }
  }

  /**
   * Before atom k is visited, its hydrogens are all as read, and they are
   * distinct atoms of the residue.
   */
  lemma FollowersUntouched(types: seq<AtomType>, atoms: seq<ResidueAtom>, hl: seq<seq<int>>, k: nat,
                           a: seq<ResidueAtom>, mk: set<int>)
    requires GoodLists(types, atoms, hl) && k < |hl|
    requires Visited(types, atoms, hl, k, a, mk) && hl[k] != []
    ensures var h := hl[k];
      0 <= h[0] < |a| && a[h[0]] == atoms[h[0]] &&
      (forall i :: 1 <= i < |h| ==> 0 <= h[i] < |a| && h[i] != h[0] && a[h[i]] == atoms[h[i]]) &&
      (forall i, i' :: 1 <= i < i' < |h| ==> h[i] != h[i'])
  {
    var h := hl[k];
    NotRedirectedBefore(|atoms|, hl, k, k, 0);
    forall i | 1 <= i < |h| ensures 0 <= h[i] < |a| && h[i] != h[0] && a[h[i]] == atoms[h[i]] {
      NotRedirectedBefore(|atoms|, hl, k, k, i);
      assert ListedApart(hl, k, 0, k, i);
    }
    forall i, i' | 1 <= i < i' < |h| ensures h[i] != h[i'] {
      assert ListedApart(hl, k, i, k, i');
    }
  }

  /** Two residues that agree at the positions hs give the same type ids there. */
  lemma {:induction false} TypeIdsOfSame(a1: seq<ResidueAtom>, a2: seq<ResidueAtom>, hs: seq<int>)
    requires forall i :: 0 <= i < |hs| ==> 0 <= hs[i] < |a1| && 0 <= hs[i] < |a2| && a1[hs[i]] == a2[hs[i]]
    ensures TypeIdsOf(a1, hs) == TypeIdsOf(a2, hs)
  {
    if hs != [] {
      TypeIdsOfSame(a1, a2, hs[..|hs| - 1]);
    }
  }

  // ---------------------------------------------------------------- one residue, start to end

  /** Ids of distinct atoms of the residue differ. */
  ghost predicate DistinctIds(atoms: seq<ResidueAtom>) {
    forall x, y :: 0 <= x < |atoms| && 0 <= y < |atoms| && x != y ==> atoms[x].typeId != atoms[y].typeId
  }

  /**
   * The first pass over a well-formed residue succeeds; each atom ends as
   * Expected says once all atoms are visited, and the marks are those of all
   * its hydrogen lists.
   */
  lemma ResidueMergeCharacterised(types: seq<AtomType>, atoms: seq<ResidueAtom>, bonds: seq<(int, int)>)
    requires WellFormedResidue(types, atoms, bonds)
    ensures ResidueMerge(types, atoms, bonds).Ok?
    ensures var hl := HydrogenLists(types, atoms, bonds);
      var (a, mk) := ResidueMerge(types, atoms, bonds).value;
      GoodLists(types, atoms, hl) && |a| == |atoms| && mk == MarksBefore(atoms, hl, |atoms|) &&
      forall x :: 0 <= x < |atoms| ==> a[x] == Expected(atoms, hl, |atoms|, x)
  {
    var lists := seq(|atoms|, j requires 0 <= j < |atoms| => NeighboursOf(|atoms|, bonds, j));
    assert AtomBonds(|atoms|, bonds) == Ok(lists);
    AtomPassCharacterised(types, atoms, bonds, lists, |atoms|);
  }

  /** The first entry of a list is never redirected: it is listed nowhere else. */
  lemma {:induction false} FirstNeverFollows(n: nat, hl: seq<seq<int>>, j: nat, k: nat)
    requires Within(n, hl) && ListedOnce(hl)
    requires j < |hl| && hl[j] != [] && k <= |hl|
    ensures LeaderBefore(n, hl, k, hl[j][0]).None?
  {
    if k > 0 {
      if k - 1 == j {
        forall i | 0 <= i < |hl[j][1..]| ensures hl[j][1..][i] != hl[j][0] {
          assert ListedApart(hl, j, 0, j, i + 1);
        }
      } else {
        ListedInOneList(hl, k - 1, j, 0);
      }
      FirstNeverFollows(n, hl, j, k - 1);
    }
  }

  /** A leader is never itself redirected. */
  lemma {:induction false} LeaderNeverFollows(n: nat, hl: seq<seq<int>>, k: nat, x: int)
    requires Within(n, hl) && ListedOnce(hl) && k <= |hl|
    requires LeaderBefore(n, hl, k, x).Some?
    ensures LeaderBefore(n, hl, |hl|, LeaderBefore(n, hl, k, x).value).None?
  {
    if hl[k - 1] != [] && x in hl[k - 1][1..] {
      FirstNeverFollows(n, hl, k - 1, |hl|);
    } else {
      LeaderNeverFollows(n, hl, k - 1, x);
    }
  }

  /** Where atom ids are distinct, atom y's id is among the ids of the atoms at hs exactly when y is. */
  lemma {:induction false} TypeIdsOfMember(a: seq<ResidueAtom>, hs: seq<int>, y: nat)
    requires DistinctIds(a) && y < |a|
    requires forall i :: 0 <= i < |hs| ==> 0 <= hs[i] < |a|
    ensures a[y].typeId in TypeIdsOf(a, hs) <==> y in hs
  {
    if hs != [] {
      TypeIdsOfMember(a, hs[..|hs| - 1], y);
      assert hs == hs[..|hs| - 1] + [hs[|hs| - 1]];
    }
  }

  /** Every id among the ids of the atoms at hs is the id of one of them. */
  lemma {:induction false} TypeIdsOfHeld(a: seq<ResidueAtom>, hs: seq<int>, t: int)
    requires forall i :: 0 <= i < |hs| ==> 0 <= hs[i] < |a|
    requires t in TypeIdsOf(a, hs)
    ensures exists y :: 0 <= y < |a| && a[y].typeId == t
  {
    if a[hs[|hs| - 1]].typeId != t {
      TypeIdsOfHeld(a, hs[..|hs| - 1], t);
    }
  }

  /** Where atom ids are distinct, atom y's original id is marked exactly when y is redirected. */
  lemma {:induction false} MarkedIffRedirected(atoms: seq<ResidueAtom>, hl: seq<seq<int>>, k: nat, y: nat)
    requires Within(|atoms|, hl) && k <= |hl| && DistinctIds(atoms) && y < |atoms|
    ensures atoms[y].typeId in MarksBefore(atoms, hl, k) <==> LeaderBefore(|atoms|, hl, k, y).Some?
  {
    if k > 0 {
      MarkedIffRedirected(atoms, hl, k - 1, y);
      var h := hl[k - 1];
      TypeIdsOfMember(atoms, PyFrom(h, 1), y);
      if h == [] {
        assert PyFrom(h, 1) == [];
      }
    }
  }

  /** Every mark is the original id of some atom of the residue. */
  lemma {:induction false} MarksHeld(atoms: seq<ResidueAtom>, hl: seq<seq<int>>, k: nat, t: int)
    requires Within(|atoms|, hl) && k <= |hl| && t in MarksBefore(atoms, hl, k)
    ensures exists y :: 0 <= y < |atoms| && atoms[y].typeId == t
  {
    if t in MarksBefore(atoms, hl, k - 1) {
      MarksHeld(atoms, hl, k - 1, t);
    } else {
      TypeIdsOfHeld(atoms, PyFrom(hl[k - 1], 1), t);
    }
  }

  // ---------------------------------------------------------------- the second and third passes

  /** The new type table: the types whose position is not marked, in order. */
  function Survivors(types: seq<AtomType>, removed: set<int>): seq<AtomType> {
    if types == [] then []
    else Survivors(types[..|types| - 1], removed) + (if |types| - 1 in removed then [] else [types[|types| - 1]])
  }

  /** How many of the positions below k are not marked. */
  function Kept(removed: set<int>, k: nat): nat {
    if k == 0 then 0 else Kept(removed, k - 1) + (if k - 1 in removed then 0 else 1)
  }

  /**
   * `replaceWithType`: position i maps to the index in newTypes of the last
   * surviving type at or before i, which is -1 when there is none.
   */
  function ReplaceTable(n: nat, removed: set<int>): (rw: seq<int>)
    ensures |rw| == n
  {
    seq(n, i requires 0 <= i < n => Kept(removed, i + 1) - 1)
  }

  /** Each atom of a residue in turn takes the replacement of its type id; IndexError when an id is outside the table. */
  function Renumber(rw: seq<int>, atoms: seq<ResidueAtom>): Result<seq<ResidueAtom>> {
    if atoms == [] then Ok([])
    else
      match Renumber(rw, atoms[..|atoms| - 1])
      case Err(f) => Err(f)
      case Ok(done) =>
        match PyGet(rw, atoms[|atoms| - 1].typeId)
        case None => Err(IndexError)
        case Some(t) => Ok(done + [atoms[|atoms| - 1].(typeId := t)])
  }

  /** newTypes holds one type per unmarked position. */
  lemma {:induction false} SurvivorsCount(types: seq<AtomType>, removed: set<int>)
    ensures |Survivors(types, removed)| == Kept(removed, |types|)
  {
    if types != [] {
      SurvivorsCount(types[..|types| - 1], removed);
    }
  }

  /** An unmarked type keeps its tuple at its new position, the one replaceWithType gives it. */
  lemma {:induction false} SurvivorAt(types: seq<AtomType>, removed: set<int>, i: nat)
    requires i < |types| && i !in removed
    ensures 0 <= Kept(removed, i + 1) - 1 < |Survivors(types, removed)|
    ensures Survivors(types, removed)[Kept(removed, i + 1) - 1] == types[i]
  {
    var init := types[..|types| - 1];
    if i == |types| - 1 {
      SurvivorsCount(init, removed);
    } else {
      SurvivorAt(init, removed, i);
    }
  }

  /** Unmarked types keep their relative order. */
  lemma {:induction false} KeptIncreases(removed: set<int>, i: nat, i': nat)
    requires i < i' && i' !in removed
    ensures Kept(removed, i + 1) < Kept(removed, i' + 1)
  {
    KeptGrows(removed, i + 1, i');
  }

  /** Kept never decreases. */
  lemma {:induction false} KeptGrows(removed: set<int>, k: nat, k': nat)
    requires k <= k'
    ensures Kept(removed, k) <= Kept(removed, k')
  {
    if k < k' {
      KeptGrows(removed, k, k' - 1);
    }
  }

  /** Kept counts the positions below k outside removed. */
  lemma {:induction false} KeptBelow(removed: set<int>, k: nat)
    ensures Kept(removed, k) == k - |set i | i in removed && 0 <= i < k|
  {
    if k > 0 {
      KeptBelow(removed, k - 1);
      var below := set i | i in removed && 0 <= i < k - 1;
      if k - 1 in removed {
        assert (set i | i in removed && 0 <= i < k) == below + {k - 1};
      } else {
        assert (set i | i in removed && 0 <= i < k) == below;
      }
    }
  }

  /** With every mark a position of the table, newTypes is the table minus one entry per mark. */
  lemma KeptCount(types: seq<AtomType>, removed: set<int>)
    requires forall t :: t in removed ==> 0 <= t < |types|
    ensures |Survivors(types, removed)| == |types| - |removed|
  {
    SurvivorsCount(types, removed);
    KeptBelow(removed, |types|);
    assert (set i | i in removed && 0 <= i < |types|) == removed;
  }

  /** Renumbering a residue whose ids all index the table replaces each id by its table entry. */
  lemma {:induction false} RenumberAll(rw: seq<int>, atoms: seq<ResidueAtom>)
    requires IdsInRange(|rw|, atoms)
    ensures Renumber(rw, atoms).Ok?
    ensures var a := Renumber(rw, atoms).value;
      |a| == |atoms| && forall x :: 0 <= x < |atoms| ==> a[x] == atoms[x].(typeId := rw[atoms[x].typeId])
  {
    if atoms != [] {
      RenumberAll(rw, atoms[..|atoms| - 1]);
    }
  }

  // ---------------------------------------------------------------- the whole model

  /** The first pass over residue r; a residue without a bond list is skipped. */
  function MergeOf(m: Model, r: string): Result<(seq<ResidueAtom>, set<int>)>
    requires r in m.residueAtoms
  {
    if r !in m.residueBonds then Ok((m.residueAtoms[r], {}))
    else ResidueMerge(m.types, m.residueAtoms[r], m.residueBonds[r])
  }

  /** The first pass succeeds on every residue. */
  ghost predicate MergesSucceed(m: Model) {
    forall r :: r in m.residueAtoms ==> MergeOf(m, r).Ok?
  }

  /** removeType after the first pass: the marks of every residue. */
  ghost function Removed(m: Model): set<int>
    requires MergesSucceed(m)
  {
    set r, t | r in m.residueAtoms && t in MergeOf(m, r).value.1 :: t
  }

  /** The residues as the first pass leaves them. */
  ghost function Merged(m: Model): map<string, seq<ResidueAtom>>
    requires MergesSucceed(m)
  {
    map r | r in m.residueAtoms :: MergeOf(m, r).value.0
  }

  /** The third pass over every residue: IndexError when some id is outside the table. */
  ghost function RenumberEach(rw: seq<int>, residues: map<string, seq<ResidueAtom>>)
    : Result<map<string, seq<ResidueAtom>>>
  {
    if exists r :: r in residues && Renumber(rw, residues[r]).Err? then Err(IndexError)
    else Ok(map r | r in residues :: Renumber(rw, residues[r]).value)
  }

  /**
   * reduce_atomtypes on the whole model: the first pass over every residue,
   * the new type table, then the third pass over every residue. The residues
   * are visited in dictionary order, but each pass over a residue reads only
   * the type table and that residue, and every failure is an IndexError, so
   * the result does not depend on that order. What the model holds after a
   * failure is not modelled.
   */
  ghost function Reduce(m: Model): Result<Model> {
    if !MergesSucceed(m) then Err(IndexError)
    else
      var removed := Removed(m);
      match RenumberEach(ReplaceTable(|m.types|, removed), Merged(m))
      case Err(f) => Err(f)
      case Ok(residues) => Ok(m.(types := Survivors(m.types, removed), residueAtoms := residues))
  }

  /** The first pass over r reads only the type table, r's atoms and r's bonds. */
  lemma MergeOfFrame(m: Model, n: Model, r: string)
    requires r in m.residueAtoms && r in n.residueAtoms && n.residueAtoms[r] == m.residueAtoms[r]
    requires n.types == m.types && n.residueBonds == m.residueBonds
    ensures MergeOf(n, r) == MergeOf(m, r)
  { }

  /** Once the first pass succeeds, the outcome is that of the third pass over the merged residues. */
  lemma ReduceOfPasses(m: Model)
    requires MergesSucceed(m)
    ensures var rw := ReplaceTable(|m.types|, Removed(m));
      var e := RenumberEach(rw, Merged(m));
      (e.Ok? ==> Reduce(m) == Ok(m.(types := Survivors(m.types, Removed(m)), residueAtoms := e.value))) &&
      (e.Err? ==> Reduce(m) == Err(e.failure))
  { }

  /** Residue r can be visited: its bonds stay inside it. */
  ghost predicate Bonded(m: Model, r: string) {
    r in m.residueAtoms && (r in m.residueBonds ==> BondsInRange(|m.residueAtoms[r]|, m.residueBonds[r]))
  }

  /** Atom x of residue r is redirected to a leader by the first pass. */
  ghost predicate Redirected(m: Model, r: string, x: nat)
    requires Bonded(m, r) && x < |m.residueAtoms[r]|
  {
    r in m.residueBonds &&
    var hl := HydrogenLists(m.types, m.residueAtoms[r], m.residueBonds[r]);
    HydrogenListsOfHydrogens(m.types, m.residueAtoms[r], m.residueBonds[r]);
    LeaderBefore(|m.residueAtoms[r]|, hl, |hl|, x).Some?
  }

  /** The atom whose original type atom x of residue r carries after the first pass: its leader, or itself. */
  ghost function Origin(m: Model, r: string, x: nat): (y: nat)
    requires Bonded(m, r) && x < |m.residueAtoms[r]|
    ensures y < |m.residueAtoms[r]|
  {
    if !Redirected(m, r, x) then x
    else
      var hl := HydrogenLists(m.types, m.residueAtoms[r], m.residueBonds[r]);
      HydrogenListsOfHydrogens(m.types, m.residueAtoms[r], m.residueBonds[r]);
      LeaderBefore(|m.residueAtoms[r]|, hl, |hl|, x).value
  }

  /** The conditions under which reduce_atomtypes does what its docstring says, residue by residue. */
  ghost predicate ResidueReady(m: Model, r: string) {
    r in m.residueAtoms && IdsInRange(|m.types|, m.residueAtoms[r]) && DistinctIds(m.residueAtoms[r]) &&
    (r in m.residueBonds ==> WellFormedResidue(m.types, m.residueAtoms[r], m.residueBonds[r]))
  }

  /** Atom i1 of residue r1 and atom i2 of residue r2 hold different type ids unless they are the same atom. */
  ghost predicate IdsApart(m: Model, r1: string, i1: int, r2: string, i2: int) {
    r1 in m.residueAtoms && r2 in m.residueAtoms &&
    0 <= i1 < |m.residueAtoms[r1]| && 0 <= i2 < |m.residueAtoms[r2]| &&
    m.residueAtoms[r1][i1].typeId == m.residueAtoms[r2][i2].typeId ==>
    r1 == r2 && i1 == i2
  }

  /**
   * Every atom holds its own type inside the type table, as the library reader
   * leaves it, and in every residue no hydrogen is bonded twice, whether to one
   * atom or two.
   */
  ghost predicate Reducible(m: Model) {
    (forall r :: r in m.residueAtoms ==> IdsInRange(|m.types|, m.residueAtoms[r])) &&
    (forall r1, i1, r2, i2 :: IdsApart(m, r1, i1, r2, i2)) &&
    forall r :: r in m.residueAtoms && r in m.residueBonds ==>
      BondsInRange(|m.residueAtoms[r]|, m.residueBonds[r]) &&
      ListedOnce(HydrogenLists(m.types, m.residueAtoms[r], m.residueBonds[r]))
  }

  /** The library reader's invariant gives the first two conditions of Reducible. */
  lemma FreshIdsApart(m: Model)
    requires FreshIds(m)
    ensures forall r :: r in m.residueAtoms ==> IdsInRange(|m.types|, m.residueAtoms[r])
    ensures forall r1, i1, r2, i2 :: IdsApart(m, r1, i1, r2, i2)
  { }

  /**
   * On a ready residue the first pass succeeds; each atom takes the original
   * type of its origin, which is never itself redirected; and the marks are the
   * original types of the redirected atoms.
   */
  lemma MergeOfCharacterised(m: Model, r: string)
    requires ResidueReady(m, r)
    ensures Bonded(m, r) && MergeOf(m, r).Ok?
    ensures var atoms := m.residueAtoms[r];
      var (a, mk) := MergeOf(m, r).value;
      |a| == |atoms| &&
      (forall x :: 0 <= x < |atoms| ==>
        a[x] == atoms[x].(typeId := atoms[Origin(m, r, x)].typeId) && !Redirected(m, r, Origin(m, r, x))) &&
      (forall t :: t in mk ==> exists y :: 0 <= y < |atoms| && atoms[y].typeId == t && Redirected(m, r, y))
  {
    if r in m.residueBonds {
      var atoms := m.residueAtoms[r];
      var bonds := m.residueBonds[r];
      var hl := HydrogenLists(m.types, atoms, bonds);
      ResidueMergeCharacterised(m.types, atoms, bonds);
      var (a, mk) := MergeOf(m, r).value;
      forall x | 0 <= x < |atoms|
        ensures a[x] == atoms[x].(typeId := atoms[Origin(m, r, x)].typeId) && !Redirected(m, r, Origin(m, r, x))
      {
        if Redirected(m, r, x) {
          LeaderNeverFollows(|atoms|, hl, |hl|, x);
        }
      }
      forall t | t in mk ensures exists y :: 0 <= y < |atoms| && atoms[y].typeId == t && Redirected(m, r, y) {
        MarksHeld(atoms, hl, |hl|, t);
        var y :| 0 <= y < |atoms| && atoms[y].typeId == t;
        MarkedIffRedirected(atoms, hl, |hl|, y);
      }
    }
  }

  /** Under Reducible every residue is ready. */
  lemma ReducibleResidue(m: Model, r: string)
    requires Reducible(m) && r in m.residueAtoms
    ensures ResidueReady(m, r)
  {
    var atoms := m.residueAtoms[r];
    forall x, y | 0 <= x < |atoms| && 0 <= y < |atoms| && x != y ensures atoms[x].typeId != atoms[y].typeId {
      assert IdsApart(m, r, x, r, y);
    }
  }

  /** Every mark is a type position, and the original type of a redirected atom. */
  lemma RemovedHeld(m: Model, t: int)
    requires Reducible(m) && MergesSucceed(m) && t in Removed(m)
    ensures 0 <= t < |m.types|
    ensures exists r, y :: (r in m.residueAtoms && Bonded(m, r) && 0 <= y < |m.residueAtoms[r]| &&
      m.residueAtoms[r][y].typeId == t && Redirected(m, r, y))
  {
    var r :| r in m.residueAtoms && t in MergeOf(m, r).value.1;
    ReducibleResidue(m, r);
    MergeOfCharacterised(m, r);
    var y :| 0 <= y < |m.residueAtoms[r]| && m.residueAtoms[r][y].typeId == t && Redirected(m, r, y);
  }

  /** The original type of an atom's origin is never removed. */
  lemma OriginKept(m: Model, r: string, x: nat)
    requires Reducible(m) && MergesSucceed(m) && r in m.residueAtoms && x < |m.residueAtoms[r]|
    ensures Bonded(m, r) && m.residueAtoms[r][Origin(m, r, x)].typeId !in Removed(m)
  {
    ReducibleResidue(m, r);
    MergeOfCharacterised(m, r);
    var o := Origin(m, r, x);
    var t0 := m.residueAtoms[r][o].typeId;
    forall t | t in Removed(m) ensures t != t0 {
      RemovedHeld(m, t);
      var r', y :| r' in m.residueAtoms && Bonded(m, r') && 0 <= y < |m.residueAtoms[r']| &&
        m.residueAtoms[r'][y].typeId == t && Redirected(m, r', y);
      assert r' != r || y != o;
      assert IdsApart(m, r', y, r, o);
    }
  }

  /** Every mark is a position of the type table. */
  lemma RemovedInTable(m: Model)
    requires Reducible(m) && MergesSucceed(m)
    ensures forall t :: t in Removed(m) ==> 0 <= t < |m.types|
  {
    forall t | t in Removed(m) ensures 0 <= t < |m.types| {
      RemovedHeld(m, t);
    }
  }

  /** The first pass succeeds on a reducible model. */
  lemma ReducibleMerges(m: Model)
    requires Reducible(m)
    ensures MergesSucceed(m)
  {
    forall r | r in m.residueAtoms ensures MergeOf(m, r).Ok? {
      ReducibleResidue(m, r);
      MergeOfCharacterised(m, r);
    }
  }

  /**
   * Renumbering a residue whose ids are all unmarked positions of the type
   * table moves each atom to the new position of its type, which holds the same
   * type tuple.
   */
  lemma RenumberKept(types: seq<AtomType>, removed: set<int>, atoms: seq<ResidueAtom>)
    requires forall x :: 0 <= x < |atoms| ==> 0 <= atoms[x].typeId < |types| && atoms[x].typeId !in removed
    ensures Renumber(ReplaceTable(|types|, removed), atoms).Ok?
    ensures var a := Renumber(ReplaceTable(|types|, removed), atoms).value;
      var survivors := Survivors(types, removed);
      |a| == |atoms| &&
      forall x :: 0 <= x < |atoms| ==>
        a[x] == atoms[x].(typeId := Kept(removed, atoms[x].typeId + 1) - 1) &&
        0 <= a[x].typeId < |survivors| && survivors[a[x].typeId] == types[atoms[x].typeId]
  {
    RenumberAll(ReplaceTable(|types|, removed), atoms);
    forall x | 0 <= x < |atoms|
      ensures 0 <= Kept(removed, atoms[x].typeId + 1) - 1 < |Survivors(types, removed)|
      ensures Survivors(types, removed)[Kept(removed, atoms[x].typeId + 1) - 1] == types[atoms[x].typeId]
    {
      SurvivorAt(types, removed, atoms[x].typeId);
    }
  }

  /**
   * The third pass on one residue: each atom gets the new position of its
   * origin's original type, which holds that very type tuple.
   */
  lemma RenumberedResidue(m: Model, r: string)
    requires Reducible(m) && MergesSucceed(m) && r in m.residueAtoms
    ensures var rw := ReplaceTable(|m.types|, Removed(m));
      var atoms := m.residueAtoms[r];
      Bonded(m, r) && IdsInRange(|m.types|, atoms) && Renumber(rw, MergeOf(m, r).value.0).Ok? &&
      var a := Renumber(rw, MergeOf(m, r).value.0).value;
      var survivors := Survivors(m.types, Removed(m));
      |a| == |atoms| &&
      forall x :: 0 <= x < |atoms| ==>
        a[x].name == atoms[x].name &&
        0 <= a[x].typeId < |survivors| && survivors[a[x].typeId] == m.types[atoms[Origin(m, r, x)].typeId] &&
        a[x].typeId == Kept(Removed(m), atoms[Origin(m, r, x)].typeId + 1) - 1
  {
    var atoms := m.residueAtoms[r];
    ReducibleResidue(m, r);
    MergeOfCharacterised(m, r);
    var merged := MergeOf(m, r).value.0;
    forall x | 0 <= x < |merged| ensures 0 <= merged[x].typeId < |m.types| && merged[x].typeId !in Removed(m) {
      OriginKept(m, r, x);
    }
    RenumberKept(m.types, Removed(m), merged);
  }

  /**
   * reduce_atomtypes on a reducible model succeeds and changes only the type
   * table and the residues' type ids. The new table is the old one without the
   * removed types, in order; every atom keeps its name and gets an id inside the
   * new table whose type tuple is that of its origin; ids follow the order of
   * the old table. The type names are left as they were.
   */
  lemma ReduceCharacterised(m: Model)
    requires Reducible(m)
    ensures MergesSucceed(m) && Reduce(m).Ok?
    ensures var n := Reduce(m).value;
      n == m.(types := n.types, residueAtoms := n.residueAtoms) &&
      n.types == Survivors(m.types, Removed(m)) && |n.types| == |m.types| - |Removed(m)| &&
      n.residueAtoms.Keys == m.residueAtoms.Keys &&
      forall r :: r in m.residueAtoms ==>
        Bonded(m, r) && IdsInRange(|m.types|, m.residueAtoms[r]) && |n.residueAtoms[r]| == |m.residueAtoms[r]| &&
        forall x :: 0 <= x < |m.residueAtoms[r]| ==>
          n.residueAtoms[r][x].name == m.residueAtoms[r][x].name &&
          0 <= n.residueAtoms[r][x].typeId < |n.types| &&
          n.types[n.residueAtoms[r][x].typeId] == m.types[m.residueAtoms[r][Origin(m, r, x)].typeId] &&
          n.residueAtoms[r][x].typeId == Kept(Removed(m), m.residueAtoms[r][Origin(m, r, x)].typeId + 1) - 1
  {
    ReducibleMerges(m);
    var removed := Removed(m);
    var rw := ReplaceTable(|m.types|, removed);
    RemovedInTable(m);
    KeptCount(m.types, removed);
    forall r | r in m.residueAtoms ensures Renumber(rw, MergeOf(m, r).value.0).Ok? {
      RenumberedResidue(m, r);
    }
    var n := Reduce(m).value;
    forall r | r in m.residueAtoms
      ensures Bonded(m, r) && IdsInRange(|m.types|, m.residueAtoms[r]) && |n.residueAtoms[r]| == |m.residueAtoms[r]| &&
        forall x :: 0 <= x < |m.residueAtoms[r]| ==>
          n.residueAtoms[r][x].name == m.residueAtoms[r][x].name &&
          0 <= n.residueAtoms[r][x].typeId < |n.types| &&
          n.types[n.residueAtoms[r][x].typeId] == m.types[m.residueAtoms[r][Origin(m, r, x)].typeId] &&
          n.residueAtoms[r][x].typeId == Kept(removed, m.residueAtoms[r][Origin(m, r, x)].typeId + 1) - 1
    {
      RenumberedResidue(m, r);
    }
  }

  // ---------------------------------------------------------------- what the reduction promises

  /** Every later entry of list j is led by the first entry of list j. */
  lemma {:induction false} ListedLedByFirst(n: nat, hl: seq<seq<int>>, j: nat, i: nat, k: nat)
    requires Within(n, hl) && ListedOnce(hl)
    requires j < k <= |hl| && 1 <= i < |hl[j]|
    ensures LeaderBefore(n, hl, k, hl[j][i]) == Some(hl[j][0])
  {
    if k - 1 == j {
      assert hl[j][1..][i - 1] == hl[j][i];
    } else {
      ListedInOneList(hl, k - 1, j, i);
      ListedLedByFirst(n, hl, j, i, k - 1);
    }
  }

  /** A leader is the first entry of a list that holds the led atom after its first entry. */
  lemma {:induction false} LeaderHeadsList(n: nat, hl: seq<seq<int>>, k: nat, x: int)
    requires Within(n, hl) && k <= |hl| && LeaderBefore(n, hl, k, x).Some?
    ensures exists j :: (0 <= j < k && hl[j] != [] && hl[j][0] == LeaderBefore(n, hl, k, x).value &&
                         x in hl[j][1..])
  {
    if !(hl[k - 1] != [] && x in hl[k - 1][1..]) {
      LeaderHeadsList(n, hl, k - 1, x);
    }
  }

  /**
   * The first pass redirects an atom only to a hydrogen bonded to the same atom
   * as it is: both are on one hydrogen list, the origin first.
   */
  lemma OriginBondedAlike(m: Model, r: string, x: nat)
    requires Bonded(m, r) && x < |m.residueAtoms[r]| && Redirected(m, r, x)
    ensures var atoms := m.residueAtoms[r];
      exists j :: (0 <= j < |atoms| && HydrogenList(m.types, atoms, m.residueBonds[r], j) != [] &&
        HydrogenList(m.types, atoms, m.residueBonds[r], j)[0] == Origin(m, r, x) &&
        x in HydrogenList(m.types, atoms, m.residueBonds[r], j)[1..])
  {
    var atoms := m.residueAtoms[r];
    var hl := HydrogenLists(m.types, atoms, m.residueBonds[r]);
    HydrogenListsOfHydrogens(m.types, atoms, m.residueBonds[r]);
    LeaderHeadsList(|atoms|, hl, |hl|, x);
  }

  /** The new id of atom x of residue r is the new position of its origin's original type. */
  lemma NewId(m: Model, r: string, x: nat)
    requires Reducible(m) && r in m.residueAtoms && x < |m.residueAtoms[r]|
    ensures MergesSucceed(m) && Reduce(m).Ok? && Bonded(m, r)
    ensures var a := Reduce(m).value.residueAtoms;
      var o := Origin(m, r, x);
      r in a && x < |a[r]| && 0 <= m.residueAtoms[r][o].typeId < |m.types| &&
      m.residueAtoms[r][o].typeId !in Removed(m) &&
      a[r][x].typeId == Kept(Removed(m), m.residueAtoms[r][o].typeId + 1) - 1
  {
    ReduceCharacterised(m);
    OriginKept(m, r, x);
  }

  /**
   * The docstring's promise: after reduce_atomtypes every hydrogen bonded to
   * one atom of a residue carries the same type id as the first of them.
   */
  lemma HydrogensShareType(m: Model, r: string, j: nat, i: nat)
    requires Reducible(m) && r in m.residueAtoms && r in m.residueBonds && j < |m.residueAtoms[r]|
    requires i < |HydrogenList(m.types, m.residueAtoms[r], m.residueBonds[r], j)|
    ensures Reduce(m).Ok?
    ensures var h := HydrogenList(m.types, m.residueAtoms[r], m.residueBonds[r], j);
      var a := Reduce(m).value.residueAtoms;
      r in a && 0 <= h[i] < |a[r]| && 0 <= h[0] < |a[r]| && a[r][h[i]].typeId == a[r][h[0]].typeId
  {
    var atoms := m.residueAtoms[r];
    var hl := HydrogenLists(m.types, atoms, m.residueBonds[r]);
    HydrogenListsOfHydrogens(m.types, atoms, m.residueBonds[r]);
    var h := hl[j];
    FirstNeverFollows(|atoms|, hl, j, |hl|);
    assert Origin(m, r, h[0]) == h[0];
    if i > 0 {
      ListedLedByFirst(|atoms|, hl, j, i, |hl|);
      assert Origin(m, r, h[i]) == h[0];
    }
    NewId(m, r, h[0]);
    NewId(m, r, h[i]);
  }

  /**
   * Nothing else is merged: two atoms, in the same residue or in two, share a
   * type id after reduce_atomtypes exactly when the first pass gave them the
   * same origin.
   */
  lemma MergedOnlyByOrigin(m: Model, r1: string, x1: nat, r2: string, x2: nat)
    requires Reducible(m) && r1 in m.residueAtoms && r2 in m.residueAtoms
    requires x1 < |m.residueAtoms[r1]| && x2 < |m.residueAtoms[r2]|
    ensures Reduce(m).Ok? && Bonded(m, r1) && Bonded(m, r2)
    ensures var a := Reduce(m).value.residueAtoms;
      r1 in a && r2 in a && x1 < |a[r1]| && x2 < |a[r2]| &&
      (a[r1][x1].typeId == a[r2][x2].typeId <==> r1 == r2 && Origin(m, r1, x1) == Origin(m, r2, x2))
  {
    NewId(m, r1, x1);
    NewId(m, r2, x2);
    var o1 := Origin(m, r1, x1);
    var o2 := Origin(m, r2, x2);
    var t1 := m.residueAtoms[r1][o1].typeId;
    var t2 := m.residueAtoms[r2][o2].typeId;
    if t1 < t2 {
      KeptIncreases(Removed(m), t1, t2);
    } else if t2 < t1 {
      KeptIncreases(Removed(m), t2, t1);
    }
    assert IdsApart(m, r1, o1, r2, o2);
  }

  // ---------------------------------------------------------------- the passes one step at a time

  /** Once a hydrogen fails, the whole redirect fails with the same exception. */
  lemma {:induction false} RedirectFailureSticks(n: nat, a: seq<ResidueAtom>, mk: set<int>, l: int, hs: seq<int>, k: nat)
    requires k <= |hs| && Redirect(n, a, mk, l, hs[..k]).Err?
    ensures Redirect(n, a, mk, l, hs) == Redirect(n, a, mk, l, hs[..k])
    decreases |hs| - k
  {
    if k < |hs| {
      assert hs[..k + 1][..k] == hs[..k];
      RedirectFailureSticks(n, a, mk, l, hs, k + 1);
    } else {
      assert hs[..k] == hs;
    }
  }

  /**
   * Marks already set stay set and do not influence the redirect: started from
   * more marks, it ends with the same atoms and those marks added.
   */
  lemma {:induction false} RedirectFromMore(n: nat, a: seq<ResidueAtom>, extra: set<int>, mk: set<int>, l: int, hs: seq<int>)
    ensures Redirect(n, a, extra + mk, l, hs) ==
      match Redirect(n, a, mk, l, hs)
      case Err(f) => Err(f)
      case Ok((a', mk')) => Ok((a', extra + mk'))
  {
    if hs != [] {
      var init := hs[..|hs| - 1];
      RedirectFromMore(n, a, extra, mk, l, init);
      var r := Redirect(n, a, mk, l, init);
      if r.Ok? {
        var (a1, mk1) := r.value;
        assert Redirect(n, a, extra + mk, l, init) == Ok((a1, extra + mk1));
        var k := PyIndex(hs[|hs| - 1], |a1|);
        if k.Some? && PyIndex(a1[k.value].typeId, n).Some? {
          var t := PyIndex(a1[k.value].typeId, n).value;
          assert (extra + mk1) + {t} == extra + (mk1 + {t});
        }
      }
    }
  }

  /** Once an atom fails, the atom loop fails with the same exception. */
  lemma {:induction false} AtomPassFailureSticks(types: seq<AtomType>, atoms: seq<ResidueAtom>, lists: seq<seq<int>>,
                                                 k: nat, k': nat)
    requires k <= k' <= |lists| && AtomPass(types, atoms, lists, k).Err?
    ensures AtomPass(types, atoms, lists, k') == AtomPass(types, atoms, lists, k)
    decreases k' - k
  {
    if k < k' {
      AtomPassFailureSticks(types, atoms, lists, k, k' - 1);
    }
  }

  /** Once an atom fails, renumbering the residue fails with the same exception. */
  lemma {:induction false} RenumberFailureSticks(rw: seq<int>, atoms: seq<ResidueAtom>, k: nat)
    requires k <= |atoms| && Renumber(rw, atoms[..k]).Err?
    ensures Renumber(rw, atoms) == Renumber(rw, atoms[..k])
    decreases |atoms| - k
  {
    if k < |atoms| {
      assert atoms[..k + 1][..k] == atoms[..k];
      RenumberFailureSticks(rw, atoms, k + 1);
    } else {
      assert atoms[..k] == atoms;
    }
  }

  /** The marks the first pass sets over the residues in done. */
  ghost function MarksOver(m: Model, done: set<string>): set<int>
    requires forall r :: r in done ==> r in m.residueAtoms && MergeOf(m, r).Ok?
  {
    set r, t | r in done && t in MergeOf(m, r).value.1 :: t
  }

  /** Visiting one more residue adds its marks to those set before the pass. */
  lemma MarksOverAdd(m: Model, base: set<int>, done: set<string>, r: string)
    requires forall r' :: r' in done ==> r' in m.residueAtoms && MergeOf(m, r').Ok?
    requires r in m.residueAtoms && MergeOf(m, r).Ok?
    ensures base + MarksOver(m, done) + MergeOf(m, r).value.1 == base + MarksOver(m, done + {r})
  {
    var more := MarksOver(m, done + {r});
    forall t | t in MergeOf(m, r).value.1 ensures t in more {
      assert r in done + {r};
    }
  }
}
