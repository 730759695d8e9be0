/**
 * What print_xml emits (scripts/processAmberForceField.py:250-357), as records
 * rather than XML text: the atom types, the residues sorted by name, the bond,
 * angle, proper and improper parameters after de-duplication by class
 * signature, the 1-4 scale factors and the nonbonded atoms. Also the wildcard
 * rewrite fix (scripts/processAmberForceField.py:10-13).
 *
 * pi, the sigma scale 0.1*2/2^(1/6) and the sixth root are not computed here:
 * they arrive as a Numerics value.
 */
module Emitter {
  import opened Common
  import opened Text
  import opened Records

  /** The 1-4 scale factors written on the nonbonded force. */
  const Charge14Scale: real := 1.0 / 1.2
  const Epsilon14Scale: real := 0.5

  /** Water classes: their parameters are defined elsewhere, so no signature containing one is written. */
  const SkipClasses: set<string> := {"OW", "HW"}

  /** The floating-point operations the emitter uses but the model does not compute. */
  datatype Numerics = Numerics(pi: real, sigmaScale: real, sixthRoot: real -> real)

  // ---------------------------------------------------------------- emitted records

  datatype TypeLine = TypeLine(name: string, atomClass: string, element: string, mass: real)
  datatype AtomLine = AtomLine(name: string, typeName: string)
  datatype ResidueBlock = ResidueBlock(name: string, atoms: seq<AtomLine>, bonds: seq<(int, int)>, externalBonds: seq<int>)
  datatype BondLine = BondLine(class1: string, class2: string, length: real, k: real)
  datatype AngleLine = AngleLine(class1: string, class2: string, class3: string, angle: real, k: real)
  /** One Fourier term, numbered from 1 as the attribute suffix of periodicityN, phaseN and kN. */
  datatype PeriodicTerm = PeriodicTerm(index: nat, periodicity: int, phase: real, k: real)
  datatype ProperLine = ProperLine(class1: string, class2: string, class3: string, class4: string, terms: seq<PeriodicTerm>)
  datatype ImproperLine = ImproperLine(class1: string, class2: string, class3: string, class4: string, term: PeriodicTerm)
  datatype NonbondedLine = NonbondedLine(typeName: string, charge: real, sigma: real, epsilon: real)

  /** Everything print_xml writes, section by section. */
  datatype ForceField = ForceField(
    types: seq<TypeLine>,
    residues: seq<ResidueBlock>,
    bonds: seq<BondLine>,
    angles: seq<AngleLine>,
    propers: seq<ProperLine>,
    impropers: seq<ImproperLine>,
    coulomb14Scale: real,
    lj14Scale: real,
    nonbonded: seq<NonbondedLine>)

  // ---------------------------------------------------------------- fix

  /** The torsion wildcard class X is written as the empty class; every other class is kept. */
  function Fix(atomClass: string): (r: string)
    ensures atomClass == "X" ==> r == ""
    ensures atomClass != "X" ==> r == atomClass
    ensures r != "X"
  {
    if atomClass == "X" then "" else atomClass
  }

  /** Rewriting the wildcard twice is rewriting it once. */
  lemma FixIdempotent(atomClass: string)
    ensures Fix(Fix(atomClass)) == Fix(atomClass)
  { }

  // ---------------------------------------------------------------- de-duplication

  /** A signature is skipped when any of its classes is a water class. */
  predicate Skipped(signature: seq<string>) {
    exists i :: 0 <= i < |signature| && signature[i] in SkipClasses
  }

  /**
   * The `processed` set after a scan over xs: the signatures of the records
   * that were not skipped.
   */
  function Processed<T>(xs: seq<T>, sig: T -> seq<string>): (r: set<seq<string>>)
    ensures forall s :: s in r <==> !Skipped(s) && exists i :: 0 <= i < |xs| && sig(xs[i]) == s
  {
    if xs == [] then {}
    else
      var init := xs[..|xs| - 1];
      var s := sig(xs[|xs| - 1]);
      assert forall i :: 0 <= i < |init| ==> init[i] == xs[i];
      Processed(init, sig) + (if Skipped(s) then {} else {s})
  }

  /**
   * The records a scan writes, in scan order: a record is written unless its
   * signature was written already or contains a skipped class.
   */
  function Select<T>(xs: seq<T>, sig: T -> seq<string>): seq<T> {
    if xs == [] then []
    else
      var init := xs[..|xs| - 1];
      var x := xs[|xs| - 1];
      if sig(x) in Processed(init, sig) || Skipped(sig(x)) then Select(init, sig)
      else Select(init, sig) + [x]
  }

  /** No record in xs before position i has the signature of xs[i]. */
  ghost predicate FirstOccurrence<T>(xs: seq<T>, sig: T -> seq<string>, i: int) {
    0 <= i < |xs| && forall j :: 0 <= j < i ==> sig(xs[j]) != sig(xs[i])
  }

  /** No record in xs after position i has the signature of xs[i]. */
  ghost predicate LastOccurrence<T>(xs: seq<T>, sig: T -> seq<string>, i: int) {
    0 <= i < |xs| && forall j :: i < j < |xs| ==> sig(xs[j]) != sig(xs[i])
  }

  /** y is the first record of xs with its signature. */
  ghost predicate FirstWithSignature<T>(xs: seq<T>, sig: T -> seq<string>, y: T) {
    exists i :: FirstOccurrence(xs, sig, i) && xs[i] == y
  }

  /** y is the last record of xs with its signature. */
  ghost predicate LastWithSignature<T>(xs: seq<T>, sig: T -> seq<string>, y: T) {
    exists i :: LastOccurrence(xs, sig, i) && xs[i] == y
  }

  /** Every record written is one of xs; the signatures written are exactly the processed ones. */
  lemma {:induction false} SelectCovers<T>(xs: seq<T>, sig: T -> seq<string>)
    ensures forall k :: 0 <= k < |Select(xs, sig)| ==> Select(xs, sig)[k] in xs
    ensures forall s :: s in Processed(xs, sig) <==>
      exists k :: 0 <= k < |Select(xs, sig)| && sig(Select(xs, sig)[k]) == s
  {
    if xs != [] {
      var init := xs[..|xs| - 1];
      var x := xs[|xs| - 1];
      SelectCovers(init, sig);
      var sel, sel0 := Select(xs, sig), Select(init, sig);
      assert xs == init + [x];
      if sig(x) in Processed(init, sig) || Skipped(sig(x)) {
        assert Processed(xs, sig) == Processed(init, sig);
      } else {
        assert sel == sel0 + [x];
        assert sig(sel[|sel0|]) == sig(x);
        forall s | s in Processed(xs, sig)
          ensures exists k :: 0 <= k < |sel| && sig(sel[k]) == s
        {
          if s != sig(x) {
            var k :| 0 <= k < |sel0| && sig(sel0[k]) == s;
            assert sel[k] == sel0[k];
          }
        }
        forall k | 0 <= k < |sel| ensures sig(sel[k]) in Processed(xs, sig) {
          if k < |sel0| { assert sel[k] == sel0[k]; }
        }
      }
    }
  }

  /** No signature is written twice. */
  lemma {:induction false} SelectDistinct<T>(xs: seq<T>, sig: T -> seq<string>)
    ensures forall k1, k2 :: 0 <= k1 < k2 < |Select(xs, sig)| ==> sig(Select(xs, sig)[k1]) != sig(Select(xs, sig)[k2])
  {
    if xs != [] {
      var init := xs[..|xs| - 1];
      var x := xs[|xs| - 1];
      SelectDistinct(init, sig);
      SelectCovers(init, sig);
      var sel, sel0 := Select(xs, sig), Select(init, sig);
      if !(sig(x) in Processed(init, sig) || Skipped(sig(x))) {
        assert sel == sel0 + [x];
        forall k1, k2 | 0 <= k1 < k2 < |sel| ensures sig(sel[k1]) != sig(sel[k2]) {
          assert sel[k1] == sel0[k1];
          if k2 < |sel0| { assert sel[k2] == sel0[k2]; }
        }
      }
    }
  }

  /** No written signature contains a skipped class. */
  lemma {:induction false} SelectNotSkipped<T>(xs: seq<T>, sig: T -> seq<string>)
    ensures forall k :: 0 <= k < |Select(xs, sig)| ==> !Skipped(sig(Select(xs, sig)[k]))
  {
    if xs != [] {
      var init := xs[..|xs| - 1];
      var x := xs[|xs| - 1];
      SelectNotSkipped(init, sig);
      var sel, sel0 := Select(xs, sig), Select(init, sig);
      if !(sig(x) in Processed(init, sig) || Skipped(sig(x))) {
        assert sel == sel0 + [x];
      }
      forall k | 0 <= k < |sel| ensures !Skipped(sig(sel[k])) {
        if k < |sel0| { assert sel[k] == sel0[k]; }
      }
    }
  }

  /** The first record wins: every written record is the first of xs with its signature. */
  lemma {:induction false} SelectKeepsFirst<T>(xs: seq<T>, sig: T -> seq<string>)
    ensures forall k :: 0 <= k < |Select(xs, sig)| ==> FirstWithSignature(xs, sig, Select(xs, sig)[k])
  {
    if xs != [] {
      var init := xs[..|xs| - 1];
      var x := xs[|xs| - 1];
      SelectKeepsFirst(init, sig);
      var sel, sel0 := Select(xs, sig), Select(init, sig);
      forall k | 0 <= k < |sel| ensures FirstWithSignature(xs, sig, sel[k]) {
        if k < |sel0| {
          assert sel[k] == sel0[k];
          assert FirstWithSignature(init, sig, sel0[k]);
          var i :| FirstOccurrence(init, sig, i) && init[i] == sel0[k];
          assert xs[i] == init[i];
          assert forall j :: 0 <= j < i ==> xs[j] == init[j];
          assert FirstOccurrence(xs, sig, i);
        } else {
          assert sel[k] == x && !(sig(x) in Processed(init, sig) || Skipped(sig(x)));
          forall j | 0 <= j < |init| ensures sig(xs[j]) != sig(x) {
            assert xs[j] == init[j];
          }
          assert FirstOccurrence(xs, sig, |xs| - 1);
        }
      }
    }
  }

  /** A scan of a prefix writes a prefix of what the scan of the whole writes. */
  lemma {:induction false} SelectPrefix<T>(xs: seq<T>, sig: T -> seq<string>, n: nat)
    requires n <= |xs|
    ensures |Select(xs[..n], sig)| <= |Select(xs, sig)|
    ensures Select(xs, sig)[..|Select(xs[..n], sig)|] == Select(xs[..n], sig)
    decreases |xs|
  {
    if n < |xs| {
      var init := xs[..|xs| - 1];
      assert init[..n] == xs[..n];
      SelectPrefix(init, sig, n);
    } else {
      assert xs[..n] == xs;
    }
  }

  /** One more record of a scan: passed over, or its signature recorded and the record selected. */
  lemma ScanStep<T>(xs: seq<T>, sig: T -> seq<string>, i: nat)
    requires i < |xs|
    ensures var s := sig(xs[i]);
      var done := Processed(xs[..i], sig);
      if s in done || Skipped(s) then
        Processed(xs[..i + 1], sig) == done && Select(xs[..i + 1], sig) == Select(xs[..i], sig)
      else
        Processed(xs[..i + 1], sig) == done + {s} && Select(xs[..i + 1], sig) == Select(xs[..i], sig) + [xs[i]]
  {
    assert xs[..i + 1][..i] == xs[..i];
  }

  /** xs back to front, as Python's reversed() yields it. */
  function Reversed<T>(xs: seq<T>): (r: seq<T>)
    ensures |r| == |xs|
    ensures forall i :: 0 <= i < |xs| ==> r[i] == xs[|xs| - 1 - i]
  {
    seq(|xs|, i requires 0 <= i < |xs| => xs[|xs| - 1 - i])
  }

  /** Scanning back to front, the last record wins: every written record is the last of xs with its signature. */
  lemma SelectReversedKeepsLast<T>(xs: seq<T>, sig: T -> seq<string>)
    ensures forall k :: 0 <= k < |Select(Reversed(xs), sig)| ==> LastWithSignature(xs, sig, Select(Reversed(xs), sig)[k])
  {
    var r := Reversed(xs);
    var sel := Select(r, sig);
    SelectKeepsFirst(r, sig);
    forall k | 0 <= k < |sel| ensures LastWithSignature(xs, sig, sel[k]) {
      assert FirstWithSignature(r, sig, sel[k]);
      var i' :| FirstOccurrence(r, sig, i') && r[i'] == sel[k];
      LastOfReversed(xs, sig, i');
    }
  }

  lemma LastOfReversed<T>(xs: seq<T>, sig: T -> seq<string>, i': int)
    requires FirstOccurrence(Reversed(xs), sig, i')
    ensures LastOccurrence(xs, sig, |xs| - 1 - i') && xs[|xs| - 1 - i'] == Reversed(xs)[i']
  {
    var r := Reversed(xs);
    var i := |xs| - 1 - i';
    forall j | i < j < |xs| ensures sig(xs[j]) != sig(xs[i]) {
      assert xs[j] == r[|xs| - 1 - j];
    }
  }

  /** Scanning back to front still writes every processed signature once and none skipped. */
  lemma SelectReversedCovers<T>(xs: seq<T>, sig: T -> seq<string>)
    ensures forall s :: s in Processed(xs, sig) <==>
      exists k :: 0 <= k < |Select(Reversed(xs), sig)| && sig(Select(Reversed(xs), sig)[k]) == s
  {
    var r := Reversed(xs);
    SelectCovers(r, sig);
    forall s ensures s in Processed(xs, sig) <==> s in Processed(r, sig) {
      if s in Processed(xs, sig) {
        var i :| 0 <= i < |xs| && sig(xs[i]) == s;
        assert r[|xs| - 1 - i] == xs[i];
      }
      if s in Processed(r, sig) {
        var i :| 0 <= i < |r| && sig(r[i]) == s;
      }
    }
  }

  // ---------------------------------------------------------------- conversions

  /** Each record converted in order; the first failure ends the scan. */
  function MapResult<T, U>(xs: seq<T>, f: T -> Result<U>): (r: Result<seq<U>>)
    ensures r.Ok? <==> forall k :: 0 <= k < |xs| ==> f(xs[k]).Ok?
    ensures r.Ok? ==> |r.value| == |xs| && forall k :: 0 <= k < |xs| ==> f(xs[k]) == Ok(r.value[k])
    ensures r.Err? ==> exists k :: 0 <= k < |xs| && f(xs[k]) == Err(r.failure) &&
                                  forall j :: 0 <= j < k ==> f(xs[j]).Ok?
  {
    if xs == [] then Ok([])
    else
      var init := xs[..|xs| - 1];
      assert forall k :: 0 <= k < |init| ==> init[k] == xs[k];
      match MapResult(init, f)
      case Err(e) => Err(e)
      case Ok(ys) =>
        match f(xs[|xs| - 1])
        case Err(e) => Err(e)
        case Ok(y) => Ok(ys + [y])
  }

  /** Once a prefix fails, the whole fails with the same exception. */
  lemma {:induction false} MapResultFailureSticks<T, U>(xs: seq<T>, f: T -> Result<U>, n: nat)
    requires n <= |xs| && MapResult(xs[..n], f).Err?
    ensures MapResult(xs, f) == MapResult(xs[..n], f)
    decreases |xs|
  {
    if n < |xs| {
      var init := xs[..|xs| - 1];
      assert init[..n] == xs[..n];
      MapResultFailureSticks(init, f, n);
    } else {
      assert xs[..n] == xs;
    }
  }

  /** One more element at the end: its conversion's failure, or its line after the earlier ones. */
  lemma MapResultSnoc<T, U>(ys: seq<T>, x: T, f: T -> Result<U>)
    requires MapResult(ys, f).Ok?
    ensures MapResult(ys + [x], f) ==
      match f(x)
      case Err(e) => Err(e)
      case Ok(y) => Ok(MapResult(ys, f).value + [y])
  {
    assert (ys + [x])[..|ys|] == ys;
  }

  /** One more element: its conversion's failure, or its line after the earlier ones. */
  lemma MapResultStep<T, U>(xs: seq<T>, f: T -> Result<U>, i: nat)
    requires i < |xs| && MapResult(xs[..i], f).Ok?
    ensures MapResult(xs[..i + 1], f) ==
      match f(xs[i])
      case Err(e) => Err(e)
      case Ok(y) => Ok(MapResult(xs[..i], f).value + [y])
  {
    assert xs[..i + 1][..i] == xs[..i];
  }

  /** A bond in OpenMM units: the length from angstrom to nanometre, k doubled and from kcal/A^2 to kJ/nm^2. */
  function ConvertBond(b: BondParam): (r: Result<BondLine>)
    ensures r.Err? <==> ParseReal(b.length).None? || ParseReal(b.k).None?
    ensures r.Err? ==> r.failure == ValueError
    ensures r.Ok? ==> r.value.class1 == b.class1 && r.value.class2 == b.class2 &&
                      r.value.length * 10.0 == ParseReal(b.length).value &&
                      r.value.k == ParseReal(b.k).value * 836.8
  {
    match ParseReal(b.length)
    case None => Err(ValueError)
    case Some(length) =>
      match ParseReal(b.k)
      case None => Err(ValueError)
      case Some(k) => Ok(BondLine(b.class1, b.class2, length * 0.1, k * 2.0 * 100.0 * 4.184))
  }

  /** An angle in OpenMM units: the angle from degrees to radians, k doubled and from kcal to kJ. */
  function ConvertAngle(num: Numerics, a: AngleParam): (r: Result<AngleLine>)
    ensures r.Err? <==> ParseReal(a.angle).None? || ParseReal(a.k).None?
    ensures r.Err? ==> r.failure == ValueError
    ensures r.Ok? ==> r.value.class1 == a.class1 && r.value.class2 == a.class2 && r.value.class3 == a.class3 &&
                      r.value.angle == Radians(num, ParseReal(a.angle).value) &&
                      r.value.k == ParseReal(a.k).value * 8.368
  {
    match ParseReal(a.angle)
    case None => Err(ValueError)
    case Some(theta) =>
      match ParseReal(a.k)
      case None => Err(ValueError)
      case Some(k) => Ok(AngleLine(a.class1, a.class2, a.class3, Radians(num, theta), k * 2.0 * 4.184))
  }

  /**
   * Term number `index` of a torsion: the stored periodicity, the phase token in
   * degrees converted to radians, and the barrier in kcal converted to kJ.
   */
  function ConvertTerm(num: Numerics, index: nat, t: Term): (r: Result<PeriodicTerm>)
    ensures r.Err? <==> ParseReal(t.phase).None?
    ensures r.Err? ==> r.failure == ValueError
    ensures r.Ok? ==> r.value.index == index && r.value.periodicity == t.periodicity &&
                      r.value.phase == Radians(num, ParseReal(t.phase).value) &&
                      r.value.k == t.k * 4.184
  {
    match ParseReal(t.phase)
    case None => Err(ValueError)
    case Some(phase) => Ok(PeriodicTerm(index, t.periodicity, Radians(num, phase), t.k * 4.184))
  }

  /** The terms of a torsion with their numbers 1, 2, ... in stored order. */
  function Numbered(terms: seq<Term>): (r: seq<(nat, Term)>)
    ensures |r| == |terms|
    ensures forall j :: 0 <= j < |terms| ==> r[j] == (j + 1, terms[j])
  {
    seq(|terms|, j requires 0 <= j < |terms| => (j + 1, terms[j]))
  }

  function TermConverter(num: Numerics): ((nat, Term)) -> Result<PeriodicTerm> {
    (p: (nat, Term)) => ConvertTerm(num, p.0, p.1)
  }

  /** The terms of a torsion, each converted under its number. */
  function ConvertTerms(num: Numerics, terms: seq<Term>): (r: Result<seq<PeriodicTerm>>)
    ensures r.Ok? <==> forall j :: 0 <= j < |terms| ==> ParseReal(terms[j].phase).Some?
    ensures r.Err? ==> r.failure == ValueError
    ensures r.Ok? ==> |r.value| == |terms|
    ensures r.Ok? ==> forall j :: 0 <= j < |terms| ==> ConvertTerm(num, j + 1, terms[j]) == Ok(r.value[j])
  {
    var numbered := Numbered(terms);
    assert forall j :: 0 <= j < |terms| ==> TermConverter(num)(numbered[j]) == ConvertTerm(num, j + 1, terms[j]);
    MapResult(numbered, TermConverter(num))
  }

  /** A proper torsion, written under its wildcard-rewritten classes. */
  function ConvertProper(num: Numerics, t: TorsionParam): (r: Result<ProperLine>)
    ensures r.Err? <==> ConvertTerms(num, t.terms).Err?
    ensures r.Ok? ==> [r.value.class1, r.value.class2, r.value.class3, r.value.class4] == ProperSignature(t) &&
                      r.value.terms == ConvertTerms(num, t.terms).value
  {
    match ConvertTerms(num, t.terms)
    case Err(e) => Err(e)
    case Ok(terms) => Ok(ProperLine(Fix(t.class1), Fix(t.class2), Fix(t.class3), Fix(t.class4), terms))
  }

  /**
   * An improper torsion, written under its reordered signature as term 1: the
   * periodicity token read as int(float()), then the phase, then the barrier.
   */
  function ConvertImproper(num: Numerics, t: ImproperParam): (r: Result<ImproperLine>)
    ensures r.Err? <==> ParseReal(t.periodicity).None? || ParseReal(t.phase).None? || ParseReal(t.k).None?
    ensures r.Err? ==> r.failure == ValueError
    ensures r.Ok? ==> [r.value.class1, r.value.class2, r.value.class3, r.value.class4] == ImproperSignature(t) &&
                      r.value.term.index == 1 &&
                      r.value.term.periodicity == Truncate(ParseReal(t.periodicity).value) &&
                      r.value.term.phase == Radians(num, ParseReal(t.phase).value) &&
                      r.value.term.k == ParseReal(t.k).value * 4.184
  {
    match ParseReal(t.periodicity)
    case None => Err(ValueError)
    case Some(p) =>
      match ParseReal(t.phase)
      case None => Err(ValueError)
      case Some(phase) =>
        match ParseReal(t.k)
        case None => Err(ValueError)
        case Some(k) =>
          Ok(ImproperLine(Fix(t.class3), Fix(t.class1), Fix(t.class2), Fix(t.class4),
                          PeriodicTerm(1, Truncate(p), Radians(num, phase), k * 4.184)))
  }

  /** Degrees to radians, `x*math.pi/180.0`. */
  function Radians(num: Numerics, degrees: real): real {
    degrees * num.pi / 180.0
  }

  function AngleConverter(num: Numerics): AngleParam -> Result<AngleLine> {
    a => ConvertAngle(num, a)
  }

  function ProperConverter(num: Numerics): TorsionParam -> Result<ProperLine> {
    t => ConvertProper(num, t)
  }

  function ImproperConverter(num: Numerics): ImproperParam -> Result<ImproperLine> {
    t => ConvertImproper(num, t)
  }

  // ---------------------------------------------------------------- signatures

  function BondSignature(b: BondParam): seq<string> { [b.class1, b.class2] }

  function AngleSignature(a: AngleParam): seq<string> { [a.class1, a.class2, a.class3] }

  function ProperSignature(t: TorsionParam): seq<string> {
    [Fix(t.class1), Fix(t.class2), Fix(t.class3), Fix(t.class4)]
  }

  /** The improper's classes in the order third, first, second, fourth. */
  function ImproperSignature(t: ImproperParam): seq<string> {
    [Fix(t.class3), Fix(t.class1), Fix(t.class2), Fix(t.class4)]
  }

  // ---------------------------------------------------------------- sections

  /** One line per type, named by the type name at its position, with its class, element symbol and mass. */
  function TypeLines(types: seq<AtomType>, names: seq<string>): (r: Result<seq<TypeLine>>)
    ensures r.Ok? <==> |types| <= |names|
    ensures r.Err? ==> r.failure == IndexError
    ensures r.Ok? ==> |r.value| == |types|
    ensures r.Ok? ==> forall i :: 0 <= i < |types| ==>
      r.value[i] == TypeLine(names[i], types[i].atomClass, types[i].element.symbol, types[i].element.mass)
  {
    if types == [] then Ok([])
    else
      var n := |types| - 1;
      assert forall i :: 0 <= i < n ==> types[..n][i] == types[i];
      match TypeLines(types[..n], names)
      case Err(e) => Err(e)
      case Ok(lines) =>
        match PyGet(names, n)
        case None => Err(IndexError)
        case Some(name) =>
          Ok(lines + [TypeLine(name, types[n].atomClass, types[n].element.symbol, types[n].element.mass)])
  }

  /** A residue atom written with the name of its type, `self.type_names[type_id]`. */
  function AtomLineOf(names: seq<string>, atom: ResidueAtom): (r: Result<AtomLine>)
    ensures r.Ok? <==> -(|names| as int) <= atom.typeId < |names|
    ensures r.Err? ==> r.failure == IndexError
    ensures r.Ok? ==> r.value.name == atom.name && Some(r.value.typeName) == PyGet(names, atom.typeId)
  {
    match PyGet(names, atom.typeId)
    case None => Err(IndexError)
    case Some(t) => Ok(AtomLine(atom.name, t))
  }

  function AtomNamer(names: seq<string>): ResidueAtom -> Result<AtomLine> {
    atom => AtomLineOf(names, atom)
  }

  /** One residue: its atoms, then its bonds and external bonds where it has an entry for them. */
  function ResidueBlockOf(m: Model, res: string): (r: Result<ResidueBlock>)
    ensures res !in m.residueAtoms ==> r == Err(KeyError)
    ensures r.Ok? ==> (r.value.name == res &&
      MapResult(m.residueAtoms[res], AtomNamer(m.typeNames)) == Ok(r.value.atoms) &&
      r.value.bonds == (if res in m.residueBonds then m.residueBonds[res] else []) &&
      r.value.externalBonds == (if res in m.residueConnections then m.residueConnections[res] else []))
  {
    if res !in m.residueAtoms then Err(KeyError)
    else
      match MapResult(m.residueAtoms[res], AtomNamer(m.typeNames))
      case Err(e) => Err(e)
      case Ok(atoms) =>
        Ok(ResidueBlock(res, atoms,
                        if res in m.residueBonds then m.residueBonds[res] else [],
                        if res in m.residueConnections then m.residueConnections[res] else []))
  }

  function ResidueWriter(m: Model): string -> Result<ResidueBlock> {
    res => ResidueBlockOf(m, res)
  }

  /** The residues, in the order sorted() puts their names. */
  ghost function ResidueBlocks(m: Model): Result<seq<ResidueBlock>> {
    MapResult(SortedKeys(m.residueAtoms.Keys), ResidueWriter(m))
  }

  /** The residues are written once each, sorted by name, every one of them. */
  lemma ResiduesSorted(m: Model)
    requires ResidueBlocks(m).Ok?
    ensures var blocks := ResidueBlocks(m).value;
      (forall i, j :: 0 <= i < j < |blocks| ==> StrLt(blocks[i].name, blocks[j].name)) &&
      (forall res :: res in m.residueAtoms <==> exists i :: 0 <= i < |blocks| && blocks[i].name == res)
  {
    var keys := SortedKeys(m.residueAtoms.Keys);
    var blocks := ResidueBlocks(m).value;
    assert forall i :: 0 <= i < |keys| ==> blocks[i].name == keys[i] by {
      forall i | 0 <= i < |keys| ensures blocks[i].name == keys[i] {
        assert ResidueWriter(m)(keys[i]) == Ok(blocks[i]);
      }
    }
    forall res | res in m.residueAtoms ensures exists i :: 0 <= i < |blocks| && blocks[i].name == res {
      assert res in Elems(keys);
      var i :| 0 <= i < |keys| && keys[i] == res;
      assert blocks[i].name == res;
    }
  }

  /** The bonds, each class pair once, the first one read winning. */
  function BondLines(bonds: seq<BondParam>): Result<seq<BondLine>> {
    MapResult(Select(bonds, BondSignature), ConvertBond)
  }

  /** The angles, each class triple once, the first one read winning. */
  function AngleLines(num: Numerics, angles: seq<AngleParam>): Result<seq<AngleLine>> {
    MapResult(Select(angles, AngleSignature), AngleConverter(num))
  }

  /** The proper torsions, scanned last to first, so the last one read wins. */
  function ProperLines(num: Numerics, torsions: seq<TorsionParam>): Result<seq<ProperLine>> {
    MapResult(Select(Reversed(torsions), ProperSignature), ProperConverter(num))
  }

  /** The improper torsions, scanned last to first, so the last one read wins. */
  function ImproperLines(num: Numerics, impropers: seq<ImproperParam>): Result<seq<ImproperLine>> {
    MapResult(Select(Reversed(impropers), ImproperSignature), ImproperConverter(num))
  }

  // ---------------------------------------------------------------- nonbonded

  /** The class whose van der Waals parameters a class uses: its equivalent if it has one, followed one step only. */
  function VdwClass(m: Model, atomClass: string): (r: string)
    ensures atomClass in m.vdwEquivalents ==> r == m.vdwEquivalents[atomClass]
    ensures atomClass !in m.vdwEquivalents ==> r == atomClass
  {
    if atomClass in m.vdwEquivalents then m.vdwEquivalents[atomClass] else atomClass
  }

  /** The well depth B^2/(4A) of the A and B coefficients, converted from kcal to kJ. */
  function WellDepth(a: real, b: real): real
    requires a != 0.0
  {
    4.184 * b * b / (4.0 * a)
  }

  /**
   * (sigma, epsilon) from the two van der Waals numbers of a class under the
   * kind the parameter file declared: for RE a radius and a well depth, scaled;
   * for any other kind the A and B coefficients, turned into sigma = (A/B)^(1/6)
   * and epsilon = B^2/(4A). B = 0 and then A = 0 divide by zero; a negative A/B
   * has no real sixth root.
   */
  function VdwPair(num: Numerics, kind: string, a: real, b: real): (r: Result<(real, real)>)
    ensures kind == "RE" ==> r == Ok((a * num.sigmaScale, b * 4.184))
    ensures kind != "RE" ==> (r.Ok? <==> b != 0.0 && a / b >= 0.0 && a != 0.0)
    ensures kind != "RE" && r.Ok? ==> r.value == (num.sixthRoot(a / b), WellDepth(a, b))
    ensures r.Err? ==> (r.failure == ValueError <==> b != 0.0 && a / b < 0.0)
    ensures r.Err? ==> r.failure in {ValueError, ZeroDivisionError}
  {
    if kind == "RE" then Ok((a * num.sigmaScale, b * 4.184))
    else if b == 0.0 then Err(ZeroDivisionError)
    else if a / b < 0.0 then Err(ValueError)
    else if a == 0.0 then Err(ZeroDivisionError)
    else Ok((num.sixthRoot(a / b), WellDepth(a, b)))
  }

  /**
   * (sigma, epsilon) of a class after the one-step redirect: zero for a class
   * without van der Waals parameters; otherwise both tokens read as floats, the
   * kind looked up (never read: an AttributeError), and the pair converted.
   */
  function LennardJones(m: Model, num: Numerics, atomClass: string): (r: Result<(real, real)>)
    ensures VdwClass(m, atomClass) !in m.vdw ==> r == Ok((0.0, 0.0))
    ensures VdwClass(m, atomClass) in m.vdw ==>
      var tokens := m.vdw[VdwClass(m, atomClass)];
      var a, b := ParseReal(tokens.0), ParseReal(tokens.1);
      (a.None? || b.None? ==> r == Err(ValueError)) &&
      (a.Some? && b.Some? && m.vdwType.None? ==> r == Err(MissingVdwType)) &&
      (a.Some? && b.Some? && m.vdwType.Some? ==> r == VdwPair(num, m.vdwType.value, a.value, b.value))
  {
    var c := VdwClass(m, atomClass);
    if c !in m.vdw then Ok((0.0, 0.0))
    else
      match ParseReal(m.vdw[c].0)
      case None => Err(ValueError)
      case Some(a) =>
        match ParseReal(m.vdw[c].1)
        case None => Err(ValueError)
        case Some(b) =>
          match m.vdwType
          case None => Err(MissingVdwType)
          case Some(kind) => VdwPair(num, kind, a, b)
  }

  /** The nonbonded line of type i, if any: written when its charge or its well depth is nonzero. */
  function NonbondedLineOf(m: Model, num: Numerics, i: nat): (r: Result<Option<NonbondedLine>>)
    requires i < |m.types|
    ensures LennardJones(m, num, m.types[i].atomClass).Err? ==> r == Err(LennardJones(m, num, m.types[i].atomClass).failure)
    ensures LennardJones(m, num, m.types[i].atomClass).Ok? ==>
      var (sigma, epsilon) := LennardJones(m, num, m.types[i].atomClass).value;
      var q := m.types[i].charge;
      (q == 0.0 && epsilon == 0.0 ==> r == Ok(None)) &&
      (q != 0.0 || epsilon != 0.0 ==>
        (r.Ok? <==> i < |m.typeNames|) &&
        (r.Ok? ==> r.value == Some(NonbondedLine(m.typeNames[i], q, sigma, epsilon))) &&
        (r.Err? ==> r.failure == IndexError))
  {
    match LennardJones(m, num, m.types[i].atomClass)
    case Err(e) => Err(e)
    case Ok((sigma, epsilon)) =>
      var q := m.types[i].charge;
      if q != 0.0 || epsilon != 0.0 then
        match PyGet(m.typeNames, i)
        case None => Err(IndexError)
        case Some(name) => Ok(Some(NonbondedLine(name, q, sigma, epsilon)))
      else Ok(None)
  }

  /** The nonbonded lines of the first n types, in type order. */
  function NonbondedLines(m: Model, num: Numerics, n: nat): (r: Result<seq<NonbondedLine>>)
    requires n <= |m.types|
    ensures r.Ok? <==> forall i :: 0 <= i < n ==> NonbondedLineOf(m, num, i).Ok?
    ensures r.Ok? ==> forall i :: 0 <= i < n && NonbondedLineOf(m, num, i).value.Some? ==>
      NonbondedLineOf(m, num, i).value.value in r.value
    ensures r.Ok? ==> forall j :: 0 <= j < |r.value| ==>
      exists i :: 0 <= i < n && NonbondedLineOf(m, num, i) == Ok(Some(r.value[j]))
  {
    if n == 0 then Ok([])
    else
      match NonbondedLines(m, num, n - 1)
      case Err(e) => Err(e)
      case Ok(lines) =>
        match NonbondedLineOf(m, num, n - 1)
        case Err(e) => Err(e)
        case Ok(None) => Ok(lines)
        case Ok(Some(line)) =>
          assert forall j :: 0 <= j < |lines| ==> (lines + [line])[j] == lines[j];
          Ok(lines + [line])
  }

  /** Once a type fails, the section fails with the same exception. */
  lemma {:induction false} NonbondedLinesFailureSticks(m: Model, num: Numerics, k: nat, n: nat)
    requires k <= n <= |m.types| && NonbondedLines(m, num, k).Err?
    ensures NonbondedLines(m, num, n) == NonbondedLines(m, num, k)
    decreases n - k
  {
    if k < n {
      NonbondedLinesFailureSticks(m, num, k, n - 1);
    }
  }

  // ---------------------------------------------------------------- what the sections promise

  /** y is what f makes of the first record of xs with its signature. */
  ghost predicate FromFirst<T, U>(xs: seq<T>, sig: T -> seq<string>, f: T -> Result<U>, y: U) {
    exists i :: FirstOccurrence(xs, sig, i) && f(xs[i]) == Ok(y)
  }

  /** y is what f makes of the last record of xs with its signature. */
  ghost predicate FromLast<T, U>(xs: seq<T>, sig: T -> seq<string>, f: T -> Result<U>, y: U) {
    exists i :: LastOccurrence(xs, sig, i) && f(xs[i]) == Ok(y)
  }

  /** f writes a record under the record's own signature. */
  ghost predicate KeepsSignature<T(!new), U>(sig: T -> seq<string>, f: T -> Result<U>, out: U -> seq<string>) {
    forall x :: f(x).Ok? ==> out(f(x).value) == sig(x)
  }

  /**
   * A front-to-back scan writes each processed signature exactly once, never a
   * skipped one, and always as the conversion of the first record with it.
   */
  lemma ScanWritesFirsts<T(!new), U>(xs: seq<T>, sig: T -> seq<string>, f: T -> Result<U>, out: U -> seq<string>)
    requires KeepsSignature(sig, f, out)
    requires MapResult(Select(xs, sig), f).Ok?
    ensures var ys := MapResult(Select(xs, sig), f).value;
      (forall k1, k2 :: 0 <= k1 < k2 < |ys| ==> out(ys[k1]) != out(ys[k2])) &&
      (forall k :: 0 <= k < |ys| ==> !Skipped(out(ys[k])) && FromFirst(xs, sig, f, ys[k])) &&
      (forall s :: s in Processed(xs, sig) <==> exists k :: 0 <= k < |ys| && out(ys[k]) == s)
  {
    var sel := Select(xs, sig);
    var ys := MapResult(sel, f).value;
    SelectDistinct(xs, sig);
    SelectNotSkipped(xs, sig);
    SelectKeepsFirst(xs, sig);
    SelectCovers(xs, sig);
    assert forall k :: 0 <= k < |ys| ==> out(ys[k]) == sig(sel[k]) by {
      forall k | 0 <= k < |ys| ensures out(ys[k]) == sig(sel[k]) {
        assert f(sel[k]) == Ok(ys[k]);
      }
    }
    forall k | 0 <= k < |ys| ensures FromFirst(xs, sig, f, ys[k]) {
      assert FirstWithSignature(xs, sig, sel[k]);
      var i :| FirstOccurrence(xs, sig, i) && xs[i] == sel[k];
      assert f(xs[i]) == Ok(ys[k]);
    }
  }

  /**
   * A back-to-front scan writes each processed signature exactly once, never a
   * skipped one, and always as the conversion of the last record with it.
   */
  lemma ScanWritesLasts<T(!new), U>(xs: seq<T>, sig: T -> seq<string>, f: T -> Result<U>, out: U -> seq<string>)
    requires KeepsSignature(sig, f, out)
    requires MapResult(Select(Reversed(xs), sig), f).Ok?
    ensures var ys := MapResult(Select(Reversed(xs), sig), f).value;
      (forall k1, k2 :: 0 <= k1 < k2 < |ys| ==> out(ys[k1]) != out(ys[k2])) &&
      (forall k :: 0 <= k < |ys| ==> !Skipped(out(ys[k])) && FromLast(xs, sig, f, ys[k])) &&
      (forall s :: s in Processed(xs, sig) <==> exists k :: 0 <= k < |ys| && out(ys[k]) == s)
  {
    var sel := Select(Reversed(xs), sig);
    var ys := MapResult(sel, f).value;
    SelectDistinct(Reversed(xs), sig);
    SelectNotSkipped(Reversed(xs), sig);
    SelectReversedKeepsLast(xs, sig);
    SelectReversedCovers(xs, sig);
    assert forall k :: 0 <= k < |ys| ==> out(ys[k]) == sig(sel[k]) by {
      forall k | 0 <= k < |ys| ensures out(ys[k]) == sig(sel[k]) {
        assert f(sel[k]) == Ok(ys[k]);
      }
    }
    forall k | 0 <= k < |ys| ensures FromLast(xs, sig, f, ys[k]) {
      assert LastWithSignature(xs, sig, sel[k]);
      var i :| LastOccurrence(xs, sig, i) && xs[i] == sel[k];
      assert f(xs[i]) == Ok(ys[k]);
    }
  }

  function BondLineSignature(l: BondLine): seq<string> { [l.class1, l.class2] }
  function AngleLineSignature(l: AngleLine): seq<string> { [l.class1, l.class2, l.class3] }
  function ProperLineSignature(l: ProperLine): seq<string> { [l.class1, l.class2, l.class3, l.class4] }
  function ImproperLineSignature(l: ImproperLine): seq<string> { [l.class1, l.class2, l.class3, l.class4] }

  /**
   * Bonds: each class pair not involving a water class is written exactly
   * once, as the first bond read for it.
   */
  lemma BondsFirstWins(bonds: seq<BondParam>)
    requires BondLines(bonds).Ok?
    ensures var ys := BondLines(bonds).value;
      (forall k1, k2 :: 0 <= k1 < k2 < |ys| ==> BondLineSignature(ys[k1]) != BondLineSignature(ys[k2])) &&
      (forall k :: 0 <= k < |ys| ==> !Skipped(BondLineSignature(ys[k])) && FromFirst(bonds, BondSignature, ConvertBond, ys[k])) &&
      (forall s :: s in Processed(bonds, BondSignature) <==> exists k :: 0 <= k < |ys| && BondLineSignature(ys[k]) == s)
  {
    ScanWritesFirsts(bonds, BondSignature, ConvertBond, BondLineSignature);
  }

  /**
   * Angles: each class triple not involving a water class is written exactly
   * once, as the first angle read for it.
   */
  lemma AnglesFirstWins(num: Numerics, angles: seq<AngleParam>)
    requires AngleLines(num, angles).Ok?
    ensures var ys := AngleLines(num, angles).value;
      (forall k1, k2 :: 0 <= k1 < k2 < |ys| ==> AngleLineSignature(ys[k1]) != AngleLineSignature(ys[k2])) &&
      (forall k :: 0 <= k < |ys| ==> !Skipped(AngleLineSignature(ys[k])) && FromFirst(angles, AngleSignature, AngleConverter(num), ys[k])) &&
      (forall s :: s in Processed(angles, AngleSignature) <==> exists k :: 0 <= k < |ys| && AngleLineSignature(ys[k]) == s)
  {
    ScanWritesFirsts(angles, AngleSignature, AngleConverter(num), AngleLineSignature);
  }

  /**
   * Proper torsions: each wildcard-rewritten class quadruple not involving a
   * water class is written exactly once, as the last torsion read for it.
   */
  lemma PropersLastWins(num: Numerics, torsions: seq<TorsionParam>)
    requires ProperLines(num, torsions).Ok?
    ensures var ys := ProperLines(num, torsions).value;
      (forall k1, k2 :: 0 <= k1 < k2 < |ys| ==> ProperLineSignature(ys[k1]) != ProperLineSignature(ys[k2])) &&
      (forall k :: 0 <= k < |ys| ==> !Skipped(ProperLineSignature(ys[k])) && FromLast(torsions, ProperSignature, ProperConverter(num), ys[k])) &&
      (forall s :: s in Processed(torsions, ProperSignature) <==> exists k :: 0 <= k < |ys| && ProperLineSignature(ys[k]) == s)
  {
    ScanWritesLasts(torsions, ProperSignature, ProperConverter(num), ProperLineSignature);
  }

  /**
   * Improper torsions: each reordered, wildcard-rewritten signature not
   * involving a water class is written exactly once, as the last improper read
   * for it.
   */
  lemma ImpropersLastWins(num: Numerics, impropers: seq<ImproperParam>)
    requires ImproperLines(num, impropers).Ok?
    ensures var ys := ImproperLines(num, impropers).value;
      (forall k1, k2 :: 0 <= k1 < k2 < |ys| ==> ImproperLineSignature(ys[k1]) != ImproperLineSignature(ys[k2])) &&
      (forall k :: 0 <= k < |ys| ==> !Skipped(ImproperLineSignature(ys[k])) && FromLast(impropers, ImproperSignature, ImproperConverter(num), ys[k])) &&
      (forall s :: s in Processed(impropers, ImproperSignature) <==> exists k :: 0 <= k < |ys| && ImproperLineSignature(ys[k]) == s)
  {
    ScanWritesLasts(impropers, ImproperSignature, ImproperConverter(num), ImproperLineSignature);
  }

  /** Different numbers get different decimal names. */
  lemma NatToStringInjective(a: nat, b: nat)
    requires NatToString(a) == NatToString(b)
    ensures a == b
  {
    DigitsValueOfNatToString(a);
    DigitsValueOfNatToString(b);
  }

  /**
   * With the default numeric names, also when reduce_atomtypes has left more
   * names than types, type i has a nonbonded line exactly when its charge or its
   * well depth is nonzero, and that line carries the type's charge, sigma and
   * epsilon.
   */
  lemma NonbondedWrittenIff(m: Model, num: Numerics, i: nat)
    requires NumericNamesCover(m) && i < |m.types|
    requires NonbondedLines(m, num, |m.types|).Ok?
    ensures LennardJones(m, num, m.types[i].atomClass).Ok?
    ensures var (sigma, epsilon) := LennardJones(m, num, m.types[i].atomClass).value;
      var q := m.types[i].charge;
      var lines := NonbondedLines(m, num, |m.types|).value;
      ((exists j :: 0 <= j < |lines| && lines[j].typeName == NatToString(i)) <==> q != 0.0 || epsilon != 0.0) &&
      (q != 0.0 || epsilon != 0.0 ==> NonbondedLine(NatToString(i), q, sigma, epsilon) in lines)
  {
    var lines := NonbondedLines(m, num, |m.types|).value;
    assert NonbondedLineOf(m, num, i).Ok?;
    var (sigma, epsilon) := LennardJones(m, num, m.types[i].atomClass).value;
    var q := m.types[i].charge;
    if j :| 0 <= j < |lines| && lines[j].typeName == NatToString(i) {
      var i' :| 0 <= i' < |m.types| && NonbondedLineOf(m, num, i') == Ok(Some(lines[j]));
      assert LennardJones(m, num, m.types[i'].atomClass).Ok?;
      assert lines[j].typeName == m.typeNames[i'] == NatToString(i');
      NatToStringInjective(i, i');
    }
    if q != 0.0 || epsilon != 0.0 {
      var line := NonbondedLineOf(m, num, i).value.value;
      assert line in lines;
      var j :| 0 <= j < |lines| && lines[j] == line;
      assert lines[j].typeName == NatToString(i);
    }
  }

  // ---------------------------------------------------------------- print_xml

  /** print_xml: the sections in the order written; the first exception ends the run. */
  ghost function PrintXml(m: Model, num: Numerics): Result<ForceField> {
    match TypeLines(m.types, m.typeNames)
    case Err(e) => Err(e)
    case Ok(types) =>
      match ResidueBlocks(m)
      case Err(e) => Err(e)
      case Ok(residues) =>
        match BondLines(m.bonds)
        case Err(e) => Err(e)
        case Ok(bonds) =>
          match AngleLines(num, m.angles)
          case Err(e) => Err(e)
          case Ok(angles) =>
            match ProperLines(num, m.torsions)
            case Err(e) => Err(e)
            case Ok(propers) =>
              match ImproperLines(num, m.impropers)
              case Err(e) => Err(e)
              case Ok(impropers) =>
                match NonbondedLines(m, num, |m.types|)
                case Err(e) => Err(e)
                case Ok(nonbonded) =>
                  Ok(ForceField(types, residues, bonds, angles, propers, impropers,
                                Charge14Scale, Epsilon14Scale, nonbonded))
  }
}
