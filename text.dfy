/**
 * The pieces of Python's string and number handling that the readers rely on:
 * strip(), split(), split('.'), startswith(), slicing and indexing with
 * negative positions, int() and float() on decimal tokens, int() of a float
 * (truncation toward zero), "%d" formatting, and the ordering sorted() puts
 * strings in.
 */
module Text {
  import opened Common

  /** The blanks of Python 2's str.isspace(): space, tab, newline, return, vertical tab, form feed. */
  predicate IsSpace(c: char) {
    c == ' ' || c == '\t' || c == '\n' || c == '\r' || c == '\U{B}' || c == '\U{C}'
  }

  predicate IsBlank(s: string) {
    forall i :: 0 <= i < |s| ==> IsSpace(s[i])
  }

  function TrimLeft(s: string): (r: string)
    ensures |r| <= |s|
    ensures r == [] || (!IsSpace(r[0]) && r[0] == s[|s| - |r|])
    ensures forall i :: 0 <= i < |s| - |r| ==> IsSpace(s[i])
  {
    if s == [] || !IsSpace(s[0]) then s else TrimLeft(s[1..])
  }

  function TrimRight(s: string): (r: string)
    ensures |r| <= |s|
    ensures r == [] || (!IsSpace(r[|r| - 1]) && r[0] == s[0])
    ensures forall i :: |r| <= i < |s| ==> IsSpace(s[i])
  {
    if s == [] || !IsSpace(s[|s| - 1]) then s else TrimRight(s[..|s| - 1])
  }

  /** Python's s.strip(). */
  function Strip(s: string): (r: string)
    ensures r == [] <==> IsBlank(s)
    ensures r == [] || (!IsSpace(r[0]) && !IsSpace(r[|r| - 1]))
  {
    var t := TrimLeft(s);
    var r := TrimRight(t);
    assert t != [] ==> r != [] by {
      if t != [] { assert !IsSpace(t[0]); }
    }
    r
  }

  /** The longest prefix of s that holds no blank. */
  function Word(s: string): (w: string)
    ensures |w| <= |s|
    ensures forall i :: 0 <= i < |w| ==> !IsSpace(w[i])
    ensures |w| == |s| || IsSpace(s[|w|])
    ensures s != [] && !IsSpace(s[0]) ==> |w| > 0
  {
    if s == [] || IsSpace(s[0]) then [] else [s[0]] + Word(s[1..])
  }

  /** Python's s.split() with no separator: the maximal runs of non-blank characters. */
  function Split(s: string): seq<string>
    decreases |s|
  {
    var t := TrimLeft(s);
    if t == [] then []
    else
      var w := Word(t);
      [w] + Split(t[|w|..])
  }

  /** A line splits into no fields exactly when it strips to nothing. */
  lemma SplitEmptyIffBlank(s: string)
    ensures Split(s) == [] <==> Strip(s) == []
    ensures Split(s) == [] <==> IsBlank(s)
  {
    var t := TrimLeft(s);
    if t == [] {
      forall i | 0 <= i < |s| ensures IsSpace(s[i]) { }
    }
  }

  /** A stripped line has no fields exactly when the raw line was blank. */
  lemma SplitStrippedEmptyIffBlank(raw: string)
    ensures Split(Strip(raw)) == [] <==> IsBlank(raw)
  {
    var t := Strip(raw);
    SplitEmptyIffBlank(t);
    if t != [] { assert !IsSpace(t[0]); }
  }

  /** Python's s.split(sep) for a one-character separator: never empty, keeps empty pieces. */
  function SplitOn(s: string, sep: char): (r: seq<string>)
    ensures |r| >= 1
  {
    if s == [] then [[]]
    else
      var rest := SplitOn(s[1..], sep);
      if s[0] == sep then [[]] + rest else [[s[0]] + rest[0]] + rest[1..]
  }

  /** Python's s.startswith(p). */
  predicate StartsWith(s: string, p: string) {
    |p| <= |s| && s[..|p|] == p
  }

  /** The position Python's s[i] reads in a sequence of length n, counting negative i from the end. */
  function PyIndex(i: int, n: nat): (r: Option<nat>)
    ensures r.Some? <==> -(n as int) <= i < n
    ensures r.Some? ==> r.value < n && (r.value == i || r.value == i + n)
  {
    if 0 <= i < n then Some(i) else if -(n as int) <= i < 0 then Some(i + n) else None
  }

  /** Python's s[i]: None where Python raises IndexError. */
  function PyGet<T>(s: seq<T>, i: int): (r: Option<T>)
    ensures r.Some? <==> -(|s| as int) <= i < |s|
    ensures 0 <= i < |s| ==> r == Some(s[i])
  {
    match PyIndex(i, |s|)
    case None => None
    case Some(k) => Some(s[k])
  }

  /** A slice bound of Python's s[lo:hi], clamped into 0..n. */
  function Clamp(i: int, n: nat): (r: nat)
    ensures r <= n
    ensures 0 <= i <= n ==> r == i
  {
    if i < 0 then (if i + n < 0 then 0 else i + n) else if i > n then n else i
  }

  /** Python's s[lo:hi]: never fails, clamps its bounds. */
  function PySlice<T>(s: seq<T>, lo: int, hi: int): (r: seq<T>)
    ensures 0 <= lo <= hi <= |s| ==> r == s[lo..hi]
    ensures |r| <= |s|
  {
    var a, b := Clamp(lo, |s|), Clamp(hi, |s|);
    if a < b then s[a..b] else []
  }

  /** Python's s[lo:]. */
  function PyFrom<T>(s: seq<T>, lo: int): (r: seq<T>)
    ensures 0 <= lo <= |s| ==> r == s[lo..]
    ensures |r| <= |s|
  {
    PySlice(s, lo, |s|)
  }

  // ---------------------------------------------------------------- numbers

  predicate IsDigit(c: char) { '0' <= c <= '9' }

  predicate AllDigits(s: string) { forall i :: 0 <= i < |s| ==> IsDigit(s[i]) }

  function DigitValue(c: char): (d: nat)
    requires IsDigit(c)
    ensures d < 10
  {
    (c as int - '0' as int) as nat
  }

  function DigitChar(d: nat): (c: char)
    requires d < 10
    ensures IsDigit(c) && DigitValue(c) == d
  {
    ('0' as int + d) as char
  }

  /** The value of a string of decimal digits, most significant first. */
  function DigitsValue(s: string): nat
    requires AllDigits(s)
  {
    if s == [] then 0 else DigitsValue(s[..|s| - 1]) * 10 + DigitValue(s[|s| - 1])
  }

  /** Python's "%d" % n for n >= 0. */
  function NatToString(n: nat): (s: string)
    ensures |s| > 0 && AllDigits(s)
  {
    if n < 10 then [DigitChar(n)] else NatToString(n / 10) + [DigitChar(n % 10)]
  }

  lemma {:induction false} DigitsValueOfNatToString(n: nat)
    ensures DigitsValue(NatToString(n)) == n
  {
    if n >= 10 {
      var s := NatToString(n / 10);
      var t := s + [DigitChar(n % 10)];
      assert t[..|t| - 1] == s;
      DigitsValueOfNatToString(n / 10);
    }
  }

  /**
   * Python 2's int(s) in base 10: blanks, an optional sign, blanks again (the C
   * library's strtol skips them after the sign), at least one decimal digit,
   * then blanks.
   */
  function ParseInt(s: string): Option<int> {
    var t := Strip(s);
    if |t| > 0 && (t[0] == '-' || t[0] == '+') then
      var u := TrimLeft(t[1..]);
      if |u| > 0 && AllDigits(u) then
        Some(if t[0] == '-' then -(DigitsValue(u) as int) else DigitsValue(u))
      else None
    else if |t| > 0 && AllDigits(t) then Some(DigitsValue(t))
    else None
  }

  /** A sign followed by blanks and digits reads as the signed digits. */
  lemma {:induction false} ParseIntBlanksAfterSign(sign: char, blanks: string, digits: string)
    requires sign == '-' || sign == '+'
    requires IsBlank(blanks) && |digits| > 0 && AllDigits(digits)
    ensures ParseInt([sign] + blanks + digits) ==
      Some(if sign == '-' then -(DigitsValue(digits) as int) else DigitsValue(digits))
  {
    var s := [sign] + blanks + digits;
    assert IsDigit(digits[0]) && IsDigit(s[|s| - 1]);
    StripUnchanged(s);
    assert s[1..] == blanks + digits;
    TrimLeftBlanks(blanks, digits);
  }

  /** A string with no blank at either end is its own strip. */
  lemma StripUnchanged(s: string)
    requires |s| > 0 && !IsSpace(s[0]) && !IsSpace(s[|s| - 1])
    ensures Strip(s) == s
  {
    assert TrimLeft(s) == s;
  }

  lemma {:induction false} TrimLeftBlanks(blanks: string, rest: string)
    requires IsBlank(blanks) && (rest == [] || !IsSpace(rest[0]))
    ensures TrimLeft(blanks + rest) == rest
  {
    if blanks != [] {
      assert (blanks + rest)[1..] == blanks[1..] + rest;
      TrimLeftBlanks(blanks[1..], rest);
    }
  }

  /** The names "%d" gives a type id are read back by int() as the same id. */
  lemma ParseIntOfNatToString(n: nat)
    ensures ParseInt(NatToString(n)) == Some(n)
  {
    var s := NatToString(n);
    assert Strip(s) == s by {
      assert !IsSpace(s[0]) && !IsSpace(s[|s| - 1]);
    }
    assert !(s[0] == '-' || s[0] == '+');
    DigitsValueOfNatToString(n);
  }

  /** v times ten to the power x: the decimal point moved x places. */
  function Shift(v: real, x: int): real
    decreases if x >= 0 then x else -x
  {
    if x == 0 then v else if x > 0 then Shift(v, x - 1) * 10.0 else Shift(v, x + 1) / 10.0
  }

  /** The first position of c in s, or |s| when c does not occur. */
  function FindChar(s: string, c: char): (r: nat)
    ensures r <= |s|
    ensures r < |s| ==> s[r] == c
    ensures forall i :: 0 <= i < r ==> s[i] != c
  {
    if s == [] then 0 else if s[0] == c then 0 else 1 + FindChar(s[1..], c)
  }

  /** The first position of an exponent marker 'e' or 'E' in s, or |s|. */
  function FindExponent(s: string): (r: nat)
    ensures r <= |s|
    ensures r < |s| ==> s[r] == 'e' || s[r] == 'E'
  {
    if s == [] then 0 else if s[0] == 'e' || s[0] == 'E' then 0 else 1 + FindExponent(s[1..])
  }

  /** digits[.digits] with at least one digit, or .digits */
  function ParseMantissa(m: string): Option<real> {
    var d := FindChar(m, '.');
    var ip := m[..d];
    var fp := if d < |m| then m[d + 1..] else [];
    if AllDigits(ip) && AllDigits(fp) && |ip| + |fp| > 0 then
      Some(DigitsValue(ip) as real + Shift(DigitsValue(fp) as real, -|fp|))
    else None
  }

  function ParseExponent(x: string): Option<int> {
    if |x| > 0 && (x[0] == '-' || x[0] == '+') then
      if |x| > 1 && AllDigits(x[1..]) then
        Some(if x[0] == '-' then -(DigitsValue(x[1..]) as int) else DigitsValue(x[1..]))
      else None
    else if |x| > 0 && AllDigits(x) then Some(DigitsValue(x))
    else None
  }

  function ParseUnsignedReal(b: string): Option<real> {
    var e := FindExponent(b);
    match ParseMantissa(b[..e])
    case None => None
    case Some(v) =>
      if e == |b| then Some(v)
      else
        match ParseExponent(b[e + 1..])
        case None => None
        case Some(x) => Some(Shift(v, x))
  }

  /**
   * Python's float(s) on decimal notation: blanks, a sign with no blank after it,
   * digits with an optional point, an optional exponent, blanks. The words inf,
   * infinity and nan, which float() also takes, have no real value and read as
   * None here.
   */
  function ParseReal(s: string): Option<real> {
    var t := Strip(s);
    if |t| > 0 && (t[0] == '-' || t[0] == '+') then
      match ParseUnsignedReal(t[1..])
      case None => None
      case Some(v) => Some(if t[0] == '-' then -v else v)
    else ParseUnsignedReal(t)
  }

  /** Python's int(x) on a float: the integer part, rounding toward zero. */
  function Truncate(x: real): (r: int)
    ensures x >= 0.0 ==> r >= 0 && r as real <= x < r as real + 1.0
    ensures x < 0.0 ==> r <= 0 && r as real - 1.0 < x <= r as real
  {
    if x >= 0.0 then x.Floor else -((-x).Floor)
  }

  /** |n|, as Python's abs() gives it. */
  function Abs(n: int): (r: nat)
    ensures r == n || r == -n
  {
    if n < 0 then -n else n
  }

  // ---------------------------------------------------------------- ordering

  /** The order Python's sorted() puts strings in: character by character, a prefix first. */
  predicate StrLt(a: string, b: string) {
    if a == [] then b != []
    else if b == [] then false
    else if a[0] == b[0] then StrLt(a[1..], b[1..])
    else a[0] < b[0]
  }

  lemma {:induction false} StrLtIrreflexive(a: string)
    ensures !StrLt(a, a)
  {
    if a != [] { StrLtIrreflexive(a[1..]); }
  }

  lemma {:induction false} StrLtTransitive(a: string, b: string, c: string)
    requires StrLt(a, b) && StrLt(b, c)
    ensures StrLt(a, c)
  {
    if a != [] && b != [] && c != [] && a[0] == b[0] && b[0] == c[0] {
      StrLtTransitive(a[1..], b[1..], c[1..]);
    }
  }

  lemma {:induction false} StrLtTotal(a: string, b: string)
    requires a != b
    ensures StrLt(a, b) || StrLt(b, a)
  {
    if a != [] && b != [] && a[0] == b[0] {
      assert a == [a[0]] + a[1..] && b == [b[0]] + b[1..];
      StrLtTotal(a[1..], b[1..]);
    }
  }

  lemma StrLtAsymmetric(a: string, b: string)
    requires StrLt(a, b)
    ensures !StrLt(b, a)
  {
    if StrLt(b, a) { StrLtTransitive(a, b, a); StrLtIrreflexive(a); }
  }

  predicate StrictlySorted(s: seq<string>) {
    forall i, j :: 0 <= i < j < |s| ==> StrLt(s[i], s[j])
  }

  function Elems(s: seq<string>): set<string> {
    set y | y in s
  }

  /** Puts x into its place in a strictly sorted sequence that does not hold it yet. */
  function InsertSorted(s: seq<string>, x: string): (r: seq<string>)
    requires StrictlySorted(s) && x !in s
    ensures StrictlySorted(r)
    ensures Elems(r) == Elems(s) + {x}
    ensures |r| == |s| + 1
  {
    if s == [] then [x]
    else if StrLt(x, s[0]) then
      assert forall j :: 0 <= j < |s| ==> StrLt(x, s[j]) by {
        forall j | 0 < j < |s| ensures StrLt(x, s[j]) { StrLtTransitive(x, s[0], s[j]); }
      }
      assert Elems([x] + s) == Elems(s) + {x};
      [x] + s
    else
      StrLtTotal(x, s[0]);
      var rest := InsertSorted(s[1..], x);
      assert forall j :: 0 <= j < |rest| ==> StrLt(s[0], rest[j]) by {
        forall j | 0 <= j < |rest| ensures StrLt(s[0], rest[j]) {
          assert rest[j] in Elems(rest);
          if rest[j] != x {
            assert rest[j] in Elems(s[1..]);
            var k :| 0 <= k < |s[1..]| && s[1..][k] == rest[j];
            assert s[k + 1] == rest[j];
          }
        }
      }
      assert s == [s[0]] + s[1..];
      assert Elems([s[0]] + rest) == {s[0]} + Elems(rest);
      assert Elems(s) == {s[0]} + Elems(s[1..]);
      [s[0]] + rest
  }

  /** x comes before every other member of k. */
  ghost predicate IsMinimum(x: string, k: set<string>) {
    x in k && forall y :: y in k && y != x ==> StrLt(x, y)
  }

  lemma {:induction false} MinimumExists(k: set<string>)
    requires k != {}
    ensures exists x :: IsMinimum(x, k)
    decreases |k|
  {
    var z :| z in k;
    if k - {z} == {} {
      assert k == {z};
      assert IsMinimum(z, k);
    } else {
      MinimumExists(k - {z});
      var x :| IsMinimum(x, k - {z});
      StrLtTotal(x, z);
      if StrLt(x, z) {
        assert IsMinimum(x, k);
      } else {
        forall y | y in k && y != z ensures StrLt(z, y) {
          if y != x { StrLtTransitive(z, x, y); }
        }
        assert IsMinimum(z, k);
      }
    }
  }

  lemma SortedCons(x: string, rest: seq<string>)
    requires StrictlySorted(rest)
    requires forall j :: 0 <= j < |rest| ==> StrLt(x, rest[j])
    ensures StrictlySorted([x] + rest)
  {
    forall i, j | 0 <= i < j < |rest| + 1 ensures StrLt(([x] + rest)[i], ([x] + rest)[j]) {
      if i > 0 { assert ([x] + rest)[i] == rest[i - 1]; }
    }
  }

  /** The keys of a dictionary in the order sorted() returns them. */
  ghost function SortedKeys(k: set<string>): (r: seq<string>)
    ensures StrictlySorted(r)
    ensures Elems(r) == k
    decreases |k|
  {
    if k == {} then []
    else
      MinimumExists(k);
      var x :| IsMinimum(x, k);
      var rest := SortedKeys(k - {x});
      PrependMinimum(x, k, rest);
      [x] + rest
  }

  lemma PrependMinimum(x: string, k: set<string>, rest: seq<string>)
    requires IsMinimum(x, k)
    requires StrictlySorted(rest) && Elems(rest) == k - {x}
    ensures StrictlySorted([x] + rest) && Elems([x] + rest) == k
  {
    forall j | 0 <= j < |rest| ensures StrLt(x, rest[j]) {
      assert rest[j] in Elems(rest);
    }
    SortedCons(x, rest);
    assert Elems([x] + rest) == {x} + Elems(rest);
  }

  /** Two strictly sorted sequences of the same strings are the same sequence. */
  lemma {:induction false} StrictlySortedUnique(a: seq<string>, b: seq<string>)
    requires StrictlySorted(a) && StrictlySorted(b)
    requires Elems(a) == Elems(b)
    ensures a == b
  {
    assert a != [] ==> a[0] in Elems(a);
    assert b != [] ==> b[0] in Elems(b);
    if a != [] && b != [] {
      assert a[0] in Elems(b) && b[0] in Elems(a);
      if a[0] != b[0] {
        StrLtAsymmetric(a[0], b[0]);
      }
      assert Elems(a) == {a[0]} + Elems(a[1..]) by { assert a == [a[0]] + a[1..]; }
      assert Elems(b) == {b[0]} + Elems(b[1..]) by { assert b == [b[0]] + b[1..]; }
      assert a[0] !in Elems(a[1..]) by { StrLtIrreflexive(a[0]); }
      assert b[0] !in Elems(b[1..]) by { StrLtIrreflexive(b[0]); }
      StrictlySortedUnique(a[1..], b[1..]);
      assert a == [a[0]] + a[1..] && b == [b[0]] + b[1..];
    }
  }
}
