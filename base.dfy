/** Outcomes, character classes and the few string primitives that the
    log analyser borrows from Python: `x in s` on strings, `str.rindex`,
    and `int(s)` on a byte string. */
module Base {

  datatype Option<+T> = None | Some(value: T) {
    function GetOr(default: T): T {
      match this
      case Some(v) => v
      case None => default
    }
  }

  /** A Python call that either returns a value or raises ValueError. */
  datatype Result<+T> = Ok(value: T) | ValueError

  predicate IsDigit(c: char) { '0' <= c <= '9' }

  predicate IsLetter(c: char) { 'a' <= c <= 'z' || 'A' <= c <= 'Z' }

  /** `\w` in a Python 2 pattern over byte strings (no LOCALE or UNICODE flag). */
  predicate IsWordChar(c: char) { IsLetter(c) || IsDigit(c) || c == '_' }

  /** `\s` in a Python 2 pattern over byte strings, and `isspace` in the C locale. */
  predicate IsPySpace(c: char) {
    c == ' ' || c == '\t' || c == '\n' || c == '\r' || c == '\U{000B}' || c == '\U{000C}'
  }

  predicate AllDigits(s: string) { forall i :: 0 <= i < |s| ==> IsDigit(s[i]) }

  /** A non-empty run of decimal digits: what `\d+` captures. */
  predicate IsNumeral(s: string) { |s| > 0 && AllDigits(s) }

  function DecimalValue(s: string): (n: nat)
    requires AllDigits(s)
    ensures s == [] ==> n == 0
  {
    if s == [] then 0 else DecimalValue(s[..|s| - 1]) * 10 + (s[|s| - 1] as int - '0' as int)
  }

  predicate IsPrefix(p: string, s: string) { |p| <= |s| && s[..|p|] == p }

  /** `frag` occurs in `s` starting at index `i`. */
  predicate OccursAt(s: string, frag: string, i: int) {
    0 <= i && i + |frag| <= |s| && s[i..i + |frag|] == frag
  }

  /** The first occurrence of `frag` in `s` at or after `from` (Python's `in`
      on strings asks whether there is one). */
  function Find(s: string, frag: string, from: nat): (r: Option<nat>)
    decreases |s| - from
    ensures r.Some? ==> from <= r.value && OccursAt(s, frag, r.value)
    ensures r.Some? ==> forall j :: from <= j < r.value ==> !OccursAt(s, frag, j)
    ensures r.None? ==> forall j :: from <= j ==> !OccursAt(s, frag, j)
  {
    if from + |frag| > |s| then None
    else if s[from..from + |frag|] == frag then Some(from)
    else Find(s, frag, from + 1)
  }

  predicate Contains(s: string, frag: string) { Find(s, frag, 0).Some? }

  lemma {:induction false} ContainsIff(s: string, frag: string)
    ensures Contains(s, frag) <==> exists i :: OccursAt(s, frag, i)
  {
    if Contains(s, frag) {
      assert OccursAt(s, frag, Find(s, frag, 0).value);
    }
  }

  /** The index of the last `c` in `s`, as `str.rindex` gives it. */
  function LastIndex(s: string, c: char): (r: Option<nat>)
    ensures r.Some? ==> r.value < |s| && s[r.value] == c
    ensures r.Some? ==> forall j :: r.value < j < |s| ==> s[j] != c
    ensures r.None? <==> c !in s
  {
    if s == [] then None
    else if s[|s| - 1] == c then Some(|s| - 1)
    else LastIndex(s[..|s| - 1], c)
  }

  function TrimLeft(s: string): (r: string)
    ensures |r| <= |s| && r == s[|s| - |r|..]
    ensures r != [] ==> !IsPySpace(r[0])
  {
    if s != [] && IsPySpace(s[0]) then TrimLeft(s[1..]) else s
  }

  function TrimRight(s: string): (r: string)
    ensures |r| <= |s| && r == s[..|r|]
    ensures r != [] ==> !IsPySpace(r[|r| - 1])
  {
    if s != [] && IsPySpace(s[|s| - 1]) then TrimRight(s[..|s| - 1]) else s
  }

  /** `int(s)` for a byte string `s` in base 10: surrounding whitespace is
      ignored, then an optional sign and one or more digits. */
  function PyInt(s: string): (r: Option<int>)
  {
    var t := TrimRight(TrimLeft(s));
    if |t| >= 2 && (t[0] == '+' || t[0] == '-') && AllDigits(t[1..]) then
      var magnitude: int := DecimalValue(t[1..]);
      Some(if t[0] == '-' then -magnitude else magnitude)
    else if IsNumeral(t) then Some(DecimalValue(t))
    else None
  }

  /** Decimal digits of a natural number, most significant first. */
  function DecimalString(n: nat): (s: string)
    ensures IsNumeral(s)
  {
    if n < 10 then [('0' as int + n) as char]
    else DecimalString(n / 10) + [('0' as int + n % 10) as char]
  }

  lemma {:induction false} DecimalRoundTrip(n: nat)
    ensures DecimalValue(DecimalString(n)) == n
  {
    var s := DecimalString(n);
    if n >= 10 {
      DecimalRoundTrip(n / 10);
      assert s[..|s| - 1] == DecimalString(n / 10);
    }
  }

  /** `int` reads a plain digit string as its decimal value. */
  lemma PyIntOfNumeral(s: string)
    requires IsNumeral(s)
    ensures PyInt(s) == Some(DecimalValue(s))
  {
    assert TrimLeft(s) == s;
    assert TrimRight(s) == s;
  }

  /** `int` never accepts a string without a digit in it. */
  lemma {:induction false} PyIntNeedsDigit(s: string)
    requires forall i :: 0 <= i < |s| ==> !IsDigit(s[i])
    ensures PyInt(s) == None
  {
    var t := TrimRight(TrimLeft(s));
    var l := TrimLeft(s);
    assert forall i :: 0 <= i < |t| ==> t[i] == s[|s| - |l| + i];
  }
}
