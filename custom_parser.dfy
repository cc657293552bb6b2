/** `CustomParser`, the operator of the FileToJdbc application that turns
    a text line into a `PojoEvent`: the line is split on runs of separator
    characters, token 0 and token 2 are read as Java `int`s (0 when they
    are not), and token 1 is the name. */
module CustomParser {
  import opened Base

  /** The characters of the default separator class `[\p{Punct}\s]`:
      ASCII punctuation, and Java's `\s`, which is space, tab, newline,
      vertical tab, form feed and carriage return. */
  predicate IsSeparator(c: char)
  {
    || '!' <= c <= '/' || ':' <= c <= '@' || '[' <= c <= '`' || '{' <= c <= '~'
    || c == ' ' || c == '\t' || c == '\n' || c == '\U{0B}' || c == '\U{0C}' || c == '\r'
  }

  predicate NoSeparator(s: string) { forall i :: 0 <= i < |s| ==> !IsSeparator(s[i]) }

  predicate AllSeparators(s: string) { forall i :: 0 <= i < |s| ==> IsSeparator(s[i]) }

  /** The end of the word that starts at index `i`: the first separator
      at or after `i`, or the end of `s`. */
  function WordEnd(s: string, i: nat): (n: nat)
    requires i <= |s|
    ensures i <= n <= |s|
    ensures i < |s| && !IsSeparator(s[i]) ==> n > i
    decreases |s| - i
  {
    if i == |s| || IsSeparator(s[i]) then i else WordEnd(s, i + 1)
  }

  /** The word holds no separator, and a separator ends it unless the
      text does. */
  lemma {:induction false} WordEndSpec(s: string, i: nat)
    requires i <= |s|
    ensures forall j :: i <= j < WordEnd(s, i) ==> !IsSeparator(s[j])
    ensures WordEnd(s, i) < |s| ==> IsSeparator(s[WordEnd(s, i)])
    decreases |s| - i
  {
    if i < |s| && !IsSeparator(s[i]) {
      WordEndSpec(s, i + 1);
    }
  }

  /** The end of the separator run that starts at index `i`: the greedy
      `+` of the pattern. */
  function SepEnd(s: string, i: nat): (n: nat)
    requires i <= |s|
    ensures i <= n <= |s|
    ensures i < |s| && IsSeparator(s[i]) ==> n > i
    decreases |s| - i
  {
    if i == |s| || !IsSeparator(s[i]) then i else SepEnd(s, i + 1)
  }

  /** The run is all separators, and what follows it is not one. */
  lemma {:induction false} SepEndSpec(s: string, i: nat)
    requires i <= |s|
    ensures forall j :: i <= j < SepEnd(s, i) ==> IsSeparator(s[j])
    ensures SepEnd(s, i) < |s| ==> !IsSeparator(s[SepEnd(s, i)])
    decreases |s| - i
  {
    if i < |s| && IsSeparator(s[i]) {
      SepEndSpec(s, i + 1);
    }
  }

  /** The word from `i` ends at `e` when nothing before `e` is a separator
      and `e` is one or the end. */
  lemma {:induction false} WordEndAt(s: string, i: nat, e: nat)
    requires i <= e <= |s|
    requires forall j :: i <= j < e ==> !IsSeparator(s[j])
    requires e < |s| ==> IsSeparator(s[e])
    ensures WordEnd(s, i) == e
    decreases e - i
  {
    if i < e {
      WordEndAt(s, i + 1, e);
    }
  }

  /** The run from `i` ends at `e` when everything before `e` is a
      separator and `e` is not one, or the end. */
  lemma {:induction false} SepEndAt(s: string, i: nat, e: nat)
    requires i <= e <= |s|
    requires forall j :: i <= j < e ==> IsSeparator(s[j])
    requires e < |s| ==> !IsSeparator(s[e])
    ensures SepEnd(s, i) == e
    decreases e - i
  {
    if i < e {
      SepEndAt(s, i + 1, e);
    }
  }

  /** The separator run after the word that starts at `i`: it is not
      empty. */
  function RunEnd(s: string, i: nat): (k: nat)
    requires i <= |s| && WordEnd(s, i) < |s|
    ensures WordEnd(s, i) < k <= |s|
  {
    WordEndSpec(s, i);
    SepEnd(s, WordEnd(s, i))
  }

  /** The text of `s[i..]` between successive maximal separator runs: an
      empty first piece when it starts with a separator, an empty last
      piece when it ends with one. */
  function PiecesFrom(s: string, i: nat): (r: seq<string>)
    requires i <= |s|
    ensures |r| >= 1 && r[0] == s[i..WordEnd(s, i)]
    decreases |s| - i
  {
    var w := WordEnd(s, i);
    if w == |s| then [s[i..]]
    else [s[i..w]] + PiecesFrom(s, RunEnd(s, i))
  }

  /** The separator runs between the pieces of `s[i..]`. */
  function GapsFrom(s: string, i: nat): (r: seq<string>)
    requires i <= |s|
    decreases |s| - i
  {
    var w := WordEnd(s, i);
    if w == |s| then []
    else [s[w..RunEnd(s, i)]] + GapsFrom(s, RunEnd(s, i))
  }

  function Pieces(s: string): (r: seq<string>)
    ensures |r| >= 1
  {
    PiecesFrom(s, 0)
  }

  function Gaps(s: string): seq<string>
  {
    GapsFrom(s, 0)
  }

  /** No piece holds a separator, and none but the first and the last is
      empty. */
  predicate PiecesOk(r: seq<string>)
  {
    && (forall k :: 0 <= k < |r| ==> NoSeparator(r[k]))
    && (forall k :: 0 < k < |r| - 1 ==> r[k] != [])
  }

  /** The pieces are `PiecesOk`: the runs between them are maximal. */
  lemma {:induction false} PiecesSpec(s: string, i: nat)
    requires i <= |s|
    ensures PiecesOk(PiecesFrom(s, i))
    decreases |s| - i
  {
    var w := WordEnd(s, i);
    WordEndSpec(s, i);
    var first := s[i..w];
    assert forall j :: 0 <= j < |first| ==> first[j] == s[i + j];
    assert NoSeparator(first);
    if w < |s| {
      var k := RunEnd(s, i);
      PiecesSpec(s, k);
      SepEndSpec(s, w);
      var tail := PiecesFrom(s, k);
      if k < |s| {
        assert WordEnd(s, k) > k;
        assert tail[0] != [];
      } else {
        assert tail == [s[k..]];
      }
      PieceTail(first, tail, k < |s|);
    }
  }

  /** `[first] + tail` stays `PiecesOk` when the first piece of `tail` is
      not empty or `tail` has no other. */
  lemma PieceTail(first: string, tail: seq<string>, headFull: bool)
    requires NoSeparator(first) && tail != [] && PiecesOk(tail)
    requires headFull ==> tail[0] != []
    requires !headFull ==> |tail| == 1
    ensures PiecesOk([first] + tail)
  {
    var r := [first] + tail;
    forall k | 0 < k < |r|
      ensures r[k] == tail[k - 1]
    {
    }
  }

  /** Every gap is a non-empty run of separators, and there is one gap
      between each two pieces. */
  lemma {:induction false} GapsSpec(s: string, i: nat)
    requires i <= |s|
    ensures |GapsFrom(s, i)| == |PiecesFrom(s, i)| - 1
    ensures forall k :: 0 <= k < |GapsFrom(s, i)| ==>
      GapsFrom(s, i)[k] != [] && AllSeparators(GapsFrom(s, i)[k])
    decreases |s| - i
  {
    var w := WordEnd(s, i);
    if w < |s| {
      var k := RunEnd(s, i);
      GapsSpec(s, k);
      SepEndSpec(s, w);
      var gap := s[w..k];
      assert forall j :: 0 <= j < |gap| ==> gap[j] == s[w + j];
      var g := GapsFrom(s, i);
      forall j | 0 < j < |g|
        ensures g[j] == GapsFrom(s, k)[j - 1]
      {
      }
    }
  }

  /** Pieces and gaps, alternately: `pieces[0] + gaps[0] + pieces[1] ...`. */
  function Interleave(pieces: seq<string>, gaps: seq<string>): string
    requires |pieces| == |gaps| + 1
  {
    if gaps == [] then pieces[0]
    else pieces[0] + gaps[0] + Interleave(pieces[1..], gaps[1..])
  }

  /** Splitting loses nothing: the pieces and the runs between them give
      back the text. */
  lemma {:induction false} PiecesRejoin(s: string, i: nat)
    requires i <= |s|
    ensures |GapsFrom(s, i)| == |PiecesFrom(s, i)| - 1
    ensures Interleave(PiecesFrom(s, i), GapsFrom(s, i)) == s[i..]
    decreases |s| - i
  {
    GapsSpec(s, i);
    var w := WordEnd(s, i);
    if w < |s| {
      var k := RunEnd(s, i);
      PiecesRejoin(s, k);
      InterleaveCons(s[i..w], s[w..k], PiecesFrom(s, k), GapsFrom(s, k));
      Rejoin3(s, i, w, k);
    }
  }

  lemma Rejoin3(s: string, i: nat, w: nat, k: nat)
    requires i <= w <= k <= |s|
    ensures s[i..w] + s[w..k] + s[k..] == s[i..]
  {
  }

  lemma InterleaveCons(piece: string, gap: string, pieces: seq<string>, gaps: seq<string>)
    requires |pieces| == |gaps| + 1
    ensures Interleave([piece] + pieces, [gap] + gaps) == piece + gap + Interleave(pieces, gaps)
  {
    assert ([piece] + pieces)[1..] == pieces;
    assert ([gap] + gaps)[1..] == gaps;
  }

  /** `ps` without its trailing empty strings. */
  function DropTrailingEmpty(ps: seq<string>): (r: seq<string>)
    ensures |r| <= |ps| && r == ps[..|r|]
    ensures r != [] ==> r[|r| - 1] != []
    ensures forall k :: |r| <= k < |ps| ==> ps[k] == []
  {
    if ps == [] || ps[|ps| - 1] != [] then ps
    else DropTrailingEmpty(ps[..|ps| - 1])
  }

  /** `Pattern.split(line)` with the default pattern: a line without a
      separator, the empty line included, is its own only token; otherwise
      the pieces between separator runs, trailing empty pieces removed. */
  function JavaSplit(line: string): (r: seq<string>)
  {
    if line == [] then [""] else DropTrailingEmpty(Pieces(line))
  }

  /** No token holds a separator, every token but the first is non-empty,
      and the tokens are the leading pieces of the line. */
  lemma SplitTokens(line: string)
    ensures var r := JavaSplit(line);
      && (forall k :: 0 <= k < |r| ==> NoSeparator(r[k]))
      && (forall k :: 0 < k < |r| ==> r[k] != [])
      && (line != [] ==> r == Pieces(line)[..|r|])
  {
    var r := JavaSplit(line);
    if line != [] {
      PiecesSpec(line, 0);
      var ps := PiecesFrom(line, 0);
      assert r == DropTrailingEmpty(ps);
      assert PiecesOk(ps);
      forall k | 0 <= k < |r|
        ensures NoSeparator(r[k])
        ensures k > 0 ==> r[k] != []
      {
        assert r[k] == ps[k];
        if 0 < k < |r| - 1 {
          assert k < |ps| - 1;
        }
      }
    }
  }

  /** Java's `Integer.MIN_VALUE` and `Integer.MAX_VALUE`. */
  const IntMin: int := -0x8000_0000
  const IntMax: int := 0x7FFF_FFFF

  /** `Integer.parseInt(s)`: an optional sign, then one or more digits,
      whose value fits in 32 bits; None stands for NumberFormatException. */
  function JavaParseInt(s: string): (r: Option<int>)
    ensures r.Some? ==> IntMin <= r.value <= IntMax
  {
    if |s| >= 2 && (s[0] == '-' || s[0] == '+') && AllDigits(s[1..]) then
      var magnitude: int := DecimalValue(s[1..]);
      var v := if s[0] == '-' then -magnitude else magnitude;
      if IntMin <= v <= IntMax then Some(v) else None
    else if IsNumeral(s) && DecimalValue(s) <= IntMax then Some(DecimalValue(s))
    else None
  }

  /** A token of the default split never holds a sign, so it parses
      exactly when it is a numeral within `Integer.MAX_VALUE`, and never to
      a negative number. */
  lemma TokenParse(t: string)
    requires NoSeparator(t)
    ensures JavaParseInt(t).Some? <==> IsNumeral(t) && DecimalValue(t) <= IntMax
    ensures JavaParseInt(t).Some? ==> JavaParseInt(t).value == DecimalValue(t) >= 0
  {
    if |t| >= 2 {
      assert !IsSeparator(t[0]);
    }
  }

  /** `parseInt` reads back the decimal digits of any non-negative `int`. */
  lemma ParseDecimal(n: nat)
    requires n <= IntMax
    ensures JavaParseInt(DecimalString(n)) == Some(n)
  {
    DecimalRoundTrip(n);
    assert DecimalString(n)[0] != '-' && DecimalString(n)[0] != '+';
  }

  /** The event the operator emits. */
  datatype PojoEvent = PojoEvent(accountNumber: int, name: string, amount: int)

  /** The fields of `process`, from a line's tokens. */
  function ToPojo(words: seq<string>): (p: PojoEvent)
    requires |words| >= 3
  {
    PojoEvent(JavaParseInt(words[0]).GetOr(0), words[1], JavaParseInt(words[2]).GetOr(0))
  }

  /** What `process` emits for a line, if anything: fewer than three
      tokens end in an index exception before the emit. */
  function ProcessLine(line: string): (r: Option<PojoEvent>)
    ensures r.Some? <==> |JavaSplit(line)| >= 3
  {
    var words := JavaSplit(line);
    if |words| < 3 then None else Some(ToPojo(words))
  }

  /** Every emitted event has non-negative 32-bit numbers and a non-empty
      name free of separators; each number is its token's value when the
      token is a numeral within `Integer.MAX_VALUE`, and 0 otherwise. */
  lemma EventFields(line: string)
    requires ProcessLine(line).Some?
    ensures var p := ProcessLine(line).value;
      && 0 <= p.accountNumber <= IntMax && 0 <= p.amount <= IntMax
      && p.name != [] && NoSeparator(p.name)
      && p.name == JavaSplit(line)[1]
      && (p.accountNumber != 0 ==>
            IsNumeral(JavaSplit(line)[0]) && p.accountNumber == DecimalValue(JavaSplit(line)[0]))
      && (p.amount != 0 ==>
            IsNumeral(JavaSplit(line)[2]) && p.amount == DecimalValue(JavaSplit(line)[2]))
      && (IsNumeral(JavaSplit(line)[0]) && DecimalValue(JavaSplit(line)[0]) <= IntMax ==>
            p.accountNumber == DecimalValue(JavaSplit(line)[0]))
      && (!(IsNumeral(JavaSplit(line)[0]) && DecimalValue(JavaSplit(line)[0]) <= IntMax) ==>
            p.accountNumber == 0)
      && (IsNumeral(JavaSplit(line)[2]) && DecimalValue(JavaSplit(line)[2]) <= IntMax ==>
            p.amount == DecimalValue(JavaSplit(line)[2]))
      && (!(IsNumeral(JavaSplit(line)[2]) && DecimalValue(JavaSplit(line)[2]) <= IntMax) ==>
            p.amount == 0)
  {
    var words := JavaSplit(line);
    SplitTokens(line);
    TokenParse(words[0]);
    TokenParse(words[2]);
  }

  /** A record written as `account,name,amount` comes back as the event
      with those fields. */
  lemma RecordRoundTrip(account: nat, name: string, amount: nat)
    requires account <= IntMax && amount <= IntMax
    requires name != [] && NoSeparator(name)
    ensures ProcessLine(DecimalString(account) + "," + name + "," + DecimalString(amount)) ==
      Some(PojoEvent(account, name, amount))
  {
    var a := DecimalString(account);
    var b := DecimalString(amount);
    DigitsNoSeparator(a);
    DigitsNoSeparator(b);
    ThreeTokens(a, name, b);
    ParseDecimal(account);
    ParseDecimal(amount);
  }

  /** Three words joined by commas split back into the three words. */
  lemma ThreeTokens(a: string, name: string, b: string)
    requires a != [] && name != [] && b != []
    requires NoSeparator(a) && NoSeparator(name) && NoSeparator(b)
    ensures JavaSplit(a + "," + name + "," + b) == [a, name, b]
  {
    var line := a + "," + name + "," + b;
    var p := |a|;
    var q := |a| + 1 + |name|;
    CommaJoined(a, name, b);
    WordAt(line, 0, p);
    CommaAt(line, p);
    WordAt(line, p + 1, q);
    CommaAt(line, q);
    WordAt(line, q + 1, |line|);
    assert PiecesFrom(line, q + 1) == [b];
    PieceThenRest(line, p + 1, q, q + 1);
    PieceThenRest(line, 0, p, p + 1);
  }

  /** Where the three words and two commas of `a,name,b` sit. */
  lemma CommaJoined(a: string, name: string, b: string)
    ensures var line := a + "," + name + "," + b;
      var p := |a|; var q := |a| + 1 + |name|;
      && line[..p] == a && line[p] == ','
      && line[p + 1..q] == name && line[q] == ','
      && line[q + 1..] == b
  {
  }

  /** The word of `s` from `i` is `s[i..e]` when it holds no separator and
      ends at a separator or the end. */
  lemma WordAt(s: string, i: nat, e: nat)
    requires i <= e <= |s| && NoSeparator(s[i..e])
    requires e < |s| ==> IsSeparator(s[e])
    ensures WordEnd(s, i) == e
  {
    assert forall j :: i <= j < e ==> s[j] == s[i..e][j - i];
    WordEndAt(s, i, e);
  }

  /** A lone comma followed by a non-separator is a run of length one. */
  lemma CommaAt(s: string, i: nat)
    requires i + 1 < |s| && s[i] == ',' && !IsSeparator(s[i + 1])
    ensures SepEnd(s, i) == i + 1
  {
    SepEndAt(s, i, i + 1);
  }

  /** The pieces of `s[i..]` when its first word ends at `w` and the run
      after it at `k`. */
  lemma PieceThenRest(s: string, i: nat, w: nat, k: nat)
    requires i <= w < |s| && WordEnd(s, i) == w && SepEnd(s, w) == k
    ensures PiecesFrom(s, i) == [s[i..w]] + PiecesFrom(s, k)
  {
  }

  lemma DigitsNoSeparator(s: string)
    requires IsNumeral(s)
    ensures NoSeparator(s) && !IsSeparator(s[0])
  {
  }

  /** What `setup` left in `regexPattern`: nothing yet (Java's null), the
      default pattern, or a pattern compiled from `regexStr`. */
  datatype Splitter = Unset | DefaultSeparators | Configured(regex: string)

  /** How one call of `process` ended. */
  datatype Outcome = Emitted(event: PojoEvent) | NullPattern | TooFewTokens

  class CustomParserOperator {
    var regexStr: Option<string>
    var regexPattern: Splitter
    /** The events sent to the `output` port so far. */
    var emitted: seq<PojoEvent>

    constructor ()
      ensures regexStr.None? && regexPattern.Unset? && emitted == []
    {
      regexStr := None;
      regexPattern := Unset;
      emitted := [];
    }

    method SetRegexStr(regex: string)
      modifies this
      ensures regexStr == Some(regex)
      ensures regexPattern == old(regexPattern) && emitted == old(emitted)
    {
      regexStr := Some(regex);
    }

    /** `setup`: the default pattern unless a regex was configured. */
    method Setup()
      modifies this
      ensures regexPattern == (if regexStr.None? then DefaultSeparators else Configured(regexStr.value))
      ensures regexStr == old(regexStr) && emitted == old(emitted)
    {
      if regexStr.None? {
        regexPattern := DefaultSeparators;
      } else {
        regexPattern := Configured(regexStr.value);
      }
    }

    /** `input.process`: split the line, fill a `PojoEvent`, emit it. */
    method Process(line: string) returns (out: Outcome)
      requires !regexPattern.Configured?
      modifies this
      ensures out == NullPattern <==> regexPattern.Unset?
      ensures regexPattern.DefaultSeparators? ==>
        match ProcessLine(line)
        case Some(p) => out == Emitted(p) && emitted == old(emitted) + [p]
        case None => out == TooFewTokens && emitted == old(emitted)
      ensures regexPattern.Unset? ==> emitted == old(emitted)
      ensures regexStr == old(regexStr) && regexPattern == old(regexPattern)
    {
      if regexPattern.Unset? {
        return NullPattern;
      }
      var words := JavaSplit(line);
      if |words| < 3 {
        return TooFewTokens;
      }
      var accountNumber := 0;
      var parsed := JavaParseInt(words[0]);
      if parsed.Some? {
        accountNumber := parsed.value;
      }
      var name := words[1];
      var amount := 0;
      parsed := JavaParseInt(words[2]);
      if parsed.Some? {
        amount := parsed.value;
      }
      var pojo := PojoEvent(accountNumber, name, amount);
      emitted := emitted + [pojo];
      out := Emitted(pojo);
    }
  }
}
