/** The regular expressions of the log analyser that are applied with
    Python's `re.match` (anchored at the start only) all have one shape: a
    leading literal, then captured one-or-more runs of a character class,
    each followed by a literal, for example
    `container_(\d+)_(\d+)_(\d+)_(\d+)`. This module recognises that shape
    and no other; it does not backtrack. `MatchSound` and `MatchComplete`
    show that, for the patterns where no run can swallow the first
    character of the literal after it, this is exactly what Python's
    backtracking matcher returns. */
module Shapes {
  import opened Base

  datatype CharClass =
    | Digits       // \d
    | Word         // \w
    | HostChars    // [-a-zA-Z0-9.:]
    | OriginChars  // \w, '.' or '$'

  predicate InClass(c: char, k: CharClass) {
    match k
    case Digits => IsDigit(c)
    case Word => IsWordChar(c)
    case HostChars => c == '-' || IsLetter(c) || IsDigit(c) || c == '.' || c == ':'
    case OriginChars => IsWordChar(c) || c == '.' || c == '$'
  }

  predicate AllIn(s: string, k: CharClass) { forall i :: 0 <= i < |s| ==> InClass(s[i], k) }

  /** A captured run of class `cls` followed by the literal `follow`. */
  datatype Step = Step(cls: CharClass, follow: string)

  /** The pattern `lead (run) follow (run) follow ...`. */
  datatype Shape = Shape(lead: string, steps: seq<Step>)

  /** Length of the longest prefix of `s` made of characters of class `k`. */
  function RunLength(s: string, k: CharClass): (n: nat)
    ensures n <= |s| && AllIn(s[..n], k)
    ensures n < |s| ==> !InClass(s[n], k)
  {
    if s == [] || !InClass(s[0], k) then 0 else 1 + RunLength(s[1..], k)
  }

  function MatchSteps(steps: seq<Step>, s: string): (r: Option<seq<string>>)
    ensures r.Some? ==> |r.value| == |steps|
  {
    if steps == [] then Some([])
    else
      var n := RunLength(s, steps[0].cls);
      var rest := s[n..];
      if n == 0 || !IsPrefix(steps[0].follow, rest) then None
      else match MatchSteps(steps[1..], rest[|steps[0].follow|..])
        case None => None
        case Some(gs) => Some([s[..n]] + gs)
  }

  /** The groups captured when `p` matches at the start of `s`; every run
      takes as many characters of its class as there are. */
  function Match(p: Shape, s: string): (r: Option<seq<string>>)
    ensures r.Some? ==> |r.value| == |p.steps|
  {
    if IsPrefix(p.lead, s) then MatchSteps(p.steps, s[|p.lead|..]) else None
  }

  /** `gs` are admissible captures for `p`: one per run, each a non-empty
      string of the run's class. */
  ghost predicate GroupsFit(p: Shape, gs: seq<string>) {
    |gs| == |p.steps| && forall i :: 0 <= i < |gs| ==> gs[i] != [] && AllIn(gs[i], p.steps[i].cls)
  }

  ghost function FillSteps(steps: seq<Step>, gs: seq<string>): string
    requires |gs| == |steps|
  {
    if steps == [] then "" else gs[0] + steps[0].follow + FillSteps(steps[1..], gs[1..])
  }

  /** The text the pattern stands for once its runs are filled in. */
  ghost function Fill(p: Shape, gs: seq<string>): string
    requires |gs| == |p.steps|
  {
    p.lead + FillSteps(p.steps, gs)
  }

  /** Every run is followed by a literal whose first character it cannot
      absorb, except a final run with nothing after it. */
  predicate Separated(p: Shape) {
    forall i :: 0 <= i < |p.steps| ==>
      if p.steps[i].follow == [] then i == |p.steps| - 1
      else !InClass(p.steps[i].follow[0], p.steps[i].cls)
  }

  /** When nothing follows the final run, the character after the
      filled-in text in `s`, if any, could not extend that run. */
  ghost predicate GreedySteps(steps: seq<Step>, gs: seq<string>, s: string)
    requires |gs| == |steps|
  {
    var f := FillSteps(steps, gs);
    steps != [] && steps[|steps| - 1].follow == [] && |f| < |s| ==>
      !InClass(s[|f|], steps[|steps| - 1].cls)
  }

  ghost predicate GreedyEnd(p: Shape, gs: seq<string>, s: string)
    requires |gs| == |p.steps|
  {
    IsPrefix(p.lead, s) && GreedySteps(p.steps, gs, s[|p.lead|..])
  }

  lemma {:induction false} StepsSound(steps: seq<Step>, s: string)
    requires MatchSteps(steps, s).Some?
    ensures var gs := MatchSteps(steps, s).value;
      && (forall i :: 0 <= i < |gs| ==> gs[i] != [] && AllIn(gs[i], steps[i].cls))
      && IsPrefix(FillSteps(steps, gs), s)
      && GreedySteps(steps, gs, s)
  {
    if steps != [] {
      var n := RunLength(s, steps[0].cls);
      var t := steps[0].follow;
      var tail := s[n..][|t|..];
      StepsSound(steps[1..], tail);
      assert s == s[..n] + t + tail;
      SoundCons(steps, MatchSteps(steps, s).value, s, n, tail);
    }
  }

  /** The inductive step of `StepsSound`, on the pieces of the input. */
  lemma SoundCons(steps: seq<Step>, gs: seq<string>, s: string, n: nat, tail: string)
    requires steps != [] && |gs| == |steps| && 0 < n <= |s|
    requires gs[0] == s[..n] && AllIn(s[..n], steps[0].cls)
    requires s == s[..n] + steps[0].follow + tail
    requires n < |s| ==> !InClass(s[n], steps[0].cls)
    requires forall i :: 0 <= i < |gs| - 1 ==> gs[1..][i] != [] && AllIn(gs[1..][i], steps[1..][i].cls)
    requires IsPrefix(FillSteps(steps[1..], gs[1..]), tail)
    requires GreedySteps(steps[1..], gs[1..], tail)
    ensures forall i :: 0 <= i < |gs| ==> gs[i] != [] && AllIn(gs[i], steps[i].cls)
    ensures IsPrefix(FillSteps(steps, gs), s)
    ensures GreedySteps(steps, gs, s)
  {
    var t := steps[0].follow;
    var f := FillSteps(steps, gs);
    var f' := FillSteps(steps[1..], gs[1..]);
    assert f == s[..n] + t + f';
    assert tail[..|f'|] == f';
    forall i | 0 <= i < |gs|
      ensures gs[i] != [] && AllIn(gs[i], steps[i].cls)
    {
      if i > 0 {
        assert gs[i] == gs[1..][i - 1] && steps[i] == steps[1..][i - 1];
      }
    }
    if |steps| > 1 && |f| < |s| {
      assert steps[1..][|steps| - 2] == steps[|steps| - 1];
      assert s[|f|] == tail[|f'|];
    }
  }

  /** What `Match` returns is an admissible capture, the filled-in pattern
      is a prefix of the input, and a final run is as long as it can be. */
  lemma MatchSound(p: Shape, s: string)
    requires Match(p, s).Some?
    ensures GroupsFit(p, Match(p, s).value)
    ensures IsPrefix(Fill(p, Match(p, s).value), s)
    ensures GreedyEnd(p, Match(p, s).value, s)
  {
    var rest := s[|p.lead|..];
    StepsSound(p.steps, rest);
    assert s == p.lead + rest;
  }

  lemma SeparatedTail(steps: seq<Step>)
    requires steps != [] && Separated(Shape("", steps))
    ensures Separated(Shape("", steps[1..]))
  {
    forall i | 0 <= i < |steps[1..]|
      ensures var st := steps[1..][i];
        if st.follow == [] then i == |steps[1..]| - 1 else !InClass(st.follow[0], st.cls)
    {
      assert steps[1..][i] == steps[i + 1];
    }
  }

  /** A run covers every prefix made of its class, and stops exactly at the
      first character outside it. */
  lemma {:induction false} RunCovers(s: string, k: CharClass, g: string)
    requires IsPrefix(g, s) && AllIn(g, k)
    ensures RunLength(s, k) >= |g|
    ensures |g| < |s| && !InClass(s[|g|], k) ==> RunLength(s, k) == |g|
  {
    if g != [] {
      assert s[0] == g[0];
      assert s[1..][..|g| - 1] == g[1..];
      RunCovers(s[1..], k, g[1..]);
      if |g| < |s| {
        assert s[1..][|g| - 1] == s[|g|];
      }
    }
  }

  /** The first run takes at least the first capture, and exactly it when a
      literal follows. */
  lemma FirstRun(steps: seq<Step>, gs: seq<string>, s: string)
    requires steps != [] && Separated(Shape("", steps))
    requires |gs| == |steps| && gs[0] != [] && AllIn(gs[0], steps[0].cls)
    requires IsPrefix(FillSteps(steps, gs), s)
    ensures IsPrefix(gs[0], s)
    ensures RunLength(s, steps[0].cls) >= |gs[0]|
    ensures steps[0].follow != [] ==> RunLength(s, steps[0].cls) == |gs[0]|
    ensures steps[0].follow != [] ==> IsPrefix(steps[0].follow, s[|gs[0]|..])
    ensures steps[0].follow != [] ==>
      IsPrefix(FillSteps(steps[1..], gs[1..]), s[|gs[0]|..][|steps[0].follow|..])
    ensures steps[0].follow == [] ==> |steps| == 1 && FillSteps(steps, gs) == gs[0]
  {
    FirstText(steps, gs, s);
    RunCovers(s, steps[0].cls, gs[0]);
  }

  /** How the filled-in text starts, without the run lengths. */
  lemma FirstText(steps: seq<Step>, gs: seq<string>, s: string)
    requires steps != [] && Separated(Shape("", steps))
    requires |gs| == |steps| && gs[0] != []
    requires IsPrefix(FillSteps(steps, gs), s)
    ensures IsPrefix(gs[0], s)
    ensures steps[0].follow != [] ==> |gs[0]| < |s| && s[|gs[0]|] == steps[0].follow[0]
    ensures steps[0].follow != [] ==> IsPrefix(steps[0].follow, s[|gs[0]|..])
    ensures steps[0].follow != [] ==>
      IsPrefix(FillSteps(steps[1..], gs[1..]), s[|gs[0]|..][|steps[0].follow|..])
    ensures steps[0].follow == [] ==> |steps| == 1 && FillSteps(steps, gs) == gs[0]
  {
    var t := steps[0].follow;
    var g := gs[0];
    var f' := FillSteps(steps[1..], gs[1..]);
    var f := FillSteps(steps, gs);
    assert f == g + t + f';
    assert s[..|f|] == f;
    assert s[..|g|] == g;
    if t != [] {
      assert s[|g|] == f[|g|] == t[0];
      assert s[|g|..][..|t|] == t;
      assert s[|g|..][|t|..][..|f'|] == f';
    } else {
      assert |steps| == 1;
      assert steps[1..] == [];
    }
  }

  lemma {:induction false} StepsComplete(steps: seq<Step>, gs: seq<string>, s: string)
    requires Separated(Shape("", steps))
    requires |gs| == |steps|
    requires forall i :: 0 <= i < |gs| ==> gs[i] != [] && AllIn(gs[i], steps[i].cls)
    requires IsPrefix(FillSteps(steps, gs), s)
    ensures MatchSteps(steps, s).Some?
    ensures GreedySteps(steps, gs, s) ==> MatchSteps(steps, s) == Some(gs)
  {
    if steps != [] {
      var t := steps[0].follow;
      var g := gs[0];
      FirstRun(steps, gs, s);
      var n := RunLength(s, steps[0].cls);
      if t == [] {
        assert gs[1..] == [];
        assert n > 0 && IsPrefix(t, s[n..]) && steps[1..] == [];
        assert s[n..][|t|..] == s[n..];
        assert MatchSteps(steps[1..], s[n..]) == Some([]);
        assert [s[..n]] + [] == [s[..n]];
        assert MatchSteps(steps, s) == Some([s[..n]]);
        if GreedySteps(steps, gs, s) {
          assert n == |g|;
          assert gs == [g];
        }
      } else {
        var tail := s[n..][|t|..];
        SeparatedTail(steps);
        forall i | 0 <= i < |gs[1..]|
          ensures gs[1..][i] != [] && AllIn(gs[1..][i], steps[1..][i].cls)
        {
          assert gs[1..][i] == gs[i + 1] && steps[1..][i] == steps[i + 1];
        }
        StepsComplete(steps[1..], gs[1..], tail);
        if GreedySteps(steps, gs, s) {
          GreedyTail(steps, gs, s, tail);
          assert gs == [g] + gs[1..];
        }
      }
    }
  }

  lemma GreedyTail(steps: seq<Step>, gs: seq<string>, s: string, tail: string)
    requires |steps| >= 1 && |gs| == |steps| && steps[0].follow != []
    requires |gs[0]| + |steps[0].follow| <= |s|
    requires tail == s[|gs[0]| + |steps[0].follow|..]
    requires GreedySteps(steps, gs, s)
    ensures GreedySteps(steps[1..], gs[1..], tail)
  {
    var f' := FillSteps(steps[1..], gs[1..]);
    var f := FillSteps(steps, gs);
    assert f == gs[0] + steps[0].follow + f';
    if |steps| > 1 && |f'| < |tail| {
      assert steps[1..][|steps| - 2] == steps[|steps| - 1];
      assert s[|f|] == tail[|f'|];
    }
  }

  /** If the pattern is `Separated` and some admissible capture fills it to
      a prefix of `s`, then `Match` succeeds, and it returns that very
      capture when its final run is maximal. So `Match` agrees with a
      backtracking matcher that tries longer runs first. */
  lemma MatchComplete(p: Shape, gs: seq<string>, s: string)
    requires Separated(p) && GroupsFit(p, gs) && IsPrefix(Fill(p, gs), s)
    ensures Match(p, s).Some?
    ensures GreedyEnd(p, gs, s) ==> Match(p, s) == Some(gs)
  {
    var f := FillSteps(p.steps, gs);
    assert Fill(p, gs) == p.lead + f;
    assert s[..|p.lead| + |f|] == p.lead + f;
    assert s[..|p.lead|] == p.lead;
    assert s[|p.lead|..][..|f|] == s[..|p.lead| + |f|][|p.lead|..];
    assert s[|p.lead|..][..|f|] == f;
    assert Separated(Shape("", p.steps));
    StepsComplete(p.steps, gs, s[|p.lead|..]);
  }

  /** `FillSteps` unfolds one step at a time. */
  lemma FillStepsCons(st: Step, rest: seq<Step>, g: string, gs: seq<string>)
    requires |gs| == |rest|
    ensures FillSteps([st] + rest, [g] + gs) == g + st.follow + FillSteps(rest, gs)
  {
    assert ([st] + rest)[1..] == rest;
    assert ([g] + gs)[1..] == gs;
  }

  /** At the end of the input every final run is maximal. */
  lemma GreedyAtEnd(p: Shape, gs: seq<string>)
    requires GroupsFit(p, gs)
    ensures GreedyEnd(p, gs, Fill(p, gs))
  {
    var s := Fill(p, gs);
    assert s[|p.lead|..] == FillSteps(p.steps, gs);
  }
}
