/** Properties of the loop of `RMLogFile.__init__` (`RmModel.Run`): what the
    parsed records, the closed blocks and the open run of failed lines hold
    after any number of lines, and when the pass can stop early. */
module RmPassProps {
  import opened Base
  import opened RmClasses
  import opened RmModel
  import opened RmRegistryProps

  /** The record of every line that is a log line, in file order. */
  function Records(lines: seq<string>): (r: seq<LogMsg>)
    ensures |r| <= |lines|
  {
    if lines == [] then []
    else
      Records(lines[..|lines| - 1]) +
        (match ParseLogMsg(lines[|lines| - 1])
         case Ok(x) => [x]
         case ValueError => [])
  }

  /** Every record comes from a line of the file. */
  lemma {:induction false} RecordsFromLines(lines: seq<string>, m: LogMsg)
    requires m in Records(lines)
    ensures exists j :: 0 <= j < |lines| && ParseLogMsg(lines[j]) == Ok(m)
  {
    var last := lines[|lines| - 1];
    if m in Records(lines[..|lines| - 1]) {
      RecordsFromLines(lines[..|lines| - 1], m);
      var j :| 0 <= j < |lines| - 1 && ParseLogMsg(lines[..|lines| - 1][j]) == Ok(m);
      assert lines[..|lines| - 1][j] == lines[j];
    } else {
      assert ParseLogMsg(lines[|lines| - 1]) == Ok(m);
    }
  }

  lemma RecordsStep(lines: seq<string>, i: nat)
    requires i < |lines|
    ensures Records(lines[..i + 1]) ==
      Records(lines[..i]) + (match ParseLogMsg(lines[i]) case Ok(x) => [x] case ValueError => [])
  {
    assert lines[..i + 1][..i] == lines[..i];
  }

  /** The run of failed lines still open after `n` lines: empty with index
      -1, or the line before its first failed line followed by every line
      up to line `n - 1`, at least two lines in all. */
  predicate OpenRun(lines: seq<string>, n: nat, failed: seq<string>, first: int)
    requires n <= |lines|
  {
    if failed == [] then first == -1
    else
      && -1 <= first && first + |failed| == n && |failed| >= 2
      && failed == [PrevLine(lines, first + 1)] + lines[first + 1..n]
  }

  /** A block closed before line `n`: its lines are the line before its
      range, then the lines of the range, and the line just after the range
      is a log line. */
  predicate ClosedBlock(lines: seq<string>, n: nat, y: YException)
    requires n <= |lines|
  {
    var a := y.lineRange.0;
    var b := y.lineRange.1;
    && -1 <= a && a + 2 <= b < n
    && y.lines == [PrevLine(lines, a + 1)] + lines[a + 1..b]
    && ParseLogMsg(lines[b]).Ok?
  }

  predicate BlocksOk(lines: seq<string>, n: nat, s: Scan)
    requires n <= |lines|
  {
    && (forall y :: y in s.errors ==>
          ClosedBlock(lines, n, y) && !y.isThrDump && Ignore(y) == Some(false))
    && (forall y :: y in s.thrDumps ==> ClosedBlock(lines, n, y) && y.isThrDump)
  }

  /** What holds of the pass after the first `n` lines. */
  predicate PassInv(lines: seq<string>, n: nat, s: Scan)
  {
    && n <= |lines|
    && WellFormed(s.reg)
    && s.logs == Records(lines[..n])
    && OpenRun(lines, n, s.failed, s.first)
    && BlocksOk(lines, n, s)
  }

  lemma InitialInv(lines: seq<string>)
    ensures PassInv(lines, 0, InitialScan)
  {
    EmptyWellFormed();
  }

  lemma BlocksExtend(lines: seq<string>, n: nat, s: Scan)
    requires n < |lines| && BlocksOk(lines, n, s)
    ensures BlocksOk(lines, n + 1, s)
  {
  }

  /** A failing line extends the open run, or opens one with the line
      before it. */
  lemma FailExtends(lines: seq<string>, i: nat, s: Scan)
    requires i < |lines| && OpenRun(lines, i, s.failed, s.first)
    ensures var s' := Fail(lines, i, s);
      OpenRun(lines, i + 1, s'.failed, s'.first)
  {
    var s' := Fail(lines, i, s);
    if s.failed != [] {
      assert lines[s.first + 1..i + 1] == lines[s.first + 1..i] + [lines[i]];
    }
  }

  /** A log line processed without error closes the open run, which is at
      least two lines long, so `ignore()` never fails on it. */
  lemma FlushCloses(lines: seq<string>, i: nat, s: Scan)
    requires i < |lines| && OpenRun(lines, i, s.failed, s.first) && BlocksOk(lines, i, s)
    requires ParseLogMsg(lines[i]).Ok?
    ensures Flush(s).Running?
    ensures var s' := Flush(s).scan;
      && s'.reg == s.reg && s'.logs == s.logs
      && OpenRun(lines, i + 1, s'.failed, s'.first) && BlocksOk(lines, i + 1, s')
  {
    BlocksExtend(lines, i, s);
    if s.failed != [] {
      RunBlock(lines, i, s);
    }
  }

  /** The block an open run closes into at log line `i`: the line before
      the run, then every line up to `i - 1`, followed by the log line; it
      has at least two lines, so `ignore()` answers. */
  lemma RunBlock(lines: seq<string>, i: nat, s: Scan)
    requires i < |lines| && OpenRun(lines, i, s.failed, s.first) && s.failed != []
    requires ParseLogMsg(lines[i]).Ok?
    ensures var y := MakeYException(s.failed, s.first);
      ClosedBlock(lines, i + 1, y) && y.lineRange.1 == i && Ignore(y).Some?
  {
  }

  /** Where `Flush` puts the open run: as a block of the run's lines, to
      the thread dumps when its first line starts a thread dump, else to
      the errors when it is not ignorable, else nowhere; the run is then
      empty and nothing else changes. Only a one-line block that is not a
      thread dump ends the pass. */
  lemma FlushEffect(s: Scan)
    ensures s.failed == [] ==> Flush(s) == Running(s)
    ensures s.failed != [] ==>
      var y := MakeYException(s.failed, s.first);
      && y.lines == s.failed && y.lineRange == (s.first, s.first + |s.failed|)
      && (Flush(s).Stopped? <==> !y.isThrDump && |s.failed| < 2)
      && (Flush(s).Running? ==>
            var s' := Flush(s).scan;
            && s' == s.(failed := [], first := -1, thrDumps := s'.thrDumps, errors := s'.errors)
            && s'.thrDumps == s.thrDumps + (if y.isThrDump then [y] else [])
            && s'.errors == s.errors + (if !y.isThrDump && Ignore(y) == Some(false) then [y] else []))
  {
    if s.failed != [] {
      IgnoreIff(MakeYException(s.failed, s.first));
    }
  }

  /** One line keeps the invariant, unless it ends the pass. */
  lemma StepPreserves(lines: seq<string>, i: nat, s: Scan)
    requires i < |lines| && PassInv(lines, i, s)
    requires LineStep(lines, i, s).Running?
    ensures PassInv(lines, i + 1, LineStep(lines, i, s).scan)
    ensures Grows(s.reg, LineStep(lines, i, s).scan.reg)
  {
    match ParseLogMsg(lines[i])
    case ValueError =>
      FailedLine(lines, i, s);
    case Ok(x) =>
      ProcessLogPreserves(s.reg, x);
      match ProcessLog(s.reg, x)
      case Raised(reg) =>
        RaisedLine(lines, i, s, x, reg);
      case Done(reg) =>
        DoneLine(lines, i, s, x, reg);
  }

  /** A line that is not a log line. */
  lemma FailedLine(lines: seq<string>, i: nat, s: Scan)
    requires i < |lines| && PassInv(lines, i, s)
    requires ParseLogMsg(lines[i]).ValueError?
    ensures PassInv(lines, i + 1, Fail(lines, i, s))
    ensures Grows(s.reg, Fail(lines, i, s).reg)
  {
    RecordsStep(lines, i);
    FailExtends(lines, i, s);
    BlocksExtend(lines, i, s);
    GrowsReflexive(s.reg);
  }

  /** A log line whose processing raised ValueError after changing the
      registries to `reg`. */
  lemma RaisedLine(lines: seq<string>, i: nat, s: Scan, x: LogMsg, reg: Registry)
    requires i < |lines| && PassInv(lines, i, s)
    requires ParseLogMsg(lines[i]) == Ok(x)
    requires WellFormed(reg)
    ensures PassInv(lines, i + 1, Fail(lines, i, s.(logs := s.logs + [x], reg := reg)))
  {
    RecordsStep(lines, i);
    FailExtends(lines, i, s.(logs := s.logs + [x], reg := reg));
    BlocksExtend(lines, i, s.(logs := s.logs + [x], reg := reg));
  }

  /** A log line processed without error. */
  lemma DoneLine(lines: seq<string>, i: nat, s: Scan, x: LogMsg, reg: Registry)
    requires i < |lines| && PassInv(lines, i, s)
    requires ParseLogMsg(lines[i]) == Ok(x)
    requires WellFormed(reg)
    ensures Flush(s.(logs := s.logs + [x], reg := reg)).Running?
    ensures PassInv(lines, i + 1, Flush(s.(logs := s.logs + [x], reg := reg)).scan)
    ensures Flush(s.(logs := s.logs + [x], reg := reg)).scan.reg == reg
  {
    RecordsStep(lines, i);
    FlushCloses(lines, i, s.(logs := s.logs + [x], reg := reg));
  }

  /** The invariant holds after every prefix of the file the pass gets
      through. */
  lemma RunInvariant(lines: seq<string>, n: nat)
    requires n <= |lines|
    ensures Run(lines, n).Running? ==> PassInv(lines, n, Run(lines, n).scan)
  {
    InitialInv(lines);
    for j := 0 to n
      invariant Run(lines, j).Running? ==> PassInv(lines, j, Run(lines, j).scan)
    {
      InvStep(lines, j);
    }
  }

  lemma InvStep(lines: seq<string>, j: nat)
    requires j < |lines|
    requires Run(lines, j).Running? ==> PassInv(lines, j, Run(lines, j).scan)
    ensures Run(lines, j + 1).Running? ==> PassInv(lines, j + 1, Run(lines, j + 1).scan)
  {
    RunStep(lines, j);
    if Run(lines, j).Running? && Run(lines, j + 1).Running? {
      StepPreserves(lines, j, Run(lines, j).scan);
    }
  }

  /** `Run` one line further. */
  lemma RunStep(lines: seq<string>, j: nat)
    requires j < |lines|
    ensures Run(lines, j + 1) ==
      match Run(lines, j)
      case Stopped => Stopped
      case Running(s) => LineStep(lines, j, s)
  {
  }

  /** Once ended, the pass stays ended. */
  lemma StoppedStays(lines: seq<string>, n: nat, m: nat)
    requires n <= m <= |lines|
    requires Run(lines, n) == Stopped
    ensures Run(lines, m) == Stopped
    decreases m - n
  {
    if n < m {
      StopStep(lines, n);
      StoppedStays(lines, n + 1, m);
    }
  }

  lemma StopStep(lines: seq<string>, m: nat)
    requires m < |lines| && Run(lines, m) == Stopped
    ensures Run(lines, m + 1) == Stopped
  {
  }
  /** The registries only grow from one line to the next. */
  lemma RunGrows(lines: seq<string>, n: nat)
    requires n < |lines|
    requires Run(lines, n + 1).Running?
    ensures Run(lines, n).Running?
    ensures Grows(Run(lines, n).scan.reg, Run(lines, n + 1).scan.reg)
  {
    RunInvariant(lines, n);
    StepPreserves(lines, n, Run(lines, n).scan);
  }

  /** The pass ends early only at a log line whose processing raises
      something other than ValueError: never at a failing line, and never
      while closing a block. */
  lemma StopsOnlyOnAbort(lines: seq<string>, n: nat)
    requires n < |lines|
    requires Run(lines, n).Running? && Run(lines, n + 1).Stopped?
    ensures ParseLogMsg(lines[n]).Ok?
    ensures ProcessLog(Run(lines, n).scan.reg, ParseLogMsg(lines[n]).value).Aborted?
  {
    var s := Run(lines, n).scan;
    RunInvariant(lines, n);
    if ParseLogMsg(lines[n]).Ok? {
      var x := ParseLogMsg(lines[n]).value;
      if ProcessLog(s.reg, x).Done? {
        FlushCloses(lines, n, s.(logs := s.logs + [x], reg := ProcessLog(s.reg, x).reg));
      }
    }
  }

  // ------------------------------------------------------ Collected blocks

  /** Line `i` is a log line whose processing, on registry `reg`, ends
      without an exception. */
  predicate LogProcessed(lines: seq<string>, i: nat, reg: Registry)
    requires i < |lines|
  {
    ParseLogMsg(lines[i]).Ok? && ProcessLog(reg, ParseLogMsg(lines[i]).value).Done?
  }

  /** How line `i`, when it does not end the pass, changes the open run and
      the collected blocks (scan `s` before, `s'` after): the run is empty
      afterwards exactly when the line is processed normally; then an open
      run is closed into a block that is appended to the thread dumps or to
      the errors as `Flush` decides; otherwise neither list changes. */
  predicate Collects(lines: seq<string>, i: nat, s: Scan, s': Scan)
    requires i < |lines|
  {
    && (s'.failed == [] <==> LogProcessed(lines, i, s.reg))
    && if LogProcessed(lines, i, s.reg) && s.failed != [] then
         var y := MakeYException(s.failed, s.first);
         && s'.thrDumps == s.thrDumps + (if y.isThrDump then [y] else [])
         && s'.errors == s.errors + (if !y.isThrDump && Ignore(y) == Some(false) then [y] else [])
       else s'.thrDumps == s.thrDumps && s'.errors == s.errors
  }

  /** Every step of the loop collects as `Collects` says: no closed,
      non-ignorable block is lost and no other block is added. */
  lemma StepCollects(lines: seq<string>, i: nat, s: Scan)
    requires i < |lines|
    requires LineStep(lines, i, s).Running?
    ensures Collects(lines, i, s, LineStep(lines, i, s).scan)
  {
    match ParseLogMsg(lines[i])
    case ValueError =>
    case Ok(x) =>
      match ProcessLog(s.reg, x)
      case Raised(reg) =>
      case Done(reg) =>
        FlushEffect(s.(logs := s.logs + [x], reg := reg));
  }

  /** The same along the pass: the errors and thread dumps after `n + 1`
      lines are those after `n` lines plus exactly the block line `n`
      closes, if any. */
  lemma RunCollects(lines: seq<string>, n: nat)
    requires n < |lines|
    requires Run(lines, n + 1).Running?
    ensures Run(lines, n).Running?
    ensures Collects(lines, n, Run(lines, n).scan, Run(lines, n + 1).scan)
  {
    RunStep(lines, n);
    StepCollects(lines, n, Run(lines, n).scan);
  }

  // ---------------------------------------------------------- Thread dumps

  /** Why only a run opened at line 0 can become a thread dump: a run
      opened later starts with the line before it, and that line was a log
      line (the run was empty after it). */
  predicate WrapOnly(lines: seq<string>, n: nat, s: Scan)
    requires n <= |lines|
  {
    && (forall y :: y in s.thrDumps ==> y.lineRange.0 == -1)
    && (s.failed != [] && s.first != -1 ==> ParseLogMsg(s.failed[0]).Ok?)
    && (0 < n && s.failed == [] ==> ParseLogMsg(lines[n - 1]).Ok?)
  }

  lemma StepWrapOnly(lines: seq<string>, i: nat, s: Scan)
    requires i < |lines| && WrapOnly(lines, i, s)
    requires LineStep(lines, i, s).Running?
    ensures WrapOnly(lines, i + 1, LineStep(lines, i, s).scan)
  {
    match ParseLogMsg(lines[i])
    case ValueError =>
    case Ok(x) =>
      match ProcessLog(s.reg, x)
      case Raised(reg) =>
      case Done(reg) =>
        FlushEffect(s.(logs := s.logs + [x], reg := reg));
        if s.failed != [] && s.first != -1 {
          LogLineNotThrDump(s.failed, s.first);
        }
  }

  /** Every thread dump the pass collects is the block that starts with
      `lines[-1]`, the last line of the file: `RE_THR_DUMP` is tried on the
      line before a run, which is a log line for every run opened after
      line 0. */
  lemma ThrDumpsWrap(lines: seq<string>, n: nat)
    requires n <= |lines|
    ensures Run(lines, n).Running? ==>
      forall y :: y in Run(lines, n).scan.thrDumps ==> y.lineRange.0 == -1
  {
    for j := 0 to n
      invariant Run(lines, j).Running? ==> WrapOnly(lines, j, Run(lines, j).scan)
    {
      RunStep(lines, j);
      if Run(lines, j).Running? && Run(lines, j + 1).Running? {
        StepWrapOnly(lines, j, Run(lines, j).scan);
      }
    }
  }
}
