/** The older, top-level `Deflake` class: the same batch scheduler with no
    counter token and no quiet mode. Every launch runs the command verbatim,
    every entry is printed, and the entry after a FAIL line is the captured
    standard output and standard error joined by "\n". */
module LegacyDeflake {
  import opened Text
  import opened Schedule
  import Current = Deflake

  /** Runs from + 1, ..., from + count, all running the same command line. */
  function Runs(command: string, from: nat, count: nat): (ps: seq<Process>)
    ensures |ps| == count
  {
    seq(count, j requires 0 <= j < count => Process(command, from + j + 1))
  }

  lemma RunsSplit(command: string, a: nat, b: nat, c: nat)
    ensures Runs(command, a, b) + Runs(command, a + b, c) == Runs(command, a, b + c)
  {
  }

  lemma RunsSnoc(command: string, from: nat, n: nat)
    ensures Runs(command, from, n) + [Process(command, from + n + 1)] == Runs(command, from, n + 1)
  {
    RunsSplit(command, from, n, 1);
  }

  /** The entry logged after a FAIL line, `"\n".join(com)`: standard output
      and standard error joined by a newline. It is a lone "\n" exactly when
      both streams are empty. */
  function FailureOutput(o: Outcome): (entry: string)
    ensures |entry| == |o.stdout| + 1 + |o.stderr|
    ensures entry == "\n" <==> o.stdout == [] && o.stderr == []
  {
    var com := Communicate(o);
    com[0] + "\n" + com[1]
  }

  /** Batch b holds `BatchSize` of b processes, `launched` counts them all,
      and together they are runs 1 .. `launched`. */
  ghost predicate Planned(command: string, maxRuns: int, poolSize: int,
                          processes: seq<seq<Process>>, launched: nat)
    requires poolSize >= 1
  {
    && (forall b :: 0 <= b < |processes| ==> |processes[b]| == BatchSize(maxRuns, poolSize, b))
    && launched == Launched(maxRuns, poolSize, |processes|)
    && Flatten(processes) == Runs(command, 0, launched)
  }

  lemma PlannedStep(command: string, maxRuns: int, poolSize: int,
                    processes: seq<seq<Process>>, launched: nat, batch: seq<Process>)
    requires poolSize >= 1 && Planned(command, maxRuns, poolSize, processes, launched)
    requires batch == Runs(command, launched, BatchSize(maxRuns, poolSize, |processes|))
    ensures Planned(command, maxRuns, poolSize, processes + [batch], launched + |batch|)
  {
    FlattenAppend(processes, batch);
    RunsSplit(command, 0, launched, |batch|);
  }

  /** What holds between two batches: launches as planned, at most
      `BatchCount` batches, and a log and terminal that are those of the
      sequential reference, cut after the last run waited on. */
  ghost predicate Between(os: nat -> Outcome, command: string, maxRuns: int, poolSize: int,
                          processes: seq<seq<Process>>, launched: nat, loops: nat,
                          failed: bool, out: seq<string>, screen: seq<Line>)
    requires maxRuns >= 1 && poolSize >= 1
  {
    && |processes| == loops <= BatchCount(maxRuns, poolSize)
    && Planned(command, maxRuns, poolSize, processes, launched)
    && (!failed ==>
          PassedThrough(os, 1, launched) && out == Passes(launched) && screen == PassLines(launched))
    && (failed ==>
          loops >= 1 && FirstFailure(os, maxRuns).Some? &&
          Launched(maxRuns, poolSize, loops - 1) < FirstFailure(os, maxRuns).value <= launched)
    && (failed ==>
          out == ExpectedLog(os, maxRuns, FailureOutput) && screen == ExpectedScreen(os, maxRuns, FailureOutput))
  }

  /** Launching the next planned batch and waiting on it, with the outcome
      the wait reports, keeps what holds between batches. */
  lemma BatchStep(os: nat -> Outcome, command: string, maxRuns: int, poolSize: int,
                  processes: seq<seq<Process>>, launched: nat, loops: nat, batch: seq<Process>,
                  processes': seq<seq<Process>>, launched': nat, loops': nat,
                  failed: bool, out: seq<string>, screen: seq<Line>)
    requires maxRuns >= 1 && poolSize >= 1 && loops < BatchCount(maxRuns, poolSize)
    requires |processes| == loops && Planned(command, maxRuns, poolSize, processes, launched)
    requires processes' == processes + [batch] && launched' == launched + |batch| && loops' == loops + 1
    requires batch == Runs(command, launched, BatchSize(maxRuns, poolSize, loops))
    requires !failed ==>
      PassedThrough(os, 1, launched + |batch|) && out == Passes(launched + |batch|) &&
      screen == PassLines(launched + |batch|)
    requires failed ==>
      FirstFailure(os, maxRuns).Some? && launched < FirstFailure(os, maxRuns).value <= launched + |batch| &&
      out == ExpectedLog(os, maxRuns, FailureOutput) && screen == ExpectedScreen(os, maxRuns, FailureOutput)
    ensures Between(os, command, maxRuns, poolSize, processes', launched', loops', failed, out, screen)
  {
    PlannedStep(command, maxRuns, poolSize, processes, launched, batch);
  }

  /** The state `_run_processes` leaves behind; as for the current class,
      except that every launch runs the command verbatim and everything
      logged is printed. */
  ghost predicate Complete(os: nat -> Outcome, command: string, maxRuns: int, poolSize: int,
                           processes: seq<seq<Process>>, launched: nat, loops: nat,
                           failed: bool, out: seq<string>, screen: seq<Line>)
    requires maxRuns >= 1 && poolSize >= 1
  {
    && out == ExpectedLog(os, maxRuns, FailureOutput)
    && screen == ExpectedScreen(os, maxRuns, FailureOutput)
    && Planned(command, maxRuns, poolSize, processes, launched)
    && |processes| == loops
    && (failed <==> FirstFailure(os, maxRuns).Some?)
    && (!failed ==> launched == maxRuns && loops == BatchCount(maxRuns, poolSize))
    && (failed ==>
          loops >= 1 &&
          Launched(maxRuns, poolSize, loops - 1) < FirstFailure(os, maxRuns).value <= launched <= maxRuns)
  }

  /** Once the loop stops, because a run failed or the last planned batch
      has been waited on, what held between batches is the finished state. */
  lemma StopComplete(os: nat -> Outcome, command: string, maxRuns: int, poolSize: int,
                     processes: seq<seq<Process>>, launched: nat, loops: nat,
                     failed: bool, out: seq<string>, screen: seq<Line>)
    requires maxRuns >= 1 && poolSize >= 1
    requires Between(os, command, maxRuns, poolSize, processes, launched, loops, failed, out, screen)
    requires failed || loops == BatchCount(maxRuns, poolSize)
    ensures Complete(os, command, maxRuns, poolSize, processes, launched, loops, failed, out, screen)
  {
    LaunchedBelowTotal(maxRuns, poolSize, loops);
    if !failed {
      AllPassLog(os, maxRuns, FailureOutput);
    }
  }

  class Deflake {
    const command: string
    const maxRuns: int
    const poolSize: int

    var processes: seq<seq<Process>>
    var processesRun: nat
    var loops: nat
    var processFailed: bool
    var out: seq<string>
    var screen: seq<Line>

    constructor (command: string, maxRuns: int := 10, poolSize: int := 1)
      ensures this.command == command && this.maxRuns == maxRuns && this.poolSize == poolSize
      ensures Unused()
    {
      this.command := command;
      this.maxRuns := maxRuns;
      this.poolSize := poolSize;
      processes := [];
      processesRun := 0;
      loops := 0;
      processFailed := false;
      out := [];
      screen := [];
    }

    ghost predicate Unused()
      reads this
    {
      processes == [] && processesRun == 0 && loops == 0 && !processFailed && out == [] && screen == []
    }

    /** This instance's fields are `Complete`. */
    ghost predicate Finished(os: nat -> Outcome)
      requires maxRuns >= 1 && poolSize >= 1
      reads this
    {
      Complete(os, command, maxRuns, poolSize, processes, processesRun, loops, processFailed, out, screen)
    }

    /** Prints an entry in green or red and records it. */
    method Output(text: string, processPassed: bool := true)
      modifies this`out, this`screen
      ensures out == old(out) + [text]
      ensures screen == old(screen) + [Line(text, if processPassed then OkGreen else Fail)]
    {
      var colour := if processPassed then OkGreen else Fail;
      screen := screen + [Line(text, colour)];
      out := out + [text];
    }

    /** Launches the next batch of `BatchSize` processes, each running the
        command as it is. */
    method GetProcesses() returns (ret: seq<Process>)
      requires poolSize >= 1
      modifies this`processes, this`processesRun
      ensures ret == Runs(command, old(processesRun), BatchSize(maxRuns, poolSize, |old(processes)|))
      ensures processesRun == old(processesRun) + |ret|
      ensures processes == old(processes) + [ret]
    {
      ret := [];
      var r := maxRuns % poolSize;
      if |processes| >= maxRuns / poolSize {
        for i := 0 to r
          invariant unchanged(this) && ret == Runs(command, processesRun, i)
        {
          ret := ret + [Process(command, processesRun + i + 1)];
          RunsSnoc(command, processesRun, i);
        }
      } else {
        for i := 0 to poolSize
          invariant unchanged(this) && ret == Runs(command, processesRun, i)
        {
          ret := ret + [Process(command, processesRun + i + 1)];
          RunsSnoc(command, processesRun, i);
        }
      }
      processesRun := processesRun + |ret|;
      processes := processes + [ret];
    }

    /** The `for` loop of `_run_processes` over one batch whose runs are
        start + 1, ...: "PASS" for each zero exit status in launch order; at
        the first non-zero one the FAIL line, then standard output and
        standard error joined by "\n", then the failed flag, and stop. */
    method WaitOnBatch(os: nat -> Outcome, batch: seq<Process>, ghost start: nat)
      requires poolSize >= 1 && !processFailed && start == loops * poolSize
      requires batch == Runs(command, start, |batch|) && start + |batch| <= maxRuns
      requires PassedThrough(os, 1, start) && out == Passes(start) && screen == PassLines(start)
      modifies this`out, this`screen, this`processFailed
      ensures !processFailed ==>
        PassedThrough(os, 1, start + |batch|) && out == Passes(start + |batch|) &&
        screen == PassLines(start + |batch|)
      ensures processFailed ==>
        FirstFailure(os, maxRuns).Some? && start < FirstFailure(os, maxRuns).value <= start + |batch| &&
        out == ExpectedLog(os, maxRuns, FailureOutput) && screen == ExpectedScreen(os, maxRuns, FailureOutput)
    {
      var i := 0;
      while i < |batch|
        invariant 0 <= i <= |batch| && !processFailed
        invariant PassedThrough(os, 1, start + i) && out == Passes(start + i) && screen == PassLines(start + i)
      {
        var com := os(batch[i].run);
        ghost var k := start + i + 1;
        assert batch[i].run == k;
        if com.exitCode == 0 {
          PassStep(os, start + i);
          Output("PASS");
        } else {
          // The index printed and the index substituted into this command agree.
          assert k == loops * poolSize + i + 1;
          ReportFailure(os, loops * poolSize + i + 1, com);
          return;
        }
        i := i + 1;
      }
    }

    /** The failing branch of `_run_processes`: the FAIL line naming run `n`,
        then standard output and standard error joined by "\n", then the
        failed flag. When every earlier run passed, this completes the
        sequential reference log. */
    method ReportFailure(os: nat -> Outcome, n: nat, com: Outcome)
      requires 1 <= n <= maxRuns && com == os(n) && !Passed(com) && PassedThrough(os, 1, n - 1)
      requires out == Passes(n - 1) && screen == PassLines(n - 1)
      modifies this`out, this`screen, this`processFailed
      ensures processFailed && FirstFailure(os, maxRuns) == Some(n)
      ensures out == ExpectedLog(os, maxRuns, FailureOutput)
      ensures screen == ExpectedScreen(os, maxRuns, FailureOutput)
    {
      FailureEntries(os, maxRuns, FailureOutput, n);
      FirstFailureIs(os, maxRuns, n);
      Output(FailLine(n), processPassed := false);
      Output(com.stdout + "\n" + com.stderr, processPassed := false);
      processFailed := true;
    }

    /** This instance's fields are in a state `Between` batches. */
    ghost predicate Progress(os: nat -> Outcome)
      requires maxRuns >= 1 && poolSize >= 1
      reads this
    {
      Between(os, command, maxRuns, poolSize, processes, processesRun, loops, processFailed, out, screen)
    }

    /** One activation of `_run_processes` without its tail call. */
    method RunBatch(os: nat -> Outcome)
      requires maxRuns >= 1 && poolSize >= 1 && Progress(os)
      requires !processFailed && loops < BatchCount(maxRuns, poolSize)
      modifies this
      ensures Progress(os) && loops == old(loops) + 1
    {
      NextBatch(maxRuns, poolSize, loops);
      ghost var start, before := processesRun, processes;
      var batch := GetProcesses();
      WaitOnBatch(os, batch, start);
      loops := loops + 1;
      BatchStep(os, command, maxRuns, poolSize, before, start, loops - 1, batch,
                processes, processesRun, loops, processFailed, out, screen);
    }

    /** Runs batch after batch until a run fails or `max_runs` runs have
        been launched. */
    method RunProcesses(os: nat -> Outcome) returns (results: seq<string>)
      requires maxRuns >= 1 && poolSize >= 1 && Unused()
      modifies this
      ensures Finished(os) && results == out
    {
      ghost var count := BatchCount(maxRuns, poolSize);
      var more := true;
      while more
        invariant Progress(os)
        invariant more ==> !processFailed && loops < count
        invariant !more ==> processFailed || loops == count
        decreases count - loops
      {
        RunBatch(os);
        LaunchedBelowTotal(maxRuns, poolSize, loops);
        more := !processFailed && processesRun < maxRuns;
      }
      StopComplete(os, command, maxRuns, poolSize, processes, processesRun, loops, processFailed, out, screen);
      results := out;
    }

    /** Runs the command and returns the log, without a last entry that is
        exactly "\n". */
    method Run(os: nat -> Outcome) returns (results: seq<string>)
      requires maxRuns >= 1 && poolSize >= 1 && Unused()
      modifies this
      ensures Finished(os)
      ensures results == Trim(ExpectedLog(os, maxRuns, FailureOutput))
    {
      var log := RunProcesses(os);
      results := if log[|log| - 1] == "\n" then log[..|log| - 1] else log;
    }
  }

  /** When the failing run printed nothing on either stream, the joined
      output is exactly "\n", so `run()` drops it and the log ends with the
      FAIL line: k entries in all. */
  lemma SilentFailureEndsWithFailLine(os: nat -> Outcome, maxRuns: int, k: nat)
    requires 1 <= k <= maxRuns && !Passed(os(k)) && PassedThrough(os, 1, k - 1)
    requires os(k).stdout == "" && os(k).stderr == ""
    ensures Trim(ExpectedLog(os, maxRuns, FailureOutput)) == Passes(k - 1) + [FailLine(k)]
  {
    FailureLog(os, maxRuns, FailureOutput, k);
  }

  /** A script that fails on its seventh run only, printing nothing: with
      the default ten runs the log is six "PASS" entries and "FAIL (run 7)". */
  lemma SilentSeventhFailure(os: nat -> Outcome)
    requires forall j: nat :: os(j) == if j == 7 then Outcome(1, "", "") else Outcome(0, "", "")
    ensures Trim(ExpectedLog(os, 10, FailureOutput)) == Passes(6) + ["FAIL (run 7)"]
  {
    assert PassedThrough(os, 1, 6) && !Passed(os(7));
    assert FailLine(7) == "FAIL (run 7)" by {
      assert Decimal(7) == "7";
    }
    SilentFailureEndsWithFailLine(os, 10, 7);
  }

  /** For a command without the counter token, the current class launches
      exactly the command lines and run indices this one does. */
  lemma {:induction false} SameLaunchesWithoutToken(command: string, counterToken: string, from: nat, count: nat)
    requires counterToken != [] && !Contains(command, counterToken)
    ensures Current.Runs(command, counterToken, from, count) == Runs(command, from, count)
  {
    forall j | 0 <= j < count
      ensures Current.Runs(command, counterToken, from, count)[j] == Runs(command, from, count)[j]
    {
      assert Current.CommandFor(command, counterToken, from + j + 1) == command;
    }
  }

  /** The two classes log the same entries but the last one on failure: the
      same "PASS" entries and FAIL line, and a captured output that always
      differs, the older one holding standard output and a newline more. */
  lemma LogsDifferOnlyInCapturedOutput(os: nat -> Outcome, maxRuns: int)
    requires maxRuns >= 1
    ensures var legacy, current := ExpectedLog(os, maxRuns, FailureOutput), ExpectedLog(os, maxRuns, Current.FailureOutput);
      |legacy| == |current| &&
      (FirstFailure(os, maxRuns).None? <==> legacy == current) &&
      legacy[..|legacy| - 1] == current[..|current| - 1]
  {
    var legacy, current := ExpectedLog(os, maxRuns, FailureOutput), ExpectedLog(os, maxRuns, Current.FailureOutput);
    if FirstFailure(os, maxRuns).Some? {
      var o := os(FirstFailure(os, maxRuns).value);
      assert |legacy[|legacy| - 1]| == |o.stdout| + 1 + |o.stderr| > |current[|current| - 1]|;
    }
  }
}
