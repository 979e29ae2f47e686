/** The `Deflake` class of the `deflake` package: runs a shell command up to
    `max_runs` times in batches of `pool_size`, replacing a counter token in
    the command with the run index, and stops after the batch in which a run
    first exits non-zero. Processes are not spawned: the outcome of run n
    (exit status, standard output, standard error) is `os(n)`. */
module Deflake {
  import opened Text
  import opened Schedule

  const DefaultMaxRuns: int := 10
  const DefaultPoolSize: int := 1
  const DefaultCounterToken: string := "#count#"

  /** The command line launched as run n: every occurrence of the counter
      token replaced by n in decimal; a command without the token is
      launched as it is. */
  function CommandFor(command: string, counterToken: string, n: nat): (cmd: string)
    ensures counterToken != [] && !Contains(command, counterToken) ==> cmd == command
  {
    var cmd := Replace(command, counterToken, Decimal(n));
    assert counterToken != [] && !Contains(command, counterToken) ==> cmd == command by {
      if counterToken != [] && !Contains(command, counterToken) {
        ReplaceAbsent(command, counterToken, Decimal(n));
      }
    }
    cmd
  }

  /** Runs from + 1, ..., from + count, each launched with its own index
      substituted into the command. */
  function Runs(command: string, counterToken: string, from: nat, count: nat): (ps: seq<Process>)
    ensures |ps| == count
  {
    seq(count, j requires 0 <= j < count => Process(CommandFor(command, counterToken, from + j + 1), from + j + 1))
  }

  lemma RunsSplit(command: string, counterToken: string, a: nat, b: nat, c: nat)
    ensures Runs(command, counterToken, a, b) + Runs(command, counterToken, a + b, c)
         == Runs(command, counterToken, a, b + c)
  {
  }

  lemma RunsSnoc(command: string, counterToken: string, from: nat, n: nat)
    ensures Runs(command, counterToken, from, n)
              + [Process(Replace(command, counterToken, Decimal(from + n + 1)), from + n + 1)]
         == Runs(command, counterToken, from, n + 1)
  {
    var a := Runs(command, counterToken, from, n + 1);
    assert a[n] == Process(CommandFor(command, counterToken, from + n + 1), from + n + 1);
  }

  /** The batches launched so far are as planned: batch b holds
      `BatchSize` of b processes, `launched` counts them all, and together,
      in order, they are runs 1 .. `launched`, each with its own index
      substituted into the command. */
  ghost predicate Planned(command: string, counterToken: string, maxRuns: int, poolSize: int,
                          processes: seq<seq<Process>>, launched: nat)
    requires poolSize >= 1
  {
    && (forall b :: 0 <= b < |processes| ==> |processes[b]| == BatchSize(maxRuns, poolSize, b))
    && launched == Launched(maxRuns, poolSize, |processes|)
    && Flatten(processes) == Runs(command, counterToken, 0, launched)
  }

  /** Launching the next planned batch keeps the launches as planned. */
  lemma PlannedStep(command: string, counterToken: string, maxRuns: int, poolSize: int,
                    processes: seq<seq<Process>>, launched: nat, batch: seq<Process>)
    requires poolSize >= 1 && Planned(command, counterToken, maxRuns, poolSize, processes, launched)
    requires batch == Runs(command, counterToken, launched, BatchSize(maxRuns, poolSize, |processes|))
    ensures Planned(command, counterToken, maxRuns, poolSize, processes + [batch], launched + |batch|)
  {
    FlattenAppend(processes, batch);
    RunsSplit(command, counterToken, 0, launched, |batch|);
  }

  /** What holds between two batches: launches as planned, at most
      `BatchCount` batches, and a log and terminal that are those of the
      sequential reference, cut after the last run waited on. */
  ghost predicate Between(os: nat -> Outcome, command: string, counterToken: string,
                          maxRuns: int, poolSize: int, quiet: bool,
                          processes: seq<seq<Process>>, launched: nat, loops: nat,
                          failed: bool, out: seq<string>, screen: seq<Line>)
    requires maxRuns >= 1 && poolSize >= 1
  {
    && |processes| == loops <= BatchCount(maxRuns, poolSize)
    && Planned(command, counterToken, maxRuns, poolSize, processes, launched)
    && (!failed ==>
          PassedThrough(os, 1, launched) && out == Passes(launched) &&
          screen == (if quiet then [] else PassLines(launched)))
    && (failed ==>
          loops >= 1 && FirstFailure(os, maxRuns).Some? &&
          Launched(maxRuns, poolSize, loops - 1) < FirstFailure(os, maxRuns).value <= launched)
    && (failed ==>
          out == ExpectedLog(os, maxRuns, FailureOutput) &&
          screen == (if quiet then [] else ExpectedScreen(os, maxRuns, FailureOutput)))
  }

  /** Launching the next planned batch and waiting on it, with the outcome
      the wait reports, keeps what holds between batches. */
  lemma BatchStep(os: nat -> Outcome, command: string, counterToken: string,
                  maxRuns: int, poolSize: int, quiet: bool,
                  processes: seq<seq<Process>>, launched: nat, loops: nat, batch: seq<Process>,
                  processes': seq<seq<Process>>, launched': nat, loops': nat,
                  failed: bool, out: seq<string>, screen: seq<Line>)
    requires maxRuns >= 1 && poolSize >= 1 && loops < BatchCount(maxRuns, poolSize)
    requires |processes| == loops && Planned(command, counterToken, maxRuns, poolSize, processes, launched)
    requires processes' == processes + [batch] && launched' == launched + |batch| && loops' == loops + 1
    requires batch == Runs(command, counterToken, launched, BatchSize(maxRuns, poolSize, loops))
    requires !failed ==>
      PassedThrough(os, 1, launched + |batch|) && out == Passes(launched + |batch|) &&
      screen == (if quiet then [] else PassLines(launched + |batch|))
    requires failed ==>
      FirstFailure(os, maxRuns).Some? && launched < FirstFailure(os, maxRuns).value <= launched + |batch| &&
      out == ExpectedLog(os, maxRuns, FailureOutput) &&
      screen == (if quiet then [] else ExpectedScreen(os, maxRuns, FailureOutput))
    ensures Between(os, command, counterToken, maxRuns, poolSize, quiet,
                    processes', launched', loops', failed, out, screen)
  {
    PlannedStep(command, counterToken, maxRuns, poolSize, processes, launched, batch);
  }

  /** The state `_run_processes` leaves behind: the log and the terminal
      are those of running 1, 2, ... one at a time up to the first failure;
      the launches are runs 1 .. `_processes_run` with their own indices
      substituted; every batch has its planned size; and the batches stop
      with the one holding the first failure, or after `max_runs` runs. */
  ghost predicate Complete(os: nat -> Outcome, command: string, counterToken: string,
                           maxRuns: int, poolSize: int, quiet: bool,
                           processes: seq<seq<Process>>, launched: nat, loops: nat,
                           failed: bool, out: seq<string>, screen: seq<Line>)
    requires maxRuns >= 1 && poolSize >= 1
  {
    && out == ExpectedLog(os, maxRuns, FailureOutput)
    && screen == (if quiet then [] else ExpectedScreen(os, maxRuns, FailureOutput))
    && Planned(command, counterToken, maxRuns, poolSize, processes, launched)
    && |processes| == loops
    && (failed <==> FirstFailure(os, maxRuns).Some?)
    && (!failed ==> launched == maxRuns && loops == BatchCount(maxRuns, poolSize))
    && (failed ==>
          loops >= 1 &&
          Launched(maxRuns, poolSize, loops - 1) < FirstFailure(os, maxRuns).value <= launched <= maxRuns)
  }

  /** Once the loop stops, because a run failed or the last planned batch
      has been waited on, what held between batches is the finished state. */
  lemma StopComplete(os: nat -> Outcome, command: string, counterToken: string,
                     maxRuns: int, poolSize: int, quiet: bool,
                     processes: seq<seq<Process>>, launched: nat, loops: nat,
                     failed: bool, out: seq<string>, screen: seq<Line>)
    requires maxRuns >= 1 && poolSize >= 1
    requires Between(os, command, counterToken, maxRuns, poolSize, quiet,
                     processes, launched, loops, failed, out, screen)
    requires failed || loops == BatchCount(maxRuns, poolSize)
    ensures Complete(os, command, counterToken, maxRuns, poolSize, quiet,
                     processes, launched, loops, failed, out, screen)
  {
    LaunchedBelowTotal(maxRuns, poolSize, loops);
    if !failed {
      AllPassLog(os, maxRuns, FailureOutput);
    }
  }

  /** The entry logged after a FAIL line, `com[1]`: the captured standard
      error, as is. */
  function FailureOutput(o: Outcome): (entry: string)
    ensures entry == o.stderr
  {
    Communicate(o)[1]
  }

  /** Standard output never reaches the log or the terminal: two scripts
      whose runs agree on exit status and standard error yield the same log
      and the same terminal lines. */
  lemma LogIgnoresStdout(os: nat -> Outcome, os': nat -> Outcome, maxRuns: int)
    requires maxRuns >= 1
    requires forall j: nat :: os(j).exitCode == os'(j).exitCode && os(j).stderr == os'(j).stderr
    ensures ExpectedLog(os, maxRuns, FailureOutput) == ExpectedLog(os', maxRuns, FailureOutput)
    ensures ExpectedScreen(os, maxRuns, FailureOutput) == ExpectedScreen(os', maxRuns, FailureOutput)
  {
    FirstFailureFromSameExits(os, os', 1, maxRuns);
  }

  /** Run n of `touch file#count#.txt` touches file<n>.txt: run 1 touches
      file1.txt, run 12 file12.txt. */
  lemma TouchFile(n: nat)
    ensures CommandFor("touch file#count#.txt", DefaultCounterToken, n) == "touch file" + Decimal(n) + ".txt"
  {
    var p, t, q, v := "touch file", DefaultCounterToken, ".txt", Decimal(n);
    assert p + t + q == "touch file#count#.txt";
    NoTokenBefore(p, t);
    ReplaceAround(p, t, v, q);
    assert |q| < |t|;
    assert Replace(q, t, v) == q;
  }

  /** A script that fails on its seventh run only, printing nothing: with
      the default ten runs the log is six "PASS" entries, "FAIL (run 7)" and
      the empty standard error, which `run()` keeps. */
  lemma SilentSeventhFailure(os: nat -> Outcome)
    requires forall j: nat :: os(j) == if j == 7 then Outcome(1, "", "") else Outcome(0, "", "")
    ensures Trim(ExpectedLog(os, DefaultMaxRuns, FailureOutput)) == Passes(6) + ["FAIL (run 7)", ""]
  {
    assert PassedThrough(os, 1, 6) && !Passed(os(7)) && FailureOutput(os(7)) == "";
    assert FailLine(7) == "FAIL (run 7)" by {
      assert Decimal(7) == "7";
    }
    FailureLog(os, DefaultMaxRuns, FailureOutput, 7);
  }

  class Deflake {
    const command: string
    const maxRuns: int
    const poolSize: int
    const counterToken: string
    const quiet: bool

    /** One list of launched processes per batch. */
    var processes: seq<seq<Process>>
    var processesRun: nat
    var loops: nat
    var processFailed: bool
    /** The entries `run()` returns. */
    var out: seq<string>
    /** What `_output` has printed, with its colour. */
    var screen: seq<Line>

    constructor (command: string, maxRuns: int := DefaultMaxRuns, poolSize: int := DefaultPoolSize,
                 counterToken: string := DefaultCounterToken, quiet: bool := false)
      ensures this.command == command && this.maxRuns == maxRuns && this.poolSize == poolSize
      ensures this.counterToken == counterToken && this.quiet == quiet
      ensures Unused()
    {
      this.command := command;
      this.maxRuns := maxRuns;
      this.poolSize := poolSize;
      this.counterToken := counterToken;
      this.quiet := quiet;
      processes := [];
      processesRun := 0;
      loops := 0;
      processFailed := false;
      out := [];
      screen := [];
    }

    /** Nothing has been run yet: `run()` is meant to be called once. */
    ghost predicate Unused()
      reads this
    {
      processes == [] && processesRun == 0 && loops == 0 && !processFailed && out == [] && screen == []
    }

    /** Every process launched so far, in launch order. */
    ghost function Launches(): seq<Process>
      reads this
    {
      Flatten(processes)
    }

    /** This instance's fields are `Complete`. */
    ghost predicate Finished(os: nat -> Outcome)
      requires maxRuns >= 1 && poolSize >= 1
      reads this
    {
      Complete(os, command, counterToken, maxRuns, poolSize, quiet,
               processes, processesRun, loops, processFailed, out, screen)
    }

    /** Records an entry, and prints it in green or red unless quiet. */
    method Output(text: string, quiet: bool, processPassed: bool := true)
      modifies this`out, this`screen
      ensures out == old(out) + [text]
      ensures screen == if quiet then old(screen)
                        else old(screen) + [Line(text, if processPassed then OkGreen else Fail)]
    {
      if !quiet {
        var colour := if processPassed then OkGreen else Fail;
        screen := screen + [Line(text, colour)];
      }
      out := out + [text];
    }

    /** Launches the next batch: its size is `BatchSize` of the number of
        batches so far, and run n of it gets n substituted for the token. */
    method GetProcesses() returns (ret: seq<Process>)
      requires poolSize >= 1
      modifies this`processes, this`processesRun
      ensures ret == Runs(command, counterToken, old(processesRun), BatchSize(maxRuns, poolSize, |old(processes)|))
      ensures processesRun == old(processesRun) + |ret|
      ensures processes == old(processes) + [ret]
    {
      ret := [];
      var lastBatch := maxRuns % poolSize;
      var rangeStop := if |processes| >= maxRuns / poolSize then lastBatch else poolSize;
      for i := 0 to rangeStop
        invariant unchanged(this) && ret == Runs(command, counterToken, processesRun, i)
      {
        var cmd := Replace(command, counterToken, Decimal(processesRun + i + 1));
        ret := ret + [Process(cmd, processesRun + i + 1)];
        RunsSnoc(command, counterToken, processesRun, i);
      }
      processesRun := processesRun + |ret|;
      processes := processes + [ret];
    }

    /** The `for` loop of `_run_processes` over one batch whose runs are
        start + 1, ...: waits on them in launch order, logs "PASS" for each
        zero exit status, and at the first non-zero one logs the FAIL line,
        then the captured standard error, sets the failed flag and stops. */
    method WaitOnBatch(os: nat -> Outcome, batch: seq<Process>, ghost start: nat)
      requires poolSize >= 1 && !processFailed && start == loops * poolSize
      requires batch == Runs(command, counterToken, start, |batch|) && start + |batch| <= maxRuns
      requires PassedThrough(os, 1, start) && out == Passes(start)
      requires screen == if quiet then [] else PassLines(start)
      modifies this`out, this`screen, this`processFailed
      ensures !processFailed ==>
        PassedThrough(os, 1, start + |batch|) && out == Passes(start + |batch|) &&
        screen == (if quiet then [] else PassLines(start + |batch|))
      ensures processFailed ==>
        FirstFailure(os, maxRuns).Some? && start < FirstFailure(os, maxRuns).value <= start + |batch| &&
        out == ExpectedLog(os, maxRuns, FailureOutput) &&
        screen == (if quiet then [] else ExpectedScreen(os, maxRuns, FailureOutput))
    {
      var i := 0;
      while i < |batch|
        invariant 0 <= i <= |batch| && !processFailed
        invariant PassedThrough(os, 1, start + i) && out == Passes(start + i)
        invariant screen == if quiet then [] else PassLines(start + i)
      {
        var com := os(batch[i].run);
        ghost var k := start + i + 1;
        assert batch[i].run == k;
        if com.exitCode == 0 {
          PassStep(os, start + i);
          Output("PASS", quiet);
        } else {
          // The index printed and the index substituted into this command agree.
          assert k == loops * poolSize + i + 1;
          ReportFailure(os, loops * poolSize + i + 1, com);
          return;
        }
        i := i + 1;
      }
    }

    /** The failing branch of `_run_processes`: the FAIL line naming run `n`
        and the run's standard error, both in failure colour, then the
        failed flag. When every earlier run passed, this completes the
        sequential reference log. */
    method ReportFailure(os: nat -> Outcome, n: nat, com: Outcome)
      requires 1 <= n <= maxRuns && com == os(n) && !Passed(com) && PassedThrough(os, 1, n - 1)
      requires out == Passes(n - 1) && screen == if quiet then [] else PassLines(n - 1)
      modifies this`out, this`screen, this`processFailed
      ensures processFailed && FirstFailure(os, maxRuns) == Some(n)
      ensures out == ExpectedLog(os, maxRuns, FailureOutput)
      ensures screen == if quiet then [] else ExpectedScreen(os, maxRuns, FailureOutput)
    {
      FailureEntries(os, maxRuns, FailureOutput, n);
      FirstFailureIs(os, maxRuns, n);
      Output(FailLine(n), quiet, processPassed := false);
      Output(com.stderr, quiet, processPassed := false);
      processFailed := true;
    }

    /** This instance's fields are in a state `Between` batches. */
    ghost predicate Progress(os: nat -> Outcome)
      requires maxRuns >= 1 && poolSize >= 1
      reads this
    {
      Between(os, command, counterToken, maxRuns, poolSize, quiet,
              processes, processesRun, loops, processFailed, out, screen)
    }

    /** One activation of `_run_processes` without its tail call: launch the
        next batch, wait on it, count the batch. */
    method RunBatch(os: nat -> Outcome)
      requires maxRuns >= 1 && poolSize >= 1 && Progress(os)
      requires !processFailed && loops < BatchCount(maxRuns, poolSize)
      modifies this
      ensures Progress(os) && loops == old(loops) + 1
    {
      NextBatch(maxRuns, poolSize, loops);
      ghost var start, before := processesRun, processes;
      var batch := GetProcesses();
      WaitOnBatch(os, batch, start);
      loops := loops + 1;
      BatchStep(os, command, counterToken, maxRuns, poolSize, quiet, before, start, loops - 1, batch,
                processes, processesRun, loops, processFailed, out, screen);
    }

    /** Runs batch after batch (the source's tail recursion) until a run
        fails or `max_runs` runs have been launched. */
    method RunProcesses(os: nat -> Outcome) returns (results: seq<string>)
      requires maxRuns >= 1 && poolSize >= 1 && Unused()
      modifies this
      ensures Finished(os) && results == out
    {
      ghost var count := BatchCount(maxRuns, poolSize);
      var more := true;
      while more
        invariant Progress(os)
        invariant more ==> !processFailed && loops < count
        invariant !more ==> processFailed || loops == count
        decreases count - loops
      {
        RunBatch(os);
        LaunchedBelowTotal(maxRuns, poolSize, loops);
        more := !processFailed && processesRun < maxRuns;
      }
      StopComplete(os, command, counterToken, maxRuns, poolSize, quiet,
                   processes, processesRun, loops, processFailed, out, screen);
      results := out;
    }

    /** Runs the command and returns the log, without a last entry that is
        exactly "\n". */
    method Run(os: nat -> Outcome) returns (results: seq<string>)
      requires maxRuns >= 1 && poolSize >= 1 && Unused()
      modifies this
      ensures Finished(os)
      ensures results == Trim(ExpectedLog(os, maxRuns, FailureOutput))
      // The run the FAIL line names was launched, with that same index
      // substituted into its command.
      ensures processFailed ==>
        var k := FirstFailure(os, maxRuns).value;
        1 <= k <= |Launches()| && Launches()[k - 1] == Process(CommandFor(command, counterToken, k), k)
    {
      var log := RunProcesses(os);
      results := if log[|log| - 1] == "\n" then log[..|log| - 1] else log;
      if processFailed {
        var k := FirstFailure(os, maxRuns).value;
        assert Launches() == Runs(command, counterToken, 0, processesRun);
        assert Runs(command, counterToken, 0, processesRun)[k - 1] == Process(CommandFor(command, counterToken, k), k);
      }
    }
  }
}
