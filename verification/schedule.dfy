/** The scheduling rules shared by both versions of the `Deflake` class:
    how `max_runs` launches are cut into batches of `pool_size`, which run
    fails first, and what the result log holds, stated without batches. */
module Schedule {
  import opened Text

  datatype Option<T> = None | Some(value: T)

  /** What `communicate()` and `returncode` report for one finished process. */
  datatype Outcome = Outcome(exitCode: int, stdout: string, stderr: string)

  /** A launched process (a `Popen` object): the shell command line it runs
      and its 1-based position among the launches of one `Deflake` instance,
      which is the key its outcome is looked up by. */
  datatype Process = Process(command: string, run: nat)

  /** The two colours `_Printer` is asked for. */
  datatype Colour = OkGreen | Fail

  /** One line written to the terminal. */
  datatype Line = Line(text: string, colour: Colour)

  /** The pair `communicate()` returns: standard output, then standard error. */
  function Communicate(o: Outcome): seq<string> {
    [o.stdout, o.stderr]
  }

  predicate Passed(o: Outcome) {
    o.exitCode == 0
  }

  /** Every run with index in [lo, hi] exits with status 0. */
  predicate PassedThrough(os: nat -> Outcome, lo: nat, hi: int) {
    forall j: nat :: lo <= j <= hi ==> Passed(os(j))
  }

  // ---------------------------------------------------------------------
  // Batch plan

  /** Size of batch b (0-based) as `_get_processes` computes it: `pool_size`
      while fewer than `max_runs / pool_size` batches exist, the remainder
      `max_runs % pool_size` after that (floor division and modulo, which
      agree with Python's for a positive pool size). */
  function BatchSize(maxRuns: int, poolSize: int, b: nat): (n: nat)
    requires poolSize >= 1
    ensures n <= poolSize
  {
    if b >= maxRuns / poolSize then maxRuns % poolSize else poolSize
  }

  /** Runs launched by the first n batches. */
  function Launched(maxRuns: int, poolSize: int, n: nat): nat
    requires poolSize >= 1
  {
    if n == 0 then 0 else Launched(maxRuns, poolSize, n - 1) + BatchSize(maxRuns, poolSize, n - 1)
  }

  /** Batches launched when no run fails: the full ones and, when the pool
      size does not divide `max_runs`, one more for the remainder. */
  function BatchCount(maxRuns: nat, poolSize: int): (n: nat)
    requires poolSize >= 1
    ensures maxRuns >= 1 ==> n >= 1
  {
    maxRuns / poolSize + (if maxRuns % poolSize == 0 then 0 else 1)
  }

  lemma {:induction false} LaunchedFullBatches(maxRuns: nat, poolSize: int, n: nat)
    requires poolSize >= 1 && n <= maxRuns / poolSize
    ensures Launched(maxRuns, poolSize, n) == n * poolSize
  {
    if n > 0 {
      LaunchedFullBatches(maxRuns, poolSize, n - 1);
    }
  }

  /** A batch still to come starts after `b` full batches and ends within
      `max_runs`. */
  lemma NextBatch(maxRuns: nat, poolSize: int, b: nat)
    requires poolSize >= 1 && b < BatchCount(maxRuns, poolSize)
    ensures Launched(maxRuns, poolSize, b) == b * poolSize
    ensures Launched(maxRuns, poolSize, b + 1) <= maxRuns
  {
    LaunchedBelowTotal(maxRuns, poolSize, b);
    LaunchedBelowTotal(maxRuns, poolSize, b + 1);
  }

  /** Batch n starts where the first n full batches end, and `max_runs` is
      reached exactly when the last planned batch has been launched: never
      fewer launches by rounding down, never more by rounding up. */
  lemma LaunchedBelowTotal(maxRuns: nat, poolSize: int, n: nat)
    requires poolSize >= 1 && n <= BatchCount(maxRuns, poolSize)
    ensures Launched(maxRuns, poolSize, n) <= maxRuns
    ensures Launched(maxRuns, poolSize, n) == maxRuns <==> n == BatchCount(maxRuns, poolSize)
    ensures n < BatchCount(maxRuns, poolSize) ==> Launched(maxRuns, poolSize, n) == n * poolSize
  {
    DivMod(maxRuns, poolSize);
    var q, r := maxRuns / poolSize, maxRuns % poolSize;
    if n <= q {
      LaunchedFullBatches(maxRuns, poolSize, n);
      if n < q {
        MulStrictlyBelow(n, q, poolSize);
      }
    } else {
      assert n == q + 1 && r != 0;
      LaunchedFullBatches(maxRuns, poolSize, q);
      assert BatchSize(maxRuns, poolSize, q) == r;
    }
  }

  lemma {:induction false} MulStrictlyBelow(n: nat, q: nat, p: nat)
    requires n < q && p >= 1
    ensures n * p < q * p
    decreases q - n
  {
    if q > n + 1 {
      MulStrictlyBelow(n, q - 1, p);
    }
    assert q * p == (q - 1) * p + p;
  }

  lemma DivMod(m: nat, p: int)
    requires p >= 1
    ensures m == (m / p) * p + m % p && 0 <= m % p < p
  {
  }

  /** With no failure the batch sizes add up to exactly `max_runs`, and
      every batch before the last is full. */
  lemma BatchPlanTotal(maxRuns: nat, poolSize: int)
    requires poolSize >= 1
    ensures Launched(maxRuns, poolSize, BatchCount(maxRuns, poolSize)) == maxRuns
    ensures forall b: nat :: b + 1 < BatchCount(maxRuns, poolSize) ==> BatchSize(maxRuns, poolSize, b) == poolSize
  {
    LaunchedBelowTotal(maxRuns, poolSize, BatchCount(maxRuns, poolSize));
  }

  // ---------------------------------------------------------------------
  // The first failing run

  /** The smallest run index in [from, max_runs] whose exit status is not 0. */
  function FirstFailureFrom(os: nat -> Outcome, from: nat, maxRuns: int): (k: Option<nat>)
    ensures k.Some? ==> from <= k.value <= maxRuns && !Passed(os(k.value))
    ensures PassedThrough(os, from, if k.Some? then k.value - 1 else maxRuns)
    decreases maxRuns - from
  {
    if from > maxRuns then None
    else if !Passed(os(from)) then Some(from)
    else FirstFailureFrom(os, from + 1, maxRuns)
  }

  function FirstFailure(os: nat -> Outcome, maxRuns: int): Option<nat> {
    FirstFailureFrom(os, 1, maxRuns)
  }

  /** Which run fails first depends only on which runs pass. */
  lemma {:induction false} FirstFailureFromSameExits(os: nat -> Outcome, os': nat -> Outcome, from: nat, maxRuns: int)
    requires forall j: nat :: from <= j <= maxRuns ==> Passed(os(j)) == Passed(os'(j))
    ensures FirstFailureFrom(os, from, maxRuns) == FirstFailureFrom(os', from, maxRuns)
    decreases maxRuns - from
  {
    if from <= maxRuns {
      FirstFailureFromSameExits(os, os', from + 1, maxRuns);
    }
  }

  /** A failing run preceded only by passing runs is the first failure. */
  lemma FirstFailureIs(os: nat -> Outcome, maxRuns: int, k: nat)
    requires 1 <= k <= maxRuns && !Passed(os(k)) && PassedThrough(os, 1, k - 1)
    ensures FirstFailure(os, maxRuns) == Some(k)
  {
  }

  // ---------------------------------------------------------------------
  // The result log, stated without batches

  function Passes(n: nat): (log: seq<string>)
    ensures |log| == n && forall i :: 0 <= i < n ==> log[i] == "PASS"
  {
    seq(n, _ => "PASS")
  }

  function PassLines(n: nat): (lines: seq<Line>)
    ensures |lines| == n && forall i :: 0 <= i < n ==> lines[i] == Line("PASS", OkGreen)
  {
    seq(n, _ => Line("PASS", OkGreen))
  }

  /** One more passing run extends the passing prefix by one "PASS". */
  lemma PassStep(os: nat -> Outcome, n: nat)
    requires PassedThrough(os, 1, n) && Passed(os(n + 1))
    ensures PassedThrough(os, 1, n + 1)
    ensures Passes(n) + ["PASS"] == Passes(n + 1)
    ensures PassLines(n) + [Line("PASS", OkGreen)] == PassLines(n + 1)
  {
  }

  /** The entry recorded for failing run k, `"FAIL (run %s)" % str(k)`: it
      starts with "FAIL" and is never "PASS" or a lone newline. */
  function FailLine(k: nat): (line: string)
    ensures |line| >= 12 && line[..4] == "FAIL"
  {
    "FAIL (run " + Decimal(k) + ")"
  }

  /** The log of a scheduler that ran 1, 2, ... one at a time: a "PASS" per
      run up to the first failing run k, then the FAIL line naming k and the
      captured-output entry `failureOutput` makes of k's outcome; "PASS"
      `max_runs` times when no run fails. */
  function ExpectedLog(os: nat -> Outcome, maxRuns: int, failureOutput: Outcome -> string): (log: seq<string>)
    requires maxRuns >= 1
    ensures |log| >= 1
  {
    match FirstFailure(os, maxRuns)
    case None => Passes(maxRuns)
    case Some(k) => Passes(k - 1) + [FailLine(k), failureOutput(os(k))]
  }

  /** The same entries as they reach the terminal, coloured by `_output`. */
  function ExpectedScreen(os: nat -> Outcome, maxRuns: int, failureOutput: Outcome -> string): seq<Line>
    requires maxRuns >= 1
  {
    match FirstFailure(os, maxRuns)
    case None => PassLines(maxRuns)
    case Some(k) => PassLines(k - 1) + [Line(FailLine(k), Fail), Line(failureOutput(os(k)), Fail)]
  }

  /** `run()`'s last step: the log without its last entry when that entry is
      exactly "\n", the log itself otherwise. */
  function Trim(log: seq<string>): (r: seq<string>)
    requires |log| >= 1
    ensures r <= log && |r| >= |log| - 1
    ensures |r| < |log| <==> log[|log| - 1] == "\n"
  {
    if log[|log| - 1] == "\n" then log[..|log| - 1] else log
  }

  /** The terminal shows every log entry, in order, green for a pass and red
      from the FAIL line on. */
  lemma ScreenShowsLog(os: nat -> Outcome, maxRuns: int, failureOutput: Outcome -> string)
    requires maxRuns >= 1
    ensures var log, screen := ExpectedLog(os, maxRuns, failureOutput), ExpectedScreen(os, maxRuns, failureOutput);
      |screen| == |log| &&
      forall j :: 0 <= j < |log| ==>
        screen[j].text == log[j] &&
        (screen[j].colour == OkGreen <==> FirstFailure(os, maxRuns).None? || j < FirstFailure(os, maxRuns).value - 1)
  {
  }

  /** A command that always passes yields exactly `max_runs` "PASS" entries. */
  lemma AllPassLog(os: nat -> Outcome, maxRuns: int, failureOutput: Outcome -> string)
    requires maxRuns >= 1 && PassedThrough(os, 1, maxRuns)
    ensures Trim(ExpectedLog(os, maxRuns, failureOutput)) == Passes(maxRuns)
  {
  }

  /** The log and the terminal lines when run k fails first. */
  lemma FailureEntries(os: nat -> Outcome, maxRuns: int, failureOutput: Outcome -> string, k: nat)
    requires 1 <= k <= maxRuns && !Passed(os(k)) && PassedThrough(os, 1, k - 1)
    ensures ExpectedLog(os, maxRuns, failureOutput) == Passes(k - 1) + [FailLine(k), failureOutput(os(k))]
    ensures ExpectedScreen(os, maxRuns, failureOutput)
         == PassLines(k - 1) + [Line(FailLine(k), Fail), Line(failureOutput(os(k)), Fail)]
  {
    FirstFailureIs(os, maxRuns, k);
  }

  /** When run k is the first to fail, the log is k - 1 "PASS" entries, the
      FAIL line naming k and the captured output, and `run()` drops that
      last entry exactly when it is "\n". */
  lemma FailureLog(os: nat -> Outcome, maxRuns: int, failureOutput: Outcome -> string, k: nat)
    requires 1 <= k <= maxRuns && !Passed(os(k)) && PassedThrough(os, 1, k - 1)
    ensures ExpectedLog(os, maxRuns, failureOutput) == Passes(k - 1) + [FailLine(k), failureOutput(os(k))]
    ensures Trim(ExpectedLog(os, maxRuns, failureOutput)) ==
      if failureOutput(os(k)) == "\n" then Passes(k - 1) + [FailLine(k)]
      else Passes(k - 1) + [FailLine(k), failureOutput(os(k))]
  {
    FailureEntries(os, maxRuns, failureOutput, k);
    var log := ExpectedLog(os, maxRuns, failureOutput);
    assert log[..|log| - 1] == Passes(k - 1) + [FailLine(k)];
  }

  /** All batches, one after the other. */
  function Flatten<T>(batches: seq<seq<T>>): seq<T> {
    if batches == [] then [] else Flatten(batches[..|batches| - 1]) + batches[|batches| - 1]
  }

  lemma FlattenAppend<T>(batches: seq<seq<T>>, batch: seq<T>)
    ensures Flatten(batches + [batch]) == Flatten(batches) + batch
  {
    assert (batches + [batch])[..|batches|] == batches;
  }
}
