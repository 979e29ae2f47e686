/** The command-line entry point of the `deflake` package: hands the parsed
    settings to `Deflake`, runs it, and turns the returned log into the exit
    status. */
module Cli {
  import opened Text
  import opened Schedule
  import Deflake

  /** The parsed command line. */
  datatype Args = Args(command: string, maxRuns: int, poolSize: int, counterToken: string, quiet: bool)

  /** `[r for r in results if "FAIL" in r]`: the entries that mention FAIL. */
  function FailEntries(results: seq<string>): (fails: seq<string>)
    ensures |fails| <= |results|
    ensures forall r :: r in fails <==> r in results && Contains(r, "FAIL")
  {
    if results == [] then []
    else (if Contains(results[0], "FAIL") then [results[0]] else []) + FailEntries(results[1..])
  }

  /** 1 when some entry contains "FAIL", 0 otherwise. */
  function ExitStatus(results: seq<string>): (status: int)
    ensures status == 0 || status == 1
    ensures status == 1 <==> exists r :: r in results && Contains(r, "FAIL")
  {
    var aFail := FailEntries(results);
    assert aFail != [] ==> aFail[0] in aFail;
    if |aFail| > 0 then 1 else 0
  }

  lemma PassIsNotFail()
    ensures !Contains("PASS", "FAIL")
  {
    assert "PASS"[..4] != "FAIL" by {
      assert "PASS"[..4][0] == 'P';
    }
    assert "PASS"[1..] == "ASS";
  }

  lemma FailLineIsFail(k: nat)
    ensures Contains(FailLine(k), "FAIL")
  {
    assert FailLine(k)[..4] == "FAIL";
  }

  /** The exit status of a whole run is 1 exactly when some run in
      1 .. `max_runs` exits non-zero, whatever the captured output says. */
  lemma {:induction false} ExitStatusOfLog(os: nat -> Outcome, maxRuns: int, failureOutput: Outcome -> string)
    requires maxRuns >= 1
    ensures ExitStatus(Trim(ExpectedLog(os, maxRuns, failureOutput))) ==
            if FirstFailure(os, maxRuns).Some? then 1 else 0
  {
    var results := Trim(ExpectedLog(os, maxRuns, failureOutput));
    match FirstFailure(os, maxRuns)
    case None =>
      AllPassLog(os, maxRuns, failureOutput);
      PassIsNotFail();
      forall r | r in results ensures !Contains(r, "FAIL") {
        assert r == "PASS";
      }
    case Some(k) =>
      FailureLog(os, maxRuns, failureOutput, k);
      FailLineIsFail(k);
      assert results[k - 1] == FailLine(k);
  }

  /** Builds the scheduler from the parsed settings, passing each through
      unchanged. */
  method Configure(args: Args) returns (f: Deflake.Deflake)
    ensures fresh(f) && f.Unused()
    ensures f.command == args.command && f.maxRuns == args.maxRuns && f.poolSize == args.poolSize
    ensures f.counterToken == args.counterToken && f.quiet == args.quiet
  {
    f := new Deflake.Deflake(args.command, maxRuns := args.maxRuns, poolSize := args.poolSize,
                             counterToken := args.counterToken, quiet := args.quiet);
  }

  /** `main` after argument parsing: run, then exit with 1 exactly when a
      run failed. */
  method Execute(args: Args, os: nat -> Outcome) returns (status: int)
    requires args.maxRuns >= 1 && args.poolSize >= 1
    ensures status == if FirstFailure(os, args.maxRuns).Some? then 1 else 0
  {
    var f := Configure(args);
    var results := f.Run(os);
    var aFail := FailEntries(results);
    status := if |aFail| > 0 then 1 else 0;
    ExitStatusOfLog(os, args.maxRuns, Deflake.FailureOutput);
  }
}
