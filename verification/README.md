# deflake: the run scheduler, modelled in Dafny

deflake reruns a shell command until it exits with a non-zero status or a
run limit is reached, so that an intermittent ("flaky") failure can be
reproduced. Its core is the `Deflake` class, found in two versions: the
current one in `deflake/deflake.py` and an older top-level `deflake.py`.
Both launch `max_runs` processes in batches of `pool_size`. They wait on each
batch in launch order, log `"PASS"` for each zero exit status and stop after
the batch holding the first failure. That failure is logged as
`"FAIL (run k)"` followed by the captured output. The current version also
replaces a counter token in the command with the run index and can be
quiet. `deflake/cli.py` turns the returned log into the process exit status.

The model:

- `text.dfy` (module `Text`): Python's `str(n)`, `str.replace` and the
  substring test `in`, with their properties.
- `schedule.dfy` (module `Schedule`): the rules both versions share. It holds
  the batch plan (`BatchSize`, `Launched`, `BatchCount`) and the first
  failing run. It also holds `ExpectedLog`, a reference definition of the
  log that does not mention batches: a scheduler that runs 1, 2, ... one at
  a time and stops at the first failure. `ExpectedScreen` gives the
  coloured terminal lines, and `Trim` is the last step of `run()`.
- `deflake.dfy` (module `Deflake`): class `Deflake.Deflake`, the current
  version. Its fields are those of the source (`_processes`,
  `_processes_run`, `_loops`, `_process_failed`, `_out`). The methods update
  them in place. The tail recursion of `_run_processes` becomes a `while`
  loop over `RunBatch`; the loop has no depth limit, while the source's
  recursion does (see "## Left out").
- `legacy.dfy` (module `LegacyDeflake`): the older class, with the same
  structure.
- `cli.dfy` (module `Cli`): the exit-status decision of `main`.

Spawning a process is not modelled. The outcome of run n (exit status,
standard output, standard error) is `os(n)`, where `os` is a function given
to `Run`. Each launched process is recorded as `Process(command line, run
index)`. What `_output` prints is recorded in a field `screen` as coloured
`Line`s; `_out` is the field `out`.

The main theorem is the `ensures` of `Run` in each class. The batched
scheduler returns `Trim(ExpectedLog(...))`, the trimmed log of the
sequential reference. Its batches have the planned sizes. Its launches are
runs 1 .. `_processes_run` in order, each with its own index substituted.
Without a failure exactly `max_runs` processes are launched. With a failure,
the last batch launched is the one that holds the first failing run. The
index in `"FAIL (run k)"` (computed as `_loops * pool_size + i + 1`) is
proved equal to the index substituted into that run's command.

The source is Python 2 (`except TypeError, IndexError:`, `print out`), so
`max_runs/pool_size` is floor division. Dafny's `/` and `%` agree with it
for a positive pool size. Under Python 3's true division the comparison at
deflake/deflake.py:69 would behave differently; that reading is not
modelled.

The current version appends the captured standard error verbatim as its own
entry (deflake/deflake.py:96), and `run()` drops only an entry that is
exactly `"\n"`. So after a failure the log ends with the FAIL line only when
standard error was exactly `"\n"`. With empty standard error it ends with
`""`, as `Deflake.SilentSeventhFailure` shows: 8 entries for a script that
fails silently on its 7th run. The older version joins standard output and
standard error with `"\n"`. When both are empty that entry is `"\n"` and is
dropped, leaving 7 entries that end with `"FAIL (run 7)"`
(`LegacyDeflake.SilentSeventhFailure`). tests/test.py:38-39 expects the
7-entry log. The model follows the code of each version.

The code stops after the batch holding the first failure. It has no option
to continue after a failure, no worker pool and no interrupt handling. It
never launches an empty final batch, because the stop test at
deflake/deflake.py:103 comes first. A failure's captured output is a
separate log entry, not part of the FAIL line.

## Model

| member | source | states |
|---|---|---|
| `Text.Decimal` | deflake/deflake.py:71 | `str(n)` for the run index: non-empty, decimal digits only, leading `'0'` only for 0 |
| `Text.ParseDecimalOfDecimal` | deflake/deflake.py:71 | reading the decimal string of n back gives n |
| `Text.DecimalInjective` | deflake/deflake.py:71 | distinct run indices are substituted as distinct strings |
| `Text.ContainsIffOccurs` | deflake/cli.py:59 | the left-to-right scan for `"FAIL" in r` succeeds exactly when the substring occurs at some position |
| `Text.Interleave` | deflake/deflake.py:71 | `replace` with an empty token puts the value before every character and at the end, so the length grows by `(len + 1) * len(value)` |
| `Text.Contains` | deflake/cli.py:59 | `sub in s`: a match never needs more text than there is, and a prefix, so the empty string, is always found |
| `Text.Replace` | deflake/deflake.py:71 | `str.replace`: text that is just the token becomes the value, for the empty token too; an empty token adds the value `len + 1` times |
| `Text.ReplaceAbsent` | deflake/deflake.py:71 | a command without the counter token is launched unchanged |
| `Text.ReplaceAround` | deflake/deflake.py:71 | text before the first occurrence of the token is kept, that occurrence becomes the index, and replacement continues on the rest |
| `Schedule.BatchSize` | deflake/deflake.py:68-69 | a batch never exceeds `pool_size` |
| `Schedule.BatchCount` | deflake/deflake.py:66-74 | at least one batch is planned when `max_runs >= 1` |
| `Schedule.LaunchedFullBatches` | deflake/deflake.py:69 | the first n batches, n <= `max_runs / pool_size`, are full: n * `pool_size` launches |
| `Schedule.LaunchedBelowTotal` | deflake/deflake.py:66-74 | launches never exceed `max_runs` and reach it exactly when the last planned batch has been launched; the batches before it are full |
| `Schedule.BatchPlanTotal` | deflake/deflake.py:66-74 | with no failure the batch sizes add up to exactly `max_runs`, including when `max_runs < pool_size`, and every batch but the last is full |
| `Schedule.FirstFailureFrom` | deflake/deflake.py:83-100 | the run found fails, lies in range, and every earlier run in range passes; no run is found only when all pass |
| `Schedule.FirstFailureFromSameExits` | deflake/deflake.py:85-86 | which run fails first depends only on which runs exit with 0 |
| `Schedule.FailLine` | deflake/deflake.py:90 | `"FAIL (run %s)" % str(k)` starts with `"FAIL"` and has at least 12 characters, so it is never `"PASS"` or the `"\n"` that `run()` drops |
| `Schedule.FirstFailureIs` | deflake/deflake.py:86-100 | a failing run preceded only by passing runs is the first failure |
| `Schedule.ExpectedLog` | deflake/deflake.py:83-100 | the reference log is never empty for `max_runs >= 1`, so `results[-1]` exists |
| `Schedule.Trim` | deflake/deflake.py:115 | the result is the log or the log minus its last entry, and is shorter exactly when that entry is `"\n"` |
| `Schedule.ScreenShowsLog` | deflake/deflake.py:56-64 | the terminal shows every log entry in order, green up to the FAIL line and red from it on |
| `Schedule.AllPassLog` | deflake/deflake.py:102-104 | a command that always passes yields exactly `max_runs` `"PASS"` entries |
| `Schedule.FailureLog` | deflake/deflake.py:86-100 | if run k fails first, the log is k - 1 `"PASS"` entries, `"FAIL (run k)"` and the captured output; `run()` drops that output exactly when it is `"\n"` |
| `Deflake.CommandFor` | deflake/deflake.py:71 | run n's command line; a command without the (non-empty) counter token is launched as it is |
| `Deflake.FailureOutput` | deflake/deflake.py:96 | the entry after a FAIL line is `com[1]`, the run's standard error |
| `Deflake.LogIgnoresStdout` | deflake/deflake.py:84-96 | two scripts whose runs agree on exit status and standard error give the same log and the same terminal lines: standard output is never logged |
| `Deflake.RunsSplit` | deflake/deflake.py:70-74 | consecutive batches of numbered runs join into one numbered sequence, with no gaps or repeats |
| `Deflake.PlannedStep` | deflake/deflake.py:74-79 | launching the next planned batch keeps the launches numbered 1 .. `_processes_run`, each batch of planned size |
| `Deflake.BatchStep` | deflake/deflake.py:82-102 | one activation of `_run_processes` (launch the next planned batch, wait on it, count it) keeps the between-batches invariant `Between`: launches as planned, log and terminal equal to the sequential reference cut after the last run waited on |
| `Deflake.StopComplete` | deflake/deflake.py:102-105 | when the recursion stops, because a run failed or the last planned batch was waited on, the state is `Complete`: the log is the whole sequential reference log, and without a failure exactly `max_runs` runs were launched |
| `Deflake.TouchFile` | deflake/deflake.py:71 | for every n, run n of `touch file#count#.txt` runs `touch file` + `str(n)` + `.txt` |
| `Deflake.SilentSeventhFailure` | deflake/deflake.py:96 | a script that fails silently on run 7 yields six `"PASS"`, `"FAIL (run 7)"` and `""`: the empty stderr entry is kept |
| `Deflake.Deflake.constructor` | deflake/deflake.py:31-54 | stores the settings, with defaults 10, 1 and `#count#`, and starts with nothing run |
| `Deflake.Deflake.Output` | deflake/deflake.py:56-64 | the entry is always appended to the log; it is printed, in green for a pass and red otherwise, only when not quiet |
| `Deflake.Deflake.GetProcesses` | deflake/deflake.py:66-80 | the batch has `BatchSize` of the batch number, run i gets index `_processes_run + i + 1` substituted, `_processes_run` grows by the batch size and the batch is appended to `_processes` |
| `Deflake.Deflake.WaitOnBatch` | deflake/deflake.py:83-100 | runs are examined in launch order, one `"PASS"` per zero exit; at the first non-zero exit the FAIL line with the index substituted into that command, then stderr, and the failed flag; the rest of the batch is skipped |
| `Deflake.Deflake.ReportFailure` | deflake/deflake.py:88-100 | the failing run is logged as its FAIL line and then its standard error, both in red unless quiet, and the failed flag is set; when all earlier runs passed, the log is then the whole sequential reference log |
| `Deflake.Deflake.RunBatch` | deflake/deflake.py:82-102 | one batch keeps the between-batches invariant: launches as planned, log and terminal equal to the sequential reference cut after the last run waited on |
| `Deflake.Deflake.RunProcesses` | deflake/deflake.py:82-105 | a new batch starts only while nothing failed and `_processes_run < max_runs`; the final state satisfies `Finished`, that is `Complete` |
| `Deflake.Deflake.Run` | deflake/deflake.py:107-116 | returns the trimmed sequential reference log, whatever `quiet` is; the launches, batch sizes, failed flag and launch count are as `Finished` states; after a failure, the run the FAIL line names was launched with that same index substituted into its command |
| `LegacyDeflake.FailureOutput` | deflake.py:88 | the entry after a FAIL line is `"\n".join(com)`: one character longer than both streams together, and exactly `"\n"` when both are empty |
| `LegacyDeflake.RunsSplit` | deflake.py:58-70 | consecutive batches of numbered runs join into one numbered sequence |
| `LegacyDeflake.PlannedStep` | deflake.py:70-75 | launching the next planned batch keeps launches numbered 1 .. `_processes_run` |
| `LegacyDeflake.BatchStep` | deflake.py:78-92 | one activation of `_run_processes` keeps the between-batches invariant `Between` |
| `LegacyDeflake.StopComplete` | deflake.py:92-95 | when the recursion stops, the state is `Complete`: the whole sequential reference log, and without a failure exactly `max_runs` launches |
| `LegacyDeflake.Deflake.constructor` | deflake.py:31-47 | stores the settings, with defaults 10 and 1, and starts with nothing run |
| `LegacyDeflake.Deflake.Output` | deflake.py:49-56 | every entry is printed, green for a pass and red otherwise, and appended to the log |
| `LegacyDeflake.Deflake.GetProcesses` | deflake.py:58-76 | the batch has `BatchSize` of the batch number, every process runs the command verbatim, `_processes_run` grows by the batch size and the batch is appended |
| `LegacyDeflake.Deflake.WaitOnBatch` | deflake.py:78-90 | `"PASS"` per zero exit in launch order; at the first failure the FAIL line, then stdout and stderr joined by `"\n"`, and the failed flag; the batch loop stops |
| `LegacyDeflake.Deflake.ReportFailure` | deflake.py:84-89 | the failing run is logged as its FAIL line and then its standard output and standard error joined by `"\n"`, both printed in red, and the failed flag is set |
| `LegacyDeflake.Deflake.RunBatch` | deflake.py:78-92 | one batch keeps the between-batches invariant |
| `LegacyDeflake.Deflake.RunProcesses` | deflake.py:78-95 | recursion into another batch only while nothing failed and `_processes_run < max_runs`; the final state satisfies `Finished`, that is `Complete` |
| `LegacyDeflake.Deflake.Run` | deflake.py:97-106 | returns the trimmed sequential reference log, with the legacy captured-output entry |
| `LegacyDeflake.SilentFailureEndsWithFailLine` | deflake.py:88 | when both captured streams are empty the joined output is `"\n"`, `run()` drops it, and the log is k - 1 `"PASS"` entries and the FAIL line |
| `LegacyDeflake.SilentSeventhFailure` | deflake.py:105 | a script that fails silently on run 7 yields six `"PASS"` entries and `"FAIL (run 7)"` |
| `LegacyDeflake.SameLaunchesWithoutToken` | deflake.py:64 | for a command without the counter token, the current class launches the same command lines with the same indices as this one |
| `LegacyDeflake.LogsDifferOnlyInCapturedOutput` | deflake.py:84-88 | the two versions log the same number of entries and agree on all but the last; they agree on all exactly when no run fails |
| `Cli.FailEntries` | deflake/cli.py:59 | the entries kept are exactly the log entries that contain `"FAIL"` |
| `Cli.ExitStatus` | deflake/cli.py:59-60 | the status is 0 or 1, and 1 exactly when some entry contains `"FAIL"`, a captured-output entry included |
| `Cli.PassIsNotFail` | deflake/cli.py:59 | a `"PASS"` entry does not count as a failure |
| `Cli.FailLineIsFail` | deflake/cli.py:59 | every FAIL line counts as a failure |
| `Cli.ExitStatusOfLog` | deflake/cli.py:56-60 | the exit status of a run is 1 exactly when some run in 1 .. `max_runs` exits non-zero |
| `Cli.Configure` | deflake/cli.py:50-55 | `Deflake` is built with the parsed command, `max_runs`, `pool_size`, `counter_token` and `quiet`, unchanged |
| `Cli.Execute` | deflake/cli.py:48-60 | `main` exits with 1 exactly when some run fails, 0 otherwise |

## Left out

- Process spawning (`subprocess.Popen`, `communicate`, `returncode`) is left out. The outcome of run n is `os(n)`, and a launched process is recorded as its command line and run index.
- Concurrency is left out. The processes of a batch are started together in the source and waited on one at a time; the model records the launches of the whole batch, then examines the outcomes in launch order.
- Terminal output is left out. `_Printer`, its ANSI colour codes and `print` become the `screen` field of coloured lines.
- Argument parsing is left out: `parse_args` and `get_default_args` in deflake/cli.py:9-45 and deflake.py:111-142, and the legacy script block at deflake.py:145-147. The defaults the command line reads from `Deflake.__init__` are the constructor's default parameters `DefaultMaxRuns`, `DefaultPoolSize` and `DefaultCounterToken`.
- `sys.exit` is left out; the exit status is returned.
- Reuse of an instance is left out. The fields are never reset, so `Run` requires an unused instance (`Unused`).
- Invalid settings are excluded by `requires maxRuns >= 1 && poolSize >= 1`. In the source (Python 2 floor division and modulo):
  - `pool_size == 0` raises `ZeroDivisionError` in `_get_processes` (deflake/deflake.py:68, deflake.py:60).
  - `pool_size < 0` with `max_runs >= 1` never ends normally. `max_runs / pool_size` is negative, so every batch has `max_runs % pool_size <= 0` processes, and `range` of that is empty. `_processes_run` stays 0 < `max_runs`, so `_run_processes` calls itself until Python's recursion limit (deflake/deflake.py:68-69,103-104; deflake.py:61-69,93-94). The `decreases count - loops` of `RunProcesses` holds only because `poolSize >= 1` excludes this input.
  - `max_runs == 0` launches nothing and logs nothing, and `results[-1]` raises `IndexError` (deflake/deflake.py:115).
  - `max_runs < 0` with `pool_size >= 1` launches one batch of `max_runs % pool_size` runs and stops, because `_processes_run < max_runs` is false. For `max_runs = -1, pool_size = 4` that is runs 1..3 and a log of up to four entries: the PASS lines, then, when a run fails, its FAIL line and its captured output. When the remainder is 0 the log is empty and `results[-1]` raises.
- Deflake.Deflake.RunProcesses: the source recurses once per batch (`_run_processes` calls itself at deflake/deflake.py:103-104 and deflake.py:93-94), so a run whose batch count nears Python's recursion limit (1000 frames by default, fewer under a test runner or a deeper caller) raises `RuntimeError` instead of returning; for example `max_runs = 1000, pool_size = 1` with no failure. The model's `while` loop has no such limit, so its `Finished` and log ensures describe the source only for batch counts below that depth.
- Deflake.Deflake.Run: the source recurses once per batch (`_run_processes` calls itself at deflake/deflake.py:103-104 and deflake.py:93-94), so a run whose batch count nears Python's recursion limit (1000 frames by default, fewer under a test runner or a deeper caller) raises `RuntimeError` instead of returning; for example `max_runs = 1000, pool_size = 1` with no failure. The model's `while` loop has no such limit, so its ensures (the launches, `ExpectedLog`, the screen) describe `run()` only for batch counts below that depth.
- LegacyDeflake.Deflake.RunProcesses: the source recurses once per batch (`_run_processes` calls itself at deflake/deflake.py:103-104 and deflake.py:93-94), so a run whose batch count nears Python's recursion limit (1000 frames by default, fewer under a test runner or a deeper caller) raises `RuntimeError` instead of returning; for example `max_runs = 1000, pool_size = 1` with no failure. The model's `while` loop has no such limit, so its `Finished` and log ensures describe the source only for batch counts below that depth.
- LegacyDeflake.Deflake.Run: the source recurses once per batch (`_run_processes` calls itself at deflake/deflake.py:103-104 and deflake.py:93-94), so a run whose batch count nears Python's recursion limit (1000 frames by default, fewer under a test runner or a deeper caller) raises `RuntimeError` instead of returning; for example `max_runs = 1000, pool_size = 1` with no failure. The model's `while` loop has no such limit, so its ensures describe `run()` only for batch counts below that depth.
- Cli.Execute: when `run()` raises `RuntimeError` at the recursion limit (see `Deflake.Deflake.Run` above), `main` ends through the uncaught exception with exit status 1 whether or not a run failed (deflake/cli.py:56). `Execute` has no such path; its status is the source's only for batch counts below that depth.
- The Python 2 clause `except TypeError, IndexError` (deflake/deflake.py:97) is left out; appending standard error always succeeds.
- In the source, `_process_failed`, `_loops` and `_processes_run` start as class attributes and become instance attributes on first assignment. The model makes them instance fields, which is the same for one instance.
- setup.py and test.py are not part of this model.
