# gitlab-job-guard, modelled in Dafny

gitlab-job-guard runs as a step of a GitLab CI job. Its job is to stop two pipelines of one project from running the guarded work at the same time. It polls the project's pipelines API. It keeps the pipelines whose ref and status match two regular expressions, excluding its own pipeline. Then it does one of four things:
- exits 0 when no conflict is left;
- exits 7 when conflicts exist and the user asked not to wait;
- sleeps a random 3 to 15 seconds and polls again;
- when the request or the filtering fails, backs off and retries.

A SIGALRM armed with the timeout ends the loop with exit 11.

This project models that loop and the helper that binds environment variables to command-line options:

- `types.dfy` (module `Types`): pipeline records, the parsed settings, the failures the loop's `try` catches, and `Host`. `Host` stands for the Python runtime's regular expressions and `int()`. It holds three functions: whether a pattern compiles, whether a pattern matches a string at a given index, and the integer value of a string.
- `conflict_filter.dfy` (module `ConflictFilter`): the conflict comprehension. `re.search` is "matches at some index"; `re.match` is "matches at index 0". The comprehension evaluates left to right with short-circuit `and`, and the first exception aborts it. `IsConflict` and `Judgeable` are reference definitions that do not depend on that order.
- `backoff.dfy` (module `Backoff`): the backoff factor. It is seeded in [2, 6] (an integer in [2, 5] plus a fraction below 1, which in floating point can round to 6). After each failure it becomes `int(factor * 1.5) % 30`.
- `guard_loop.dfy` (module `GuardLoop`): `Step` is one iteration. `Run` is the whole loop, and `Guard` is the loop written imperatively and proved equal to `Run`. The requests' outcomes and the random pauses are inputs: a list of polls, one per iteration whose request completes before the alarm fires. When the list runs out, the alarm has fired (exit 11). With a timeout of 0 no alarm is armed, so the guard is still waiting.
- `env_args.dfy` (module `EnvArgs`): the option name derived from an environment variable (`CI_API_V4_URL` becomes `--ci-api-v4-url`). Also the append to `sys.argv`, as a class `Process` whose `argv` field the method reassigns.
- `scenarios.dfy` (module `Scenarios`): the default patterns made concrete (`^\d+\-` on ASCII refs, and `running`), and whole runs on small fixed inputs.

## Behaviour as coded

In these places the code's behaviour is easy to misread. The model follows the code:

- A pattern that does not compile is not rejected before the loop. `re.search`/`re.match` raise inside the `try`, so the failure is backed off and retried like a network error. It is raised only when a record reaches that test, so an empty pipeline list exits 0 whatever the patterns are (`ConflictsFailIffUnjudgeable`). An id that `int()` rejects is retried in the same way.
- Change detection compares the new conflict list with the previous one as ordered lists, not as sets.
- The backoff factor wraps around modulo 30 instead of being capped, so it is not monotone (`BackoffWraps`). Starting from a seed in [2, 6], it only ever takes the values 3–10, 12, 13, 15, 18, 19, 22, 27 and 28 after a failure. So every sleep of the guard lasts 3 to 28 seconds (`SleepsBounded`).
- A timeout of 0 arms no alarm (`signal.alarm(0)`), so the guard then never times out.

## Model

| member | source | states |
|---|---|---|
| `Types.IntOf` | gitlab-job-guard/gitlab-job-guard.py:273 | `int(p.id)`: a JSON number is its own value, a string is what the runtime parses (or raises), and null raises. |
| `ConflictFilter.RefFound` | gitlab-job-guard/gitlab-job-guard.py:271 | `re.search`: the ref pattern matches at some index of the ref; a match at the start counts. |
| `ConflictFilter.StatusMatches` | gitlab-job-guard/gitlab-job-guard.py:272 | `re.match`: the status pattern matches at index 0 only; such a match is also a match somewhere, not conversely. |
| `ConflictFilter.Verdict` | gitlab-job-guard/gitlab-job-guard.py:270-273 | One run's condition under short-circuit `and`: a run it keeps has its ref found and its status matched; it raises only a bad ref pattern, a bad status pattern or an id `int()` rejects. |
| `ConflictFilter.Conflicts` | gitlab-job-guard/gitlab-job-guard.py:270-273 | The comprehension, aborted by the first exception: what it keeps are some of the runs, never more of them; it never raises an API error. |
| `ConflictFilter.VerdictSpec` | gitlab-job-guard/gitlab-job-guard.py:270-273 | One run's test raises exactly when a pattern it needs does not compile or an id it needs does not convert. Otherwise it answers whether the run conflicts: ref found anywhere, status matched at the start, id different from the guard's own. |
| `ConflictFilter.ConflictsFailIffUnjudgeable` | gitlab-job-guard/gitlab-job-guard.py:263-275 | The comprehension raises iff some run cannot be judged, so with no runs it never raises. |
| `ConflictFilter.ConflictsKeepOrder` | gitlab-job-guard/gitlab-job-guard.py:270-273 | The conflicts are a subsequence of the runs, in the order the API reported them. |
| `ConflictFilter.ConflictsCount` | gitlab-job-guard/gitlab-job-guard.py:270-273 | Each record occurs among the conflicts as often as among the runs if it conflicts, and never otherwise. |
| `ConflictFilter.ConflictsExact` | gitlab-job-guard/gitlab-job-guard.py:270-273 | A record is a conflict iff it is one of the runs, its ref contains a match, its status matches at the start and its id differs from the guard's. Order and multiplicity are kept. |
| `ConflictFilter.SelfNeverConflict` | gitlab-job-guard/gitlab-job-guard.py:273 | A run whose id converts to the guard's own pipeline id is never a conflict, whatever its ref and status. |
| `ConflictFilter.ConflictsIgnoreOrder` | gitlab-job-guard/gitlab-job-guard.py:270-273 | Permuting the runs changes neither whether filtering fails nor the multiset of conflicts. |
| `Backoff.Truncate` | gitlab-job-guard/gitlab-job-guard.py:279 | `int()` of a float truncates toward zero: the result is within 1 of its argument, on the zero side. |
| `Backoff.NextBackoff` | gitlab-job-guard/gitlab-job-guard.py:279 | The next factor is always in [0, 29]. |
| `Backoff.BackoffStaysAttainable` | gitlab-job-guard/gitlab-job-guard.py:259-279 | From the seed range [2, 6] or any value reached after failures, the next factor stays in {3..10, 12, 13, 15, 18, 19, 22, 27, 28}: never 0, never above 28. |
| `Backoff.BackoffWraps` | gitlab-job-guard/gitlab-job-guard.py:279 | The modulus wraps instead of capping: 28 is followed by 12. |
| `Backoff.BackoffGrowsBelowTwenty` | gitlab-job-guard/gitlab-job-guard.py:279 | For factors in [2, 20) the next factor is strictly larger. |
| `GuardLoop.Initial` | gitlab-job-guard/gitlab-job-guard.py:259-261 | The loop starts with the drawn seed as factor and no remembered conflicts; a seed in [2, 6] is an attainable factor, so every later sleep is bounded. |
| `GuardLoop.Attempt` | gitlab-job-guard/gitlab-job-guard.py:263-275 | The guarded block: it fails with an API error exactly when the request failed, and the conflicts it returns are runs the request returned. |
| `GuardLoop.Report` | gitlab-job-guard/gitlab-job-guard.py:287-297 | At most one progress item, none exactly when silent; it is a dot exactly when the conflicts equal the previous ones, and it never sleeps. |
| `GuardLoop.Step` | gitlab-job-guard/gitlab-job-guard.py:262-309 | One iteration: it continues exactly when `Continues` holds, and then its output ends in a sleep; when it stops it exits 0 or 7 and does not sleep. |
| `GuardLoop.Deadline` | gitlab-job-guard/gitlab-job-guard.py:250-256 | When the alarm fires: exit 11 exactly when the timeout is positive, and then the output is exactly the one timeout log line; otherwise the guard is still waiting and prints nothing. |
| `GuardLoop.Run` | gitlab-job-guard/gitlab-job-guard.py:259-309 | The whole loop: it ends in exit 0, exit 7 (only in no-wait mode) or the deadline's outcome, and with no polls left it is the deadline's. |
| `GuardLoop.ExitStatus` | gitlab-job-guard/gitlab-job-guard.py:250-307 | Exit status 0 means the guard proceeds, 7 a conflict in no-wait mode, 11 the timeout. Only an unarmed alarm leaves the process running. |
| `GuardLoop.Guard` | gitlab-job-guard/gitlab-job-guard.py:259-309 | The imperative loop, with the backoff factor and the previous conflicts updated in place, produces exactly the outcome and output trace of the specification `Run`. |
| `GuardLoop.ClearPollProceeds` | gitlab-job-guard/gitlab-job-guard.py:305-307 | A successful poll with no conflicts exits 0 without sleeping. |
| `GuardLoop.NoWaitConflictExits` | gitlab-job-guard/gitlab-job-guard.py:299-302 | A successful poll with conflicts in no-wait mode exits 7 without sleeping. |
| `GuardLoop.BlockedPollWaits` | gitlab-job-guard/gitlab-job-guard.py:299-309 | With conflicts and waiting allowed, the guard sleeps the drawn 3–15 s pause and continues. It remembers the current conflicts and keeps the backoff factor. |
| `GuardLoop.FailedPollBacksOff` | gitlab-job-guard/gitlab-job-guard.py:263-281 | Any failure in fetching or filtering continues the loop. The factor becomes `NextBackoff` of the old one, within [0, 29]. The guard logs the failure, sleeps the new factor, and keeps the previous conflicts. |
| `GuardLoop.ReportOnChange` | gitlab-job-guard/gitlab-job-guard.py:283-297 | Unless silent, a summary is printed iff the conflicts differ from the previous list, and a dot otherwise. The summary's count and entries are the conflicts, in order. Silent mode prints neither. |
| `GuardLoop.FirstClearPollPrintsDotAndProceeds` | gitlab-job-guard/gitlab-job-guard.py:261-307 | Since the remembered list starts empty, a first successful poll with no conflict prints only a dot and exits 0. |
| `GuardLoop.ExitsHaveCause` | gitlab-job-guard/gitlab-job-guard.py:262-309 | Exit 0 happens only at a poll that succeeded with no conflicts, and exit 7 only in no-wait mode at one that found conflicts; every earlier poll failed or found conflicts while waiting was allowed. A run that ends by the deadline went on at every poll. |
| `GuardLoop.SleepsBounded` | gitlab-job-guard/gitlab-job-guard.py:259-304 | Every sleep of a run lasts between 3 and 28 seconds. |
| `GuardLoop.FailuresNeverEnd` | gitlab-job-guard/gitlab-job-guard.py:262-281 | If every poll fails, only the deadline ends the run. The trace logs the k-th poll's failure at position 2k and sleeps right after it, once per poll, and after those 2·n items the trace is exactly the deadline's output. |
| `GuardLoop.BlockedUntilDeadline` | gitlab-job-guard/gitlab-job-guard.py:250-309 | While every poll finds conflicts and waiting is allowed, the guard never proceeds. It sleeps at least 3 s per poll until the deadline. |
| `EnvArgs.FlagName` | gitlab-job-guard/gitlab-job-guard.py:143 | The derived option is two characters longer than the name, starts with `--` and holds no `_`. |
| `EnvArgs.FlagNameShape` | gitlab-job-guard/gitlab-job-guard.py:143 | The option is `--` followed by the variable name character by character, with `_` turned into `-` and letters lowered. No `_` and no upper-case letter remains. |
| `EnvArgs.FlagNameRoundTrip` | gitlab-job-guard/gitlab-job-guard.py:131-143 | For names made of upper-case letters, digits and `_`, mapping the option back gives the variable's name. |
| `EnvArgs.FlagNameInjective` | gitlab-job-guard/gitlab-job-guard.py:131-143 | Distinct conventional variable names give distinct options. |
| `EnvArgs.FlagNameExamples` | gitlab-job-guard/gitlab-job-guard.py:131-133 | `CI_API_V4_URL` gives `--ci-api-v4-url` and `CI_PROJECT_ID` gives `--ci-project-id`. |
| `EnvArgs.Process.EnvVarAsArg` | gitlab-job-guard/gitlab-job-guard.py:139-147 | Returns the derived option followed by the aliases. `argv` gains exactly `[option, value]` at its end iff the variable is set and non-empty, and is otherwise unchanged. |
| `Scenarios.DefaultRefPattern` | gitlab-job-guard/gitlab-job-guard.py:181 | With the default `^\d+\-`, an ASCII ref is found iff it starts with digits and a dash. |
| `Scenarios.DefaultStatusPattern` | gitlab-job-guard/gitlab-job-guard.py:191 | With the default `running`, a status matches iff it starts with `running`. |
| `Scenarios.OwnRunIsNoConflict` | gitlab-job-guard/gitlab-job-guard.py:262-307 | Runs `42-fix`/running (id 1) and `main`/success (id 2), seen from pipeline 1: there are no conflicts, and the guard prints a dot and exits 0. |
| `Scenarios.OtherRunBlocks` | gitlab-job-guard/gitlab-job-guard.py:250-309 | The same runs seen from pipeline 99: run 1 conflicts. The guard summarises it, sleeps, and when the alarm fires exits 11. |
| `Scenarios.RecoversAfterTwoFailures` | gitlab-job-guard/gitlab-job-guard.py:259-307 | Two failed requests and then an empty list: two backoffs, the second longer than the first, then a dot and exit 0. |

## Left out

- The pipelines request (`get_pipeline_runs`): the HTTP call, its 2-second timeout, JSON decoding and the exception wrapping. Each poll's result is an input: the runs, or the text of the exception.
- URL assembly with `posixpath.join`: a library call whose result only feeds the request.
- The alarm's race with the loop: where the alarm fires (in a request, in a sleep) is not modelled. The iterations whose request completes before it are the input list, and its end is the alarm. This is finite because every iteration sleeps at least 3 seconds (`SleepsBounded`).
- GuardLoop.Guard: ends when its list of polls runs out instead of looping forever, because the alarm is modelled as the end of that list.
- A negative timeout: `signal.alarm` is not modelled, so the model treats it like 0 (no alarm).
- `randint` and `random`: the seed and the 3–15 s pauses are inputs. Their ranges are preconditions of the lemmas that need them.
- The regular-expression engine and `int()` of strings: they are the `Host` parameter. The default patterns are spelled out only in `Scenarios`, for ASCII refs, because Python's `\d` also matches other Unicode digits.
- Scenarios.DefaultRefPattern: stated for ASCII refs only, because of Python's Unicode `\d`.
- Record fields: only `id`, `ref`, `status` and `sha` are kept. Python compares whole API objects when it decides whether the conflicts changed, so two objects that differ only in other fields (say `updated_at`) print a summary in Python and a dot in the model. Missing or non-string `ref`/`status` values, which would also be retried, are not represented.
- Ids: a JSON number, a string or null. Floats and booleans, which `int()` also accepts, are not represented.
- `Dotable`/`dotable`: replaced by the typed `Record`.
- Logging and printing: `setup_logger`, `print_unbuffered`, the blank line before a summary, log formats and levels, and the final messages of exits 0 and 7 (the outcome stands for them).
- `cli_args` and `argparse`: registering options, the help text built at lines 150-151, and parsing. Values from the environment win over the command line only because argparse keeps the last occurrence. That precedence is argparse's and is not modelled.
- EnvArgs.FlagNameShape: lowers ASCII letters only, because Python's `str.lower` also lowers other letters and can change a string's length.
- Backoff.NextBackoff: computes on exact reals. The IEEE-754 rounding of the seed `randint(2, 5) + random()` and of the product `factor * 1.5` is not modelled, so for a few seeds the model's next factor is one below Python's (5.333333333333333 gives 7 in the model and 8 in Python). The seed's upper end 6.0, which rounding can produce, is included in `IsSeed`.
- Backoff: the expected growth of the pause is not modelled; the exact set of values the factor can take is proved instead.
- `setup.py`: packaging only.
