/** The guard's polling loop. Each iteration fetches the project's pipeline
    runs and filters the conflicts inside one `try`; a failure of either
    backs off and retries, a clear result exits 0, a conflict exits 7 when
    the user asked not to wait and otherwise sleeps a random 3 to 15 seconds
    and polls again. The alarm armed with the timeout ends the loop from
    outside with exit 11.

    The network, the clock and the random draws are inputs: the polls are the
    iterations whose request completes before the alarm fires, in order, each
    with the outcome of its request and the `randint(3, 15)` pause it would
    draw if it blocks. */
module GuardLoop {
  import opened Types
  import opened ConflictFilter
  import opened Backoff

  /** One iteration's inputs: the outcome of the pipelines request (the runs,
      or the text of the exception) and the collision-avoidance pause. */
  datatype Poll = Poll(fetched: Result<seq<Record>, string>, pause: int)

  /** What the guard visibly does, in order. */
  datatype Action =
    | ErrorLogged(failure: Failure)
    | Summary(count: int, state: string, pipelines: seq<Record>)
    | Dot
    | Slept(seconds: real)
    | TimeoutLogged(limit: int)

  /** How a run of the loop ends. `StillWaiting`: the polls ran out but no
      alarm was armed (a timeout of 0), so the guard is still polling. */
  datatype Outcome = Proceed | ConflictExit | TimedOut | StillWaiting

  /** The loop's own state: the backoff factor and the conflicts of the
      previous successful poll. */
  datatype LoopState = LoopState(backoff: real, previous: seq<Record>)

  datatype StepResult =
    | Stop(outcome: Outcome, actions: seq<Action>)
    | Next(state: LoopState, actions: seq<Action>)

  datatype RunResult = RunResult(outcome: Outcome, trace: seq<Action>)

  /** The process exit status of an outcome, if the process exits. */
  function ExitStatus(o: Outcome): (code: Option<int>)
    ensures code.None? <==> o == StillWaiting
    ensures o == Proceed <==> code == Some(0)
    ensures o == ConflictExit <==> code == Some(7)
    ensures o == TimedOut <==> code == Some(11)
  {
    match o
    case Proceed => Some(0)
    case ConflictExit => Some(7)
    case TimedOut => Some(11)
    case StillWaiting => None
  }

  /** The state before the first iteration: the drawn seed and no remembered
      conflicts. From a seed in its range every sleep is bounded. */
  function Initial(seed: real): (st: LoopState)
    ensures st.previous == [] && st.backoff == seed
    ensures IsSeed(seed) ==> Attainable(st.backoff)
  {
    LoopState(seed, [])
  }

  /** The guarded block: fetch the runs, then filter them. */
  function Attempt(cfg: Config, host: Host, poll: Poll): (r: Result<seq<Record>, Failure>)
    ensures (r.Err? && r.error.ApiAccess?) <==> poll.fetched.Err?
    ensures r.Ok? ==> forall p :: p in r.value ==> p in poll.fetched.value
  {
    match poll.fetched
    case Err(cause) => Err(ApiAccess(cause))
    case Ok(runs) => Conflicts(cfg, host, runs)
  }

  /** The progress output after a successful poll: nothing when silent, a
      summary when the conflicts differ from the previous ones, else a dot. */
  function Report(cfg: Config, previous: seq<Record>, conflicts: seq<Record>): (r: seq<Action>)
    ensures |r| <= 1
    ensures r == [] <==> cfg.silent
    ensures r != [] ==> (r[0].Dot? <==> previous == conflicts)
    ensures forall a :: a in r ==> !a.Slept?
  {
    if cfg.silent then []
    else if previous != conflicts then [Summary(|conflicts|, cfg.statusPattern, conflicts)]
    else [Dot]
  }

  /** Whether an iteration goes on to the next one: its `try` failed, or it
      found conflicts and waiting is allowed. It does not depend on the loop's
      state. */
  predicate Continues(cfg: Config, host: Host, poll: Poll) {
    Attempt(cfg, host, poll).Err? || (Attempt(cfg, host, poll).value != [] && !cfg.noWait)
  }

  /** One iteration of the loop. */
  function Step(cfg: Config, host: Host, st: LoopState, poll: Poll): (r: StepResult)
    ensures r.Next? <==> Continues(cfg, host, poll)
    ensures r.Stop? ==> r.outcome in {Proceed, ConflictExit}
    ensures r.Stop? ==> forall a :: a in r.actions ==> !a.Slept?
    ensures r.Next? ==> r.actions != [] && r.actions[|r.actions| - 1].Slept?
  {
    match Attempt(cfg, host, poll)
    case Err(e) =>
      var b := NextBackoff(st.backoff) as real;
      Next(LoopState(b, st.previous), [ErrorLogged(e), Slept(b)])
    case Ok(conflicts) =>
      var report := Report(cfg, st.previous, conflicts);
      if conflicts == [] then Stop(Proceed, report)
      else if cfg.noWait then Stop(ConflictExit, report)
      else Next(LoopState(st.backoff, conflicts), report + [Slept(poll.pause as real)])
  }

  /** What happens once the polls run out: the alarm has fired, if armed. */
  function Deadline(cfg: Config): (r: RunResult)
    ensures r.outcome == TimedOut <==> cfg.timeout > 0
    ensures r.outcome in {TimedOut, StillWaiting}
    ensures r.outcome == TimedOut ==> r.trace == [TimeoutLogged(cfg.timeout)]
    ensures r.outcome == StillWaiting ==> r.trace == []
  {
    if cfg.timeout > 0 then RunResult(TimedOut, [TimeoutLogged(cfg.timeout)])
    else RunResult(StillWaiting, [])
  }

  function Then(prefix: seq<Action>, r: RunResult): RunResult {
    RunResult(r.outcome, prefix + r.trace)
  }

  /** The whole loop, iteration by iteration, until it exits or the polls run out. */
  function Run(cfg: Config, host: Host, st: LoopState, polls: seq<Poll>): (r: RunResult)
    ensures r.outcome in {Proceed, ConflictExit, Deadline(cfg).outcome}
    ensures r.outcome == ConflictExit ==> cfg.noWait
    ensures polls == [] ==> r.outcome == Deadline(cfg).outcome
    decreases |polls|
  {
    if polls == [] then Deadline(cfg)
    else match Step(cfg, host, st, polls[0])
      case Stop(outcome, actions) => RunResult(outcome, actions)
      case Next(st', actions) => Then(actions, Run(cfg, host, st', polls[1..]))
  }

  /** The loop as the guard runs it, with the backoff factor and the
      previous conflicts as variables updated in place. */
  method Guard(cfg: Config, host: Host, seed: real, polls: seq<Poll>)
    returns (outcome: Outcome, trace: seq<Action>)
    ensures RunResult(outcome, trace) == Run(cfg, host, Initial(seed), polls)
  {
    var backoff := seed;
    var previous: seq<Record> := [];
    trace := [];
    var i := 0;
    while i < |polls|
      invariant 0 <= i <= |polls|
      invariant Run(cfg, host, Initial(seed), polls) ==
                Then(trace, Run(cfg, host, LoopState(backoff, previous), polls[i..]))
    {
      var poll := polls[i];
      ghost var rest := polls[i..];
      assert rest[0] == poll && rest[1..] == polls[i + 1..];
      var attempt := Attempt(cfg, host, poll);
      if attempt.Err? {
        RunAfterFailure(cfg, host, LoopState(backoff, previous), rest, trace);
        backoff := NextBackoff(backoff) as real;
        trace := trace + [ErrorLogged(attempt.error), Slept(backoff)];
        i := i + 1;
        continue;
      }
      RunAfterSuccess(cfg, host, LoopState(backoff, previous), rest, trace);
      var conflicts := attempt.value;
      trace := trace + Report(cfg, previous, conflicts);
      if conflicts != [] {
        if cfg.noWait {
          outcome := ConflictExit;
          return;
        }
        trace := trace + [Slept(poll.pause as real)];
      } else {
        outcome := Proceed;
        return;
      }
      previous := conflicts;
      i := i + 1;
    }
    outcome := Deadline(cfg).outcome;
    trace := trace + Deadline(cfg).trace;
  }

  /** `Run` after one failed iteration. */
  lemma RunAfterFailure(cfg: Config, host: Host, st: LoopState, polls: seq<Poll>, before: seq<Action>)
    requires polls != [] && Attempt(cfg, host, polls[0]).Err?
    ensures var b := NextBackoff(st.backoff) as real;
      Then(before, Run(cfg, host, st, polls)) ==
      Then(before + [ErrorLogged(Attempt(cfg, host, polls[0]).error), Slept(b)],
           Run(cfg, host, LoopState(b, st.previous), polls[1..]))
  {
  }

  /** `Run` after one successful iteration: it exits, or it sleeps and goes on. */
  lemma RunAfterSuccess(cfg: Config, host: Host, st: LoopState, polls: seq<Poll>, before: seq<Action>)
    requires polls != [] && Attempt(cfg, host, polls[0]).Ok?
    ensures var conflicts := Attempt(cfg, host, polls[0]).value;
            var shown := before + Report(cfg, st.previous, conflicts);
      Then(before, Run(cfg, host, st, polls)) ==
        if conflicts == [] then RunResult(Proceed, shown)
        else if cfg.noWait then RunResult(ConflictExit, shown)
        else Then(shown + [Slept(polls[0].pause as real)],
                  Run(cfg, host, LoopState(st.backoff, conflicts), polls[1..]))
  {
  }

  // ---------------------------------------------------------------------------
  // One iteration

  /** A successful poll with no conflicts exits 0 and does not sleep. */
  lemma ClearPollProceeds(cfg: Config, host: Host, st: LoopState, poll: Poll)
    requires Attempt(cfg, host, poll) == Ok([])
    ensures Step(cfg, host, st, poll).Stop? && Step(cfg, host, st, poll).outcome == Proceed
    ensures forall a :: a in Step(cfg, host, st, poll).actions ==> !a.Slept?
  {
  }

  /** A successful poll with conflicts exits 7 without sleeping when the
      user asked not to wait. */
  lemma NoWaitConflictExits(cfg: Config, host: Host, st: LoopState, poll: Poll)
    requires cfg.noWait
    requires Attempt(cfg, host, poll).Ok? && Attempt(cfg, host, poll).value != []
    ensures Step(cfg, host, st, poll).Stop? && Step(cfg, host, st, poll).outcome == ConflictExit
    ensures forall a :: a in Step(cfg, host, st, poll).actions ==> !a.Slept?
  {
  }

  /** A successful poll with conflicts, when waiting is allowed, sleeps the
      drawn pause, keeps polling, remembers the conflicts and leaves the
      backoff factor alone. */
  lemma BlockedPollWaits(cfg: Config, host: Host, st: LoopState, poll: Poll)
    requires !cfg.noWait && 3 <= poll.pause <= 15
    requires Attempt(cfg, host, poll).Ok? && Attempt(cfg, host, poll).value != []
    ensures Step(cfg, host, st, poll).Next?
    ensures Step(cfg, host, st, poll).state ==
              LoopState(st.backoff, Attempt(cfg, host, poll).value)
    ensures var acts := Step(cfg, host, st, poll).actions;
              acts != [] && acts[|acts| - 1] == Slept(poll.pause as real) &&
              3.0 <= acts[|acts| - 1].seconds <= 15.0
  {
  }

  /** A failure to fetch or to filter never ends the loop: the factor
      advances, the guard logs the failure and sleeps the new factor (at most
      29 seconds), and the previous conflicts are kept. */
  lemma FailedPollBacksOff(cfg: Config, host: Host, st: LoopState, poll: Poll)
    requires Attempt(cfg, host, poll).Err?
    ensures var r := Step(cfg, host, st, poll);
      && r.Next?
      && r.state.previous == st.previous
      && r.state.backoff == NextBackoff(st.backoff) as real
      && 0.0 <= r.state.backoff <= 29.0
      && r.actions == [ErrorLogged(Attempt(cfg, host, poll).error), Slept(r.state.backoff)]
  {
  }

  /** Unless silent, a successful poll prints a summary exactly when its
      conflicts differ from the previous poll's, and a dot otherwise; the
      summary counts and lists the conflicts in order. Silent, it prints
      neither. */
  lemma ReportOnChange(cfg: Config, host: Host, st: LoopState, poll: Poll)
    requires Attempt(cfg, host, poll).Ok?
    ensures var conflicts := Attempt(cfg, host, poll).value;
            var acts := Step(cfg, host, st, poll).actions;
      && (cfg.silent ==> forall a :: a in acts ==> !a.Summary? && !a.Dot?)
      && (!cfg.silent ==>
            && acts != []
            && (acts[0].Summary? <==> st.previous != conflicts)
            && (acts[0].Dot? <==> st.previous == conflicts)
            && (acts[0].Summary? ==> acts[0] == Summary(|conflicts|, cfg.statusPattern, conflicts)))
  {
  }

  // ---------------------------------------------------------------------------
  // Whole runs

  /** The very first successful poll, when it finds no conflict, prints a dot
      (the remembered conflicts start empty) and exits 0. */
  lemma FirstClearPollPrintsDotAndProceeds(cfg: Config, host: Host, seed: real, polls: seq<Poll>)
    requires !cfg.silent
    requires polls != [] && Attempt(cfg, host, polls[0]) == Ok([])
    ensures Run(cfg, host, Initial(seed), polls) == RunResult(Proceed, [Dot])
  {
  }

  /** Exit 0 happens only at a poll that succeeded with no conflicts, and
      exit 7 only in no-wait mode at one that found conflicts; every poll
      before it went on to the next iteration. */
  lemma {:induction false} ExitsHaveCause(cfg: Config, host: Host, st: LoopState, polls: seq<Poll>)
    ensures Run(cfg, host, st, polls).outcome == Proceed ==>
              exists k :: 0 <= k < |polls| && Attempt(cfg, host, polls[k]) == Ok([]) &&
                          forall j :: 0 <= j < k ==> Continues(cfg, host, polls[j])
    ensures Run(cfg, host, st, polls).outcome == ConflictExit ==>
              cfg.noWait &&
              exists k :: 0 <= k < |polls| && Attempt(cfg, host, polls[k]).Ok? &&
                          Attempt(cfg, host, polls[k]).value != [] &&
                          forall j :: 0 <= j < k ==> Continues(cfg, host, polls[j])
    ensures Run(cfg, host, st, polls).outcome in {TimedOut, StillWaiting} ==>
              forall j :: 0 <= j < |polls| ==> Continues(cfg, host, polls[j])
    decreases |polls|
  {
    if polls != [] {
      match Step(cfg, host, st, polls[0])
      case Stop(_, _) =>
        var r := Run(cfg, host, st, polls);
        if r.outcome == Proceed {
          assert Attempt(cfg, host, polls[0]) == Ok([]);
        }
      case Next(st', _) =>
        ExitsHaveCause(cfg, host, st', polls[1..]);
        var r := Run(cfg, host, st, polls);
        assert forall j :: 1 <= j < |polls| ==> polls[j] == polls[1..][j - 1];
        if r.outcome == Proceed {
          var k :| 0 <= k < |polls[1..]| && Attempt(cfg, host, polls[1..][k]) == Ok([]) &&
                   forall j :: 0 <= j < k ==> Continues(cfg, host, polls[1..][j]);
          assert Attempt(cfg, host, polls[k + 1]) == Ok([]);
        }
        if r.outcome == ConflictExit {
          var k :| 0 <= k < |polls[1..]| && Attempt(cfg, host, polls[1..][k]).Ok? &&
                   Attempt(cfg, host, polls[1..][k]).value != [] &&
                   forall j :: 0 <= j < k ==> Continues(cfg, host, polls[1..][j]);
          assert polls[1..][k] == polls[k + 1];
        }
    }
  }

  /** Every sleep is between 3 and 28 seconds: the collision-avoidance pauses
      are drawn from [3, 15] and the backoff factor never leaves AFTER_FAILURE
      once a failure happened. */
  lemma {:induction false} SleepsBounded(cfg: Config, host: Host, st: LoopState, polls: seq<Poll>)
    requires Attainable(st.backoff)
    requires forall k :: 0 <= k < |polls| ==> 3 <= polls[k].pause <= 15
    ensures forall a :: a in Run(cfg, host, st, polls).trace && a.Slept? ==>
              3.0 <= a.seconds <= 28.0
    decreases |polls|
  {
    if polls != [] {
      var r := Step(cfg, host, st, polls[0]);
      if Attempt(cfg, host, polls[0]).Err? {
        BackoffStaysAttainable(st.backoff);
      }
      if r.Next? {
        assert Attainable(r.state.backoff);
        SleepsBounded(cfg, host, r.state, polls[1..]);
      }
    }
  }

  /** A run in which every poll fails never exits 0 or 7: it ends only by
      the deadline, after logging each failure and then sleeping, once per
      poll. */
  lemma {:induction false} FailuresNeverEnd(cfg: Config, host: Host, st: LoopState, polls: seq<Poll>)
    requires forall k :: 0 <= k < |polls| ==> Attempt(cfg, host, polls[k]).Err?
    ensures Run(cfg, host, st, polls).outcome == Deadline(cfg).outcome
    ensures |Run(cfg, host, st, polls).trace| == 2 * |polls| + |Deadline(cfg).trace|
    ensures Run(cfg, host, st, polls).trace[2 * |polls|..] == Deadline(cfg).trace
    ensures forall k :: 0 <= k < |polls| ==>
              && Run(cfg, host, st, polls).trace[2 * k] == ErrorLogged(Attempt(cfg, host, polls[k]).error)
              && Run(cfg, host, st, polls).trace[2 * k + 1].Slept?
    decreases |polls|
  {
    if polls != [] {
      var step := Step(cfg, host, st, polls[0]);
      FailuresNeverEnd(cfg, host, step.state, polls[1..]);
      var rest := Run(cfg, host, step.state, polls[1..]).trace;
      assert Run(cfg, host, st, polls).trace == step.actions + rest;
      var log := (p: Poll) => match Attempt(cfg, host, p)
                               case Err(e) => ErrorLogged(e)
                               case Ok(_) => Dot;
      PairsExtend(log, polls, step.actions, rest);
    }
  }

  /** A trace that holds `log(xs[k])` at every even position 2k and a sleep
      right after it, for every element of `xs`. */
  ghost predicate LogThenSleep<T>(log: T -> Action, xs: seq<T>, trace: seq<Action>) {
    && 2 * |xs| <= |trace|
    && forall k :: 0 <= k < |xs| ==> trace[2 * k] == log(xs[k]) && trace[2 * k + 1].Slept?
  }

  lemma PairsExtend<T>(log: T -> Action, xs: seq<T>, head: seq<Action>, rest: seq<Action>)
    requires xs != [] && |head| == 2 && head[0] == log(xs[0]) && head[1].Slept?
    requires LogThenSleep(log, xs[1..], rest)
    ensures LogThenSleep(log, xs, head + rest)
    ensures (head + rest)[2 * |xs|..] == rest[2 * (|xs| - 1)..]
  {
    forall k | 1 <= k < |xs|
      ensures (head + rest)[2 * k] == log(xs[k]) && (head + rest)[2 * k + 1].Slept?
    {
      assert xs[k] == xs[1..][k - 1];
    }
  }

  /** The total time slept in a trace. */
  function SleptTotal(trace: seq<Action>): real {
    if trace == [] then 0.0
    else (if trace[0].Slept? then trace[0].seconds else 0.0) + SleptTotal(trace[1..])
  }

  lemma {:induction false} SleptTotalAppend(a: seq<Action>, b: seq<Action>)
    ensures SleptTotal(a + b) == SleptTotal(a) + SleptTotal(b)
  {
    if a != [] {
      assert (a + b)[0] == a[0] && (a + b)[1..] == a[1..] + b;
      SleptTotalAppend(a[1..], b);
    } else {
      assert a + b == b;
    }
  }

  lemma {:induction false} SleptTotalNonNegative(trace: seq<Action>)
    requires forall k :: 0 <= k < |trace| && trace[k].Slept? ==> trace[k].seconds >= 0.0
    ensures SleptTotal(trace) >= 0.0
  {
    if trace != [] {
      SleptTotalNonNegative(trace[1..]);
    }
  }

  /** While every poll finds conflicts and waiting is allowed, the guard
      never proceeds: it sleeps at least 3 seconds per poll and only the
      deadline ends the run. */
  lemma {:induction false} BlockedUntilDeadline(cfg: Config, host: Host, st: LoopState, polls: seq<Poll>)
    requires !cfg.noWait
    requires forall k :: 0 <= k < |polls| ==>
               3 <= polls[k].pause <= 15 &&
               Attempt(cfg, host, polls[k]).Ok? && Attempt(cfg, host, polls[k]).value != []
    ensures Run(cfg, host, st, polls).outcome == Deadline(cfg).outcome
    ensures SleptTotal(Run(cfg, host, st, polls).trace) >= 3.0 * |polls| as real
    decreases |polls|
  {
    if polls == [] {
      SleptTotalNonNegative(Deadline(cfg).trace);
    } else {
      var r := Step(cfg, host, st, polls[0]);
      BlockedUntilDeadline(cfg, host, r.state, polls[1..]);
      var rest := Run(cfg, host, r.state, polls[1..]);
      var conflicts := Attempt(cfg, host, polls[0]).value;
      var report := Report(cfg, st.previous, conflicts);
      assert r.actions == report + [Slept(polls[0].pause as real)];
      SleptTotalAppend(r.actions, rest.trace);
      SleptTotalAppend(report, [Slept(polls[0].pause as real)]);
      assert SleptTotal([Slept(polls[0].pause as real)]) == polls[0].pause as real;
      SleptTotalNonNegative(report);
    }
  }
}
