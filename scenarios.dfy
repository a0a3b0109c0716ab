/** The default patterns made concrete, and whole runs of the guard on
    small, fixed inputs. */
module Scenarios {
  import opened Types
  import opened ConflictFilter
  import opened Backoff
  import opened GuardLoop

  predicate IsDigit(c: char) {
    '0' <= c <= '9'
  }

  predicate IsAscii(s: string) {
    forall k :: 0 <= k < |s| ==> s[k] < 128 as char
  }

  /** `s` starts with one or more digits followed by a dash. */
  predicate DigitsThenDash(s: string)
    decreases |s|
  {
    |s| >= 2 && IsDigit(s[0]) && (s[1] == '-' || DigitsThenDash(s[1..]))
  }

  /** `s` is a non-empty run of decimal digits. */
  predicate IsDecimal(s: string) {
    |s| > 0 && forall k :: 0 <= k < |s| ==> IsDigit(s[k])
  }

  function DecimalValue(s: string): int
    decreases |s|
  {
    if s == [] then 0
    else DecimalValue(s[..|s| - 1]) * 10 + (s[|s| - 1] as int - '0' as int)
  }

  /** A runtime that agrees with Python on what this file uses: the default
      ref pattern (on ASCII text), the default status pattern, and `int()`
      of plain decimal strings. */
  ghost predicate KnowsDefaults(host: Host) {
    && host.compiles(DEFAULT_REF_PATTERN)
    && host.compiles(DEFAULT_STATUS_PATTERN)
    && (forall s, i :: IsAscii(s) ==>
          (host.matchesAt(DEFAULT_REF_PATTERN, s, i) <==> i == 0 && DigitsThenDash(s)))
    && (forall s, i :: host.matchesAt(DEFAULT_STATUS_PATTERN, s, i) <==>
          0 <= i && i + 7 <= |s| && s[i..i + 7] == "running")
    && (forall t :: IsDecimal(t) ==> host.parseInt(t) == Some(DecimalValue(t)))
  }

  /** With the default ref pattern, a conflict's ref must start with digits
      and a dash: the `^` anchors the search to the start. */
  lemma DefaultRefPattern(host: Host, ref: string)
    requires KnowsDefaults(host) && IsAscii(ref)
    ensures RefFound(host, DEFAULT_REF_PATTERN, ref) <==> DigitsThenDash(ref)
  {
    if DigitsThenDash(ref) {
      assert host.matchesAt(DEFAULT_REF_PATTERN, ref, 0);
    }
  }

  /** With the default status pattern, a status matches when it starts
      with "running" (so "running" and "running-late" do, "pending" does not). */
  lemma DefaultStatusPattern(host: Host, status: string)
    requires KnowsDefaults(host)
    ensures StatusMatches(host, DEFAULT_STATUS_PATTERN, status) <==>
              |status| >= 7 && status[..7] == "running"
  {
  }

  function Defaults(pipelineId: string): Config {
    Config(DEFAULT_REF_PATTERN, DEFAULT_STATUS_PATTERN, pipelineId, DEFAULT_TIMEOUT, false, false)
  }

  const FIX := Record(IdNumber(1), "42-fix", "running", "5d1e3f")
  const MAIN := Record(IdNumber(2), "main", "success", "a07c9b")

  lemma FixRunJudged(host: Host)
    requires KnowsDefaults(host)
    ensures RefFound(host, DEFAULT_REF_PATTERN, FIX.ref)
    ensures StatusMatches(host, DEFAULT_STATUS_PATTERN, FIX.status)
    ensures !RefFound(host, DEFAULT_REF_PATTERN, MAIN.ref)
  {
    assert IsAscii(FIX.ref) && IsAscii(MAIN.ref);
    DefaultRefPattern(host, FIX.ref);
    DefaultRefPattern(host, MAIN.ref);
    assert FIX.status[0..7] == "running";
  }

  /** The guard's own run is excluded and "main" does not start with digits:
      no conflict, so the first poll prints a dot and exits 0. */
  lemma OwnRunIsNoConflict(host: Host, seed: real, pause: int)
    requires KnowsDefaults(host)
    ensures Conflicts(Defaults("1"), host, [FIX, MAIN]) == Ok([])
    ensures Run(Defaults("1"), host, Initial(seed), [Poll(Ok([FIX, MAIN]), pause)]) ==
              RunResult(Proceed, [Dot])
  {
    FixRunJudged(host);
    var cfg := Defaults("1");
    assert IsDecimal("1");
    assert host.parseInt("1") == Some(1);
    assert Verdict(cfg, host, FIX) == Ok(false);
    assert Verdict(cfg, host, MAIN) == Ok(false);
    assert [FIX, MAIN][1..] == [MAIN];
    assert Conflicts(cfg, host, [MAIN]) == Ok([]);
  }

  /** Seen from another pipeline (id 99), run 1 conflicts: the guard prints
      a summary of it, sleeps the drawn pause and, when the alarm then fires,
      exits 11. */
  lemma OtherRunBlocks(host: Host, seed: real, pause: int)
    requires KnowsDefaults(host)
    ensures Conflicts(Defaults("99"), host, [FIX, MAIN]) == Ok([FIX])
    ensures Run(Defaults("99"), host, Initial(seed), [Poll(Ok([FIX, MAIN]), pause)]) ==
              RunResult(TimedOut, [Summary(1, "running", [FIX]), Slept(pause as real),
                                   TimeoutLogged(DEFAULT_TIMEOUT)])
  {
    FixRunJudged(host);
    var cfg := Defaults("99");
    assert IsDecimal("99");
    assert DecimalValue("9") == 9 && "99"[..1] == "9";
    assert host.parseInt("99") == Some(99);
    assert Verdict(cfg, host, FIX) == Ok(true);
    assert Verdict(cfg, host, MAIN) == Ok(false);
    assert [FIX, MAIN][1..] == [MAIN];
    assert Conflicts(cfg, host, [MAIN]) == Ok([]);
    assert [FIX] + [] == [FIX];
  }

  /** Two failed requests, then an empty list: the guard backs off twice,
      the second pause longer than the first, then prints a dot and exits 0. */
  lemma RecoversAfterTwoFailures(cfg: Config, host: Host, seed: real, pauses: seq<int>)
    requires IsSeed(seed) && !cfg.silent && |pauses| == 3
    ensures var r := Run(cfg, host, Initial(seed),
                         [Poll(Err("timeout"), pauses[0]), Poll(Err("502"), pauses[1]),
                          Poll(Ok([]), pauses[2])]);
      && r.outcome == Proceed
      && |r.trace| == 5
      && r.trace[0] == ErrorLogged(ApiAccess("timeout"))
      && r.trace[2] == ErrorLogged(ApiAccess("502"))
      && r.trace[1].Slept? && r.trace[3].Slept?
      && 3.0 <= r.trace[1].seconds < r.trace[3].seconds
      && r.trace[4] == Dot
  {
    var polls := [Poll(Err("timeout"), pauses[0]), Poll(Err("502"), pauses[1]), Poll(Ok([]), pauses[2])];
    var b1 := NextBackoff(seed) as real;
    var b2 := NextBackoff(b1) as real;
    BackoffStaysAttainable(seed);
    BackoffGrowsBelowTwenty(b1);
    assert Step(cfg, host, Initial(seed), polls[0]) ==
             Next(LoopState(b1, []), [ErrorLogged(ApiAccess("timeout")), Slept(b1)]);
    assert Step(cfg, host, LoopState(b1, []), polls[1]) ==
             Next(LoopState(b2, []), [ErrorLogged(ApiAccess("502")), Slept(b2)]);
    assert Attempt(cfg, host, polls[2]) == Ok([]);
    assert Run(cfg, host, LoopState(b2, []), polls[2..]) == RunResult(Proceed, [Dot]);
    assert polls[1..][1..] == polls[2..];
    assert Run(cfg, host, LoopState(b1, []), polls[1..]) ==
             RunResult(Proceed, [ErrorLogged(ApiAccess("502")), Slept(b2), Dot]);
  }
}
