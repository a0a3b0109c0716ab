/** Conflict detection: the list comprehension that keeps the pipeline runs
    whose ref contains a match of the ref pattern, whose status matches the
    status pattern at its start, and which are not the guard's own pipeline. */
module ConflictFilter {
  import opened Types

  /** `re.search(pat, s)`: the pattern matches somewhere in `s`; a match at
      the start, what `re.match` looks for, is one of them. */
  predicate RefFound(host: Host, pat: string, s: string)
    ensures StatusMatches(host, pat, s) ==> RefFound(host, pat, s)
  {
    exists i :: 0 <= i <= |s| && host.matchesAt(pat, s, i)
  }

  /** `re.match(pat, s)`: the pattern matches at the very start of `s`. */
  predicate StatusMatches(host: Host, pat: string, s: string)
    ensures StatusMatches(host, pat, s) ==> exists i :: 0 <= i <= |s| && host.matchesAt(pat, s, i)
  {
    host.matchesAt(pat, s, 0)
  }

  /** The comprehension's condition for one run, evaluated left to right with
      Python's short-circuiting `and`: the status pattern is only tried on a
      run whose ref was found, and the ids are only converted for a run that
      passed both pattern tests. An exception becomes `Err`. */
  function Verdict(cfg: Config, host: Host, p: Record): (r: Result<bool, Failure>)
    ensures r.Ok? && r.value ==>
              RefFound(host, cfg.refPattern, p.ref) && StatusMatches(host, cfg.statusPattern, p.status)
    ensures r.Err? ==> r.error in {BadPattern(cfg.refPattern), BadPattern(cfg.statusPattern), BadId}
  {
    if !host.compiles(cfg.refPattern) then Err(BadPattern(cfg.refPattern))
    else if !RefFound(host, cfg.refPattern, p.ref) then Ok(false)
    else if !host.compiles(cfg.statusPattern) then Err(BadPattern(cfg.statusPattern))
    else if !StatusMatches(host, cfg.statusPattern, p.status) then Ok(false)
    else match (IntOf(host, p.id), host.parseInt(cfg.pipelineId))
      case (Some(theirs), Some(own)) => Ok(theirs != own)
      case _ => Err(BadId)
  }

  /** The comprehension over all runs: the first exception aborts it. */
  function Conflicts(cfg: Config, host: Host, runs: seq<Record>): (r: Result<seq<Record>, Failure>)
    ensures r.Ok? ==> |r.value| <= |runs| && forall p :: p in r.value ==> p in runs
    ensures r.Err? ==> !r.error.ApiAccess?
  {
    if runs == [] then Ok([])
    else match Verdict(cfg, host, runs[0])
      case Err(e) => Err(e)
      case Ok(keep) =>
        match Conflicts(cfg, host, runs[1..])
        case Err(e) => Err(e)
        case Ok(rest) => Ok(if keep then [runs[0]] + rest else rest)
  }

  // ---------------------------------------------------------------------------
  // Reference definitions, independent of the evaluation order above

  /** A run conflicts with the guard's pipeline. */
  ghost predicate IsConflict(cfg: Config, host: Host, p: Record) {
    && RefFound(host, cfg.refPattern, p.ref)
    && StatusMatches(host, cfg.statusPattern, p.status)
    && IntOf(host, p.id) != host.parseInt(cfg.pipelineId)
  }

  /** Every test the comprehension runs on `p` completes without raising. */
  ghost predicate CanJudge(cfg: Config, host: Host, p: Record) {
    && host.compiles(cfg.refPattern)
    && (RefFound(host, cfg.refPattern, p.ref) ==>
          && host.compiles(cfg.statusPattern)
          && (StatusMatches(host, cfg.statusPattern, p.status) ==>
                IntOf(host, p.id).Some? && host.parseInt(cfg.pipelineId).Some?))
  }

  ghost predicate Judgeable(cfg: Config, host: Host, runs: seq<Record>) {
    forall p :: p in runs ==> CanJudge(cfg, host, p)
  }

  /** `xs` is `ys` with some elements left out and the rest in their order. */
  predicate IsSubsequence<T(==)>(xs: seq<T>, ys: seq<T>)
    decreases |ys|
  {
    if xs == [] then true
    else if ys == [] then false
    else (xs[0] == ys[0] && IsSubsequence(xs[1..], ys[1..])) || IsSubsequence(xs, ys[1..])
  }

  // ---------------------------------------------------------------------------
  // Properties

  /** One run's verdict: it raises exactly when the run cannot be judged,
      and otherwise says whether the run is a conflict. */
  lemma VerdictSpec(cfg: Config, host: Host, p: Record)
    ensures Verdict(cfg, host, p).Ok? <==> CanJudge(cfg, host, p)
    ensures Verdict(cfg, host, p).Ok? ==> (Verdict(cfg, host, p).value <==> IsConflict(cfg, host, p))
  {
  }

  /** The comprehension raises exactly when some run cannot be judged; with
      no runs at all it never raises, whatever the patterns are. */
  lemma {:induction false} ConflictsFailIffUnjudgeable(cfg: Config, host: Host, runs: seq<Record>)
    ensures Conflicts(cfg, host, runs).Ok? <==> Judgeable(cfg, host, runs)
  {
    if runs != [] {
      VerdictSpec(cfg, host, runs[0]);
      ConflictsFailIffUnjudgeable(cfg, host, runs[1..]);
      assert forall p :: p in runs <==> p == runs[0] || p in runs[1..];
    }
  }

  /** The conflicts keep the order the runs were reported in. */
  lemma {:induction false} ConflictsKeepOrder(cfg: Config, host: Host, runs: seq<Record>)
    ensures Conflicts(cfg, host, runs).Ok? ==> IsSubsequence(Conflicts(cfg, host, runs).value, runs)
  {
    if runs != [] && Conflicts(cfg, host, runs).Ok? {
      ConflictsKeepOrder(cfg, host, runs[1..]);
      var rest := Conflicts(cfg, host, runs[1..]).value;
      if Verdict(cfg, host, runs[0]).value {
        assert ([runs[0]] + rest)[1..] == rest;
      } else {
        SkipHead(rest, runs);
      }
    }
  }

  lemma {:induction false} SkipHead<T>(xs: seq<T>, ys: seq<T>)
    requires ys != [] && IsSubsequence(xs, ys[1..])
    ensures IsSubsequence(xs, ys)
  {
  }

  /** Each run occurs among the conflicts exactly as often as among the runs
      when it is a conflict, and not at all otherwise. */
  lemma {:induction false} ConflictsCount(cfg: Config, host: Host, runs: seq<Record>, p: Record)
    ensures Conflicts(cfg, host, runs).Ok? ==>
      multiset(Conflicts(cfg, host, runs).value)[p] ==
        if IsConflict(cfg, host, p) then multiset(runs)[p] else 0
  {
    if runs != [] && Conflicts(cfg, host, runs).Ok? {
      VerdictSpec(cfg, host, runs[0]);
      ConflictsCount(cfg, host, runs[1..], p);
      assert runs == [runs[0]] + runs[1..];
    }
  }

  /** The conflicts are exactly the runs that conflict, in their order. */
  lemma ConflictsExact(cfg: Config, host: Host, runs: seq<Record>)
    requires Conflicts(cfg, host, runs).Ok?
    ensures IsSubsequence(Conflicts(cfg, host, runs).value, runs)
    ensures forall p :: p in Conflicts(cfg, host, runs).value <==> p in runs && IsConflict(cfg, host, p)
    ensures forall p :: multiset(Conflicts(cfg, host, runs).value)[p] ==
                          if IsConflict(cfg, host, p) then multiset(runs)[p] else 0
  {
    ConflictsKeepOrder(cfg, host, runs);
    forall p
      ensures multiset(Conflicts(cfg, host, runs).value)[p] ==
                if IsConflict(cfg, host, p) then multiset(runs)[p] else 0
    {
      ConflictsCount(cfg, host, runs, p);
    }
  }

  /** A run whose id converts to the guard's own pipeline id is never a
      conflict, whatever its ref and status. */
  lemma SelfNeverConflict(cfg: Config, host: Host, runs: seq<Record>, p: Record)
    requires IntOf(host, p.id) == host.parseInt(cfg.pipelineId)
    ensures Conflicts(cfg, host, runs).Ok? ==> p !in Conflicts(cfg, host, runs).value
  {
    ConflictsCount(cfg, host, runs, p);
  }

  /** Reordering the runs changes neither whether the comprehension raises
      nor which runs (with their multiplicity) are conflicts. */
  lemma ConflictsIgnoreOrder(cfg: Config, host: Host, runs: seq<Record>, shuffled: seq<Record>)
    requires multiset(runs) == multiset(shuffled)
    ensures Conflicts(cfg, host, runs).Ok? <==> Conflicts(cfg, host, shuffled).Ok?
    ensures Conflicts(cfg, host, runs).Ok? ==>
      multiset(Conflicts(cfg, host, runs).value) == multiset(Conflicts(cfg, host, shuffled).value)
  {
    ConflictsFailIffUnjudgeable(cfg, host, runs);
    ConflictsFailIffUnjudgeable(cfg, host, shuffled);
    assert forall p :: p in runs <==> p in shuffled by {
      forall p ensures p in runs <==> p in shuffled {
        assert p in runs <==> p in multiset(runs);
        assert p in shuffled <==> p in multiset(shuffled);
      }
    }
    if Conflicts(cfg, host, runs).Ok? {
      forall p
        ensures multiset(Conflicts(cfg, host, runs).value)[p] ==
                multiset(Conflicts(cfg, host, shuffled).value)[p]
      {
        ConflictsCount(cfg, host, runs, p);
        ConflictsCount(cfg, host, shuffled, p);
      }
    }
  }
}
