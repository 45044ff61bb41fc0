/** The controller of a research run: the loop over searches, the recovery and the conclusion, on the record they keep. */
module ResearchController {
  import opened Basics
  import opened ClaimSelection
  import opened ResearchRun
  import ResearchSafety

  /** What the constructor demands. */
  predicate ConfigOk(cfg: Config) {
    cfg.maxAttempts > 0 && cfg.minimumClaims > 0 && cfg.minimumPublishers > 0 && cfg.budget > 0.0 && cfg.backoff != []
  }

  method MissingCoverage(claims: seq<Claim>, cfg: Config, rules: Rules) returns (missing: seq<Label>)
    ensures missing == [] <==> Enough(claims, cfg, rules)
    ensures Misses(missing, claims, cfg, rules)
  {
    hide Covers, AnyRecent, Publishers, VerifiedOf;
    var verified := VerifiedOf(claims);
    missing := [];
    if |verified| < cfg.minimumClaims {
      missing := missing + [TooFewClaims];
    }
    if |Publishers(verified, cfg, rules)| < cfg.minimumPublishers {
      missing := missing + [TooFewPublishers];
    }
    if !Covers(verified, StructuralDynamic) {
      missing := missing + [NoStructuralDynamic];
    }
    if !Covers(verified, CurrentDevelopment) {
      missing := missing + [NoCurrentDevelopment];
    }
    if !AnyRecent(verified, rules) {
      missing := missing + [NothingRecent];
    }
  }

  /** The variables of a run; `ticks` counts the readings of the clock, and `log` is the record of what it did. */
  datatype State = State(
    ticks: nat, accepted: seq<Claim>, rejected: map<string, Reason>,
    failure: Option<Failure>, exhausted: bool, attempts: nat, log: seq<Action>)

  /** The record is lawful, and the variables are what it tells. */
  ghost predicate Ok(s: State, cfg: Config, world: World, rules: Rules) {
    && Lawful(s.log, cfg, world, rules) && DistinctKeys(s.accepted, rules)
    && s.ticks == Readings(s.log, cfg) + 1 && s.attempts == Searches(s.log)
    && s.accepted == AcceptedBy(s.log) && s.rejected == RejectedBy(s.log)
    && s.failure == LastFailure(s.log, world) && (s.exhausted <==> OutOfTime(s.log, cfg))
  }

  ghost predicate Ends(s: State, outcome: Outcome, cfg: Config, world: World, rules: Rules) {
    Lawful(s.log, cfg, world, rules) && EndsWith(s.log, outcome, cfg, world, rules)
  }

  /** No recovery was tried yet. */
  ghost predicate Early(log: seq<Action>, cfg: Config) {
    Recoveries(log) == 0 && !CameBackInTime(log, cfg)
  }

  lemma LawfulNext(log: seq<Action>, a: Action, cfg: Config, world: World, rules: Rules)
    requires Lawful(log, cfg, world, rules) && NextIs(log, a, cfg, world, rules)
    ensures Lawful(log + [a], cfg, world, rules)
  {
    hide NextIs;
    assert (log + [a])[..|log|] == log;
    assert forall i :: 0 <= i < |log| ==> (log + [a])[i] == log[i] && (log + [a])[..i] == log[..i];
  }

  /** An action that may follow goes on record, together with what it changes. */
  lemma Logged(s: State, a: Action, t: State, cfg: Config, world: World, rules: Rules)
    requires Ok(s, cfg, world, rules) && NextIs(s.log, a, cfg, world, rules) && t.log == s.log + [a]
    requires t.ticks == s.ticks + (if ReadingOf(a, cfg).Some? then 1 else 0)
    requires t.attempts == s.attempts + (if a.SearchCall? then 1 else 0)
    requires if a.Accepted? then t.accepted == a.claims && t.rejected == a.rejected && DistinctKeys(t.accepted, rules)
             else t.accepted == s.accepted && t.rejected == s.rejected
    requires t.failure == if FailureOf(a, world).Some? then FailureOf(a, world) else s.failure
    requires t.exhausted <==> s.exhausted || FindsTimeUp(a, cfg)
    ensures Ok(t, cfg, world, rules) && t.log != [] && Last(t.log) == a
    ensures Early(s.log, cfg) && !a.RecoveryCall? && !a.RecoveryBack? ==> Early(t.log, cfg)
  {
    LawfulNext(s.log, a, cfg, world, rules);
    Counted(s.log, a, cfg, world);
    hide Lawful, NextIs, DistinctKeys, Readings, Searches, Recoveries, AcceptedBy, RejectedBy, LastFailure, OutOfTime,
         CameBackInTime, FindsTimeUp, FailureOf, ReadingOf;
  }

  datatype Progress = Ended(outcome: Outcome) | Again | Stopped

  /** Attempt `n` may follow. */
  ghost predicate CanAttempt(log: seq<Action>, n: nat) {
    if n == 1 then log == [] else log != [] && Last(log).Sleep? && Last(log).n + 1 == n
  }

  /** Setting up the wait after attempt `n` may follow. */
  ghost predicate CanWait(log: seq<Action>, n: nat, cfg: Config, world: World, rules: Rules) {
    && log != []
    && forall configured :: IsBackoff(configured, n, cfg) ==>
         Follows(log, Last(log), Jittered(n, configured), cfg, world, rules)
  }

  /** Leaving the loop may follow. */
  ghost predicate CanLeave(log: seq<Action>, cfg: Config, world: World, rules: Rules) {
    log != [] && forall elapsed :: Follows(log, Last(log), LoopLeft(elapsed), cfg, world, rules)
  }

  /** What a retry says is missing. */
  ghost predicate Tells(missing: seq<Label>, n: nat, claims: seq<Claim>, cfg: Config, world: World, rules: Rules) {
    if world.search(n).Failed? then missing == [NoResponse] else Misses(missing, Qualifying(claims, rules), cfg, rules)
  }

  /** An action that may follow, its reading the next one. */
  lemma May(s: State, a: Action, cfg: Config, world: World, rules: Rules)
    requires Ok(s, cfg, world, rules) && s.log != [] && Follows(s.log, Last(s.log), a, cfg, world, rules)
    requires ReadingOf(a, cfg).Some? ==> ReadingOf(a, cfg).value == world.clock(s.ticks) - world.clock(0)
    ensures NextIs(s.log, a, cfg, world, rules)
  {
    hide Follows, Lawful, ReadingOf;
  }

  lemma RetryFollows(s: State, n: nat, configured: real, missing: seq<Label>, cfg: Config, world: World, rules: Rules)
    requires Ok(s, cfg, world, rules) && s.log != [] && Last(s.log) == Jittered(n, configured)
    requires world.jitter(n, configured) >= 0.0 && Tells(missing, n, s.accepted, cfg, world, rules)
    ensures NextIs(s.log, Retry(n + 1, missing), cfg, world, rules)
  {
    hide Lawful, Misses, Qualifying, DistinctKeys;
  }

  lemma SleepFollows(s: State, n: nat, configured: real, missing: seq<Label>, delay: real, remaining: real,
                     cfg: Config, world: World, rules: Rules)
    requires Ok(s, cfg, world, rules) && s.log != [] && Last(s.log) == Retry(n + 1, missing)
    requires remaining == cfg.budget - (world.clock(s.ticks) - world.clock(0)) > 0.0 && IsBackoff(configured, n, cfg)
    requires delay == if world.jitter(n, configured) < remaining then world.jitter(n, configured) else remaining
    ensures NextIs(s.log, Sleep(n, delay, remaining), cfg, world, rules)
  {
    hide Lawful, DistinctKeys;
    assert Waits(n, delay, remaining, cfg, world);
  }

  lemma TimeUpFollows(s: State, elapsed: real, cfg: Config, world: World, rules: Rules)
    requires Ok(s, cfg, world, rules) && s.log != [] && elapsed == world.clock(s.ticks) - world.clock(0) >= cfg.budget
    requires Last(s.log).Sleep?
             || (Last(s.log).Jittered? && world.jitter(Last(s.log).n, Last(s.log).configured) >= 0.0)
    ensures NextIs(s.log, TimeUp(elapsed), cfg, world, rules)
  {
    hide Lawful, DistinctKeys;
  }

  /**
   Waiting before another attempt. The wait is set up with time left only and is no longer than that; `None` when the
   jitter is not a usable delay.
   */
  method PrepareRetry(attempt: nat, s: State, missing: seq<Label>, cfg: Config, world: World, ghost rules: Rules)
    returns (s': State, ready: Option<bool>)
    requires ConfigOk(cfg) && Ok(s, cfg, world, rules) && Early(s.log, cfg)
    requires attempt >= 1 && CanWait(s.log, attempt, cfg, world, rules) && Tells(missing, attempt, s.accepted, cfg, world, rules)
    ensures ready.Some? ==>
      && Ok(s', cfg, world, rules) && Early(s'.log, cfg) && s'.attempts == s.attempts
      && if ready.value then |s'.log| == |s.log| + 3 && CanAttempt(s'.log, attempt + 1)
         else |s'.log| == |s.log| + 2 && Last(s'.log).TimeUp?
    ensures ready.None? ==> Ends(s', Raised(Foreign), cfg, world, rules)
  {
    hide Ok, Early, NextIs, Follows, Tells;
    var index := if attempt - 1 < |cfg.backoff| - 1 then attempt - 1 else |cfg.backoff| - 1;
    var configured := cfg.backoff[index];
    var delay := world.jitter(attempt, configured);
    assert IsBackoff(configured, attempt, cfg);
    May(s, Jittered(attempt, configured), cfg, world, rules);
    hide CanWait, IsBackoff;
    s', ready := s.(log := s.log + [Jittered(attempt, configured)]), None;
    Logged(s, Jittered(attempt, configured), s', cfg, world, rules);
    if delay < 0.0 {
      Stops(s', Raised(Foreign), cfg, world, rules);
      return;
    }
    ghost var s1 := s';
    var elapsed := world.clock(s.ticks) - world.clock(0);
    var remaining := cfg.budget - elapsed;
    if remaining <= 0.0 {
      TimeUpFollows(s1, elapsed, cfg, world, rules);
      s' := s'.(ticks := s.ticks + 1, log := s'.log + [TimeUp(elapsed)], exhausted := true);
      Logged(s1, TimeUp(elapsed), s', cfg, world, rules);
      return s', Some(false);
    }
    RetryFollows(s1, attempt, configured, missing, cfg, world, rules);
    s' := s'.(log := s'.log + [Retry(attempt + 1, missing)]);
    Logged(s1, Retry(attempt + 1, missing), s', cfg, world, rules);
    ghost var s2 := s';
    var wait := if delay < remaining then delay else remaining;
    SleepFollows(s2, attempt, configured, missing, wait, remaining, cfg, world, rules);
    s' := s'.(ticks := s.ticks + 1, log := s'.log + [Sleep(attempt, wait, remaining)]);
    Logged(s2, Sleep(attempt, wait, remaining), s', cfg, world, rules);
    ready := Some(true);
  }

  lemma Stops(s: State, outcome: Outcome, cfg: Config, world: World, rules: Rules)
    requires Ok(s, cfg, world, rules) && EndsWith(s.log, outcome, cfg, world, rules)
    ensures Ends(s, outcome, cfg, world, rules)
  {
    hide EndsWith, Lawful;
  }

  // ---- the loop over searches ----

  /** What a turn of the loop leaves: the end of the run, a record that leaving may follow, or one another attempt may. */
  ghost predicate Turned(progress: Progress, n: nat, s: State, cfg: Config, world: World, rules: Rules) {
    match progress
    case Ended(outcome) => Ends(s, outcome, cfg, world, rules)
    case Stopped => Ok(s, cfg, world, rules) && Early(s.log, cfg) && CanLeave(s.log, cfg, world, rules)
    case Again =>
      && Ok(s, cfg, world, rules) && Early(s.log, cfg) && CanAttempt(s.log, n + 1)
      && s.attempts == n < cfg.maxAttempts
  }

  lemma LeavesInTime(log: seq<Action>, cfg: Config, world: World, rules: Rules)
    requires log != [] && Last(log).TimeUp?
    ensures CanLeave(log, cfg, world, rules)
  {
  }

  /** `CanContinue`: another attempt is set up, or none is left. */
  ghost predicate CanContinue(log: seq<Action>, n: nat, cfg: Config, world: World, rules: Rules) {
    && (n < cfg.maxAttempts ==> CanWait(log, n, cfg, world, rules))
    && (n >= cfg.maxAttempts ==> CanLeave(log, cfg, world, rules))
  }

  lemma FailureContinues(log: seq<Action>, n: nat, cfg: Config, world: World, rules: Rules)
    requires log != [] && Last(log) == SearchCall(n) && world.search(n).Failed? && !Fatal(world.search(n).failure)
    ensures CanContinue(log, n, cfg, world, rules)
  {
  }

  lemma NothingContinues(log: seq<Action>, n: nat, cfg: Config, world: World, rules: Rules)
    requires log != [] && Last(log).Weighed? && Searches(log) == n
    requires var qualifying := Qualifying(AcceptedBy(log), rules); !Enough(qualifying, cfg, rules) && qualifying == []
    ensures CanContinue(log, n, cfg, world, rules)
  {
    hide Qualifying, Enough;
  }

  method WaitOrStop(attempt: nat, s: State, missing: seq<Label>, cfg: Config, world: World, ghost rules: Rules)
    returns (progress: Progress, s': State)
    requires ConfigOk(cfg) && Ok(s, cfg, world, rules) && Early(s.log, cfg) && s.attempts == attempt >= 1
    requires CanContinue(s.log, attempt, cfg, world, rules) && Tells(missing, attempt, s.accepted, cfg, world, rules)
    ensures Turned(progress, attempt, s', cfg, world, rules)
  {
    hide Ok, Early, CanWait, CanLeave, CanAttempt, Tells, Ends;
    if attempt >= cfg.maxAttempts {
      return Stopped, s;
    }
    var ready;
    s', ready := PrepareRetry(attempt, s, missing, cfg, world, rules);
    if ready.None? {
      progress := Ended(Raised(Foreign));
    } else if ready.value {
      progress := Again;
    } else {
      LeavesInTime(s'.log, cfg, world, rules);
      progress := Stopped;
    }
  }

  lemma AttemptFollows(s: State, n: nat, elapsed: real, cfg: Config, world: World, rules: Rules)
    requires Ok(s, cfg, world, rules) && CanAttempt(s.log, n) && elapsed == world.clock(s.ticks) - world.clock(0)
    requires n > 1 ==> elapsed < cfg.budget
    ensures NextIs(s.log, Attempt(n, elapsed), cfg, world, rules)
  {
    hide Lawful, DistinctKeys;
  }

  lemma SearchFollows(s: State, n: nat, elapsed: real, cfg: Config, world: World, rules: Rules)
    requires Ok(s, cfg, world, rules) && s.log != [] && Last(s.log) == Attempt(n, elapsed)
    ensures NextIs(s.log, SearchCall(n), cfg, world, rules)
  {
    hide Lawful, DistinctKeys;
  }

  /** A search that found something, or a recovery that did so in time, joins what was accepted. */
  lemma JoinFollows(s: State, a: Action, found: seq<Claim>, accepted: seq<Claim>, rejected: map<string, Reason>,
                    cfg: Config, world: World, rules: Rules)
    requires Ok(s, cfg, world, rules) && s.log != [] && Last(s.log) == a
    requires || (a.SearchCall? && world.search(a.n) == Found(found))
             || (a.RecoveryBack? && a.elapsed < cfg.budget && world.recovery == Found(found))
    requires Adds(found, s.accepted, accepted, rules) && Reasons(found, s.accepted, s.rejected, rejected, rules)
    ensures NextIs(s.log, Accepted(accepted, rejected), cfg, world, rules)
  {
    hide Lawful, DistinctKeys, Adds, Reasons;
  }

  /** The claims found join what was accepted. */
  method Accept(ghost a: Action, found: seq<Claim>, s: State, cfg: Config, ghost world: World, rules: Rules)
    returns (s': State)
    requires Ok(s, cfg, world, rules) && s.log != [] && Last(s.log) == a
    requires || (a.SearchCall? && world.search(a.n) == Found(found))
             || (a.RecoveryBack? && a.elapsed < cfg.budget && world.recovery == Found(found))
    ensures Ok(s', cfg, world, rules) && s'.attempts == s.attempts && s.log <= s'.log
    ensures s'.log == s.log + [Accepted(s'.accepted, s'.rejected)] && Adds(found, s.accepted, s'.accepted, rules)
  {
    assert DistinctKeys(s.accepted, rules);
    hide Ok, NextIs, DistinctKeys, Adds, Reasons;
    var accepted, rejected := MergeClaims(found, s.accepted, s.rejected, rules);
    s' := s.(log := s.log + [Accepted(accepted, rejected)], accepted := accepted, rejected := rejected);
    JoinFollows(s, a, found, accepted, rejected, cfg, world, rules);
    Logged(s, Accepted(accepted, rejected), s', cfg, world, rules);
  }

  method RunAttempt(attempt: nat, s: State, cfg: Config, world: World, rules: Rules)
    returns (progress: Progress, s': State)
    requires ConfigOk(cfg) && Ok(s, cfg, world, rules) && Early(s.log, cfg) && CanAttempt(s.log, attempt)
    requires 1 <= attempt == s.attempts + 1
    ensures Turned(progress, attempt, s', cfg, world, rules)
  {
    hide Ok, Early, NextIs, Ends, CanLeave, CanAttempt;
    var elapsed := world.clock(s.ticks) - world.clock(0);
    if attempt > 1 && elapsed >= cfg.budget {
      TooLate(s, attempt, elapsed, cfg, world, rules);
      s' := s.(ticks := s.ticks + 1, log := s.log + [TimeUp(elapsed)], exhausted := true);
      return Stopped, s';
    }
    AttemptFollows(s, attempt, elapsed, cfg, world, rules);
    s' := s.(ticks := s.ticks + 1, log := s.log + [Attempt(attempt, elapsed)]);
    Logged(s, Attempt(attempt, elapsed), s', cfg, world, rules);
    SearchFollows(s', attempt, elapsed, cfg, world, rules);
    ghost var before := s';
    var search := world.search(attempt);
    var failure := if search.Failed? then Some(search.failure) else s'.failure;
    s' := s'.(log := s'.log + [SearchCall(attempt)], attempts := attempt, failure := failure);
    Logged(before, SearchCall(attempt), s', cfg, world, rules);
    if search.Failed? {
      progress, s' := AfterFailure(attempt, search.failure, s', cfg, world, rules);
    } else {
      progress, s' := AfterSearch(attempt, search.claims, s', cfg, world, rules);
    }
  }

  lemma TooLate(s: State, n: nat, elapsed: real, cfg: Config, world: World, rules: Rules)
    requires Ok(s, cfg, world, rules) && Early(s.log, cfg) && CanAttempt(s.log, n) && n > 1
    requires elapsed == world.clock(s.ticks) - world.clock(0) >= cfg.budget
    ensures var t := s.(ticks := s.ticks + 1, log := s.log + [TimeUp(elapsed)], exhausted := true);
            Ok(t, cfg, world, rules) && Early(t.log, cfg) && CanLeave(t.log, cfg, world, rules)
  {
    TimeUpFollows(s, elapsed, cfg, world, rules);
    var t := s.(ticks := s.ticks + 1, log := s.log + [TimeUp(elapsed)], exhausted := true);
    hide Ok, NextIs, Early, CanLeave;
    Logged(s, TimeUp(elapsed), t, cfg, world, rules);
    LeavesInTime(t.log, cfg, world, rules);
  }

  lemma FailureEnds(s: State, n: nat, cfg: Config, world: World, rules: Rules)
    requires Ok(s, cfg, world, rules) && s.log != [] && Last(s.log) == SearchCall(n)
    requires world.search(n).Failed? && Fatal(world.search(n).failure)
    ensures Ends(s, Raised(world.search(n).failure), cfg, world, rules)
  {
    hide Lawful, DistinctKeys;
  }

  method AfterFailure(attempt: nat, failure: Failure, s: State, cfg: Config, world: World, ghost rules: Rules)
    returns (progress: Progress, s': State)
    requires ConfigOk(cfg) && Ok(s, cfg, world, rules) && Early(s.log, cfg) && s.attempts == attempt >= 1
    requires s.log != [] && Last(s.log) == SearchCall(attempt) && world.search(attempt) == Failed(failure)
    ensures Turned(progress, attempt, s', cfg, world, rules)
  {
    hide Ok, Early, Ends, CanLeave, CanAttempt, CanContinue;
    if failure == Foreign || failure == Configuration {
      FailureEnds(s, attempt, cfg, world, rules);
      return Ended(Raised(failure)), s;
    }
    FailureContinues(s.log, attempt, cfg, world, rules);
    progress, s' := WaitOrStop(attempt, s, [NoResponse], cfg, world, rules);
  }

  lemma WeighedFollows(s: State, elapsed: real, cfg: Config, world: World, rules: Rules)
    requires Ok(s, cfg, world, rules) && s.log != [] && Last(s.log).Accepted? && Early(s.log, cfg)
    requires elapsed == world.clock(s.ticks) - world.clock(0)
    ensures NextIs(s.log, Weighed(elapsed), cfg, world, rules)
  {
    hide Lawful, DistinctKeys, Recoveries;
  }

  method AfterSearch(attempt: nat, claims: seq<Claim>, s: State, cfg: Config, world: World, rules: Rules)
    returns (progress: Progress, s': State)
    requires ConfigOk(cfg) && Ok(s, cfg, world, rules) && Early(s.log, cfg) && s.attempts == attempt >= 1
    requires s.log != [] && Last(s.log) == SearchCall(attempt) && world.search(attempt) == Found(claims)
    ensures Turned(progress, attempt, s', cfg, world, rules)
  {
    hide Ok, Early, NextIs, Ends, Qualifying, Enough, Misses, CanContinue;
    s' := Accept(SearchCall(attempt), claims, s, cfg, world, rules);
    StillEarly(s, s', cfg, world);
    var qualifying := QualifyingClaims(s'.accepted, rules);
    var missing := MissingCoverage(qualifying, cfg, rules);
    var elapsed := world.clock(s'.ticks) - world.clock(0);
    WeighedFollows(s', elapsed, cfg, world, rules);
    ghost var before := s';
    s' := s'.(ticks := s'.ticks + 1, log := s'.log + [Weighed(elapsed)]);
    Logged(before, Weighed(elapsed), s', cfg, world, rules);
    if missing == [] || qualifying != [] {
      Judged(s', if missing == [] then Full else Reduced, cfg, world, rules);
      var outcome;
      outcome, s' := Finish(s', qualifying, if missing == [] then Full else Reduced, cfg, world, rules);
      return Ended(outcome), s';
    }
    Unfound(s', attempt, cfg, world, rules);
    progress, s' := WaitOrStop(attempt, s', missing, cfg, world, rules);
  }

  lemma StillEarly(s: State, t: State, cfg: Config, world: World)
    requires t.log == s.log + [Accepted(t.accepted, t.rejected)]
    ensures Early(s.log, cfg) ==> Early(t.log, cfg)
    ensures CameBackInTime(s.log, cfg) ==> CameBackInTime(t.log, cfg)
  {
    Counted(s.log, Accepted(t.accepted, t.rejected), cfg, world);
  }

  lemma Unfound(s: State, n: nat, cfg: Config, world: World, rules: Rules)
    requires Ok(s, cfg, world, rules) && s.log != [] && Last(s.log).Weighed? && s.attempts == n
    requires Qualifying(s.accepted, rules) == [] && !Enough([], cfg, rules)
    ensures CanContinue(s.log, n, cfg, world, rules)
  {
    hide Lawful, DistinctKeys, Qualifying, Enough, CanContinue;
    NothingContinues(s.log, n, cfg, world, rules);
  }

  /** The tier that what was weighed calls for. */
  lemma Judged(s: State, tier: Tier, cfg: Config, world: World, rules: Rules)
    requires Ok(s, cfg, world, rules) && s.log != [] && Last(s.log).Weighed?
    requires var qualifying := Qualifying(s.accepted, rules);
             if tier == Full then Enough(qualifying, cfg, rules)
             else tier == Reduced && qualifying != [] && !Enough(qualifying, cfg, rules)
    ensures NextIs(s.log, TierEvent(tier), cfg, world, rules)
  {
    hide Lawful, DistinctKeys, Qualifying, Enough;
  }

  method Finish(s: State, claims: seq<Claim>, tier: Tier, cfg: Config, ghost world: World, ghost rules: Rules)
    returns (outcome: Outcome, s': State)
    requires Ok(s, cfg, world, rules) && NextIs(s.log, TierEvent(tier), cfg, world, rules)
    requires claims == Qualifying(s.accepted, rules)
    ensures outcome == Finished(Result(claims, s.rejected, s.attempts, tier, tier != Full))
    ensures Ends(s', outcome, cfg, world, rules)
  {
    hide Ok, NextIs, Qualifying, EndsWith;
    s' := s.(log := s.log + [TierEvent(tier)]);
    outcome := Finished(Result(claims, s.rejected, s.attempts, tier, tier != Full));
    Logged(s, TierEvent(tier), s', cfg, world, rules);
    Closed(s', tier, cfg, world, rules);
    Stops(s', outcome, cfg, world, rules);
  }

  lemma Closed(s: State, tier: Tier, cfg: Config, world: World, rules: Rules)
    requires Ok(s, cfg, world, rules) && s.log != [] && Last(s.log) == TierEvent(tier)
    ensures EndsWith(s.log, Finished(Result(Qualifying(s.accepted, rules), s.rejected, s.attempts, tier, tier != Full)),
                     cfg, world, rules)
  {
    hide Lawful, DistinctKeys, Qualifying;
  }

  // ---- recovery and conclusion ----

  /** What may follow next: the check after a recovery, what comes after it, the last check, or the settlement. */
  ghost predicate AtFirstCheck(log: seq<Action>, cfg: Config, world: World, rules: Rules) {
    log != []
    && forall a :: ChecksFirst(log, a, cfg, world, rules) ==> Follows(log, Last(log), a, cfg, world, rules)
  }

  ghost predicate PastFirstCheck(log: seq<Action>, cfg: Config, world: World, rules: Rules) {
    log != []
    && forall a :: AfterRecovery(log, a, cfg, world, rules) ==> Follows(log, Last(log), a, cfg, world, rules)
  }

  ghost predicate AtLastCheck(log: seq<Action>, cfg: Config, world: World, rules: Rules) {
    log != []
    && forall a :: ChecksLast(log, a, cfg, world, rules) ==> Follows(log, Last(log), a, cfg, world, rules)
  }

  ghost predicate PastLastCheck(log: seq<Action>, cfg: Config, world: World, rules: Rules) {
    log != []
    && forall a :: Settles(log, a, cfg, world, rules) ==> Follows(log, Last(log), a, cfg, world, rules)
  }

  /** Where a record stands by its last action. */
  lemma Stands(log: seq<Action>, cfg: Config, world: World, rules: Rules)
    requires log != []
    ensures Last(log).LoopLeft? && !(cfg.recovery && Last(log).elapsed < cfg.budget) ==> AtLastCheck(log, cfg, world, rules)
    ensures Last(log).LoopLeft? && cfg.recovery && Last(log).elapsed < cfg.budget ==>
              Follows(log, Last(log), RecoveryCall(cfg.budget - Last(log).elapsed), cfg, world, rules)
    ensures Last(log).RecoveryBack? && Last(log).elapsed >= cfg.budget ==> AtFirstCheck(log, cfg, world, rules)
    ensures Last(log).Checked? ==> PastFirstCheck(log, cfg, world, rules)
    ensures Last(log).LastCheck? ==> PastLastCheck(log, cfg, world, rules)
  {
    hide ChecksFirst, ChecksLast, AfterRecovery, Settles;
  }

  lemma LeavesLoop(s: State, elapsed: real, cfg: Config, world: World, rules: Rules)
    requires Ok(s, cfg, world, rules) && CanLeave(s.log, cfg, world, rules)
    requires elapsed == world.clock(s.ticks) - world.clock(0)
    ensures var t := s.(ticks := s.ticks + 1, log := s.log + [LoopLeft(elapsed)]);
            && Ok(t, cfg, world, rules) && Last(t.log) == LoopLeft(elapsed) && (Early(s.log, cfg) ==> Early(t.log, cfg))
            && if cfg.recovery && elapsed < cfg.budget then NextIs(t.log, RecoveryCall(cfg.budget - elapsed), cfg, world, rules)
               else AtLastCheck(t.log, cfg, world, rules)
  {
    hide Ok, Early, Follows, NextIs, AtLastCheck;
    May(s, LoopLeft(elapsed), cfg, world, rules);
    hide CanLeave;
    var t := s.(ticks := s.ticks + 1, log := s.log + [LoopLeft(elapsed)]);
    Logged(s, LoopLeft(elapsed), t, cfg, world, rules);
    Stands(t.log, cfg, world, rules);
    if cfg.recovery && elapsed < cfg.budget {
      May(t, RecoveryCall(cfg.budget - elapsed), cfg, world, rules);
    }
  }

  lemma CallLogged(s: State, timeout: real, t: State, cfg: Config, world: World, rules: Rules)
    requires Ok(s, cfg, world, rules) && Early(s.log, cfg) && NextIs(s.log, RecoveryCall(timeout), cfg, world, rules)
    requires t == s.(log := s.log + [RecoveryCall(timeout)],
                     failure := if world.recovery.Failed? then Some(world.recovery.failure) else s.failure)
    ensures Ok(t, cfg, world, rules) && Recoveries(t.log) == 1 && !CameBackInTime(t.log, cfg)
    ensures world.recovery.Failed? ==>
              if Fatal(world.recovery.failure)
              then EndsWith(t.log, Raised(world.recovery.failure), cfg, world, rules)
              else AtFirstCheck(t.log, cfg, world, rules)
  {
    Counted(s.log, RecoveryCall(timeout), cfg, world);
    hide Recoveries, CameBackInTime, ChecksFirst;
    Logged(s, RecoveryCall(timeout), t, cfg, world, rules);
    hide Ok, NextIs, Early;
  }

  lemma CallAnswered(log: seq<Action>, elapsed: real, cfg: Config, world: World, rules: Rules)
    requires log != [] && Last(log).RecoveryCall? && world.recovery.Found?
    ensures Follows(log, Last(log), RecoveryBack(elapsed), cfg, world, rules)
  {
  }

  lemma BackLogged(s: State, elapsed: real, cfg: Config, world: World, rules: Rules)
    requires Ok(s, cfg, world, rules) && s.log != [] && Last(s.log).RecoveryCall? && world.recovery.Found?
    requires elapsed == world.clock(s.ticks) - world.clock(0)
    ensures var t := s.(ticks := s.ticks + 1, log := s.log + [RecoveryBack(elapsed)]);
            && Ok(t, cfg, world, rules) && Last(t.log) == RecoveryBack(elapsed) && Recoveries(t.log) == Recoveries(s.log)
            && (CameBackInTime(t.log, cfg) <==> CameBackInTime(s.log, cfg) || elapsed < cfg.budget)
            && (elapsed >= cfg.budget ==> AtFirstCheck(t.log, cfg, world, rules))
  {
    hide Ok, Recoveries, CameBackInTime, Follows, NextIs, AtFirstCheck;
    CallAnswered(s.log, elapsed, cfg, world, rules);
    May(s, RecoveryBack(elapsed), cfg, world, rules);
    var t := s.(ticks := s.ticks + 1, log := s.log + [RecoveryBack(elapsed)]);
    Counted(s.log, RecoveryBack(elapsed), cfg, world);
    Logged(s, RecoveryBack(elapsed), t, cfg, world, rules);
    Stands(t.log, cfg, world, rules);
  }

  lemma JoinedAfterRecovery(s: State, t: State, cfg: Config, world: World, rules: Rules)
    requires t.log == s.log + [Accepted(t.accepted, t.rejected)] && Recoveries(s.log) == 1
    ensures AtFirstCheck(t.log, cfg, world, rules) && Recoveries(t.log) == 1
    ensures CameBackInTime(s.log, cfg) ==> CameBackInTime(t.log, cfg)
  {
    Counted(s.log, Accepted(t.accepted, t.rejected), cfg, world);
    hide Recoveries, CameBackInTime, ChecksFirst;
  }

  /** What the recovery search found is merged exactly when it came back within the budget. */
  method TakeRecovery(s: State, cfg: Config, world: World, rules: Rules) returns (s': State, merged: bool)
    requires Ok(s, cfg, world, rules) && s.log != [] && Last(s.log).RecoveryCall? && world.recovery.Found?
    requires Recoveries(s.log) == 1 && !CameBackInTime(s.log, cfg)
    ensures Ok(s', cfg, world, rules) && AtFirstCheck(s'.log, cfg, world, rules) && s'.attempts == s.attempts
    ensures merged <==> world.clock(s.ticks) - world.clock(0) < cfg.budget
    ensures merged <==> CameBackInTime(s'.log, cfg)
    ensures s'.log == s.log + [RecoveryBack(world.clock(s.ticks) - world.clock(0))]
                      + (if merged then [Accepted(s'.accepted, s'.rejected)] else [])
    ensures merged ==> Adds(world.recovery.claims, s.accepted, s'.accepted, rules)
    ensures !merged ==> s'.accepted == s.accepted
  {
    hide Ok, Recoveries, CameBackInTime, AtFirstCheck, Adds;
    var elapsed := world.clock(s.ticks) - world.clock(0);
    BackLogged(s, elapsed, cfg, world, rules);
    s' := s.(ticks := s.ticks + 1, log := s.log + [RecoveryBack(elapsed)]);
    merged := elapsed < cfg.budget;
    if merged {
      ghost var before := s';
      s' := Accept(RecoveryBack(elapsed), world.recovery.claims, s', cfg, world, rules);
      JoinedAfterRecovery(before, s', cfg, world, rules);
    }
  }

  /** One more reading of the clock after a recovery, unless the time is known to be up. */
  method CheckFirst(s: State, cfg: Config, world: World, ghost rules: Rules) returns (s': State)
    requires Ok(s, cfg, world, rules) && AtFirstCheck(s.log, cfg, world, rules)
    ensures Ok(s', cfg, world, rules) && PastFirstCheck(s'.log, cfg, world, rules) && s'.accepted == s.accepted
    ensures CameBackInTime(s'.log, cfg) <==> CameBackInTime(s.log, cfg)
  {
    s' := s;
    if s.exhausted {
      Skipped(s, cfg, world, rules);
    } else {
      var elapsed := world.clock(s.ticks) - world.clock(0);
      s' := s.(ticks := s.ticks + 1, log := s.log + [Checked(elapsed)], exhausted := elapsed >= cfg.budget);
      FirstChecked(s, elapsed, s', cfg, world, rules);
    }
  }

  lemma Skipped(s: State, cfg: Config, world: World, rules: Rules)
    requires Ok(s, cfg, world, rules) && s.exhausted
    ensures AtFirstCheck(s.log, cfg, world, rules) ==> PastFirstCheck(s.log, cfg, world, rules)
    ensures AtLastCheck(s.log, cfg, world, rules) ==> PastLastCheck(s.log, cfg, world, rules)
  {
    hide Follows, AfterRecovery, Settles, OutOfTime, Lawful, DistinctKeys;
    var log := s.log;
    assert forall a :: AfterRecovery(log, a, cfg, world, rules) ==> ChecksFirst(log, a, cfg, world, rules);
    assert forall a :: Settles(log, a, cfg, world, rules) ==> ChecksLast(log, a, cfg, world, rules);
  }

  lemma FirstChecked(s: State, elapsed: real, t: State, cfg: Config, world: World, rules: Rules)
    requires Ok(s, cfg, world, rules) && AtFirstCheck(s.log, cfg, world, rules) && !s.exhausted
    requires elapsed == world.clock(s.ticks) - world.clock(0)
    requires t == s.(ticks := s.ticks + 1, log := s.log + [Checked(elapsed)], exhausted := elapsed >= cfg.budget)
    ensures Ok(t, cfg, world, rules) && PastFirstCheck(t.log, cfg, world, rules)
    ensures CameBackInTime(t.log, cfg) <==> CameBackInTime(s.log, cfg)
  {
    Counted(s.log, Checked(elapsed), cfg, world);
    assert ChecksFirst(s.log, Checked(elapsed), cfg, world, rules) by {
      hide OutOfTime, AfterRecovery;
    }
    hide CameBackInTime, AfterRecovery, ChecksFirst, Follows, NextIs, Ok, PastFirstCheck;
    May(s, Checked(elapsed), cfg, world, rules);
    hide AtFirstCheck;
    Logged(s, Checked(elapsed), t, cfg, world, rules);
    Stands(t.log, cfg, world, rules);
  }

  lemma LastChecked(s: State, elapsed: real, t: State, cfg: Config, world: World, rules: Rules)
    requires Ok(s, cfg, world, rules) && AtLastCheck(s.log, cfg, world, rules) && !s.exhausted
    requires elapsed == world.clock(s.ticks) - world.clock(0)
    requires t == s.(ticks := s.ticks + 1, log := s.log + [LastCheck(elapsed)], exhausted := elapsed >= cfg.budget)
    ensures Ok(t, cfg, world, rules) && PastLastCheck(t.log, cfg, world, rules)
  {
    assert ChecksLast(s.log, LastCheck(elapsed), cfg, world, rules) by {
      hide OutOfTime, Settles;
    }
    hide Settles, ChecksLast, Follows, NextIs, Ok, PastLastCheck;
    May(s, LastCheck(elapsed), cfg, world, rules);
    hide AtLastCheck;
    Logged(s, LastCheck(elapsed), t, cfg, world, rules);
    Stands(t.log, cfg, world, rules);
  }

  /** At most one recovery call; a failure that ends the run ends it. */
  method TryRecovery(s: State, cfg: Config, world: World, rules: Rules)
    returns (progress: Progress, s': State, merged: bool)
    requires Ok(s, cfg, world, rules) && Early(s.log, cfg) && CanLeave(s.log, cfg, world, rules)
    ensures progress.Ended? ==> Ends(s', progress.outcome, cfg, world, rules)
    ensures !progress.Ended? ==> Ok(s', cfg, world, rules)
    ensures progress == Again ==>
      AtFirstCheck(s'.log, cfg, world, rules) && (merged <==> CameBackInTime(s'.log, cfg))
    ensures progress == Stopped ==> AtLastCheck(s'.log, cfg, world, rules)
  {
    hide Ok, Early, CanLeave, NextIs, EndsWith, AtFirstCheck, AtLastCheck, Ends, CameBackInTime, Recoveries;
    var elapsed := world.clock(s.ticks) - world.clock(0);
    LeavesLoop(s, elapsed, cfg, world, rules);
    s', merged := s.(ticks := s.ticks + 1, log := s.log + [LoopLeft(elapsed)]), false;
    if !cfg.recovery || elapsed >= cfg.budget {
      progress := Stopped;
      return;
    }
    ghost var before := s';
    var failure := if world.recovery.Failed? then Some(world.recovery.failure) else s'.failure;
    s' := s'.(log := s'.log + [RecoveryCall(cfg.budget - elapsed)], failure := failure);
    CallLogged(before, cfg.budget - elapsed, s', cfg, world, rules);
    progress := Again;
    if world.recovery.Found? {
      s', merged := TakeRecovery(s', cfg, world, rules);
    } else if world.recovery.failure == Foreign || world.recovery.failure == Configuration {
      Stops(s', Raised(world.recovery.failure), cfg, world, rules);
      progress := Ended(Raised(world.recovery.failure));
    }
  }

  lemma RecoveredLogged(s: State, t: State, cfg: Config, world: World, rules: Rules)
    requires Ok(s, cfg, world, rules) && PastFirstCheck(s.log, cfg, world, rules)
    requires CameBackInTime(s.log, cfg) && t == s.(log := s.log + [Recovered(|s.accepted|)])
    ensures Ok(t, cfg, world, rules)
    ensures if Enough(Qualifying(t.accepted, rules), cfg, rules) then NextIs(t.log, TierEvent(Full), cfg, world, rules)
            else AtLastCheck(t.log, cfg, world, rules)
  {
    hide Qualifying, Enough, Follows, NextIs, Lawful, CameBackInTime, DistinctKeys;
    var a := Recovered(|s.accepted|);
    assert AfterRecovery(s.log, a, cfg, world, rules);
    May(s, a, cfg, world, rules);
    hide PastFirstCheck, AtLastCheck, AfterRecovery;
    Logged(s, a, t, cfg, world, rules);
    Weighs(t.log, cfg, world, rules);
    if Enough(Qualifying(t.accepted, rules), cfg, rules) {
      May(t, TierEvent(Full), cfg, world, rules);
    }
  }

  lemma Weighs(log: seq<Action>, cfg: Config, world: World, rules: Rules)
    requires log != [] && Last(log).Recovered?
    ensures if Enough(Qualifying(AcceptedBy(log), rules), cfg, rules)
            then Follows(log, Last(log), TierEvent(Full), cfg, world, rules)
            else AtLastCheck(log, cfg, world, rules)
  {
    hide Qualifying, Enough, ChecksLast;
  }

  lemma NotBack(log: seq<Action>, cfg: Config, world: World, rules: Rules)
    requires PastFirstCheck(log, cfg, world, rules) && !CameBackInTime(log, cfg)
    ensures AtLastCheck(log, cfg, world, rules)
  {
    hide Follows, ChecksLast, CameBackInTime;
    assert forall a :: ChecksLast(log, a, cfg, world, rules) ==> AfterRecovery(log, a, cfg, world, rules);
  }

  method Recover(s: State, cfg: Config, world: World, rules: Rules) returns (progress: Progress, s': State)
    requires Ok(s, cfg, world, rules) && Early(s.log, cfg) && CanLeave(s.log, cfg, world, rules)
    ensures progress.Ended? ==> Ends(s', progress.outcome, cfg, world, rules)
    ensures !progress.Ended? ==> Ok(s', cfg, world, rules) && AtLastCheck(s'.log, cfg, world, rules)
  {
    hide Ok, Early, CanLeave, NextIs, AtFirstCheck, PastFirstCheck, AtLastCheck, Ends, CameBackInTime, Enough, Misses,
         Qualifying;
    var merged;
    progress, s', merged := TryRecovery(s, cfg, world, rules);
    if progress != Again {
      return;
    }
    progress := Stopped;
    s' := CheckFirst(s', cfg, world, rules);
    if !merged {
      NotBack(s'.log, cfg, world, rules);
      return;
    }
    var qualifying := QualifyingClaims(s'.accepted, rules);
    var missing := MissingCoverage(qualifying, cfg, rules);
    ghost var before := s';
    s' := s'.(log := s'.log + [Recovered(|s'.accepted|)]);
    RecoveredLogged(before, s', cfg, world, rules);
    if missing == [] {
      var outcome;
      outcome, s' := Finish(s', qualifying, Full, cfg, world, rules);
      progress := Ended(outcome);
    }
  }

  /** The last reading of the clock, unless the time is known to be up. */
  method CheckLast(s: State, cfg: Config, world: World, ghost rules: Rules) returns (s': State)
    requires Ok(s, cfg, world, rules) && AtLastCheck(s.log, cfg, world, rules)
    ensures Ok(s', cfg, world, rules) && PastLastCheck(s'.log, cfg, world, rules) && s'.accepted == s.accepted
  {
    s' := s;
    if s.exhausted {
      Skipped(s, cfg, world, rules);
    } else {
      var elapsed := world.clock(s.ticks) - world.clock(0);
      s' := s.(ticks := s.ticks + 1, log := s.log + [LastCheck(elapsed)], exhausted := elapsed >= cfg.budget);
      LastChecked(s, elapsed, s', cfg, world, rules);
    }
  }

  function DocumentLedReason(s: State): string {
    if s.exhausted then "budget_exhausted"
    else if s.failure == Some(Timeout) then "provider_timeout"
    else if s.failure == Some(Malformed) then "malformed_response"
    else if s.failure.Some? && s.failure != Some(SourceRejected) then "provider_failure"
    else if s.failure == Some(SourceRejected) || s.rejected != map[] then "source_rejected"
    else "insufficient_coverage"
  }

  function FinalFailure(s: State): Failure {
    if s.exhausted then Timeout
    else if s.failure.Some? then s.failure.value
    else if s.accepted == [] && s.rejected != map[] then SourceRejected
    else Insufficient
  }

  lemma SettledRecent(s: State, cfg: Config, world: World, rules: Rules)
    requires Ok(s, cfg, world, rules) && PastLastCheck(s.log, cfg, world, rules)
    requires AnyRecent(Qualifying(s.accepted, rules), rules)
    ensures NextIs(s.log, TierEvent(Reduced), cfg, world, rules)
  {
    hide Qualifying, AnyRecent, ReasonFits, Lawful, DistinctKeys;
    assert Settles(s.log, TierEvent(Reduced), cfg, world, rules);
    hide Follows;
    May(s, TierEvent(Reduced), cfg, world, rules);
  }

  lemma SettledReason(s: State, t: State, cfg: Config, world: World, rules: Rules)
    requires Ok(s, cfg, world, rules) && PastLastCheck(s.log, cfg, world, rules)
    requires !AnyRecent(Qualifying(s.accepted, rules), rules)
    requires t == s.(log := s.log + [Diagnostics(DocumentLedReason(s))])
    ensures Ok(t, cfg, world, rules)
    ensures if cfg.allowDocumentLed && Qualifying(t.accepted, rules) == []
            then NextIs(t.log, TierEvent(DocumentLed), cfg, world, rules)
            else EndsWith(t.log, Raised(FinalFailure(t)), cfg, world, rules)
  {
    var a := Diagnostics(DocumentLedReason(s));
    assert Settles(s.log, a, cfg, world, rules) by {
      hide Qualifying, AnyRecent, Lawful, DistinctKeys, OutOfTime, LastFailure;
    }
    hide Follows, NextIs, Qualifying, EndsWith, FinalFailure;
    May(s, a, cfg, world, rules);
    hide AnyRecent, DocumentLedReason, PastLastCheck, Settles, Ok;
    Logged(s, a, t, cfg, world, rules);
    if cfg.allowDocumentLed && Qualifying(t.accepted, rules) == [] {
      DocumentLedFollows(t, cfg, world, rules);
    } else {
      RaisesNow(t, cfg, world, rules);
    }
  }

  lemma DocumentLedFollows(s: State, cfg: Config, world: World, rules: Rules)
    requires Ok(s, cfg, world, rules) && s.log != [] && Last(s.log).Diagnostics?
    requires cfg.allowDocumentLed && Qualifying(s.accepted, rules) == []
    ensures NextIs(s.log, TierEvent(DocumentLed), cfg, world, rules)
  {
    hide Lawful, DistinctKeys, Qualifying;
  }

  lemma RaisesNow(s: State, cfg: Config, world: World, rules: Rules)
    requires Ok(s, cfg, world, rules) && s.log != [] && Last(s.log).Diagnostics?
    requires !(cfg.allowDocumentLed && Qualifying(s.accepted, rules) == [])
    ensures EndsWith(s.log, Raised(FinalFailure(s)), cfg, world, rules)
  {
    hide Lawful, DistinctKeys, Qualifying, OutOfTime, LastFailure;
  }

  method Conclude(s: State, cfg: Config, world: World, rules: Rules) returns (outcome: Outcome, s': State)
    requires Ok(s, cfg, world, rules) && AtLastCheck(s.log, cfg, world, rules)
    ensures Ends(s', outcome, cfg, world, rules)
  {
    hide Ok, AtLastCheck, PastLastCheck, Qualifying, AnyRecent, NextIs, Ends, DocumentLedReason, FinalFailure, EndsWith;
    s' := CheckLast(s, cfg, world, rules);
    var qualifying := QualifyingClaims(s'.accepted, rules);
    if qualifying != [] && AnyRecent(qualifying, rules) {
      SettledRecent(s', cfg, world, rules);
      outcome, s' := Finish(s', qualifying, Reduced, cfg, world, rules);
      return;
    }
    NoneRecent(qualifying, rules);
    ghost var before := s';
    s' := s'.(log := s'.log + [Diagnostics(DocumentLedReason(s'))]);
    SettledReason(before, s', cfg, world, rules);
    if cfg.allowDocumentLed && qualifying == [] {
      outcome, s' := Finish(s', qualifying, DocumentLed, cfg, world, rules);
      return;
    }
    outcome := Raised(FinalFailure(s'));
    Stops(s', outcome, cfg, world, rules);
  }

  lemma NoneRecent(claims: seq<Claim>, rules: Rules)
    requires claims == [] || !AnyRecent(claims, rules)
    ensures !AnyRecent(claims, rules)
  {
  }

  /**
   A whole run, for every clock, every answer of the searches and every jitter: each thing it does may follow what it
   did before, and it ends as a run that has done all this must.
   */
  method Run(cfg: Config, world: World, rules: Rules) returns (outcome: Outcome, log: seq<Action>)
    requires ConfigOk(cfg)
    ensures Lawful(log, cfg, world, rules) && EndsWith(log, outcome, cfg, world, rules)
    ensures ResearchSafety.Concluded(log, outcome, cfg, world, rules)
  {
    var s := State(1, [], map[], None, false, 0, []);
    assert Ok(s, cfg, world, rules) && Early(s.log, cfg) && CanAttempt(s.log, 1);
    var attempt := 1;
    var progress := Again;
    hide Ok, Early, CanAttempt, CanLeave, EndsWith, Lawful, ResearchSafety.Concluded;
    while attempt <= cfg.maxAttempts && progress == Again
      invariant 1 <= attempt <= cfg.maxAttempts + 1
      invariant Turned(progress, attempt - 1, s, cfg, world, rules)
      decreases cfg.maxAttempts + 1 - attempt
    {
      progress, s := RunAttempt(attempt, s, cfg, world, rules);
      attempt := attempt + 1;
    }
    if !progress.Ended? {
      progress, s := Recover(s, cfg, world, rules);
    }
    if progress.Ended? {
      outcome := progress.outcome;
    } else {
      outcome, s := Conclude(s, cfg, world, rules);
    }
    log := s.log;
    ResearchSafety.RunFits(log, outcome, cfg, world, rules);
  }
}
