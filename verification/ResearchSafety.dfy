/** What holds of every research run that keeps to what may follow what, however clock, searches and jitter behave. */
module ResearchSafety {
  import opened Basics
  import opened ClaimSelection
  import opened ResearchRun

  function Qualified(log: seq<Action>, rules: Rules): seq<Claim> {
    Qualifying(AcceptedBy(log), rules)
  }

  /** A reading of the clock at or past the budget is on record. */
  predicate TimedOut(log: seq<Action>, cfg: Config) {
    OutOfTime(log, cfg) || exists i :: 0 <= i < |log| && log[i].LoopLeft? && log[i].elapsed >= cfg.budget
  }

  /** The run used its attempts and its recovery, unless it ran out of time. */
  predicate TriedAll(log: seq<Action>, cfg: Config) {
    TimedOut(log, cfg) || (Searches(log) == cfg.maxAttempts && (cfg.recovery ==> Recoveries(log) == 1))
  }

  // ---- how far a run has come ----

  /** Still in the loop over searches, which goes on while nothing qualifies. */
  ghost predicate Searching(log: seq<Action>, cfg: Config, rules: Rules) {
    Searches(log) <= cfg.maxAttempts && Recoveries(log) == 0 && Qualified(log, rules) == []
  }

  /** Past the loop: nothing is left to try, and only a recovery in time can have brought something. */
  ghost predicate Past(log: seq<Action>, cfg: Config, rules: Rules) {
    && 1 <= Searches(log) <= cfg.maxAttempts && Recoveries(log) <= 1 && TriedAll(log, cfg)
    && ((CameBackInTime(log, cfg) && Recoveries(log) == 1) || Qualified(log, rules) == [])
  }

  /** What is known of a record by its last action. */
  ghost predicate Staged(log: seq<Action>, cfg: Config, world: World, rules: Rules)
    requires log != []
  {
    var n := Searches(log);
    match Last(log)
    case Attempt(k, _) => Searching(log, cfg, rules) && n + 1 == k <= cfg.maxAttempts
    case SearchCall(k) => Searching(log, cfg, rules) && 1 <= n == k
    case Accepted(_, _) =>
      && 1 <= n <= cfg.maxAttempts
      && (Recoveries(log) == 0 || (Recoveries(log) == 1 && TriedAll(log, cfg) && CameBackInTime(log, cfg)))
    case Weighed(_) => 1 <= n <= cfg.maxAttempts && Recoveries(log) == 0
    case Jittered(k, configured) => Searching(log, cfg, rules) && 1 <= n == k < cfg.maxAttempts && IsBackoff(configured, k, cfg)
    case Retry(next, _) =>
      && Searching(log, cfg, rules) && 1 <= n && n + 1 == next <= cfg.maxAttempts
      && forall configured :: IsBackoff(configured, n, cfg) ==> world.jitter(n, configured) >= 0.0
    case Sleep(k, delay, remaining) =>
      Searching(log, cfg, rules) && 1 <= n == k < cfg.maxAttempts && 0.0 <= delay <= remaining
    case TimeUp(_) => Searching(log, cfg, rules) && 1 <= n && OutOfTime(log, cfg)
    case LoopLeft(_) => Searching(log, cfg, rules) && 1 <= n && (n == cfg.maxAttempts || OutOfTime(log, cfg))
    case RecoveryCall(_) => Past(log, cfg, rules) && Recoveries(log) == 1 && Qualified(log, rules) == []
    case RecoveryBack(_) => Past(log, cfg, rules) && Recoveries(log) == 1 && Qualified(log, rules) == []
    case Checked(_) => Past(log, cfg, rules) && Recoveries(log) == 1
    case Recovered(_) => Past(log, cfg, rules) && Recoveries(log) == 1
    case LastCheck(_) => Past(log, cfg, rules) && !Enough(Qualified(log, rules), cfg, rules)
    case Diagnostics(_) =>
      && Past(log, cfg, rules) && !AnyRecent(Qualified(log, rules), rules)
      && !Enough(Qualified(log, rules), cfg, rules)
    case TierEvent(tier) =>
      && 1 <= n <= cfg.maxAttempts && Recoveries(log) <= 1
      && match tier
         case Full => Enough(Qualified(log, rules), cfg, rules)
         case Reduced =>
           && Qualified(log, rules) != [] && !Enough(Qualified(log, rules), cfg, rules)
           && (Recoveries(log) == 1 ==> AnyRecent(Qualified(log, rules), rules))
         case DocumentLed => Qualified(log, rules) == [] && cfg.allowDocumentLed && TriedAll(log, cfg)
  }

  lemma TriedNext(log: seq<Action>, a: Action, cfg: Config, world: World)
    ensures TimedOut(log, cfg) || FindsTimeUp(a, cfg) || (a.LoopLeft? && a.elapsed >= cfg.budget) ==>
              TimedOut(log + [a], cfg)
    ensures TriedAll(log, cfg) && !a.SearchCall? && !a.RecoveryCall? ==> TriedAll(log + [a], cfg)
  {
    Counted(log, a, cfg, world);
    hide OutOfTime, FindsTimeUp, Searches, Recoveries;
    assert (log + [a])[|log|] == a;
    assert forall i :: 0 <= i < |log| ==> (log + [a])[i] == log[i];
  }

  lemma PastNext(log: seq<Action>, a: Action, cfg: Config, world: World, rules: Rules)
    requires Past(log, cfg, rules) && !a.SearchCall? && !a.RecoveryCall? && !a.Accepted?
    ensures Past(log + [a], cfg, rules)
  {
    Counted(log, a, cfg, world);
    TriedNext(log, a, cfg, world);
    hide Searches, Recoveries, OutOfTime, CameBackInTime, TriedAll, Qualifying, AcceptedBy;
  }

  lemma EnoughIsSome(claims: seq<Claim>, cfg: Config, rules: Rules)
    requires cfg.minimumClaims > 0
    ensures Enough(claims, cfg, rules) || AnyRecent(claims, rules) ==> claims != []
  {
    hide Publishers;
    assert VerifiedOf([]) == [];
  }

  /** In the loop over searches. */
  lemma SearchingNext(log: seq<Action>, a: Action, cfg: Config, world: World, rules: Rules)
    requires log != [] && Staged(log, cfg, world, rules) && NextIs(log, a, cfg, world, rules)
    requires match Last(log)
             case Attempt(_, _) => true
             case SearchCall(_) => true
             case Weighed(_) => true
             case Jittered(_, _) => true
             case Retry(_, _) => true
             case Sleep(_, _, _) => true
             case TimeUp(_) => true
             case _ => false
    ensures Staged(log + [a], cfg, world, rules)
  {
    Counted(log, a, cfg, world);
    hide Searches, Recoveries, Readings, AcceptedBy, Qualifying, Enough, AnyRecent, OutOfTime, TriedAll, Misses,
         Adds, Reasons, CameBackInTime, LastFailure, FailureOf, RejectedBy;
    assert (log + [a])[|log|] == a;
  }

  lemma BackNext(log: seq<Action>, a: Action, cfg: Config, world: World, rules: Rules)
    requires log != [] && Last(log).RecoveryBack? && Last(log).elapsed < cfg.budget && CameBackInTime(log, cfg)
    requires Past(log, cfg, rules) && Recoveries(log) == 1 && a.Accepted?
    ensures Staged(log + [a], cfg, world, rules)
  {
    Counted(log, a, cfg, world);
    TriedNext(log, a, cfg, world);
    hide Searches, Recoveries, OutOfTime, TriedAll, CameBackInTime, Qualifying, AcceptedBy;
    assert (log + [a])[|log|] == a;
  }

  /** Whatever follows the last check, or is that. */
  lemma LastCheckNext(log: seq<Action>, a: Action, cfg: Config, world: World, rules: Rules)
    requires Past(log, cfg, rules) && cfg.minimumClaims > 0 && !Enough(Qualified(log, rules), cfg, rules)
    requires ChecksLast(log, a, cfg, world, rules) || Settles(log, a, cfg, world, rules)
    ensures Staged(log + [a], cfg, world, rules)
  {
    EnoughIsSome(Qualified(log, rules), cfg, rules);
    Counted(log, a, cfg, world);
    hide Searches, Recoveries, OutOfTime, TriedAll, CameBackInTime, Qualifying, AcceptedBy, Enough, AnyRecent, ReasonFits;
    assert (log + [a])[|log|] == a;
    if !a.TierEvent? {
      PastNext(log, a, cfg, world, rules);
    }
  }

  /** Whatever follows the check after a recovery, or is that. */
  lemma FirstCheckNext(log: seq<Action>, a: Action, cfg: Config, world: World, rules: Rules)
    requires Past(log, cfg, rules) && Recoveries(log) == 1 && cfg.minimumClaims > 0
    requires ChecksFirst(log, a, cfg, world, rules) || AfterRecovery(log, a, cfg, world, rules)
    ensures Staged(log + [a], cfg, world, rules)
  {
    Counted(log, a, cfg, world);
    EnoughIsSome(Qualified(log, rules), cfg, rules);
    hide Searches, Recoveries, OutOfTime, TriedAll, CameBackInTime, Qualifying, AcceptedBy, Enough, AnyRecent, ChecksLast;
    assert (log + [a])[|log|] == a;
    if a.Checked? || a.Recovered? {
      PastNext(log, a, cfg, world, rules);
    }
    if ChecksLast(log, a, cfg, world, rules) && !Enough(Qualified(log, rules), cfg, rules) {
      LastCheckNext(log, a, cfg, world, rules);
    }
  }

  lemma LeftNext(log: seq<Action>, a: Action, cfg: Config, world: World, rules: Rules)
    requires log != [] && Last(log).LoopLeft? && Staged(log, cfg, world, rules) && NextIs(log, a, cfg, world, rules)
    requires cfg.minimumClaims > 0
    ensures Staged(log + [a], cfg, world, rules)
  {
    EnoughIsSome(Qualified(log, rules), cfg, rules);
    if cfg.recovery && Last(log).elapsed < cfg.budget {
      Counted(log, a, cfg, world);
      TriedNext(log, a, cfg, world);
      hide Searches, Recoveries, OutOfTime, CameBackInTime, Qualifying, AcceptedBy, Enough, AnyRecent;
      assert (log + [a])[|log|] == a;
    } else {
      hide Searches, Recoveries, OutOfTime, CameBackInTime, Qualifying, AcceptedBy, Enough, AnyRecent, ChecksLast, Readings;
      assert Past(log, cfg, rules);
      assert ChecksLast(log, a, cfg, world, rules);
      LastCheckNext(log, a, cfg, world, rules);
    }
  }

  /** After a recovery, up to its tier. */
  lemma RecoveringNext(log: seq<Action>, a: Action, cfg: Config, world: World, rules: Rules)
    requires log != [] && Staged(log, cfg, world, rules) && NextIs(log, a, cfg, world, rules)
    requires Last(log).RecoveryCall? || Last(log).RecoveryBack? || Last(log).Checked? || Last(log).Recovered?
    requires cfg.minimumClaims > 0
    ensures Staged(log + [a], cfg, world, rules)
  {
    hide ChecksFirst, ChecksLast, AfterRecovery, Qualifying, AcceptedBy, Enough, Adds, Reasons, Readings, Searches, Recoveries,
         OutOfTime, TriedAll, AnyRecent;
    match Last(log)
    case RecoveryCall(_) =>
      if world.recovery.Found? {
        Counted(log, a, cfg, world);
        PastNext(log, a, cfg, world, rules);
        assert (log + [a])[|log|] == a;
      } else {
        FirstCheckNext(log, a, cfg, world, rules);
      }
    case RecoveryBack(elapsed) =>
      if elapsed < cfg.budget {
        BackNext(log, a, cfg, world, rules);
      } else {
        FirstCheckNext(log, a, cfg, world, rules);
      }
    case Checked(_) =>
      FirstCheckNext(log, a, cfg, world, rules);
    case Recovered(_) =>
      if Enough(Qualified(log, rules), cfg, rules) {
        Counted(log, a, cfg, world);
        assert (log + [a])[|log|] == a;
      } else {
        LastCheckNext(log, a, cfg, world, rules);
      }
  }

  lemma OtherNext(log: seq<Action>, a: Action, cfg: Config, world: World, rules: Rules)
    requires log != [] && Staged(log, cfg, world, rules) && NextIs(log, a, cfg, world, rules)
    requires Last(log).Accepted? || Last(log).LastCheck? || Last(log).Diagnostics?
    requires cfg.minimumClaims > 0
    ensures Staged(log + [a], cfg, world, rules)
  {
    hide ChecksFirst, Settles, Qualifying, AcceptedBy, Enough, Readings, Searches, Recoveries, OutOfTime, TriedAll,
         AnyRecent, CameBackInTime;
    if Last(log).LastCheck? {
      LastCheckNext(log, a, cfg, world, rules);
    } else if Last(log).Accepted? && Recoveries(log) != 0 {
      FirstCheckNext(log, a, cfg, world, rules);
    } else {
      Counted(log, a, cfg, world);
      TriedNext(log, a, cfg, world);
      assert (log + [a])[|log|] == a;
    }
  }

  lemma FirstStaged(a: Action, cfg: Config, world: World, rules: Rules)
    requires NextIs([], a, cfg, world, rules) && cfg.maxAttempts > 0
    ensures Staged([a], cfg, world, rules)
  {
    assert [a][..0] == [];
    Counted([], a, cfg, world);
    assert [] + [a] == [a];
  }

  lemma NextStaged(log: seq<Action>, a: Action, cfg: Config, world: World, rules: Rules)
    requires log != [] && Staged(log, cfg, world, rules) && NextIs(log, a, cfg, world, rules)
    requires cfg.minimumClaims > 0
    ensures Staged(log + [a], cfg, world, rules)
  {
    hide NextIs, Staged;
    match Last(log)
    case Accepted(_, _) => OtherNext(log, a, cfg, world, rules);
    case LastCheck(_) => OtherNext(log, a, cfg, world, rules);
    case Diagnostics(_) => OtherNext(log, a, cfg, world, rules);
    case LoopLeft(_) => LeftNext(log, a, cfg, world, rules);
    case RecoveryCall(_) => RecoveringNext(log, a, cfg, world, rules);
    case RecoveryBack(_) => RecoveringNext(log, a, cfg, world, rules);
    case Checked(_) => RecoveringNext(log, a, cfg, world, rules);
    case Recovered(_) => RecoveringNext(log, a, cfg, world, rules);
    case TierEvent(_) => NoneAfter(log, a, cfg, world, rules);
    case _ => SearchingNext(log, a, cfg, world, rules);
  }

  lemma {:induction false} RunStaged(log: seq<Action>, cfg: Config, world: World, rules: Rules)
    requires Lawful(log, cfg, world, rules) && log != [] && cfg.maxAttempts > 0 && cfg.minimumClaims > 0
    ensures Staged(log, cfg, world, rules)
  {
    hide NextIs, Staged, Lawful;
    var front, a := log[..|log| - 1], Last(log);
    PrefixLawful(log, |log| - 1, cfg, world, rules);
    LawfulLast(log, cfg, world, rules);
    if front == [] {
      FirstStaged(a, cfg, world, rules);
      assert log == [a];
    } else {
      RunStaged(front, cfg, world, rules);
      NextStaged(front, a, cfg, world, rules);
      assert log == front + [a];
    }
  }

  lemma LawfulLast(log: seq<Action>, cfg: Config, world: World, rules: Rules)
    requires Lawful(log, cfg, world, rules) && log != []
    ensures NextIs(log[..|log| - 1], Last(log), cfg, world, rules)
  {
    hide NextIs;
  }

  lemma NoneAfter(log: seq<Action>, a: Action, cfg: Config, world: World, rules: Rules)
    requires log != [] && NextIs(log, a, cfg, world, rules)
    ensures !Last(log).TierEvent?
  {
  }

  lemma PrefixLawful(log: seq<Action>, n: nat, cfg: Config, world: World, rules: Rules)
    requires Lawful(log, cfg, world, rules) && n <= |log|
    ensures Lawful(log[..n], cfg, world, rules)
  {
    hide NextIs;
    assert forall i :: 0 <= i < n ==> log[..n][..i] == log[..i] && log[..n][i] == log[i];
  }

  // ---- what holds of every run ----

  /** Primary searches are numbered from one and bounded, and so is the recovery. */
  lemma CallsFit(log: seq<Action>, cfg: Config, world: World, rules: Rules)
    requires Lawful(log, cfg, world, rules) && cfg.maxAttempts > 0 && cfg.minimumClaims > 0
    ensures Searches(log) <= cfg.maxAttempts && Recoveries(log) <= 1
    ensures forall i :: 0 <= i < |log| && log[i].SearchCall? ==> log[i].n == Searches(log[..i]) + 1
  {
    if log != [] {
      RunStaged(log, cfg, world, rules);
    }
    forall i | 0 <= i < |log| && log[i].SearchCall?
      ensures log[i].n == Searches(log[..i]) + 1
    {
      StagedAt(log, i, cfg, world, rules);
    }
  }

  lemma StagedAt(log: seq<Action>, i: nat, cfg: Config, world: World, rules: Rules)
    requires Lawful(log, cfg, world, rules) && i < |log| && cfg.maxAttempts > 0 && cfg.minimumClaims > 0
    ensures Staged(log[..i + 1], cfg, world, rules) && Last(log[..i + 1]) == log[i]
    ensures Searches(log[..i + 1]) == Searches(log[..i]) + (if log[i].SearchCall? then 1 else 0)
  {
    hide Staged, Lawful;
    PrefixLawful(log, i + 1, cfg, world, rules);
    RunStaged(log[..i + 1], cfg, world, rules);
    assert log[..i + 1] == log[..i] + [log[i]];
    Counted(log[..i], log[i], cfg, world);
  }

  /** No attempt but the first begins at or past the budget, and no sleep outlasts it. */
  lemma WaitsFit(log: seq<Action>, i: nat, cfg: Config, world: World, rules: Rules)
    requires Lawful(log, cfg, world, rules) && i < |log| && cfg.maxAttempts > 0 && cfg.minimumClaims > 0
    ensures log[i].Attempt? && log[i].n > 1 ==> log[i].elapsed < cfg.budget
    ensures log[i].Sleep? ==> 0.0 <= log[i].delay <= log[i].remaining && log[i].remaining > 0.0
  {
    hide Lawful, NextIs, Searching, Searches;
    StagedAt(log, i, cfg, world, rules);
    if log[i].Attempt? && log[i].n > 1 {
      StartsInTime(log, i, cfg, world, rules);
    }
    if log[i].Sleep? {
      SleepsInTime(log, i, cfg, world, rules);
    }
  }

  lemma StartsInTime(log: seq<Action>, i: nat, cfg: Config, world: World, rules: Rules)
    requires Lawful(log, cfg, world, rules) && i < |log| && log[i].Attempt? && log[i].n > 1
    ensures log[i].elapsed < cfg.budget
  {
    assert NextIs(log[..i], log[i], cfg, world, rules);
    hide Lawful, Qualifying, Enough, ChecksFirst, ChecksLast, AfterRecovery, Settles, Joins, Readings, Misses;
  }

  lemma SleepsInTime(log: seq<Action>, i: nat, cfg: Config, world: World, rules: Rules)
    requires Lawful(log, cfg, world, rules) && i < |log| && log[i].Sleep?
    ensures log[i].remaining > 0.0
  {
    assert NextIs(log[..i], log[i], cfg, world, rules);
    hide Lawful, Qualifying, Enough, ChecksFirst, ChecksLast, AfterRecovery, Settles, Joins, Readings, Misses;
  }

  /** What follows an action of a run, if anything does. */
  lemma Followed(log: seq<Action>, i: nat, cfg: Config, world: World, rules: Rules)
    requires Lawful(log, cfg, world, rules) && i + 1 < |log|
    ensures Follows(log[..i + 1], log[i], log[i + 1], cfg, world, rules) && Last(log[..i + 1]) == log[i]
  {
    assert NextIs(log[..i + 1], log[i + 1], cfg, world, rules);
    hide Follows, Lawful;
  }

  /** A failure that ends a run at once ends it: nothing follows. */
  lemma NothingFatal(log: seq<Action>, i: nat, cfg: Config, world: World, rules: Rules)
    requires Lawful(log, cfg, world, rules) && i + 1 < |log|
    ensures !log[i].TierEvent?
    ensures FailureOf(log[i], world).Some? ==> !Fatal(FailureOf(log[i], world).value)
    ensures log[i].Jittered? ==> world.jitter(log[i].n, log[i].configured) >= 0.0
  {
    Followed(log, i, cfg, world, rules);
    hide Lawful, Qualifying, Enough, ChecksFirst, Joins, Continues;
  }

  lemma {:induction false} FailureOnRecord(log: seq<Action>, world: World)
    ensures LastFailure(log, world).Some? ==>
              exists i :: 0 <= i < |log| && FailureOf(log[i], world) == LastFailure(log, world)
  {
    hide FailureOf;
    if log != [] {
      var front := log[..|log| - 1];
      FailureOnRecord(front, world);
      if FailureOf(Last(log), world).None? && LastFailure(front, world).Some? {
        var i :| 0 <= i < |front| && FailureOf(front[i], world) == LastFailure(front, world);
        assert log[i] == front[i];
      }
    }
  }

  /** The failure that an action meets: that of a search, or a jitter that is no delay. */
  function Meets(a: Action, world: World): Option<Failure> {
    if FailureOf(a, world).Some? then FailureOf(a, world)
    else if a.Jittered? && world.jitter(a.n, a.configured) < 0.0 then Some(Foreign)
    else None
  }

  /**
   The end of a run. A failure that ends a run at once is raised when the last call met it, and only then. Otherwise the
   run raised without a tier event, or it ended with exactly one, the last thing it did, whose claims are the
   selection among what was accepted. It gives up only after trying everything, and only with nothing recent to show.
   */
  ghost predicate Concluded(log: seq<Action>, outcome: Outcome, cfg: Config, world: World, rules: Rules) {
    && log != [] && 1 <= Searches(log) <= cfg.maxAttempts && Recoveries(log) <= 1
    && (forall i :: 0 <= i < |log| - 1 ==>
          !log[i].TierEvent? && (Meets(log[i], world).Some? ==> !Fatal(Meets(log[i], world).value)))
    && (outcome.Raised? && Fatal(outcome.failure)
        <==> Meets(Last(log), world).Some? && Fatal(Meets(Last(log), world).value))
    && var qualifying := Qualified(log, rules);
       match outcome
       case Raised(f) =>
         && !Last(log).TierEvent?
         && if Fatal(f) then Meets(Last(log), world) == Some(f)
            else
              && TriedAll(log, cfg) && !AnyRecent(qualifying, rules) && (cfg.allowDocumentLed ==> qualifying != [])
              && FailureFits(f, log, cfg, world)
       case Finished(r) =>
         && Last(log) == TierEvent(r.tier) && r.attempts == Searches(log)
         && r.claims == qualifying && r.rejected == RejectedBy(log) && (r.limited <==> r.tier != Full)
         && match r.tier
            case Full => Enough(r.claims, cfg, rules)
            case Reduced =>
              && r.claims != [] && !Enough(r.claims, cfg, rules)
              && (Recoveries(log) == 1 ==> AnyRecent(r.claims, rules))
            case DocumentLed => r.claims == [] && cfg.allowDocumentLed && TriedAll(log, cfg)
  }

  lemma RunFits(log: seq<Action>, outcome: Outcome, cfg: Config, world: World, rules: Rules)
    requires Lawful(log, cfg, world, rules) && EndsWith(log, outcome, cfg, world, rules)
    requires cfg.maxAttempts > 0 && cfg.minimumClaims > 0
    ensures Concluded(log, outcome, cfg, world, rules)
  {
    RunStaged(log, cfg, world, rules);
    forall i | 0 <= i < |log| - 1
      ensures !log[i].TierEvent? && (Meets(log[i], world).Some? ==> !Fatal(Meets(log[i], world).value))
    {
      NothingFatal(log, i, cfg, world, rules);
    }
    if Last(log).Diagnostics? {
      GivenUp(log, outcome, cfg, world, rules);
    }
    hide Lawful, Qualifying, Enough, AnyRecent, TriedAll, OutOfTime, LastFailure, Searches, Recoveries, FailureFits,
         CameBackInTime, AcceptedBy;
  }

  lemma GivenUp(log: seq<Action>, outcome: Outcome, cfg: Config, world: World, rules: Rules)
    requires Lawful(log, cfg, world, rules) && log != [] && Last(log).Diagnostics? && outcome.Raised?
    requires FailureFits(outcome.failure, log, cfg, world)
    ensures !Fatal(outcome.failure)
  {
    FailureOnRecord(log, world);
    if LastFailure(log, world).Some? {
      var i :| 0 <= i < |log| && FailureOf(log[i], world) == LastFailure(log, world);
      if i < |log| - 1 {
        NothingFatal(log, i, cfg, world, rules);
      }
    }
    hide LastFailure, OutOfTime, Lawful;
  }

  // ---- where claims come from ----

  /** What an action brought in to be merged. */
  function FoundBy(a: Action, cfg: Config, world: World): seq<Claim> {
    if a.SearchCall? && world.search(a.n).Found? then world.search(a.n).claims
    else if a.RecoveryBack? && a.elapsed < cfg.budget && world.recovery.Found? then world.recovery.claims
    else []
  }

  /** Every acceptable claim of `claims` is accepted, or one under the same identifier was before it. */
  predicate Covered(claims: seq<Claim>, accepted: seq<Claim>, rules: Rules) {
    forall c :: c in claims && Refusal(c, claims, rules).None? ==> HasKey(accepted, rules.fold(c.id), rules)
  }

  /** Claims are accepted only when a search, or a recovery in time, has just found them. */
  lemma AcceptedNext(log: seq<Action>, a: Action, cfg: Config, world: World, rules: Rules)
    requires NextIs(log, a, cfg, world, rules)
    ensures if a.Accepted? then log != [] && Adds(FoundBy(Last(log), cfg, world), AcceptedBy(log), a.claims, rules)
            else AcceptedBy(log + [a]) == AcceptedBy(log)
    ensures a.Accepted? ==> AcceptedBy(log + [a]) == a.claims
    ensures log != [] && FoundBy(Last(log), cfg, world) != [] ==> a.Accepted?
  {
    Counted(log, a, cfg, world);
    hide Adds, Reasons, Qualifying, Enough, AnyRecent, OutOfTime, CameBackInTime, Misses, Readings, Recoveries, Searches,
         AcceptedBy, RejectedBy;
  }

  lemma {:induction false} ClaimsFound(log: seq<Action>, c: Claim, cfg: Config, world: World, rules: Rules)
    requires Lawful(log, cfg, world, rules) && c in AcceptedBy(log)
    ensures exists i :: 0 <= i < |log| && c in FoundBy(log[i], cfg, world)
  {
    hide NextIs, Lawful, FoundBy, Adds;
    var front, a := log[..|log| - 1], Last(log);
    PrefixLawful(log, |log| - 1, cfg, world, rules);
    LawfulLast(log, cfg, world, rules);
    AcceptedNext(front, a, cfg, world, rules);
    assert log == front + [a];
    if a.Accepted? {
      AddedFrom(FoundBy(Last(front), cfg, world), AcceptedBy(front), a.claims, c, rules);
      assert log[|front| - 1] == Last(front);
    }
    if c in AcceptedBy(front) {
      ClaimsFound(front, c, cfg, world, rules);
      var i :| 0 <= i < |front| && c in FoundBy(front[i], cfg, world);
      assert log[i] == front[i];
    }
  }

  lemma AddedFrom(found: seq<Claim>, before: seq<Claim>, after: seq<Claim>, c: Claim, rules: Rules)
    requires Adds(found, before, after, rules) && c in after
    ensures c in before || c in found
  {
    hide New;
    var i :| 0 <= i < |after| && after[i] == c;
    if i >= |before| {
      assert after[|before|..][i - |before|] == c;
    } else {
      assert before[i] == c;
    }
  }

  lemma {:induction false} AddsCover(found: seq<Claim>, before: seq<Claim>, after: seq<Claim>, j: nat, rules: Rules)
    requires Adds(found, before, after, rules) && j < |found| && Refusal(found[j], found, rules).None?
    ensures HasKey(after, rules.fold(found[j].id), rules)
    decreases j
  {
    hide Refusal;
    if New(j, found, before, rules) {
      var places: seq<nat> :| Picks(after[|before|..], places, found)
                              && forall i :: i in places <==> 0 <= i < |found| && New(i, found, before, rules);
      assert j in places;
      var k :| 0 <= k < |places| && places[k] == j;
      assert after[|before| + k] == after[|before|..][k] == found[j];
    } else if HasKey(before, rules.fold(found[j].id), rules) {
      KeyStays(before, after, rules.fold(found[j].id), rules);
    } else {
      var i :| 0 <= i < j && Refusal(found[i], found, rules).None? && rules.fold(found[i].id) == rules.fold(found[j].id);
      AddsCover(found, before, after, i, rules);
    }
  }

  lemma KeyStays(before: seq<Claim>, after: seq<Claim>, key: string, rules: Rules)
    requires before <= after && HasKey(before, key, rules)
    ensures HasKey(after, key, rules)
  {
    var i :| 0 <= i < |before| && rules.fold(before[i].id) == key;
    assert after[i] == before[i];
  }

  lemma CoveredNow(found: seq<Claim>, before: seq<Claim>, after: seq<Claim>, rules: Rules)
    requires Adds(found, before, after, rules)
    ensures Covered(found, after, rules)
    ensures forall claims :: Covered(claims, before, rules) ==> Covered(claims, after, rules)
  {
    hide Refusal, HasKey;
    forall c | c in found && Refusal(c, found, rules).None?
      ensures HasKey(after, rules.fold(c.id), rules)
    {
      var j :| 0 <= j < |found| && found[j] == c;
      AddsCover(found, before, after, j, rules);
    }
    forall key | HasKey(before, key, rules)
      ensures HasKey(after, key, rules)
    {
      KeyStays(before, after, key, rules);
    }
  }

  /** Nothing that a search or a recovery in time has found is passed over. */
  lemma {:induction false} ClaimsMerged(log: seq<Action>, i: nat, cfg: Config, world: World, rules: Rules)
    requires Lawful(log, cfg, world, rules) && i + 1 < |log|
    ensures Covered(FoundBy(log[i], cfg, world), AcceptedBy(log), rules)
    decreases |log|
  {
    hide NextIs, Lawful, FoundBy, Adds, Covered;
    var front, a := log[..|log| - 1], Last(log);
    PrefixLawful(log, |log| - 1, cfg, world, rules);
    LawfulLast(log, cfg, world, rules);
    AcceptedNext(front, a, cfg, world, rules);
    assert log == front + [a] && front[i] == log[i];
    if a.Accepted? {
      CoveredNow(FoundBy(Last(front), cfg, world), AcceptedBy(front), a.claims, rules);
    }
    if i + 1 < |front| {
      ClaimsMerged(front, i, cfg, world, rules);
    } else if !a.Accepted? {
      NothingCovered(AcceptedBy(log), rules);
    }
  }

  lemma NothingCovered(accepted: seq<Claim>, rules: Rules)
    ensures Covered([], accepted, rules)
  {
  }
}
