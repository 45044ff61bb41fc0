/**
 One research run as a record of what it does: bounded primary searches with back-off, at most one recovery search, a
 time budget and one tier of result. Clock, searches and jitter are arbitrary; which action may follow is spelled out.
 */
module ResearchRun {
  import opened Basics
  import opened ClaimSelection

  datatype Failure =
    | Generic | Provider | Timeout | Malformed | Configuration | SourceRejected | Insufficient
    | Foreign  // an exception the controller does not classify and passes on

  datatype Search = Found(claims: seq<Claim>) | Failed(failure: Failure)

  datatype Tier = Full | Reduced | DocumentLed

  datatype Label = TooFewClaims | TooFewPublishers | NoStructuralDynamic | NoCurrentDevelopment | NothingRecent | NoResponse

  datatype Config = Config(
    maxAttempts: nat, minimumClaims: nat, minimumPublishers: nat, budget: real, backoff: seq<real>,
    recovery: bool, allowDocumentLed: bool, publisherKey: string -> string)

  /** What the environment does: the readings of the clock, the searches and the jitter. */
  datatype World = World(clock: nat -> real, search: nat -> Search, recovery: Search, jitter: (nat, real) -> real)

  /** What a run does, in order. An `elapsed` is a reading of the clock since the run began. */
  datatype Action =
    | Attempt(n: nat, elapsed: real)
    | SearchCall(n: nat)
    | Accepted(claims: seq<Claim>, rejected: map<string, Reason>)  // what is accepted and rejected now
    | Weighed(elapsed: real)                                       // whether that is enough
    | Jittered(n: nat, configured: real)
    | Retry(next: nat, missing: seq<Label>)
    | Sleep(n: nat, delay: real, remaining: real)
    | TimeUp(elapsed: real)                                        // too late for another attempt
    | LoopLeft(elapsed: real)
    | RecoveryCall(timeout: real)
    | RecoveryBack(elapsed: real)                                  // with claims
    | Checked(elapsed: real)                                       // against the budget, after a recovery
    | Recovered(accepted: nat)
    | LastCheck(elapsed: real)                                     // against the budget
    | Diagnostics(reason: string)
    | TierEvent(tier: Tier)

  datatype Result = Result(claims: seq<Claim>, rejected: map<string, Reason>, attempts: nat, tier: Tier, limited: bool)

  datatype Outcome = Finished(result: Result) | Raised(failure: Failure)

  // ---- coverage ----

  function VerifiedOf(claims: seq<Claim>): seq<Claim> {
    if claims == [] then []
    else (if claims[0].verification == Unverified then [] else [claims[0]]) + VerifiedOf(claims[1..])
  }

  function Publishers(claims: seq<Claim>, cfg: Config, rules: Rules): set<string> {
    set c | c in claims && !rules.blank(c.publisher) :: cfg.publisherKey(c.publisher)
  }

  predicate Covers(claims: seq<Claim>, kind: Kind) {
    exists i :: 0 <= i < |claims| && claims[i].kind == kind
  }

  predicate AnyRecent(claims: seq<Claim>, rules: Rules) {
    exists i :: 0 <= i < |claims| && IsRecent(claims[i], rules)
  }

  /** Full evidence: enough verified claims and publishers, both kinds, and something recent. */
  predicate Enough(claims: seq<Claim>, cfg: Config, rules: Rules) {
    var verified := VerifiedOf(claims);
    && |verified| >= cfg.minimumClaims
    && |Publishers(verified, cfg, rules)| >= cfg.minimumPublishers
    && Covers(verified, StructuralDynamic) && Covers(verified, CurrentDevelopment)
    && AnyRecent(verified, rules)
  }

  /** The verified claims: all of them, as often as they are there. */
  lemma {:induction false} VerifiedAre(claims: seq<Claim>, c: Claim)
    ensures multiset(VerifiedOf(claims))[c] == if c.verification == Unverified then 0 else multiset(claims)[c]
  {
    if claims != [] {
      VerifiedAre(claims[1..], c);
      assert claims == [claims[0]] + claims[1..];
    }
  }

  /** Some verified claim is of this kind. */
  predicate SomeVerified(claims: seq<Claim>, kind: Kind) {
    exists c :: c in claims && c.verification != Unverified && c.kind == kind
  }

  lemma VerifiedIn(claims: seq<Claim>, c: Claim)
    ensures c in VerifiedOf(claims) <==> c in claims && c.verification != Unverified
  {
    VerifiedAre(claims, c);
    assert c in VerifiedOf(claims) <==> c in multiset(VerifiedOf(claims));
    assert c in claims <==> c in multiset(claims);
  }

  /**
   What full evidence is: enough verified claims, their publishers enough by their keys, verified claims of both kinds,
   and a verified claim dated within the window.
   */
  lemma EnoughIs(claims: seq<Claim>, cfg: Config, rules: Rules)
    ensures Enough(claims, cfg, rules)
            <==> && |VerifiedOf(claims)| >= cfg.minimumClaims
                 && |set c | c in claims && c.verification != Unverified && !rules.blank(c.publisher)
                       :: cfg.publisherKey(c.publisher)| >= cfg.minimumPublishers
                 && SomeVerified(claims, StructuralDynamic) && SomeVerified(claims, CurrentDevelopment)
                 && exists c :: c in claims && c.verification != Unverified && DatedInWindow(c, rules)
  {
    var verified := VerifiedOf(claims);
    forall c
      ensures c in verified <==> c in claims && c.verification != Unverified
      ensures IsRecent(c, rules) <==> DatedInWindow(c, rules)
    {
      VerifiedIn(claims, c);
    }
    hide VerifiedOf, IsRecent, DatedInWindow;
    assert Publishers(verified, cfg, rules)
        == set c | c in claims && c.verification != Unverified && !rules.blank(c.publisher)
             :: cfg.publisherKey(c.publisher);
  }

  /** What is missing of full evidence. */
  predicate Misses(missing: seq<Label>, claims: seq<Claim>, cfg: Config, rules: Rules) {
    var verified := VerifiedOf(claims);
    && NoResponse !in missing
    && (TooFewClaims in missing <==> |verified| < cfg.minimumClaims)
    && (TooFewPublishers in missing <==> |Publishers(verified, cfg, rules)| < cfg.minimumPublishers)
    && (NoStructuralDynamic in missing <==> !Covers(verified, StructuralDynamic))
    && (NoCurrentDevelopment in missing <==> !Covers(verified, CurrentDevelopment))
    && (NothingRecent in missing <==> !AnyRecent(verified, rules))
  }

  // ---- what a record tells ----

  function Last(log: seq<Action>): Action
    requires log != []
  {
    log[|log| - 1]
  }

  function Searches(log: seq<Action>): nat {
    if log == [] then 0
    else Searches(log[..|log| - 1]) + (if Last(log).SearchCall? then 1 else 0)
  }

  function Recoveries(log: seq<Action>): nat {
    if log == [] then 0
    else Recoveries(log[..|log| - 1]) + (if Last(log).RecoveryCall? then 1 else 0)
  }

  /** The time since the start that an action has read from the clock. */
  function ReadingOf(a: Action, cfg: Config): Option<real> {
    match a
    case Attempt(_, elapsed) => Some(elapsed)
    case Weighed(elapsed) => Some(elapsed)
    case Sleep(_, _, remaining) => Some(cfg.budget - remaining)
    case TimeUp(elapsed) => Some(elapsed)
    case LoopLeft(elapsed) => Some(elapsed)
    case RecoveryBack(elapsed) => Some(elapsed)
    case Checked(elapsed) => Some(elapsed)
    case LastCheck(elapsed) => Some(elapsed)
    case _ => None
  }

  /** How often the clock has been read since the start. */
  function Readings(log: seq<Action>, cfg: Config): nat {
    if log == [] then 0
    else Readings(log[..|log| - 1], cfg) + (if ReadingOf(Last(log), cfg).Some? then 1 else 0)
  }

  function AcceptedBy(log: seq<Action>): seq<Claim> {
    if log == [] then []
    else if Last(log).Accepted? then Last(log).claims
    else AcceptedBy(log[..|log| - 1])
  }

  function RejectedBy(log: seq<Action>): map<string, Reason> {
    if log == [] then map[]
    else if Last(log).Accepted? then Last(log).rejected
    else RejectedBy(log[..|log| - 1])
  }

  /** The run counts as out of time once an action has found the budget used up. */
  predicate FindsTimeUp(a: Action, cfg: Config) {
    a.TimeUp? || (a.Checked? && a.elapsed >= cfg.budget) || (a.LastCheck? && a.elapsed >= cfg.budget)
  }

  predicate OutOfTime(log: seq<Action>, cfg: Config) {
    exists i :: 0 <= i < |log| && FindsTimeUp(log[i], cfg)
  }

  /** Failures that end a run at once: a wrong configuration, and whatever is not classified. */
  predicate Fatal(f: Failure) {
    f == Configuration || f == Foreign
  }

  /** The failure of a search. */
  function FailureOf(a: Action, world: World): Option<Failure> {
    if a.SearchCall? && world.search(a.n).Failed? then Some(world.search(a.n).failure)
    else if a.RecoveryCall? && world.recovery.Failed? then Some(world.recovery.failure)
    else None
  }

  function LastFailure(log: seq<Action>, world: World): Option<Failure> {
    if log == [] then None
    else if FailureOf(Last(log), world).Some? then FailureOf(Last(log), world)
    else LastFailure(log[..|log| - 1], world)
  }

  /** The exception of a run that has nothing to show. */
  ghost predicate FailureFits(f: Failure, log: seq<Action>, cfg: Config, world: World) {
    if OutOfTime(log, cfg) then f == Timeout
    else match LastFailure(log, world)
         case Some(last) => f == last
         case None => f == if AcceptedBy(log) == [] && RejectedBy(log) != map[] then SourceRejected else Insufficient
  }

  /** The reason given for it, or for going by the documents alone. */
  ghost predicate ReasonFits(reason: string, log: seq<Action>, cfg: Config, world: World) {
    if OutOfTime(log, cfg) then reason == "budget_exhausted"
    else match LastFailure(log, world)
         case Some(Timeout) => reason == "provider_timeout"
         case Some(Malformed) => reason == "malformed_response"
         case Some(SourceRejected) => reason == "source_rejected"
         case Some(_) => reason == "provider_failure"
         case None => reason == if RejectedBy(log) != map[] then "source_rejected" else "insufficient_coverage"
  }

  /** What one more action changes of what a record tells. */
  lemma Counted(log: seq<Action>, a: Action, cfg: Config, world: World)
    ensures Searches(log + [a]) == Searches(log) + (if a.SearchCall? then 1 else 0)
    ensures Recoveries(log + [a]) == Recoveries(log) + (if a.RecoveryCall? then 1 else 0)
    ensures Readings(log + [a], cfg) == Readings(log, cfg) + (if ReadingOf(a, cfg).Some? then 1 else 0)
    ensures AcceptedBy(log + [a]) == if a.Accepted? then a.claims else AcceptedBy(log)
    ensures RejectedBy(log + [a]) == if a.Accepted? then a.rejected else RejectedBy(log)
    ensures LastFailure(log + [a], world) == if FailureOf(a, world).Some? then FailureOf(a, world) else LastFailure(log, world)
    ensures OutOfTime(log + [a], cfg) <==> OutOfTime(log, cfg) || FindsTimeUp(a, cfg)
    ensures CameBackInTime(log + [a], cfg) <==> CameBackInTime(log, cfg) || (a.RecoveryBack? && a.elapsed < cfg.budget)
  {
    assert (log + [a])[..|log|] == log;
    hide FindsTimeUp, FailureOf, ReadingOf;
    assert (log + [a])[|log|] == a;
    assert forall i :: 0 <= i < |log| ==> (log + [a])[i] == log[i];
  }

  // ---- what may follow ----

  /** `configured` is the delay set for the wait after attempt `n`: the last one also serves all later attempts. */
  predicate IsBackoff(configured: real, n: nat, cfg: Config) {
    if 1 <= n <= |cfg.backoff| then configured == cfg.backoff[n - 1]
    else cfg.backoff != [] && configured == cfg.backoff[|cfg.backoff| - 1]
  }

  /** The wait is what the jitter makes of it, or what is left of the budget when that is less. */
  ghost predicate Waits(n: nat, delay: real, remaining: real, cfg: Config, world: World) {
    && remaining > 0.0
    && exists configured :: IsBackoff(configured, n, cfg)
                            && delay == if world.jitter(n, configured) < remaining then world.jitter(n, configured)
                                        else remaining
  }

  /** What a search found joins what was accepted and rejected before. */
  ghost predicate Joins(found: seq<Claim>, log: seq<Action>, a: Action, rules: Rules) {
    && a.Accepted?
    && Adds(found, AcceptedBy(log), a.claims, rules)
    && Reasons(found, AcceptedBy(log), RejectedBy(log), a.rejected, rules)
  }

  /** After attempt `n` without result: the next wait is set up, or the loop is left after the last attempt. */
  predicate Continues(n: nat, a: Action, cfg: Config) {
    if n < cfg.maxAttempts then a.Jittered? && a.n == n && IsBackoff(a.configured, n, cfg) else a.LoopLeft?
  }

  /** A recovery claim is merged only when it came back within the budget. */
  predicate CameBackInTime(log: seq<Action>, cfg: Config) {
    exists i :: 0 <= i < |log| && log[i].RecoveryBack? && log[i].elapsed < cfg.budget
  }

  /** The end without full evidence: what qualifies is shown if any of it is recent, else there is a reason. */
  ghost predicate Settles(log: seq<Action>, a: Action, cfg: Config, world: World, rules: Rules) {
    if AnyRecent(Qualifying(AcceptedBy(log), rules), rules) then a == TierEvent(Reduced)
    else a.Diagnostics? && ReasonFits(a.reason, log, cfg, world)
  }

  ghost predicate ChecksLast(log: seq<Action>, a: Action, cfg: Config, world: World, rules: Rules) {
    if OutOfTime(log, cfg) then Settles(log, a, cfg, world, rules) else a.LastCheck?
  }

  ghost predicate AfterRecovery(log: seq<Action>, a: Action, cfg: Config, world: World, rules: Rules) {
    if CameBackInTime(log, cfg) then a == Recovered(|AcceptedBy(log)|) else ChecksLast(log, a, cfg, world, rules)
  }

  ghost predicate ChecksFirst(log: seq<Action>, a: Action, cfg: Config, world: World, rules: Rules) {
    if OutOfTime(log, cfg) then AfterRecovery(log, a, cfg, world, rules) else a.Checked?
  }

  /** What may follow a record whose last action is `last`. */
  ghost predicate Follows(log: seq<Action>, last: Action, a: Action, cfg: Config, world: World, rules: Rules) {
    match last
    case Attempt(n, _) => a == SearchCall(n)
    case SearchCall(n) =>
      (match world.search(n)
       case Found(claims) => Joins(claims, log, a, rules)
       case Failed(f) => !Fatal(f) && Continues(n, a, cfg))
    case Accepted(_, _) => if Recoveries(log) == 0 then a.Weighed? else ChecksFirst(log, a, cfg, world, rules)
    case Weighed(_) =>
      var qualifying := Qualifying(AcceptedBy(log), rules);
      if Enough(qualifying, cfg, rules) then a == TierEvent(Full)
      else if qualifying != [] then a == TierEvent(Reduced)
      else Continues(Searches(log), a, cfg)
    case Jittered(n, configured) =>
      && world.jitter(n, configured) >= 0.0
      && (|| (a.TimeUp? && a.elapsed >= cfg.budget)
          || (a.Retry? && a.next == n + 1
              && if world.search(n).Failed? then a.missing == [NoResponse]
                 else Misses(a.missing, Qualifying(AcceptedBy(log), rules), cfg, rules)))
    case Retry(next, _) => a.Sleep? && a.n + 1 == next && Waits(a.n, a.delay, a.remaining, cfg, world)
    case Sleep(n, _, _) =>
      (a.TimeUp? && a.elapsed >= cfg.budget) || (a.Attempt? && a.n == n + 1 && a.elapsed < cfg.budget)
    case TimeUp(_) => a.LoopLeft?
    case LoopLeft(elapsed) =>
      if cfg.recovery && elapsed < cfg.budget then a == RecoveryCall(cfg.budget - elapsed)
      else ChecksLast(log, a, cfg, world, rules)
    case RecoveryCall(_) =>
      (match world.recovery
       case Found(_) => a.RecoveryBack?
       case Failed(f) => !Fatal(f) && ChecksFirst(log, a, cfg, world, rules))
    case RecoveryBack(elapsed) =>
      if elapsed < cfg.budget then world.recovery.Found? && Joins(world.recovery.claims, log, a, rules)
      else ChecksFirst(log, a, cfg, world, rules)
    case Checked(_) => AfterRecovery(log, a, cfg, world, rules)
    case Recovered(_) =>
      if Enough(Qualifying(AcceptedBy(log), rules), cfg, rules) then a == TierEvent(Full)
      else ChecksLast(log, a, cfg, world, rules)
    case LastCheck(_) => Settles(log, a, cfg, world, rules)
    case Diagnostics(_) =>
      cfg.allowDocumentLed && Qualifying(AcceptedBy(log), rules) == [] && a == TierEvent(DocumentLed)
    case TierEvent(_) => false
  }

  /** Readings come from the clock one after the other; the first action is the first attempt. */
  ghost predicate NextIs(log: seq<Action>, a: Action, cfg: Config, world: World, rules: Rules) {
    && (ReadingOf(a, cfg).Some? ==>
          ReadingOf(a, cfg).value == world.clock(Readings(log, cfg) + 1) - world.clock(0))
    && if log == [] then a.Attempt? && a.n == 1 else Follows(log, Last(log), a, cfg, world, rules)
  }

  /** Each action may follow those before it. */
  ghost predicate Lawful(log: seq<Action>, cfg: Config, world: World, rules: Rules) {
    forall i :: 0 <= i < |log| ==> NextIs(log[..i], log[i], cfg, world, rules)
  }

  /** How a run ends that has done this. */
  ghost predicate EndsWith(log: seq<Action>, outcome: Outcome, cfg: Config, world: World, rules: Rules) {
    && log != []
    && var qualifying := Qualifying(AcceptedBy(log), rules);
       match Last(log)
       case SearchCall(n) =>
         world.search(n).Failed? && Fatal(world.search(n).failure) && outcome == Raised(world.search(n).failure)
       case Jittered(n, configured) => world.jitter(n, configured) < 0.0 && outcome == Raised(Foreign)
       case RecoveryCall(_) =>
         world.recovery.Failed? && Fatal(world.recovery.failure) && outcome == Raised(world.recovery.failure)
       case Diagnostics(_) =>
         && !(cfg.allowDocumentLed && qualifying == [])
         && outcome.Raised? && FailureFits(outcome.failure, log, cfg, world)
       case TierEvent(tier) =>
         outcome == Finished(Result(qualifying, RejectedBy(log), Searches(log), tier, tier != Full))
       case _ => false
  }
}
