/**
 The review's step machine: steps in order, at most one repair after validation, and one
 terminal event. The repair itself is the runtime's, which may ask the model twice.
 */
module Orchestrator {
  import opened Basics

  datatype Issue = Issue(code: Option<string>, advisory: bool)

  /** What a step or a model repair did: raised, with the failure's safe code, or left these issues. */
  datatype Outcome = Raise(code: string) | Return(issues: seq<Issue>)

  datatype StepRun = StepRun(name: string, outcome: Outcome)

  /** The repair collaborators: whether a result exists, and what each model repair would do. */
  datatype Repairs = Repairs(hasResult: bool, first: Outcome, second: Outcome)

  datatype Event =
    | StepStart(step: string)
    | StepComplete(step: string)
    | AdvisoryNotice(count: nat, codes: seq<string>)
    | RepairStart(count: nat, codes: seq<string>)
    | RepairFailed(count: nat, codes: seq<string>)
    | RunComplete(repairs: nat)
    | RunFailed(error: string)

  const MECHANICAL_CODES :=
    {"raw_evidence_id_in_narrative", "stage_length_overreach", "prohibited_policy_language", "missing_registry_support"}

  predicate IsTerminal(e: Event) {
    e.RunComplete? || e.RunFailed?
  }

  function Fatal(issues: seq<Issue>): seq<Issue> {
    if issues == [] then []
    else (if issues[0].advisory then [] else [issues[0]]) + Fatal(issues[1..])
  }

  function Advisory(issues: seq<Issue>): seq<Issue> {
    if issues == [] then []
    else (if issues[0].advisory then [issues[0]] else []) + Advisory(issues[1..])
  }

  /** The distinct codes, in order of first appearance. */
  method CodesOf(issues: seq<Issue>) returns (codes: seq<string>)
    ensures CodesAre(codes, issues)
    ensures forall i, j :: 0 <= i < j < |codes| ==> codes[i] != codes[j]
    ensures forall c :: c in codes <==> exists i :: 0 <= i < |issues| && issues[i].code == Some(c)
  {
    codes := [];
    for k := 0 to |issues|
      invariant forall i, j :: 0 <= i < j < |codes| ==> codes[i] != codes[j]
      invariant forall c :: c in codes <==> exists i :: 0 <= i < k && issues[i].code == Some(c)
    {
      var issue := issues[k];
      if issue.code.Some? && issue.code.value !in codes {
        codes := codes + [issue.code.value];
      }
    }
  }

  predicate AllMechanical(issues: seq<Issue>) {
    issues != [] && forall i :: 0 <= i < |issues| ==> issues[i].code.Some? && issues[i].code.value in MECHANICAL_CODES
  }

  /** The first model repair leaves only mechanical trouble, which alone earns a second. */
  predicate AsksTwice(r: Repairs) {
    r.hasResult && r.first.Return? && AllMechanical(Fatal(r.first.issues))
  }

  /** The last model repair that is asked for leaves nothing fatal. */
  predicate Clears(r: Repairs) {
    && r.hasResult
    && var last := if AsksTwice(r) then r.second else r.first;
       last.Return? && Fatal(last.issues) == []
  }

  /** The runtime's `repair`: without a result the issues stay as they were. */
  method Repair(r: Repairs, current: seq<Issue>) returns (outcome: Outcome, modelRepairs: nat)
    ensures modelRepairs == if !r.hasResult then 0 else if AsksTwice(r) then 2 else 1
    ensures outcome == if !r.hasResult then Return(current) else if AsksTwice(r) then r.second else r.first
  {
    if !r.hasResult {
      return Return(current), 0;
    }
    modelRepairs := 1;
    outcome := r.first;
    if outcome.Raise? { return; }
    var remaining := Fatal(outcome.issues);
    if AllMechanical(remaining) {
      modelRepairs := 2;
      outcome := r.second;
    }
  }

  /** A validation that leaves something fatal, and so needs the one repair. */
  predicate Troubled(s: StepRun) {
    s.name == "validate" && s.outcome.Return? && Fatal(s.outcome.issues) != []
  }

  /** No step raises, at most one validation is troubled, and the repair clears that one. */
  ghost predicate Succeeds(steps: seq<StepRun>, r: Repairs) {
    && (forall i :: 0 <= i < |steps| ==> steps[i].outcome.Return?)
    && (forall i, j :: 0 <= i < j < |steps| ==> !(Troubled(steps[i]) && Troubled(steps[j])))
    && ((exists i :: 0 <= i < |steps| && Troubled(steps[i])) ==> Clears(r))
  }

  /** The run reaches a troubled validation before anything raises. */
  ghost predicate ReachesTrouble(steps: seq<StepRun>) {
    exists i :: 0 <= i < |steps| && Troubled(steps[i]) && forall j :: 0 <= j < i ==> steps[j].outcome.Return?
  }

  predicate AllAdvisory(issues: seq<Issue>) {
    forall i :: 0 <= i < |issues| ==> issues[i].advisory
  }

  lemma {:induction false} NothingFatal(issues: seq<Issue>)
    ensures Fatal(issues) == [] <==> AllAdvisory(issues)
  {
    if issues != [] {
      NothingFatal(issues[1..]);
      assert forall i :: 0 <= i < |issues| - 1 ==> issues[1..][i] == issues[i + 1];
    }
  }

  /** The two halves of a list of issues: nothing lost, nothing twice, each issue in its own half. */
  lemma {:induction false} SplitFits(issues: seq<Issue>)
    ensures multiset(Fatal(issues)) + multiset(Advisory(issues)) == multiset(issues)
    ensures (forall x :: x in Fatal(issues) ==> !x.advisory) && (forall x :: x in Advisory(issues) ==> x.advisory)
  {
    if issues != [] {
      SplitFits(issues[1..]);
      assert issues == [issues[0]] + issues[1..];
    }
  }

  /** The last model repair that was asked for. */
  function LastOutcome(r: Repairs): Outcome {
    if AsksTwice(r) then r.second else r.first
  }

  lemma {:induction false} NothingAdvised(issues: seq<Issue>)
    ensures Advisory(issues) == [] <==> forall i :: 0 <= i < |issues| ==> !issues[i].advisory
  {
    if issues != [] {
      NothingAdvised(issues[1..]);
      assert forall i :: 0 <= i < |issues| - 1 ==> issues[1..][i] == issues[i + 1];
    }
  }

  /** Something fatal is left, and all of it can be put right by rule. */
  predicate OnlyMechanical(issues: seq<Issue>) {
    && !AllAdvisory(issues)
    && forall i :: 0 <= i < |issues| && !issues[i].advisory ==>
         issues[i].code in {
           Some("raw_evidence_id_in_narrative"), Some("stage_length_overreach"),
           Some("prohibited_policy_language"), Some("missing_registry_support")}
  }

  lemma {:induction false} FatalIs(issues: seq<Issue>)
    ensures forall x :: x in Fatal(issues) <==> x in issues && !x.advisory
  {
    if issues != [] {
      FatalIs(issues[1..]);
      assert issues == [issues[0]] + issues[1..];
    }
  }

  /** When a second model repair is asked for, and when the last one clears the trouble. */
  lemma RepairIs(r: Repairs)
    ensures AsksTwice(r) <==> r.hasResult && r.first.Return? && OnlyMechanical(r.first.issues)
    ensures Clears(r)
            <==> && r.hasResult
                 && var last := if r.first.Return? && OnlyMechanical(r.first.issues) then r.second else r.first;
                    last.Return? && AllAdvisory(last.issues)
  {
    if r.first.Return? {
      NothingFatal(r.first.issues);
      MechanicalIs(r.first.issues);
    }
    if r.second.Return? {
      NothingFatal(r.second.issues);
    }
    hide Fatal, AllAdvisory, AllMechanical, OnlyMechanical;
  }

  lemma MechanicalIs(issues: seq<Issue>)
    ensures AllMechanical(Fatal(issues)) <==> OnlyMechanical(issues)
  {
    NothingFatal(issues);
    FatalIs(issues);
    var fatal := Fatal(issues);
    hide Fatal;
    if AllMechanical(fatal) {
      forall i | 0 <= i < |issues| && !issues[i].advisory
        ensures issues[i].code.Some? && issues[i].code.value in MECHANICAL_CODES
      {
        assert issues[i] in fatal;
      }
    }
    if OnlyMechanical(issues) {
      forall i | 0 <= i < |fatal|
        ensures fatal[i].code.Some? && fatal[i].code.value in MECHANICAL_CODES
      {
        assert fatal[i] in issues;
      }
    }
  }

  /** The code with which a repair that does not clear the trouble ends the run. */
  predicate RepairEndsWith(r: Repairs, code: string) {
    code == if r.hasResult && LastOutcome(r).Raise? then LastOutcome(r).code else "review_failed"
  }

  /** Exactly the text codes of these issues. */
  ghost predicate CodesAre(codes: seq<string>, issues: seq<Issue>) {
    forall c :: c in codes <==> exists x :: x in issues && x.code == Some(c)
  }

  /** A notice tells the number and the codes of the issues it is about. */
  ghost predicate NoteFits(e: Event, issues: seq<Issue>, r: Repairs) {
    match e
    case AdvisoryNotice(count, codes) => count == |Advisory(issues)| && CodesAre(codes, Advisory(issues))
    case RepairStart(count, codes) => count == |Fatal(issues)| && CodesAre(codes, Fatal(issues))
    case RepairFailed(count, codes) =>
      var left := if r.hasResult && LastOutcome(r).Return? then LastOutcome(r).issues else issues;
      count == |Fatal(left)| && CodesAre(codes, Fatal(left))
    case _ => true
  }

  ghost predicate AllFit(events: seq<Event>, issues: seq<Issue>, r: Repairs) {
    forall i :: 0 <= i < |events| ==> NoteFits(events[i], issues, r)
  }

  lemma FitJoin(a: seq<Event>, b: seq<Event>, issues: seq<Issue>, r: Repairs)
    requires AllFit(a, issues, r) && AllFit(b, issues, r)
    ensures AllFit(a + b, issues, r)
  {
    hide NoteFits;
  }

  /** No model repair can be made, or the last one leaves something fatal. */
  predicate GivesUp(r: Repairs) {
    !r.hasResult || (LastOutcome(r).Return? && !AllAdvisory(LastOutcome(r).issues))
  }

  /** What a validation tells: its advice, then the one repair of what is fatal, then that the repair was given up. */
  ghost predicate NoticesFit(notes: seq<Event>, issues: seq<Issue>, repaired: bool, r: Repairs) {
    var advised := if exists i :: 0 <= i < |issues| && issues[i].advisory then 1 else 0;
    var repairs := if !AllAdvisory(issues) && !repaired then 1 else 0;
    var givenUp := if repairs == 1 && GivesUp(r) then 1 else 0;
    && |notes| == advised + repairs + givenUp && AllFit(notes, issues, r)
    && (advised == 1 ==> notes[0].AdvisoryNotice?)
    && (repairs == 1 ==> notes[advised].RepairStart?)
    && (givenUp == 1 ==> notes[advised + 1].RepairFailed?)
  }

  /** What one step tells: that it starts, the notices of a validation, and that it ends unless it fails. */
  ghost predicate TellsStep(b: seq<Event>, step: StepRun, repaired: bool, r: Repairs, failed: bool) {
    && |b| >= (if failed then 1 else 2)
    && b[0] == StepStart(step.name) && (!failed ==> b[|b| - 1] == StepComplete(step.name))
    && var notes := b[1..if failed then |b| else |b| - 1];
       if step.name == "validate" && step.outcome.Return? then NoticesFit(notes, step.outcome.issues, repaired, r)
       else notes == []
  }

  /** The last model repair left advice at most. */
  predicate RepairedClean(r: Repairs) {
    && r.hasResult
    && var last := if AsksTwice(r) then r.second else r.first;
       last.Return? && AllAdvisory(last.issues)
  }

  /**
   No validation raised, and each left advice at most, but for one whose trouble the repair then cleared to advice
   at most.
   */
  ghost predicate LeftClean(steps: seq<StepRun>, r: Repairs, repairs: nat) {
    forall i :: 0 <= i < |steps| && steps[i].name == "validate" ==>
      && steps[i].outcome.Return?
      && (|| AllAdvisory(steps[i].outcome.issues)
          || (repairs == 1 && RepairedClean(r)
              && forall j :: 0 <= j < |steps| && j != i && steps[j].name == "validate" && steps[j].outcome.Return? ==>
                   AllAdvisory(steps[j].outcome.issues)))
  }

  ghost predicate Quiet(events: seq<Event>) {
    forall i :: 0 <= i < |events| ==> !IsTerminal(events[i])
  }

  /** One terminal event, and it is the last. */
  ghost predicate ClosedBy(events: seq<Event>) {
    events != [] && Quiet(events[..|events| - 1]) && IsTerminal(events[|events| - 1])
  }

  /** The one repair: announced, made, and given up when something fatal is left. */
  method TryRepair(issues: seq<Issue>, r: Repairs)
    returns (notes: seq<Event>, failure: Option<string>, modelRepairs: nat)
    requires !AllAdvisory(issues)
    ensures |notes| == (if GivesUp(r) then 2 else 1) && AllFit(notes, issues, r)
    ensures notes[0].RepairStart? && (GivesUp(r) ==> notes[1].RepairFailed?)
    ensures failure.None? <==> Clears(r)
    ensures failure.Some? ==> RepairEndsWith(r, failure.value)
    ensures modelRepairs <= 2 && (modelRepairs == 2 ==> AsksTwice(r))
  {
    hide CodesAre, AsksTwice, AllAdvisory, Fatal;
    NothingFatal(issues);
    var fatal := Fatal(issues);
    var codes := CodesOf(fatal);
    notes, failure := [RepairStart(|fatal|, codes)], None;
    var outcome;
    outcome, modelRepairs := Repair(r, issues);
    if outcome.Raise? {
      failure := Some(outcome.code);
      return;
    }
    NothingFatal(outcome.issues);
    var remaining := Fatal(outcome.issues);
    if remaining != [] {
      codes := CodesOf(remaining);
      notes := notes + [RepairFailed(|remaining|, codes)];
      failure := Some("review_failed");
    }
  }

  /** The body of the validation branch; `failure` is what it raises. */
  method Settle(issues: seq<Issue>, repaired: bool, r: Repairs)
    returns (notes: seq<Event>, failure: Option<string>, repairs: nat, modelRepairs: nat)
    ensures NoticesFit(notes, issues, repaired, r)
    ensures failure.None? <==> Fatal(issues) == [] || (!repaired && Clears(r))
    ensures repairs == if Fatal(issues) != [] && !repaired then 1 else 0
    ensures failure.Some? ==> if repaired then failure.value == "review_failed" else RepairEndsWith(r, failure.value)
    ensures modelRepairs <= 2 * repairs && (modelRepairs == 2 ==> AsksTwice(r))
  {
    notes, failure, repairs, modelRepairs := [], None, 0, 0;
    var advisory := Advisory(issues);
    NothingAdvised(issues);
    NothingFatal(issues);
    if advisory != [] {
      var codes := CodesOf(advisory);
      notes := notes + [AdvisoryNotice(|advisory|, codes)];
    }
    assert AllFit(notes, issues, r);
    hide AllFit, AllAdvisory, CodesAre, NoteFits, AsksTwice, Clears, RepairEndsWith, GivesUp, Fatal, Advisory;
    if Fatal(issues) == [] { return; }
    if repaired {
      failure := Some("review_failed");
      return;
    }
    var more;
    more, failure, modelRepairs := TryRepair(issues, r);
    repairs := 1;
    FitJoin(notes, more, issues, r);
    notes := notes + more;
  }

  /** One turn of the loop: the events up to where it raises, if it does. */
  method RunStep(step: StepRun, repaired: bool, r: Repairs)
    returns (events: seq<Event>, failure: Option<string>, repairs: nat, modelRepairs: nat)
    ensures TellsStep(events, step, repaired, r, failure.Some?)
    ensures failure.None? <==> step.outcome.Return? && (Troubled(step) ==> !repaired && Clears(r))
    ensures repairs == if Troubled(step) && !repaired then 1 else 0
    ensures failure.Some? ==>
      if step.outcome.Raise? then failure.value == step.outcome.code
      else if repaired then failure.value == "review_failed" else RepairEndsWith(r, failure.value)
    ensures modelRepairs <= 2 * repairs && (modelRepairs == 2 ==> AsksTwice(r))
  {
    hide NoticesFit, TellsStep, Clears, RepairEndsWith, AsksTwice, Fatal;
    var start, end := [StepStart(step.name)], [StepComplete(step.name)];
    events, failure, repairs, modelRepairs := start, None, 0, 0;
    if step.outcome.Raise? {
      failure := Some(step.outcome.code);
      assert events == start + [] + [];
      Framed(events, [], step, repaired, r, true);
      return;
    }
    NothingToNote(repaired, r);
    ghost var notes: seq<Event> := [];
    if step.name == "validate" && step.outcome.issues != [] {
      var more;
      more, failure, repairs, modelRepairs := Settle(step.outcome.issues, repaired, r);
      notes := more;
      events := events + more;
    }
    if failure.None? {
      events := events + end;
    }
    assert events == start + notes + (if failure.None? then end else []);
    Framed(events, notes, step, repaired, r, failure.Some?);
  }

  lemma NothingToNote(repaired: bool, r: Repairs)
    ensures NoticesFit([], [], repaired, r) && Fatal([]) == []
  {
  }

  lemma Framed(b: seq<Event>, notes: seq<Event>, step: StepRun, repaired: bool, r: Repairs, failed: bool)
    requires if step.name == "validate" && step.outcome.Return? then NoticesFit(notes, step.outcome.issues, repaired, r)
             else notes == []
    requires b == [StepStart(step.name)] + notes + (if failed then [] else [StepComplete(step.name)])
    ensures TellsStep(b, step, repaired, r, failed)
  {
    hide NoticesFit;
    assert b[1..if failed then |b| else |b| - 1] == notes;
  }

  lemma StepQuiet(b: seq<Event>, step: StepRun, repaired: bool, r: Repairs, failed: bool)
    requires TellsStep(b, step, repaired, r, failed)
    ensures Quiet(b)
  {
    var notes := b[1..if failed then |b| else |b| - 1];
    assert forall i :: 0 <= i < |notes| ==> b[i + 1] == notes[i];
    if step.name == "validate" && step.outcome.Return? {
      NoticesQuiet(notes, step.outcome.issues, repaired, r);
    }
    hide NoticesFit;
  }

  lemma NoticesQuiet(notes: seq<Event>, issues: seq<Issue>, repaired: bool, r: Repairs)
    requires NoticesFit(notes, issues, repaired, r)
    ensures Quiet(notes)
  {
    hide AllAdvisory, GivesUp, AllFit;
  }

  /** Before step `k` is taken: no step raised, and any trouble so far was repaired. */
  ghost predicate SoFar(steps: seq<StepRun>, r: Repairs, k: nat, repairs: nat) {
    && k <= |steps|
    && (forall i :: 0 <= i < k ==> steps[i].outcome.Return?)
    && (repairs == 0 ==> forall i :: 0 <= i < k ==> !Troubled(steps[i]))
    && (repairs != 0 ==>
          && repairs == 1 && Clears(r)
          && exists i :: 0 <= i < k && Troubled(steps[i])
                         && forall j :: 0 <= j < k && Troubled(steps[j]) ==> j == i)
  }

  function Flat(blocks: seq<seq<Event>>): seq<Event> {
    if blocks == [] then [] else Flat(blocks[..|blocks| - 1]) + blocks[|blocks| - 1]
  }

  /** The first steps' events, step by step; the last of them has failed if `failed`. */
  ghost predicate Tells(blocks: seq<seq<Event>>, steps: seq<StepRun>, r: Repairs, failed: bool) {
    && |blocks| <= |steps|
    && forall i :: 0 <= i < |blocks| ==>
         TellsStep(blocks[i], steps[i], TroubledBefore(steps, i), r, failed && i == |blocks| - 1)
  }

  predicate TroubledBefore(steps: seq<StepRun>, k: nat)
    requires k <= |steps|
  {
    exists i :: 0 <= i < k && Troubled(steps[i])
  }

  lemma RepairedBefore(steps: seq<StepRun>, r: Repairs, k: nat, repairs: nat)
    requires SoFar(steps, r, k, repairs)
    ensures TroubledBefore(steps, k) <==> repairs == 1
  {
    hide Troubled, Clears;
  }

  lemma FlatNext(blocks: seq<seq<Event>>, more: seq<Event>)
    ensures Flat(blocks + [more]) == Flat(blocks) + more
  {
    assert (blocks + [more])[..|blocks|] == blocks;
  }

  lemma NextTold(blocks: seq<seq<Event>>, steps: seq<StepRun>, r: Repairs, more: seq<Event>, failed: bool)
    requires Tells(blocks, steps, r, false) && |blocks| < |steps|
    requires TellsStep(more, steps[|blocks|], TroubledBefore(steps, |blocks|), r, failed)
    ensures Tells(blocks + [more], steps, r, failed)
  {
    hide TellsStep, TroubledBefore;
  }

  /** The run ends at its first step that raises or whose trouble is not cleared, with the code that step calls for. */
  ghost predicate FailsWith(steps: seq<StepRun>, r: Repairs, begun: nat, code: string) {
    && 0 < begun <= |steps|
    && var k := begun - 1;
       && (forall i :: 0 <= i < k ==> steps[i].outcome.Return?)
       && (forall i, j :: 0 <= i < j < k ==> !(Troubled(steps[i]) && Troubled(steps[j])))
       && ((exists i :: 0 <= i < k && Troubled(steps[i])) ==> Clears(r))
       && if steps[k].outcome.Raise? then code == steps[k].outcome.code
          else
            && Troubled(steps[k])
            && if exists i :: 0 <= i < k && Troubled(steps[i]) then code == "review_failed"
               else !Clears(r) && RepairEndsWith(r, code)
  }

  lemma FailsHere(steps: seq<StepRun>, r: Repairs, k: nat, repairs: nat, code: string)
    requires SoFar(steps, r, k, repairs) && k < |steps|
    requires steps[k].outcome.Raise? || (Troubled(steps[k]) && (repairs == 1 || !Clears(r)))
    requires if steps[k].outcome.Raise? then code == steps[k].outcome.code
             else if repairs == 1 then code == "review_failed" else RepairEndsWith(r, code)
    ensures FailsWith(steps, r, k + 1, code)
  {
    hide Troubled, Clears, RepairEndsWith;
  }

  lemma FailsAt(steps: seq<StepRun>, r: Repairs, k: nat, repairs: nat)
    requires SoFar(steps, r, k, repairs) && k < |steps|
    requires steps[k].outcome.Raise? || (Troubled(steps[k]) && (repairs == 1 || !Clears(r)))
    ensures !Succeeds(steps, r)
    ensures ReachesTrouble(steps) <==> repairs == 1 || Troubled(steps[k])
  {
    if repairs == 1 {
      var i :| 0 <= i < k && Troubled(steps[i]);
      assert Troubled(steps[i]) && forall j :: 0 <= j < i ==> steps[j].outcome.Return?;
    } else if Troubled(steps[k]) {
      assert Troubled(steps[k]) && forall j :: 0 <= j < k ==> steps[j].outcome.Return?;
    }
  }

  lemma Advances(steps: seq<StepRun>, r: Repairs, k: nat, repairs: nat, asked: nat)
    requires SoFar(steps, r, k, repairs) && k < |steps| && steps[k].outcome.Return?
    requires if Troubled(steps[k]) then asked == 1 && repairs != 1 && Clears(r) else asked == 0
    ensures SoFar(steps, r, k + 1, repairs + asked)
  {
    hide Troubled, Clears;
    if asked == 1 {
      assert forall j :: 0 <= j < k + 1 && Troubled(steps[j]) ==> j == k;
    }
  }

  lemma Finishes(steps: seq<StepRun>, r: Repairs, repairs: nat)
    requires SoFar(steps, r, |steps|, repairs)
    ensures Succeeds(steps, r) && (ReachesTrouble(steps) <==> repairs == 1)
  {
  }

  /** Success means that nothing but advice was left where validation had its say. */
  lemma CompletedIsClean(steps: seq<StepRun>, r: Repairs)
    requires Succeeds(steps, r)
    ensures LeftClean(steps, r, if ReachesTrouble(steps) then 1 else 0)
  {
    var last := if AsksTwice(r) then r.second else r.first;
    if last.Return? {
      NothingFatal(last.issues);
    }
    forall i | 0 <= i < |steps|
      ensures Fatal(steps[i].outcome.issues) == [] <==> AllAdvisory(steps[i].outcome.issues)
      ensures Troubled(steps[i]) ==> ReachesTrouble(steps)
    {
      NothingFatal(steps[i].outcome.issues);
    }
    hide Fatal, AllAdvisory, AsksTwice;
  }

  /**
   `ReviewOrchestrator.run` with a non-raising emitter. `completed` is false when it raises.
   */
  method Run(steps: seq<StepRun>, r: Repairs)
    returns (events: seq<Event>, completed: bool, repairs: nat, modelRepairs: nat, ghost blocks: seq<seq<Event>>)
    ensures ClosedBy(events) && events[..|events| - 1] == Flat(blocks) && Tells(blocks, steps, r, !completed)
    ensures completed <==> Succeeds(steps, r)
    ensures completed ==> |blocks| == |steps| && events[|events| - 1] == RunComplete(repairs)
    ensures !completed ==>
      events[|events| - 1].RunFailed? && FailsWith(steps, r, |blocks|, events[|events| - 1].error)
    ensures completed ==> LeftClean(steps, r, repairs)
    ensures repairs == if ReachesTrouble(steps) then 1 else 0
    ensures modelRepairs <= 2 * repairs && (modelRepairs == 2 ==> AsksTwice(r))
  {
    events, completed, repairs, modelRepairs, blocks := [], false, 0, 0, [];
    assert SoFar(steps, r, 0, 0) && Tells([], steps, r, false) && Quiet(events) && Flat([]) == [];
    hide SoFar, Succeeds, ReachesTrouble, Troubled, Clears, AsksTwice, Quiet, ClosedBy, IsTerminal;
    hide LeftClean, FailsWith, RepairEndsWith, Flat, Tells, TellsStep, TroubledBefore;
    for k := 0 to |steps|
      invariant Quiet(events) && SoFar(steps, r, k, repairs) && repairs <= 1
      invariant events == Flat(blocks) && |blocks| == k && Tells(blocks, steps, r, false)
      invariant modelRepairs <= 2 * repairs && (modelRepairs == 2 ==> AsksTwice(r))
    {
      var more, failure, asked, made := RunStep(steps[k], repairs == 1, r);
      StepQuiet(more, steps[k], repairs == 1, r, failure.Some?);
      QuietJoin(events, more);
      RepairedBefore(steps, r, k, repairs);
      NextTold(blocks, steps, r, more, failure.Some?);
      FlatNext(blocks, more);
      events, blocks := events + more, blocks + [more];
      if failure.Some? {
        FailsAt(steps, r, k, repairs);
        FailsHere(steps, r, k, repairs, failure.value);
        Closing(events, RunFailed(failure.value));
        events := events + [RunFailed(failure.value)];
        repairs, modelRepairs := repairs + asked, modelRepairs + made;
        return;
      }
      Advances(steps, r, k, repairs, asked);
      repairs, modelRepairs := repairs + asked, modelRepairs + made;
    }
    Finishes(steps, r, repairs);
    CompletedIsClean(steps, r);
    Closing(events, RunComplete(repairs));
    events := events + [RunComplete(repairs)];
    completed := true;
  }

  lemma Closing(events: seq<Event>, last: Event)
    requires Quiet(events) && IsTerminal(last)
    ensures ClosedBy(events + [last]) && (events + [last])[|events|] == last && (events + [last])[..|events|] == events
  {
    assert (events + [last])[..|events|] == events;
  }

  lemma QuietJoin(a: seq<Event>, b: seq<Event>)
    requires Quiet(a) && Quiet(b)
    ensures Quiet(a + b)
  {
  }
}
