/**
 The whole repair of a review: an arbitrary draft from the model, merged with the review under every
 combination of issues, and what any number of such repairs must keep.
 */
module Repair {
  import opened Basics
  import opened Assessments
  import opened ReviewValidator
  import opened RepairMerge
  import opened RepairStrategy
  import opened RepairText
  import opened RepairSurvival
  import opened RepairPriorities

  /** A review: whether it runs in limited mode, and its content. */
  datatype Review = Review(limitedFraming: bool, content: Draft)

  /** Checks on text, as arbitrary functions. */
  datatype Checks = Checks(
    forbidden: string -> bool, dateConflict: string -> bool, overclaim: string -> bool,
    scrub: string -> string, tooLong: string -> bool)

  /** One call: the issue codes, the evidence and registry entries the caller knows, and the checks. */
  datatype Request = Request(
    codes: set<Code>, evidence: Option<set<string>>, registry: Option<set<string>>, checks: Checks)

  function Available(q: Request): set<string> {
    if q.evidence.Some? then q.evidence.value else {}
  }

  function FlagsOf(codes: set<Code>): Flags {
    var coverage := IncompleteCoverageAbsenceClaim in codes;
    Flags(coverage,
          coverage && MissingRraDriverAssessment in codes,
          coverage && IncompleteStrategyAssessment in codes)
  }

  predicate LimitedRepair(review: Review, codes: set<Code>) {
    LimitedModeOverclaim in codes && review.limitedFraming
  }

  /** The checks that count for these issues; overclaim only in a limited repair. */
  function GuardFor(limited: bool, q: Request): Guard {
    Guard(q.checks.forbidden,
          t => DiagnosticDateConflict in q.codes && q.checks.dateConflict(t),
          t => limited && q.checks.overclaim(t),
          q.checks.scrub)
  }

  function GuardOf(review: Review, q: Request): Guard {
    GuardFor(LimitedRepair(review, q.codes), q)
  }

  function Cited(d: Draft): set<string> {
    (set r, e | r in d.rra && e in r.rating.evidenceIds :: e)
    + (set r, e | r in d.strategy && e in r.rating.evidenceIds :: e)
  }

  /** Evidence rows may cite: what the caller names, or else whatever either side cites. */
  function Allowed(original: Draft, draft: Draft, q: Request): set<string> {
    if q.evidence.Some? then q.evidence.value else Cited(original) + Cited(draft)
  }

  // ---- the stages ----

  function Prepared(review: Review, draft: Draft, q: Request): Draft {
    PreserveCoverage(review.content, Mechanical(review.content, draft, q.codes, Available(q), q.checks.tooLong),
                     q.codes, Available(q))
  }

  function WithRows(review: Review, d: Draft, q: Request): Draft {
    var allowed := Allowed(review.content, d, q);
    d.(rra := Merged(review.content.rra, d.rra, allowed, FlagsOf(q.codes)),
       strategy := Normalized(SHIFTS, review.content.strategy, d.strategy, allowed, FlagsOf(q.codes)))
  }

  function WithoutNewRows(review: Review, d: Draft, q: Request): Draft {
    if LimitedRepair(review, q.codes) && !FlagsOf(q.codes).newRra then
      d.(rra := Known(d.rra, RowIds(review.content.rra)))
    else d
  }

  predicate Rewords(codes: set<Code>) {
    ProhibitedPolicyLanguage in codes || DiagnosticDateConflict in codes || LimitedModeOverclaim in codes
  }

  function WithCleanText(review: Review, d: Draft, prepared: Draft, q: Request): Draft {
    if Rewords(q.codes) then
      d.(rra := RewordRra(d.rra, prepared.rra, GuardOf(review, q), LimitedRepair(review, q.codes)),
         strategy := RewordStrategy(d.strategy, prepared.strategy, GuardOf(review, q), LimitedRepair(review, q.codes)))
    else d
  }

  function ScrubSummaries(summaries: seq<Summary>, scrub: string -> string): (r: seq<Summary>)
    ensures |r| == |summaries|
  {
    seq(|summaries|, i requires 0 <= i < |summaries| => summaries[i].(title := scrub(summaries[i].title)))
  }

  function ScrubAreas(areas: seq<Priority>, scrub: string -> string): (r: seq<Priority>)
    ensures |r| == |areas|
  {
    seq(|areas|, i requires 0 <= i < |areas| =>
      areas[i].(
        heading := scrub(areas[i].heading), assessment := scrub(areas[i].assessment), why := scrub(areas[i].why),
        action := scrub(areas[i].action),
        comment := if areas[i].comment.Some? then Some(scrub(areas[i].comment.value)) else None))
  }

  function ScrubTexts(texts: seq<string>, scrub: string -> string): seq<string> {
    seq(|texts|, i requires 0 <= i < |texts| => scrub(texts[i]))
  }

  function Scrubbed(review: Review, d: Draft, q: Request): Draft {
    if RawEvidenceIdInNarrative !in q.codes then d
    else
      var g := GuardOf(review, q);
      d.(overall := g.scrub(d.overall), alignment := g.scrub(d.alignment), strategyReadout := g.scrub(d.strategyReadout),
         summaries := ScrubSummaries(d.summaries, g.scrub), priorities := ScrubAreas(d.priorities, g.scrub),
         rra := ScrubRra(d.rra, g), strategy := ScrubStrategy(d.strategy, g),
         limitations := ScrubTexts(d.limitations, g.scrub), note := g.scrub(d.note))
  }

  function Listed(ids: seq<string>, known: set<string>): seq<string> {
    if ids == [] then [] else (if ids[0] in known then [ids[0]] else []) + Listed(ids[1..], known)
  }

  function WithReferrals(review: Review, d: Draft, q: Request): Draft {
    if UnknownInstitutionalReferral in q.codes && q.registry.Some? then
      d.(referrals := Listed(review.content.referrals, q.registry.value))
    else d
  }

  /** The rows before their text is touched. */
  function Selected(review: Review, draft: Draft, q: Request): Draft {
    WithoutNewRows(review, WithRows(review, Prepared(review, draft, q), q), q)
  }

  function Repaired(review: Review, draft: Draft, q: Request): Review {
    var cleaned := WithCleanText(review, Selected(review, draft, q), Prepared(review, draft, q), q);
    review.(content := WithReferrals(review, Scrubbed(review, cleaned, q), q))
  }

  method RepairReview(review: Review, draft: Draft, q: Request) returns (r: Review)
    ensures r == Repaired(review, draft, q)
  {
    var d := RestrictToMechanical(review.content, draft, q.codes, Available(q), q.checks.tooLong);
    d := PreservePriorityCoverage(review.content, d, q.codes, Available(q));
    var flags := FlagsOf(q.codes);
    var prepared := d;
    hide Mechanical, PreserveCoverage, Merged, Normalized, Known, RowIds, FlagsOf, GuardOf, LimitedRepair;
    hide RewordRra, RewordStrategy, ScrubRra, ScrubStrategy, ScrubSummaries, ScrubAreas, ScrubTexts, Listed, Allowed;
    var allowed := Allowed(review.content, d, q);
    var rra := MergeRra(review.content.rra, d.rra, allowed, flags);
    var strategy := NormalizeStrategy(review.content.strategy, d.strategy, allowed, flags);
    d := d.(rra := rra, strategy := strategy);
    var limited := LimitedRepair(review, q.codes);
    if limited && !flags.newRra {
      d := d.(rra := Known(d.rra, RowIds(review.content.rra)));
    }
    var g := GuardOf(review, q);
    if Rewords(q.codes) {
      d := d.(rra := RewordRra(d.rra, prepared.rra, g, limited),
              strategy := RewordStrategy(d.strategy, prepared.strategy, g, limited));
    }
    d := Scrubbed(review, d, q);
    d := WithReferrals(review, d, q);
    r := review.(content := d);
  }

  // ---- one repair ----

  lemma PreparedRows(review: Review, draft: Draft, q: Request)
    requires RowsOk(review.content) && RowsOk(draft)
    ensures RowsOk(Prepared(review, draft, q))
  {
    hide PreservedAll, AdjustedAll;
  }

  /** Draft rows and review rows are already valid when the repair begins. */
  ghost predicate Valid(review: Review, draft: Draft, q: Request) {
    RowsOk(review.content) && RowsOk(draft) && Sane(GuardOf(review, q))
  }

  function AllowedFor(review: Review, draft: Draft, q: Request): set<string> {
    Allowed(review.content, Prepared(review, draft, q), q)
  }

  lemma SelectedRra(review: Review, draft: Draft, q: Request)
    requires Valid(review, draft, q)
    ensures var rows, allowed := Selected(review, draft, q).rra, AllowedFor(review, draft, q);
            && AllRraOk(rows) && AllRraSafe(rows, allowed)
            && Embeds(Closeness(FlagsOf(q.codes).coverage, []), Supported(review.content.rra, allowed), rows)
  {
    var prepared, allowed := Prepared(review, draft, q), AllowedFor(review, draft, q);
    PreparedRows(review, draft, q);
    hide Prepared, Allowed, RraOk, EvidenceSafe, Embeds, Supported, Merged, Normalized;
    var originals := review.content.rra;
    var merged := Merged(originals, prepared.rra, allowed, FlagsOf(q.codes));
    MergedFits(originals, prepared.rra, allowed, FlagsOf(q.codes));
    MergedEmbeds(originals, prepared.rra, allowed, FlagsOf(q.codes));
    SupportedSubset(originals, allowed);
    var ids, kept := RowIds(originals), Supported(originals, allowed);
    forall i | 0 <= i < |kept|
      ensures kept[i].id in ids
    {
      assert kept[i] in kept;
    }
    EmbedsKnown(Closeness(FlagsOf(q.codes).coverage, []), Supported(originals, allowed), merged, RowIds(originals));
    KnownSubset(merged, ids);
    var known := Known(merged, ids);
    forall i | 0 <= i < |known|
      ensures RraOk(known[i]) && EvidenceSafe(known[i].rating, allowed)
    {
      assert known[i] in known;
    }
  }

  /** Cleaning and scrubbing rows changes nothing but text, and text only as guarded. */
  lemma TextStageRra(review: Review, d: Draft, prepared: Draft, q: Request)
    requires AllRraOk(d.rra) && AllRraOk(prepared.rra) && Sane(GuardOf(review, q))
    ensures var g, final := GuardOf(review, q), Scrubbed(review, WithCleanText(review, d, prepared, q), q);
            |final.rra| == |d.rra|
            && forall i :: 0 <= i < |d.rra| ==>
                 && final.rra[i].id == d.rra[i].id && final.rra[i].rating == d.rra[i].rating
                 && RraOk(final.rra[i]) && RraTextKept(g, d.rra[i].text, final.rra[i].text)
  {
    var g, limited := GuardOf(review, q), LimitedRepair(review, q.codes);
    var final := Scrubbed(review, WithCleanText(review, d, prepared, q), q);
    forall i | 0 <= i < |d.rra|
      ensures final.rra[i].id == d.rra[i].id && final.rra[i].rating == d.rra[i].rating
      ensures RraOk(final.rra[i]) && RraTextKept(g, d.rra[i].text, final.rra[i].text)
    {
      RewordedRraFits(d.rra[i], d.rra, prepared.rra, g, limited);
      RewordedRraFits(d.rra[i], d.rra, [], g, limited);
      assert RewordedRra(d.rra[i], d.rra, [], g, limited) == d.rra[i];
      hide GuardOf, RewordedRra, RraOk, RraTextKept, LimitedRepair, ScrubRraText;
    }
  }

  lemma TextStageStrategy(review: Review, d: Draft, prepared: Draft, q: Request)
    requires AllStrategyOk(d.strategy) && AllStrategyOk(prepared.strategy) && Sane(GuardOf(review, q))
    ensures var g, final := GuardOf(review, q), Scrubbed(review, WithCleanText(review, d, prepared, q), q);
            |final.strategy| == |d.strategy|
            && forall i :: 0 <= i < |d.strategy| ==>
                 && final.strategy[i].id == d.strategy[i].id && final.strategy[i].shift == d.strategy[i].shift
                 && final.strategy[i].rating == d.strategy[i].rating
                 && StrategyOk(final.strategy[i]) && TextKept(g, d.strategy[i].text, final.strategy[i].text)
  {
    var g, limited := GuardOf(review, q), LimitedRepair(review, q.codes);
    var final := Scrubbed(review, WithCleanText(review, d, prepared, q), q);
    forall i | 0 <= i < |d.strategy|
      ensures final.strategy[i].id == d.strategy[i].id && final.strategy[i].shift == d.strategy[i].shift
      ensures final.strategy[i].rating == d.strategy[i].rating
      ensures StrategyOk(final.strategy[i]) && TextKept(g, d.strategy[i].text, final.strategy[i].text)
    {
      RewordedStrategyFits(d.strategy[i], d.strategy, prepared.strategy, g, limited);
      RewordedStrategyFits(d.strategy[i], d.strategy, [], g, limited);
      assert RewordedStrategy(d.strategy[i], d.strategy, [], g, limited) == d.strategy[i];
      hide GuardOf, RewordedStrategy, StrategyOk, TextKept, LimitedRepair;
    }
  }

  /** What one repair may have done to a row. */
  function Passed(review: Review, q: Request): Closeness {
    Closeness(FlagsOf(q.codes).coverage, [GuardOf(review, q)])
  }

  /**
   Driver assessments after a repair: valid, citing only allowed evidence, and holding in order every
   original whose evidence is allowed, unchanged but for guarded text or, in a coverage repair, a downgraded
   absence claim.
   */
  lemma RepairedRra(review: Review, draft: Draft, q: Request)
    requires Valid(review, draft, q)
    ensures var rows, allowed := Repaired(review, draft, q).content.rra, AllowedFor(review, draft, q);
            && AllRraOk(rows) && AllRraSafe(rows, allowed)
            && Embeds(Passed(review, q), Supported(review.content.rra, allowed), rows)
  {
    var d, prepared := Selected(review, draft, q), Prepared(review, draft, q);
    var allowed := AllowedFor(review, draft, q);
    SelectedRra(review, draft, q);
    PreparedRows(review, draft, q);
    TextStageRra(review, d, prepared, q);
    var rows := Scrubbed(review, WithCleanText(review, d, prepared, q), q).rra;
    EmbedsReworded(FlagsOf(q.codes).coverage, GuardOf(review, q), Supported(review.content.rra, allowed), d.rra, rows);
    hide Selected, Prepared, AllowedFor, WithCleanText, Scrubbed, Embeds, RraOk, EvidenceSafe, RraTextKept;
    assert Repaired(review, draft, q).content.rra == rows;
    forall i | 0 <= i < |rows|
      ensures EvidenceSafe(rows[i].rating, allowed)
    {
      assert rows[i].rating == d.rra[i].rating && EvidenceSafe(d.rra[i].rating, allowed);
    }
  }

  /** Which row a repair chooses for a shift. */
  function ChosenRow(review: Review, draft: Draft, q: Request, shift: Shift): StrategyRow {
    StrategyFor(shift, review.content.strategy, Prepared(review, draft, q).strategy,
                AllowedFor(review, draft, q), FlagsOf(q.codes))
  }

  lemma SelectedStrategy(review: Review, draft: Draft, q: Request)
    requires Valid(review, draft, q)
    ensures var rows := Selected(review, draft, q).strategy;
            && OnePerShift(rows) && AllStrategyOk(rows)
            && forall i :: 0 <= i < |rows| ==> rows[i] == ChosenRow(review, draft, q, SHIFTS[i])
  {
    var rows := Selected(review, draft, q).strategy;
    PreparedRows(review, draft, q);
    forall i | 0 <= i < |SHIFTS|
      ensures rows[i] == ChosenRow(review, draft, q, SHIFTS[i])
      ensures rows[i].shift == SHIFTS[i] && StrategyOk(rows[i])
    {
      hide Prepared, Allowed, StrategyOk;
      StrategyRowFits(SHIFTS[i], review.content.strategy, Prepared(review, draft, q).strategy,
                      AllowedFor(review, draft, q), FlagsOf(q.codes));
    }
    hide Selected, ChosenRow, StrategyOk;
  }

  /** Strategy assessments after a repair: one valid row for each shift, in order, reworded only as guarded. */
  lemma RepairedStrategy(review: Review, draft: Draft, q: Request)
    requires Valid(review, draft, q)
    ensures var rows := Repaired(review, draft, q).content.strategy;
            && OnePerShift(rows) && AllStrategyOk(rows)
            && forall i :: 0 <= i < |rows| ==>
                 var chosen := ChosenRow(review, draft, q, SHIFTS[i]);
                 rows[i].id == chosen.id && rows[i].shift == chosen.shift && rows[i].rating == chosen.rating
                 && TextKept(GuardOf(review, q), chosen.text, rows[i].text)
  {
    PreparedRows(review, draft, q);
    SelectedStrategy(review, draft, q);
    TextStageStrategy(review, Selected(review, draft, q), Prepared(review, draft, q), q);
    hide Selected, Prepared, ChosenRow, WithCleanText, Scrubbed, StrategyOk, TextKept, GuardOf;
  }

  predicate Confusable(shift: Shift, d: Draft, evidence: set<string>) {
    Ambiguous(shift, d.strategy, evidence) && RegistryId(shift) in evidence
  }

  /** The chosen rows are safe but for ambiguous shifts. */
  lemma RepairedStrategySafe(review: Review, draft: Draft, q: Request)
    requires Valid(review, draft, q)
    ensures var rows, allowed := Repaired(review, draft, q).content.strategy, AllowedFor(review, draft, q);
            && |rows| == |SHIFTS|
            && forall i :: 0 <= i < |rows| ==>
                 Confusable(SHIFTS[i], review.content, allowed) || StrategySafe(rows[i], allowed)
  {
    var rows, allowed := Repaired(review, draft, q).content.strategy, AllowedFor(review, draft, q);
    RepairedStrategy(review, draft, q);
    hide Repaired, AllowedFor, Prepared, Ambiguous;
    forall i | 0 <= i < |rows|
      ensures Confusable(SHIFTS[i], review.content, allowed) || StrategySafe(rows[i], allowed)
    {
      if !Confusable(SHIFTS[i], review.content, allowed) {
        UnambiguousIsSafe(SHIFTS[i], review.content.strategy, Prepared(review, draft, q).strategy, allowed,
                          FlagsOf(q.codes));
        var chosen := ChosenRow(review, draft, q, SHIFTS[i]);
        assert rows[i].rating == chosen.rating && rows[i].shift == chosen.shift;
        assert StrategySafe(chosen, allowed);
      }
    }
  }

  /** No shift with an available registry entry mixes an unsafe first row with a safe later one. */
  ghost predicate Unambiguous(d: Draft, evidence: set<string>) {
    forall shift: Shift :: !Confusable(shift, d, evidence)
  }

  /** The two faults a repair removes for good. */
  ghost predicate AssessmentsSound(d: Draft, evidence: set<string>) {
    && RowsOk(d) && AllRraSafe(d.rra, evidence) && OnePerShift(d.strategy)
    && forall i :: 0 <= i < |d.strategy| ==> StrategySafe(d.strategy[i], evidence)
  }

  lemma RepairIsSound(review: Review, draft: Draft, q: Request)
    requires Valid(review, draft, q) && Unambiguous(review.content, AllowedFor(review, draft, q))
    ensures AssessmentsSound(Repaired(review, draft, q).content, AllowedFor(review, draft, q))
  {
    RepairedRra(review, draft, q);
    RepairedStrategy(review, draft, q);
    RepairedStrategySafe(review, draft, q);
    hide Repaired, AllowedFor, Confusable, RraOk, StrategyOk, StrategySafe, EvidenceSafe, Embeds;
  }

  lemma PreparedKeepsStrategy(review: Review, draft: Draft, q: Request)
    requires q.codes == {IncompleteCoverageAbsenceClaim}
    ensures Prepared(review, draft, q).strategy == draft.strategy
  {
    assert !(q.codes <= MECHANICAL);
    hide PreservedAll, RetitledAll;
  }

  /** A review with a confusable shift, and a draft that turns it into an unsupported row. */
  lemma ConfusableCanFail(review: Review, q: Request, shift: Shift)
    requires RowsOk(review.content) && Sane(GuardOf(review, q)) && q.evidence.Some?
    requires q.codes == {IncompleteCoverageAbsenceClaim} && Confusable(shift, review.content, q.evidence.value)
    ensures var raw := FirstOf(review.content.strategy, shift);
            && raw.Some?
            && var draft := review.content.(strategy := [Adversary(raw.value)]);
               Valid(review, draft, q) && !AssessmentsSound(Repaired(review, draft, q).content, q.evidence.value)
  {
    var raw := FirstOf(review.content.strategy, shift).value;
    var draft := review.content.(strategy := [Adversary(raw)]);
    AmbiguousCanFail(shift, review.content.strategy, q.evidence.value, FlagsOf(q.codes));
    RepairedStrategy(review, draft, q);
    var rows := Repaired(review, draft, q).content.strategy;
    var i := if shift.AnticipateBetter? then 0 else if shift.DifferentiatedApproach? then 1
             else if shift.OneWbgJobs? then 2 else 3;
    assert SHIFTS[i] == shift;
    PreparedKeepsStrategy(review, draft, q);
    hide StrategyFor, Repaired, StrategySafe, Prepared, RowsOk;
    assert rows[i].rating == ChosenRow(review, draft, q, shift).rating && rows[i].shift == shift;
  }

  /**
   With given evidence, every repair of the review, whatever the draft and the issues, leaves sound
   assessments exactly when no shift is confusable.
   */
  lemma RepairIsSoundIff(review: Review, evidence: set<string>)
    requires RowsOk(review.content)
    ensures (forall draft: Draft, q: Request :: Valid(review, draft, q) && q.evidence == Some(evidence) ==>
               AssessmentsSound(Repaired(review, draft, q).content, evidence))
            <==> Unambiguous(review.content, evidence)
  {
    hide Repaired, AssessmentsSound, Confusable, RowsOk;
    if shift: Shift :| Confusable(shift, review.content, evidence) {
      var q := Request({IncompleteCoverageAbsenceClaim}, Some(evidence), None,
                       Checks(_ => false, _ => false, _ => false, s => s, _ => false));
      ConfusableCanFail(review, q, shift);
    } else {
      forall draft: Draft, q: Request | Valid(review, draft, q) && q.evidence == Some(evidence)
        ensures AssessmentsSound(Repaired(review, draft, q).content, evidence)
      {
        RepairIsSound(review, draft, q);
      }
    }
  }

  lemma OneEach(rows: seq<StrategyRow>)
    requires OnePerShift(rows)
    ensures forall shift: Shift :: Once(rows, shift)
  {
    forall shift: Shift
      ensures Once(rows, shift)
    {
      var k := IndexOf(shift);
      assert rows[k].shift == shift && forall i :: 0 <= i < |rows| ==> rows[i].shift == SHIFTS[i];
    }
  }

  /** Sound assessments raise neither issue in the validator. */
  lemma SoundPassesValidation(d: Draft, evidence: set<string>)
    requires AssessmentsSound(d, evidence)
    ensures StrategyComplete(d, evidence) && AssessmentsKnown(d, evidence)
  {
    OneEach(d.strategy);
    hide Once;
  }

  // ---- what one repair conserves ----

  /** The only row of its shift, and supported. */
  ghost predicate SoleSupported(rows: seq<StrategyRow>, k: nat, evidence: set<string>) {
    && k < |rows| && StrategySafe(rows[k], evidence)
    && forall i :: 0 <= i < |rows| && i != k ==> rows[i].shift != rows[k].shift
  }

  function IndexOf(shift: Shift): (i: nat)
    ensures i < |SHIFTS| && SHIFTS[i] == shift
  {
    match shift
    case AnticipateBetter => 0
    case DifferentiatedApproach => 1
    case OneWbgJobs => 2
    case ToolkitPartnershipsStaffing => 3
  }

  /**
   The only row of a shift, when supported, keeps identity, rating and all but guarded text, or is downgraded from
   an absence claim by a coverage repair. It stays the only row of its shift, in the shift's place, and supported.
   */
  lemma RepairKeepsStrategyRow(review: Review, draft: Draft, q: Request, k: nat)
    requires Valid(review, draft, q) && SoleSupported(review.content.strategy, k, AllowedFor(review, draft, q))
    ensures var original, rows := review.content.strategy[k], Repaired(review, draft, q).content.strategy;
            && SoleSupported(rows, IndexOf(original.shift), AllowedFor(review, draft, q))
            && StrategyRelated(Passed(review, q), original, rows[IndexOf(original.shift)])
  {
    hide Repaired, Valid, ChosenRow, AllowedFor, GuardOf, FlagsOf, Passed, StrategySafe, StrategyOk, StrategyRelated,
         TextKept, Ambiguous;
    var original, i := review.content.strategy[k], IndexOf(review.content.strategy[k].shift);
    var allowed, rows := AllowedFor(review, draft, q), Repaired(review, draft, q).content.strategy;
    RepairedStrategy(review, draft, q);
    RepairedStrategySafe(review, draft, q);
    SingleIsUnambiguous(original.shift, review.content.strategy, allowed);
    assert !Confusable(SHIFTS[i], review.content, allowed);
    ChosenIsKept(review, draft, q, k);
    RewordedIsRelated(Passed(review, q), GuardOf(review, q), original, ChosenRow(review, draft, q, SHIFTS[i]), rows[i]);
  }

  lemma ChosenIsKept(review: Review, draft: Draft, q: Request, k: nat)
    requires SoleSupported(review.content.strategy, k, AllowedFor(review, draft, q))
    ensures var original := review.content.strategy[k];
            var chosen := ChosenRow(review, draft, q, original.shift);
            && chosen.id == original.id && chosen.shift == original.shift
            && (|| (chosen.rating == original.rating && chosen.text == original.text)
                || (FlagsOf(q.codes).coverage && Downgraded(original.rating, chosen.rating)))
    ensures Passed(review, q) == Closeness(FlagsOf(q.codes).coverage, [GuardOf(review, q)])
  {
    SafeRowIsKept(review.content.strategy, k, Prepared(review, draft, q).strategy, AllowedFor(review, draft, q),
                  FlagsOf(q.codes));
    hide Prepared, AllowedFor, FlagsOf, GuardOf, StrategyFor;
  }

  lemma RewordedIsRelated(c: Closeness, g: Guard, original: StrategyRow, chosen: StrategyRow, result: StrategyRow)
    requires c.guards == [g] && chosen.id == original.id && chosen.shift == original.shift
    requires (chosen.rating == original.rating && chosen.text == original.text)
             || (c.coverage && Downgraded(original.rating, chosen.rating))
    requires result.id == chosen.id && result.shift == chosen.shift && result.rating == chosen.rating
             && TextKept(g, chosen.text, result.text)
    ensures StrategyRelated(c, original, result)
  {
    OneGuard(g, chosen.text, result.text);
    hide TextKept, TextChain;
  }

  lemma PreparedAreas(review: Review, draft: Draft, q: Request)
    ensures review.content.priorities != [] ==>
              AreasKept(review.content.priorities, Prepared(review, draft, q).priorities, Available(q))
    ensures review.content.priorities != [] && Linked(review.content) && UnknownPriorityArea !in q.codes ==>
              Linked(Prepared(review, draft, q))
  {
    var d := Mechanical(review.content, draft, q.codes, Available(q), q.checks.tooLong);
    if review.content.priorities != [] {
      CoverageIsPreserved(review.content, d, q.codes, Available(q));
      if Linked(review.content) && UnknownPriorityArea !in q.codes {
        LinkageIsPreserved(review.content, d, q.codes, Available(q));
      }
    }
    hide Mechanical, PreserveCoverage, AreasKept, Linked;
  }

  /** Later stages touch priorities and summary only by scrubbing narrative. */
  lemma FinalAreas(review: Review, draft: Draft, q: Request)
    ensures var d, r := Prepared(review, draft, q), Repaired(review, draft, q).content;
            && |r.priorities| == |d.priorities| && |r.summaries| == |d.summaries|
            && (forall i :: 0 <= i < |d.summaries| ==> r.summaries[i].areaId == d.summaries[i].areaId)
            && forall i :: 0 <= i < |d.priorities| ==>
                 && r.priorities[i].id == d.priorities[i].id && r.priorities[i].locator == d.priorities[i].locator
                 && r.priorities[i].gapLocus == d.priorities[i].gapLocus
                 && r.priorities[i].sensitivity == d.priorities[i].sensitivity
                 && r.priorities[i].evidenceIds == d.priorities[i].evidenceIds
  {
    hide Prepared, Merged, Normalized, Known, RewordRra, RewordStrategy, ScrubRra, ScrubStrategy;
  }

  /**
   Priorities of a repaired review: the same areas in the same order, with the same place, gap and
   sensitivity, and citations that were all available gain registry entries at most. A sound link
   between summary and priorities stays sound unless it was itself in question.
   */
  lemma RepairKeepsPriorities(review: Review, draft: Draft, q: Request)
    requires review.content.priorities != []
    ensures AreasKept(review.content.priorities, Repaired(review, draft, q).content.priorities, Available(q))
    ensures Linked(review.content) && UnknownPriorityArea !in q.codes ==> Linked(Repaired(review, draft, q).content)
  {
    var areas, d, r := review.content.priorities, Prepared(review, draft, q), Repaired(review, draft, q).content;
    PreparedAreas(review, draft, q);
    FinalAreas(review, draft, q);
    hide Prepared, Repaired;
    forall i | 0 <= i < |areas|
      ensures AreaKept(areas[i], r.priorities[i], Available(q))
    {
      assert AreaKept(areas[i], d.priorities[i], Available(q));
    }
    if Linked(review.content) && UnknownPriorityArea !in q.codes {
      assert SummaryIds(r.summaries) == SummaryIds(d.summaries);
      assert PriorityIds(r.priorities) == PriorityIds(d.priorities);
    }
  }

  // ---- any number of repairs ----

  /** One pass: the draft the model returned and the request it answered. */
  datatype Pass = Pass(draft: Draft, request: Request)

  function RepairAll(review: Review, passes: seq<Pass>): Review
    decreases |passes|
  {
    if passes == [] then review
    else RepairAll(Repaired(review, passes[0].draft, passes[0].request), passes[1..])
  }

  /** Every pass knows the same evidence, returns valid rows and scrubs sanely. */
  ghost predicate PassesOk(passes: seq<Pass>, evidence: set<string>) {
    forall i :: 0 <= i < |passes| ==>
      && passes[i].request.evidence == Some(evidence) && RowsOk(passes[i].draft)
      && forall s: string :: Nonblank(s) ==> Nonblank(passes[i].request.checks.scrub(s))
  }

  lemma FirstPass(review: Review, passes: seq<Pass>, evidence: set<string>)
    requires passes != [] && PassesOk(passes, evidence) && RowsOk(review.content)
    ensures Valid(review, passes[0].draft, passes[0].request) && PassesOk(passes[1..], evidence)
    ensures AllowedFor(review, passes[0].draft, passes[0].request) == evidence == Available(passes[0].request)
    ensures RowsOk(Repaired(review, passes[0].draft, passes[0].request).content)
  {
    assert passes[0].request.evidence == Some(evidence);
    RepairedRra(review, passes[0].draft, passes[0].request);
    RepairedStrategy(review, passes[0].draft, passes[0].request);
    hide Repaired, Prepared, Embeds;
  }

  lemma SoundIsUnambiguous(d: Draft, evidence: set<string>)
    requires AssessmentsSound(d, evidence)
    ensures Unambiguous(d, evidence)
  {
    forall shift: Shift
      ensures !Confusable(shift, d, evidence)
    {
      SingleIsUnambiguous(shift, d.strategy, evidence);
    }
  }

  /**
   After any number of repairs, at least one, the assessments are sound: a review with at most one row
   for each shift can raise neither issue again.
   */
  lemma {:induction false} RepairsAreSound(review: Review, passes: seq<Pass>, evidence: set<string>)
    requires passes != [] && PassesOk(passes, evidence) && RowsOk(review.content)
    requires Unambiguous(review.content, evidence)
    ensures AssessmentsSound(RepairAll(review, passes).content, evidence)
    ensures StrategyComplete(RepairAll(review, passes).content, evidence)
    ensures AssessmentsKnown(RepairAll(review, passes).content, evidence)
    decreases |passes|
  {
    FirstPass(review, passes, evidence);
    RepairIsSound(review, passes[0].draft, passes[0].request);
    var next := Repaired(review, passes[0].draft, passes[0].request);
    hide Repaired, AssessmentsSound, StrategyComplete, AssessmentsKnown, Unambiguous;
    if |passes| == 1 {
      assert RepairAll(review, passes) == RepairAll(next, passes[1..]) == next;
      SoundPassesValidation(next.content, evidence);
    } else {
      SoundIsUnambiguous(next.content, evidence);
      RepairsAreSound(next, passes[1..], evidence);
    }
  }

  /** What the passes may have done to a row: one guard for each, in turn. */
  ghost function PassedAll(review: Review, passes: seq<Pass>): Closeness {
    Closeness(exists i :: 0 <= i < |passes| && FlagsOf(passes[i].request.codes).coverage,
              seq(|passes|, i requires 0 <= i < |passes| => GuardOf(review, passes[i].request)))
  }

  lemma PassedInTurn(review: Review, passes: seq<Pass>)
    requires passes != []
    ensures var next := Repaired(review, passes[0].draft, passes[0].request);
            PassedAll(review, passes) == Then(Passed(review, passes[0].request), PassedAll(next, passes[1..]))
  {
    var next := Repaired(review, passes[0].draft, passes[0].request);
    assert forall q :: LimitedRepair(next, q) == LimitedRepair(review, q);
    hide Repaired, FlagsOf, GuardFor, LimitedRepair;
    assert forall i :: 0 < i < |passes| ==> passes[i] == passes[1..][i - 1];
    assert forall q :: GuardOf(next, q) == GuardOf(review, q);
  }

  /**
   Supported driver assessments survive any number of repairs, in order: their text changed only as each pass's
   guard allowed in turn, their rating only by a downgrade, and that only when some pass was a coverage repair.
   */
  lemma {:induction false} RepairsKeepRra(review: Review, passes: seq<Pass>, evidence: set<string>)
    requires PassesOk(passes, evidence) && RowsOk(review.content)
    ensures Embeds(PassedAll(review, passes), Supported(review.content.rra, evidence),
                   RepairAll(review, passes).content.rra)
    decreases |passes|
  {
    if passes == [] {
      SupportedEmbeds(review.content.rra, evidence, false);
    } else {
      var q := passes[0].request;
      FirstPass(review, passes, evidence);
      RepairedRra(review, passes[0].draft, q);
      PassedInTurn(review, passes);
      var next := Repaired(review, passes[0].draft, q);
      AllSupported(next.content.rra, evidence);
      hide Repaired, Embeds, Supported, RowsOk, PassesOk, Passed, PassedAll;
      RepairsKeepRra(next, passes[1..], evidence);
      EmbedsTransitive(Passed(review, q), PassedAll(next, passes[1..]), Supported(review.content.rra, evidence),
                       next.content.rra, RepairAll(next, passes[1..]).content.rra);
    }
  }

  /** So does the only, supported strategy assessment of a shift, in the shift's place. */
  lemma {:induction false} RepairsKeepStrategyRow(review: Review, passes: seq<Pass>, evidence: set<string>, k: nat)
    requires passes != [] && PassesOk(passes, evidence) && RowsOk(review.content)
    requires SoleSupported(review.content.strategy, k, evidence)
    ensures var original, rows := review.content.strategy[k], RepairAll(review, passes).content.strategy;
            && SoleSupported(rows, IndexOf(original.shift), evidence)
            && StrategyRelated(PassedAll(review, passes), original, rows[IndexOf(original.shift)])
    decreases |passes|
  {
    var q, original := passes[0].request, review.content.strategy[k];
    var i := IndexOf(original.shift);
    FirstPass(review, passes, evidence);
    RepairKeepsStrategyRow(review, passes[0].draft, q, k);
    PassedInTurn(review, passes);
    var next := Repaired(review, passes[0].draft, q);
    var later := PassedAll(next, passes[1..]);
    hide Repaired, RowsOk, PassesOk, Passed, StrategyRelated, StrategySafe, Valid, AllowedFor, Available, FlagsOf, GuardOf;
    assert RepairAll(review, passes) == RepairAll(next, passes[1..]);
    if |passes| == 1 {
      assert RepairAll(next, passes[1..]) == next;
      assert later == Closeness(false, []);
      NothingMore(Passed(review, q), original, next.content.strategy[i]);
    } else {
      hide PassedAll;
      RepairsKeepStrategyRow(next, passes[1..], evidence, i);
      StrategyTransitive(Passed(review, q), later, original, next.content.strategy[i],
                         RepairAll(next, passes[1..]).content.strategy[i]);
    }
  }

  lemma NothingMore(c: Closeness, original: StrategyRow, result: StrategyRow)
    requires StrategyRelated(c, original, result)
    ensures StrategyRelated(Then(c, Closeness(false, [])), original, result)
  {
    assert c.guards + [] == c.guards;
  }

  lemma AreasKeptSelf(areas: seq<Priority>, evidence: set<string>)
    ensures AreasKept(areas, areas, evidence)
  {
  }

  lemma FirstAreas(review: Review, passes: seq<Pass>, evidence: set<string>)
    requires passes != [] && PassesOk(passes, evidence) && review.content.priorities != []
    ensures PassesOk(passes[1..], evidence)
    ensures var next := Repaired(review, passes[0].draft, passes[0].request);
            && AreasKept(review.content.priorities, next.content.priorities, evidence)
            && next.content.priorities != []
            && (Linked(review.content) && UnknownPriorityArea !in passes[0].request.codes ==> Linked(next.content))
  {
    assert passes[0].request.evidence == Some(evidence);
    RepairKeepsPriorities(review, passes[0].draft, passes[0].request);
    hide Repaired, AreaKept, Linked;
  }

  /** So do priorities, and a sound link to the summary that no pass questioned. */
  lemma {:induction false} RepairsKeepPriorities(review: Review, passes: seq<Pass>, evidence: set<string>)
    requires PassesOk(passes, evidence) && review.content.priorities != []
    ensures AreasKept(review.content.priorities, RepairAll(review, passes).content.priorities, evidence)
    ensures Linked(review.content) && (forall i :: 0 <= i < |passes| ==> UnknownPriorityArea !in passes[i].request.codes) ==>
              Linked(RepairAll(review, passes).content)
    decreases |passes|
  {
    if passes == [] {
      AreasKeptSelf(review.content.priorities, evidence);
    } else {
      var next := Repaired(review, passes[0].draft, passes[0].request);
      FirstAreas(review, passes, evidence);
      hide Repaired, AreaKept, Linked, PassesOk;
      RepairsKeepPriorities(next, passes[1..], evidence);
      AreasKeptTransitive(review.content.priorities, next.content.priorities,
                          RepairAll(next, passes[1..]).content.priorities, evidence);
    }
  }

  /** One repair and the validation that follows it. */
  method RepairOnce(review: Review, draft: Draft, q: Request, rraMode: bool, incompleteOptionalCoverage: bool)
    returns (r: Review, issues: seq<Code>)
    requires Valid(review, draft, q) && q.evidence.Some? && Unambiguous(review.content, q.evidence.value)
    ensures r == Repaired(review, draft, q)
    ensures IncompleteStrategyAssessment !in issues && UnknownAssessmentEvidence !in issues
    ensures UnknownPriorityArea in issues && review.content.priorities != [] && UnknownPriorityArea !in q.codes ==>
              !Linked(review.content)
    ensures MissingRraDriverAssessment in issues <==> rraMode && r.content.rra == []
    ensures IncompleteCoverageAbsenceClaim in issues <==> incompleteOptionalCoverage && ClaimsAbsence(r.content)
  {
    r := RepairReview(review, draft, q);
    RepairIsSound(review, draft, q);
    SoundPassesValidation(r.content, q.evidence.value);
    if review.content.priorities != [] {
      RepairKeepsPriorities(review, draft, q);
    }
    hide Repaired, AssessmentsSound, StrategyComplete, AssessmentsKnown, ClaimsAbsence, Linked, AreasKept, Unambiguous,
         Valid;
    issues := Validate(r.content, rraMode, incompleteOptionalCoverage, q.evidence.value);
  }

  // ---- the wording a repair corrects ----

  /** The issues that put wording in question. */
  predicate AsksForCleaning(codes: set<Code>) {
    ProhibitedPolicyLanguage in codes || DiagnosticDateConflict in codes || LimitedModeOverclaim in codes
  }

  /**
   A text that shares no fault under repair with what the draft says instead: a forbidden phrase, a date conflict
   when that was an issue, an overclaim when that was one in limited framing.
   */
  predicate Corrected(q: Request, limitedFraming: bool, answer: string, t: string) {
    && (!q.checks.forbidden(answer) ==> !q.checks.forbidden(t))
    && (DiagnosticDateConflict in q.codes && !q.checks.dateConflict(answer) ==> !q.checks.dateConflict(t))
    && (LimitedModeOverclaim in q.codes && limitedFraming && !q.checks.overclaim(answer) ==> !q.checks.overclaim(t))
  }

  /** Such a text, scrubbed of raw evidence names when those were an issue. */
  ghost predicate CorrectedIn(q: Request, limitedFraming: bool, answer: string, result: string) {
    exists t: string :: Corrected(q, limitedFraming, answer, t)
                        && result == if RawEvidenceIdInNarrative in q.codes then q.checks.scrub(t) else t
  }

  lemma CleanCorrects(review: Review, q: Request, text: string, answer: string)
    ensures var t := Clean(GuardOf(review, q), text, answer);
            && CorrectedIn(q, review.limitedFraming, answer,
                           if RawEvidenceIdInNarrative in q.codes then q.checks.scrub(t) else t)
            && GuardOf(review, q).scrub == q.checks.scrub
  {
    assert Corrected(q, review.limitedFraming, answer, Clean(GuardOf(review, q), text, answer));
  }

  lemma DraftRowsStand(review: Review, draft: Draft, q: Request)
    requires AsksForCleaning(q.codes)
    ensures Prepared(review, draft, q).rra == draft.rra && Prepared(review, draft, q).strategy == draft.strategy
  {
    assert !(q.codes <= MECHANICAL);
    hide PreservedAll, RetitledAll;
  }

  /** Where the one row of an identity stands before wording is looked at. */
  lemma SelectedAlone(review: Review, draft: Draft, q: Request, k: nat, id: string) returns (i: nat)
    requires Alone(review.content.rra, k, id)
    requires EvidenceSafe(review.content.rra[k].rating, AllowedFor(review, draft, q))
    ensures Alone(Selected(review, draft, q).rra, i, id)
  {
    hide EvidenceSafe, Merged, Normalized, Prepared, Allowed;
    var originals, drafts := review.content.rra, Prepared(review, draft, q).rra;
    var allowed, flags := AllowedFor(review, draft, q), FlagsOf(q.codes);
    i := MergedAlone(originals, drafts, allowed, flags, k, id);
    if LimitedRepair(review, q.codes) && !flags.newRra {
      i := KnownAlone(Merged(originals, drafts, allowed, flags), RowIds(originals), i, id);
    }
  }

  /**
   When wording was an issue, a supported driver assessment the draft answers with one row of its identity, the only
   one on both sides, is corrected: in each field every fault under repair that the draft's text lacks is gone.
   */
  lemma RepairCorrectsRra(review: Review, draft: Draft, q: Request, k: nat, j: nat) returns (i: nat)
    requires AsksForCleaning(q.codes) && k < |review.content.rra| && Alone(review.content.rra, k, review.content.rra[k].id)
    requires EvidenceSafe(review.content.rra[k].rating, AllowedFor(review, draft, q))
    requires Alone(draft.rra, j, review.content.rra[k].id)
    ensures Alone(Repaired(review, draft, q).content.rra, i, review.content.rra[k].id)
    ensures var answer, result := draft.rra[j].text, Repaired(review, draft, q).content.rra[i].text;
            && CorrectedIn(q, review.limitedFraming, answer.driver, result.driver)
            && CorrectedIn(q, review.limitedFraming, answer.response, result.response)
            && CorrectedIn(q, review.limitedFraming, answer.delivery, result.delivery)
            && CorrectedIn(q, review.limitedFraming, answer.indicator, result.indicator)
            && CorrectedIn(q, review.limitedFraming, answer.gap, result.gap)
  {
    var id, answer := review.content.rra[k].id, draft.rra[j].text;
    i := SelectedAlone(review, draft, q, k, id);
    DraftRowsStand(review, draft, q);
    RewordedAlone(review, draft, q, i, id, j);
    var text := Selected(review, draft, q).rra[i].text;
    CleanCorrects(review, q, text.driver, answer.driver);
    CleanCorrects(review, q, text.response, answer.response);
    CleanCorrects(review, q, text.delivery, answer.delivery);
    CleanCorrects(review, q, text.indicator, answer.indicator);
    CleanCorrects(review, q, text.gap, answer.gap);
    hide Selected, Prepared, GuardOf, Repaired, Clean, Corrected, CorrectedIn, EvidenceSafe, Alone;
  }

  /** The rows in the end: reworded, and scrubbed when raw names were an issue. */
  lemma CleanedRows(review: Review, draft: Draft, q: Request)
    requires AsksForCleaning(q.codes)
    ensures var d, g, limited := Selected(review, draft, q), GuardOf(review, q), LimitedRepair(review, q.codes);
            var prepared, r := Prepared(review, draft, q), Repaired(review, draft, q).content;
            var raw := RawEvidenceIdInNarrative in q.codes;
            var rra := RewordRra(d.rra, prepared.rra, g, limited);
            var strategy := RewordStrategy(d.strategy, prepared.strategy, g, limited);
            && r.rra == (if raw then ScrubRra(rra, g) else rra)
            && r.strategy == if raw then ScrubStrategy(strategy, g) else strategy
  {
    hide Selected, Prepared, GuardOf, LimitedRepair, RewordRra, RewordStrategy, ScrubRra, ScrubStrategy, ScrubSummaries,
         ScrubAreas, ScrubTexts, Listed;
  }

  lemma RewordedAlone(review: Review, draft: Draft, q: Request, i: nat, id: string, j: nat)
    requires AsksForCleaning(q.codes) && Prepared(review, draft, q).rra == draft.rra
    requires Alone(Selected(review, draft, q).rra, i, id) && Alone(draft.rra, j, id)
    ensures Alone(Repaired(review, draft, q).content.rra, i, id)
    ensures var g := GuardOf(review, q);
            var t := CleanRraText(g, Selected(review, draft, q).rra[i].text, draft.rra[j].text);
            Repaired(review, draft, q).content.rra[i].text
            == if RawEvidenceIdInNarrative in q.codes then ScrubRraText(g, t) else t
  {
    var rows, g, limited := Selected(review, draft, q).rra, GuardOf(review, q), LimitedRepair(review, q.codes);
    CleanedRows(review, draft, q);
    hide Selected, Prepared, GuardOf, LimitedRepair, Repaired;
    AloneCounts(rows, i, id);
    UniqueRowAuthorises(rows[i], rows, draft.rra, g, limited, j);
    hide CleanRraText, ScrubRraText, RewordedRra;
    SameIds(rows, draft.rra, g, limited);
  }

  lemma SameIds(rows: seq<RraRow>, drafts: seq<RraRow>, g: Guard, limited: bool)
    ensures forall i :: 0 <= i < |rows| ==>
              RewordRra(rows, drafts, g, limited)[i].id == rows[i].id && ScrubRra(rows, g)[i].id == rows[i].id
    ensures forall i :: 0 <= i < |rows| ==> ScrubRra(RewordRra(rows, drafts, g, limited), g)[i].id == rows[i].id
  {
    hide CleanRraText, ScrubRraText, CountRra, LastRra;
  }

  /** So is a shift's only, supported strategy assessment. */
  lemma RepairCorrectsStrategy(review: Review, draft: Draft, q: Request, k: nat, j: nat)
    requires Valid(review, draft, q) && AsksForCleaning(q.codes)
    requires SoleSupported(review.content.strategy, k, AllowedFor(review, draft, q))
    requires var original := review.content.strategy[k];
             && j < |draft.strategy| && draft.strategy[j].shift == original.shift && draft.strategy[j].id == original.id
             && forall i :: 0 <= i < |draft.strategy| && i != j ==>
                  draft.strategy[i].shift != original.shift || draft.strategy[i].id != original.id
    ensures var original, rows := review.content.strategy[k], Repaired(review, draft, q).content.strategy;
            && IndexOf(original.shift) < |rows| && rows[IndexOf(original.shift)].id == original.id
            && CorrectedIn(q, review.limitedFraming, draft.strategy[j].text, rows[IndexOf(original.shift)].text)
  {
    hide Valid, AllowedFor, StrategySafe, StrategyOk, Prepared, Repaired, Selected, ChosenRow, GuardOf, CorrectedIn, Clean,
         StrategyRelated;
    var original, i := review.content.strategy[k], IndexOf(review.content.strategy[k].shift);
    DraftRowsStand(review, draft, q);
    SelectedStrategy(review, draft, q);
    ChosenIsKept(review, draft, q, k);
    var rows := Selected(review, draft, q).strategy;
    assert rows[i].shift == SHIFTS[i] && rows[i] == ChosenRow(review, draft, q, SHIFTS[i]);
    RewordedInPlace(review, draft, q, i, j);
    CleanCorrects(review, q, rows[i].text, draft.strategy[j].text);
  }

  lemma RewordedInPlace(review: Review, draft: Draft, q: Request, i: nat, j: nat)
    requires AsksForCleaning(q.codes) && Prepared(review, draft, q).strategy == draft.strategy
    requires OnePerShift(Selected(review, draft, q).strategy) && i < |SHIFTS| && j < |draft.strategy|
    requires var row := Selected(review, draft, q).strategy[i];
             && draft.strategy[j].shift == row.shift && draft.strategy[j].id == row.id
             && forall l :: 0 <= l < |draft.strategy| && l != j ==>
                  draft.strategy[l].shift != row.shift || draft.strategy[l].id != row.id
    ensures |Repaired(review, draft, q).content.strategy| == |SHIFTS|
    ensures var g, row := GuardOf(review, q), Selected(review, draft, q).strategy[i];
            var t, result := Clean(g, row.text, draft.strategy[j].text), Repaired(review, draft, q).content.strategy[i];
            result.id == row.id && result.text == if RawEvidenceIdInNarrative in q.codes then g.scrub(t) else t
  {
    CleanedRows(review, draft, q);
    hide Selected, Prepared, GuardOf, Repaired, LimitedRepair;
    var rows, g, limited := Selected(review, draft, q).strategy, GuardOf(review, q), LimitedRepair(review, q.codes);
    OnlyOfShift(rows, i);
    UniqueStrategyAuthorises(rows[i], rows, draft.strategy, g, limited, j);
    hide Clean, RewordedStrategy, CountStrategy;
  }

  lemma {:induction false} OnlyOfShift(rows: seq<StrategyRow>, i: nat)
    requires OnePerShift(rows) && i < |SHIFTS|
    ensures CountStrategy(rows, rows[i].shift, rows[i].id) == 1
  {
    assert forall l :: 0 <= l < |rows| && l != i ==> rows[l].shift != rows[i].shift;
    OnlyStrategy(rows, rows[i].shift, rows[i].id, i);
  }

  // ---- repairs of mechanical issues only ----

  lemma {:induction false} NothingAdded(drafts: seq<RraRow>, used: set<string>, known: set<string>, evidence: set<string>,
                                        flags: Flags)
    requires !flags.coverage && !flags.newRra
    requires forall i :: 0 <= i < |drafts| && EvidenceSafe(drafts[i].rating, evidence) ==> drafts[i].id in used
    ensures AddedAll(drafts, used, known, evidence, flags) == []
  {
    hide EvidenceSafe;
    if drafts != [] {
      assert forall i :: 0 <= i < |drafts[1..]| ==> drafts[1..][i] == drafts[i + 1];
      NothingAdded(drafts[1..], used, known, evidence, flags);
    }
  }

  lemma {:induction false} SupportedAreKept(originals: seq<RraRow>, drafts: seq<RraRow>, evidence: set<string>, flags: Flags)
    requires !flags.coverage
    ensures KeptAll(originals, drafts, evidence, flags) == Supported(originals, evidence)
    ensures forall i :: 0 <= i < |originals| && EvidenceSafe(originals[i].rating, evidence) ==>
              originals[i].id in UsedIds(originals, drafts, evidence, flags)
  {
    hide EvidenceSafe;
    if originals != [] {
      SupportedAreKept(originals[1..], drafts, evidence, flags);
      assert forall i :: 0 < i < |originals| ==> originals[i] == originals[1..][i - 1];
    }
  }

  /** An area whose narrative is the review's own; its action changes only when it was too long. */
  predicate AreaUntouched(area: Priority, r: Priority, q: Request) {
    && r.heading == area.heading && r.assessment == area.assessment && r.why == area.why
    && r.scale == area.scale && r.comment == area.comment
    && (r.action == area.action || (StageLengthOverreach in q.codes && q.checks.tooLong(area.action)))
  }

  lemma {:induction false} MatchesHave(areas: seq<Priority>, k: nat)
    requires k < |areas|
    ensures areas[k] in Matches(areas, areas[k].id)
  {
    if k < |areas| - 1 {
      MatchesHave(areas[..|areas| - 1], k);
    }
  }

  lemma MechanicalArea(areas: seq<Priority>, drafts: seq<Priority>, q: Request, i: nat)
    requires q.codes <= MECHANICAL && i < |areas|
    ensures var adjusted := AdjustedAll(areas, drafts, q.codes, Available(q), q.checks.tooLong);
            AreaUntouched(areas[i], Preserved(areas[i], adjusted, q.codes, Available(q)), q)
  {
    var adjusted := AdjustedAll(areas, drafts, q.codes, Available(q), q.checks.tooLong);
    MatchesHave(adjusted, i);
    assert StageOverreach !in q.codes && MissingCommentReference !in q.codes;
    hide Matches, Citations, AllAvailable;
  }

  lemma MechanicalAreas(review: Review, draft: Draft, q: Request)
    requires q.codes <= MECHANICAL
    ensures var c := review.content;
            var adjusted := AdjustedAll(c.priorities, draft.priorities, q.codes, Available(q), q.checks.tooLong);
            var areas := PreservedAll(c.priorities, adjusted, q.codes, Available(q));
            forall i :: 0 <= i < |c.priorities| ==> AreaUntouched(c.priorities[i], areas[i], q)
  {
    var c := review.content;
    forall i | 0 <= i < |c.priorities|
      ensures AreaUntouched(c.priorities[i],
                Preserved(c.priorities[i], AdjustedAll(c.priorities, draft.priorities, q.codes, Available(q), q.checks.tooLong),
                          q.codes, Available(q)), q)
    {
      MechanicalArea(c.priorities, draft.priorities, q, i);
    }
    hide Preserved, Adjusted, AreaUntouched;
  }

  lemma MechanicalPrepared(review: Review, draft: Draft, q: Request)
    requires q.codes != {} && q.codes <= MECHANICAL
    ensures var d, c := Prepared(review, draft, q), review.content;
            && d.overall == c.overall && d.alignment == c.alignment && d.strategyReadout == c.strategyReadout
            && d.limitations == c.limitations && d.note == c.note && d.rra == c.rra && |d.priorities| == |c.priorities|
            && forall i :: 0 <= i < |c.priorities| ==> AreaUntouched(c.priorities[i], d.priorities[i], q)
  {
    MechanicalAreas(review, draft, q);
    hide Preserved, Adjusted, AreaUntouched, RetitledAll, PreservedAll, AdjustedAll;
  }

  /** No later stage but the merge applies to mechanical issues. */
  lemma MechanicalStages(review: Review, draft: Draft, q: Request)
    requires q.codes <= MECHANICAL
    ensures Repaired(review, draft, q).content
         == WithReferrals(review, WithRows(review, Prepared(review, draft, q), q), q)
    ensures FlagsOf(q.codes) == Flags(false, false, false)
  {
    hide Prepared, WithRows, WithReferrals, Known, RowIds;
  }

  /**
   When every issue is mechanical the draft's own assessments do not matter: the supported driver rows, the
   readouts and limitations are the review's, and areas keep their narrative.
   */
  lemma MechanicalKeepsAssessment(review: Review, draft: Draft, q: Request)
    requires q.codes != {} && q.codes <= MECHANICAL
    ensures var r, c := Repaired(review, draft, q).content, review.content;
            && r.overall == c.overall && r.alignment == c.alignment && r.strategyReadout == c.strategyReadout
            && r.limitations == c.limitations && r.note == c.note
            && r.rra == Supported(c.rra, AllowedFor(review, draft, q))
            && |r.priorities| == |c.priorities|
            && forall i :: 0 <= i < |c.priorities| ==> AreaUntouched(c.priorities[i], r.priorities[i], q)
  {
    var c, allowed, flags := review.content, AllowedFor(review, draft, q), FlagsOf(q.codes);
    MechanicalPrepared(review, draft, q);
    MechanicalStages(review, draft, q);
    SupportedAreKept(c.rra, c.rra, allowed, flags);
    NothingAdded(c.rra, UsedIds(c.rra, c.rra, allowed, flags), RowIds(c.rra), allowed, flags);
    hide Repaired, Prepared, Allowed, AreaUntouched, Normalized, KeptAll, AddedAll, Supported, FlagsOf;
    assert Supported(c.rra, allowed) + [] == Supported(c.rra, allowed);
  }

  // ---- raw evidence names and limited mode ----

  ghost predicate AllScrubbed(parts: seq<string>, clean: string -> bool) {
    forall i :: 0 <= i < |parts| ==> clean(parts[i])
  }

  lemma BothScrubbed(a: seq<string>, b: seq<string>, clean: string -> bool)
    requires AllScrubbed(a, clean) && AllScrubbed(b, clean)
    ensures AllScrubbed(a + b, clean)
  {
  }

  lemma {:induction false} SummariesScrubbed(summaries: seq<Summary>, scrub: string -> string, clean: string -> bool)
    requires forall s: string :: clean(scrub(s))
    ensures AllScrubbed(SummaryParts(ScrubSummaries(summaries, scrub)), clean)
  {
    if summaries != [] {
      SummariesScrubbed(summaries[1..], scrub, clean);
      assert ScrubSummaries(summaries, scrub)[1..] == ScrubSummaries(summaries[1..], scrub);
      BothScrubbed([scrub(summaries[0].title)], SummaryParts(ScrubSummaries(summaries[1..], scrub)), clean);
    }
  }

  lemma {:induction false} RraScrubbed(rows: seq<RraRow>, g: Guard, clean: string -> bool)
    requires forall s: string :: clean(g.scrub(s))
    ensures AllScrubbed(RraParts(ScrubRra(rows, g)), clean)
  {
    if rows != [] {
      RraScrubbed(rows[1..], g, clean);
      assert ScrubRra(rows, g)[1..] == ScrubRra(rows[1..], g);
      var t, rest := ScrubRra(rows, g)[0].text, RraParts(ScrubRra(rows[1..], g));
      BothScrubbed([t.driver, t.response, t.delivery, t.indicator, t.gap], rest, clean);
    }
  }

  lemma {:induction false} StrategyScrubbed(rows: seq<StrategyRow>, g: Guard, clean: string -> bool)
    requires forall s: string :: clean(g.scrub(s))
    ensures AllScrubbed(StrategyParts(ScrubStrategy(rows, g)), clean)
  {
    if rows != [] {
      StrategyScrubbed(rows[1..], g, clean);
      assert ScrubStrategy(rows, g)[1..] == ScrubStrategy(rows[1..], g);
      BothScrubbed([g.scrub(rows[0].text)], StrategyParts(ScrubStrategy(rows[1..], g)), clean);
    }
  }

  lemma {:induction false} AreasScrubbed(areas: seq<Priority>, scrub: string -> string, clean: string -> bool)
    requires forall s: string :: clean(scrub(s))
    ensures AllScrubbed(AreaParts(ScrubAreas(areas, scrub)), clean)
  {
    if areas != [] {
      AreasScrubbed(areas[1..], scrub, clean);
      assert ScrubAreas(areas, scrub)[1..] == ScrubAreas(areas[1..], scrub);
      var a, rest := ScrubAreas(areas, scrub)[0], AreaParts(ScrubAreas(areas[1..], scrub));
      var lines, comments := [a.heading, a.assessment, a.why, a.action], if a.comment.Some? then [a.comment.value] else [];
      assert a.heading == scrub(areas[0].heading) && a.assessment == scrub(areas[0].assessment);
      assert a.why == scrub(areas[0].why) && a.action == scrub(areas[0].action);
      assert a.comment.Some? ==> a.comment.value == scrub(areas[0].comment.value);
      BothScrubbed(lines, comments, clean);
      BothScrubbed(lines + comments, rest, clean);
    }
  }

  /**
   When raw evidence names were an issue, every text a reader sees has been scrubbed of them: no part of the
   review that the validator reads is passed over.
   */
  lemma EveryTextIsScrubbed(review: Review, draft: Draft, q: Request, clean: string -> bool)
    requires RawEvidenceIdInNarrative in q.codes && forall s: string :: clean(q.checks.scrub(s))
    ensures AllScrubbed(ResultParts(Repaired(review, draft, q).content), clean)
  {
    var g := GuardOf(review, q);
    var d := WithCleanText(review, Selected(review, draft, q), Prepared(review, draft, q), q);
    SummariesScrubbed(d.summaries, g.scrub, clean);
    RraScrubbed(d.rra, g, clean);
    StrategyScrubbed(d.strategy, g, clean);
    AreasScrubbed(d.priorities, g.scrub, clean);
    ScrubbedParts(review, d, q, clean);
    hide WithCleanText, Selected, Prepared, Scrubbed, ResultParts;
    var e := Scrubbed(review, d, q);
    SameParts(review, e, q);
  }

  lemma SameParts(review: Review, d: Draft, q: Request)
    ensures ResultParts(WithReferrals(review, d, q)) == ResultParts(d)
  {
    hide SummaryParts, RraParts, StrategyParts, AreaParts, Listed;
  }

  lemma ScrubbedParts(review: Review, d: Draft, q: Request, clean: string -> bool)
    requires RawEvidenceIdInNarrative in q.codes && forall s: string :: clean(q.checks.scrub(s))
    requires var g := GuardOf(review, q);
             && AllScrubbed(SummaryParts(ScrubSummaries(d.summaries, g.scrub)), clean)
             && AllScrubbed(RraParts(ScrubRra(d.rra, g)), clean)
             && AllScrubbed(StrategyParts(ScrubStrategy(d.strategy, g)), clean)
             && AllScrubbed(AreaParts(ScrubAreas(d.priorities, g.scrub)), clean)
    ensures AllScrubbed(ResultParts(Scrubbed(review, d, q)), clean)
  {
    var g := GuardOf(review, q);
    var head := [g.scrub(d.overall), g.scrub(d.alignment), g.scrub(d.strategyReadout)];
    var summaries, rra := SummaryParts(ScrubSummaries(d.summaries, g.scrub)), RraParts(ScrubRra(d.rra, g));
    var strategy, areas := StrategyParts(ScrubStrategy(d.strategy, g)), AreaParts(ScrubAreas(d.priorities, g.scrub));
    var limitations, note := ScrubTexts(d.limitations, g.scrub), [g.scrub(d.note)];
    assert AllScrubbed(head, clean) && AllScrubbed(limitations, clean) && AllScrubbed(note, clean);
    hide AllScrubbed, SummaryParts, RraParts, StrategyParts, AreaParts;
    hide ScrubSummaries, ScrubRra, ScrubStrategy, ScrubAreas, ScrubTexts;
    BothScrubbed(head, summaries, clean);
    BothScrubbed(head + summaries, rra, clean);
    BothScrubbed(head + summaries + rra, strategy, clean);
    BothScrubbed(head + summaries + rra + strategy, areas, clean);
    BothScrubbed(head + summaries + rra + strategy + areas, limitations, clean);
    BothScrubbed(head + summaries + rra + strategy + areas + limitations, note, clean);
  }

  /** Scrubbing rewrites the texts a reader sees, every one where it stands, and drops or changes nothing else. */
  lemma ScrubbedIs(review: Review, d: Draft, q: Request)
    requires RawEvidenceIdInNarrative in q.codes
    ensures var r, scrub := Scrubbed(review, d, q), q.checks.scrub;
            && r.overall == scrub(d.overall) && r.alignment == scrub(d.alignment)
            && r.strategyReadout == scrub(d.strategyReadout) && r.note == scrub(d.note) && r.referrals == d.referrals
            && |r.limitations| == |d.limitations| && |r.summaries| == |d.summaries| && |r.rra| == |d.rra|
            && |r.strategy| == |d.strategy| && |r.priorities| == |d.priorities|
            && (forall i :: 0 <= i < |d.limitations| ==> r.limitations[i] == scrub(d.limitations[i]))
            && (forall i :: 0 <= i < |d.summaries| ==>
                  r.summaries[i] == Summary(d.summaries[i].areaId, scrub(d.summaries[i].title)))
            && (forall i :: 0 <= i < |d.strategy| ==>
                  r.strategy[i] == d.strategy[i].(text := scrub(d.strategy[i].text)))
            && (forall i :: 0 <= i < |d.rra| ==>
                  var t := d.rra[i].text;
                  && r.rra[i].(text := t) == d.rra[i]
                  && r.rra[i].text
                     == RraText(scrub(t.driver), scrub(t.response), scrub(t.delivery), scrub(t.indicator), scrub(t.gap)))
            && forall i :: 0 <= i < |d.priorities| ==>
                 var a, b := d.priorities[i], r.priorities[i];
                 && b.(heading := a.heading, assessment := a.assessment, why := a.why, action := a.action,
                       comment := a.comment) == a
                 && b.heading == scrub(a.heading) && b.assessment == scrub(a.assessment) && b.why == scrub(a.why)
                 && b.action == scrub(a.action) && (b.comment.Some? <==> a.comment.Some?)
                 && (a.comment.Some? ==> b.comment == Some(scrub(a.comment.value)))
  {
  }

  /** A limited-mode repair that may not add rows leaves only driver identities the review already had. */
  lemma LimitedAddsNoRow(review: Review, draft: Draft, q: Request, i: nat)
    requires Valid(review, draft, q)
    requires LimitedModeOverclaim in q.codes && review.limitedFraming
    requires !(IncompleteCoverageAbsenceClaim in q.codes && MissingRraDriverAssessment in q.codes)
    requires i < |Repaired(review, draft, q).content.rra|
    ensures exists k :: 0 <= k < |review.content.rra|
                        && review.content.rra[k].id == Repaired(review, draft, q).content.rra[i].id
  {
    var d, prepared := Selected(review, draft, q), Prepared(review, draft, q);
    var merged := WithRows(review, prepared, q).rra;
    PreparedRows(review, draft, q);
    SelectedRra(review, draft, q);
    TextStageRra(review, d, prepared, q);
    KnownSubset(merged, RowIds(review.content.rra));
    hide Prepared, WithRows, WithCleanText, Scrubbed, RraOk, EvidenceSafe, Embeds;
    assert d.rra[i] in d.rra;
  }

  lemma {:induction false} ListedExactly(ids: seq<string>, known: set<string>, id: string)
    ensures id in Listed(ids, known) <==> id in ids && id in known
  {
    if ids != [] {
      ListedExactly(ids[1..], known, id);
      assert id in ids <==> id == ids[0] || id in ids[1..];
    }
  }

  /**
   When referrals were an issue, and the registry is known, the review's own approved referrals are kept and no others:
   what the draft adds or drops plays no part. Otherwise the draft's stand, unless all was put right by rule.
   */
  lemma ApprovedReferralsStay(review: Review, draft: Draft, q: Request, id: string)
    ensures var referrals := Repaired(review, draft, q).content.referrals;
            var questioned := UnknownInstitutionalReferral in q.codes;
            if questioned && q.registry.Some? then
              id in referrals <==> id in review.content.referrals && id in q.registry.value
            else referrals == if AllByRule(q.codes) && !questioned then review.content.referrals else draft.referrals
  {
    if q.registry.Some? {
      ListedExactly(review.content.referrals, q.registry.value, id);
    }
    PreparedReferrals(review, draft, q);
    StageReferrals(review, draft, q);
    hide Listed, Scrubbed, WithCleanText, Selected, Prepared;
  }

  lemma PreparedReferrals(review: Review, draft: Draft, q: Request)
    ensures Prepared(review, draft, q).referrals
         == if AllByRule(q.codes) && UnknownInstitutionalReferral !in q.codes then review.content.referrals
            else draft.referrals
  {
    MechanicalIs(review.content, draft, q.codes, Available(q), q.checks.tooLong);
    RestoredIs(review.content, Mechanical(review.content, draft, q.codes, Available(q), q.checks.tooLong),
               q.codes, Available(q));
    hide Mechanical, PreserveCoverage;
  }

  lemma StageReferrals(review: Review, draft: Draft, q: Request)
    ensures var prepared := Prepared(review, draft, q);
            Scrubbed(review, WithCleanText(review, Selected(review, draft, q), prepared, q), q).referrals == prepared.referrals
  {
    hide Prepared, Merged, Normalized, Known, RewordRra, RewordStrategy, ScrubRra, ScrubStrategy, ScrubSummaries, ScrubAreas,
         ScrubTexts, Allowed, GuardOf;
  }

  // ---- what the issues allow ----

  /** Which faults of a text count, by the issues at hand. */
  lemma FaultsInForce(review: Review, q: Request, s: string)
    ensures var g := GuardOf(review, q);
            && (HasFault(g, s, ForbiddenPhrase) <==> q.checks.forbidden(s))
            && (HasFault(g, s, ConflictingDate) <==> DiagnosticDateConflict in q.codes && q.checks.dateConflict(s))
            && (HasFault(g, s, LimitedOverclaim)
                <==> LimitedModeOverclaim in q.codes && review.limitedFraming && q.checks.overclaim(s))
            && g.scrub(s) == q.checks.scrub(s)
  {
  }

  /** A coverage repair that is not asked for driver assessments adds none of a new identity. */
  lemma CoverageAddsNoRow(review: Review, draft: Draft, q: Request, i: nat)
    requires Valid(review, draft, q)
    requires IncompleteCoverageAbsenceClaim in q.codes && MissingRraDriverAssessment !in q.codes
    requires i < |Repaired(review, draft, q).content.rra|
    ensures exists k :: 0 <= k < |review.content.rra|
                        && review.content.rra[k].id == Repaired(review, draft, q).content.rra[i].id
  {
    var d, prepared := Selected(review, draft, q), Prepared(review, draft, q);
    PreparedRows(review, draft, q);
    SelectedRra(review, draft, q);
    TextStageRra(review, d, prepared, q);
    var originals, allowed, flags := review.content.rra, AllowedFor(review, draft, q), FlagsOf(q.codes);
    KnownSubset(Merged(originals, prepared.rra, allowed, flags), RowIds(originals));
    MergedKnown(originals, prepared.rra, allowed, flags);
    hide Prepared, WithCleanText, Scrubbed, RraOk, EvidenceSafe, Embeds, Merged, Normalized, Known;
    assert d.rra[i] in d.rra;
  }

  lemma MergedKnown(originals: seq<RraRow>, drafts: seq<RraRow>, evidence: set<string>, flags: Flags)
    requires flags.coverage && !flags.newRra
    ensures forall row :: row in Merged(originals, drafts, evidence, flags) ==> row.id in RowIds(originals)
  {
    var used, known := UsedIds(originals, drafts, evidence, flags), RowIds(originals);
    KeptIds(originals, drafts, evidence, flags);
    AddedKnown(drafts, used, known, evidence, flags);
    hide KeptAll, AddedAll, UsedIds;
  }

  lemma {:induction false} AddedKnown(
      drafts: seq<RraRow>, used: set<string>, known: set<string>, evidence: set<string>, flags: Flags)
    requires flags.coverage && !flags.newRra
    ensures forall row :: row in AddedAll(drafts, used, known, evidence, flags) ==> row.id in known
  {
    hide EvidenceSafe;
    if drafts != [] {
      var added := Added(drafts[0], used, known, evidence, flags);
      AddedKnown(drafts[1..], if added == [] then used else used + {drafts[0].id}, known, evidence, flags);
    }
  }

  lemma {:induction false} KeptIds(originals: seq<RraRow>, drafts: seq<RraRow>, evidence: set<string>, flags: Flags)
    ensures forall row :: row in KeptAll(originals, drafts, evidence, flags) ==>
              exists i :: 0 <= i < |originals| && originals[i].id == row.id
  {
    if originals != [] {
      KeptIds(originals[1..], drafts, evidence, flags);
      FirstRepairFits(drafts, originals[0], evidence);
      assert forall row :: row in Kept(originals[0], drafts, evidence, flags) ==> row.id == originals[0].id;
      hide Kept;
      forall row | row in KeptAll(originals[1..], drafts, evidence, flags)
        ensures exists i :: 0 <= i < |originals| && originals[i].id == row.id
      {
        var i :| 0 <= i < |originals[1..]| && originals[1..][i].id == row.id;
        assert originals[i + 1].id == row.id;
      }
    }
  }

  /**
   A supported driver assessment that only the draft has is added, the first of its identity, unless a coverage repair
   was not asked for any or a limited repair allows none; it loses its citations when it was asked for and assesses
   nothing.
   */
  lemma RepairAddsRow(review: Review, draft: Draft, q: Request, j: nat) returns (i: nat)
    requires Valid(review, draft, q) && !AllByRule(q.codes) && j < |draft.rra|
    requires EvidenceSafe(draft.rra[j].rating, AllowedFor(review, draft, q))
    requires forall k :: 0 <= k < |review.content.rra| ==> review.content.rra[k].id != draft.rra[j].id
    requires forall k :: 0 <= k < j ==> draft.rra[k].id != draft.rra[j].id
    requires MissingRraDriverAssessment !in q.codes ==>
               IncompleteCoverageAbsenceClaim !in q.codes && !(LimitedModeOverclaim in q.codes && review.limitedFraming)
    requires LimitedModeOverclaim in q.codes && review.limitedFraming ==> IncompleteCoverageAbsenceClaim in q.codes
    ensures i < |Repaired(review, draft, q).content.rra|
    ensures var row, asked := Repaired(review, draft, q).content.rra[i],
                              IncompleteCoverageAbsenceClaim in q.codes && MissingRraDriverAssessment in q.codes;
            && row.id == draft.rra[j].id
            && row.rating == if asked && draft.rra[j].rating.status == NotAssessable
                             then draft.rra[j].rating.(evidenceIds := []) else draft.rra[j].rating
  {
    var d, flags := Selected(review, draft, q), FlagsOf(q.codes);
    var row := AsAdded(draft.rra[j], RowIds(review.content.rra), flags);
    AddedRowIs(draft.rra[j], RowIds(review.content.rra), flags);
    assert flags.newRra <==> IncompleteCoverageAbsenceClaim in q.codes && MissingRraDriverAssessment in q.codes;
    SelectedAdds(review, draft, q, j);
    SameRows(review, draft, q);
    hide Selected, Repaired, FlagsOf, AsAdded, RowIds, Valid, EvidenceSafe, AllowedFor;
    i :| 0 <= i < |d.rra| && d.rra[i] == row;
  }

  lemma SameRows(review: Review, draft: Draft, q: Request)
    requires Valid(review, draft, q)
    ensures var d, rows := Selected(review, draft, q), Repaired(review, draft, q).content.rra;
            |rows| == |d.rra| && forall i :: 0 <= i < |d.rra| ==> rows[i].id == d.rra[i].id && rows[i].rating == d.rra[i].rating
  {
    PreparedRows(review, draft, q);
    SelectedRra(review, draft, q);
    TextStageRra(review, Selected(review, draft, q), Prepared(review, draft, q), q);
    hide Selected, Prepared, WithCleanText, Scrubbed, RraOk, EvidenceSafe, Embeds, RraTextKept, AllowedFor;
  }

  lemma SelectedAdds(review: Review, draft: Draft, q: Request, j: nat)
    requires !AllByRule(q.codes) && j < |draft.rra|
    requires EvidenceSafe(draft.rra[j].rating, AllowedFor(review, draft, q))
    requires forall k :: 0 <= k < |review.content.rra| ==> review.content.rra[k].id != draft.rra[j].id
    requires forall k :: 0 <= k < j ==> draft.rra[k].id != draft.rra[j].id
    requires MissingRraDriverAssessment !in q.codes ==>
               IncompleteCoverageAbsenceClaim !in q.codes && !(LimitedModeOverclaim in q.codes && review.limitedFraming)
    requires LimitedModeOverclaim in q.codes && review.limitedFraming ==> IncompleteCoverageAbsenceClaim in q.codes
    ensures AsAdded(draft.rra[j], RowIds(review.content.rra), FlagsOf(q.codes)) in Selected(review, draft, q).rra
  {
    NotLimited(review, draft, q);
    DraftRowsRemain(review, draft, q);
    hide Selected, Prepared, EvidenceSafe, Merged, AsAdded, RowIds, Allowed;
    MergedAdds(review.content.rra, draft.rra, AllowedFor(review, draft, q), FlagsOf(q.codes), j);
  }

  lemma AddedRowIs(row: RraRow, known: set<string>, flags: Flags)
    ensures var added := AsAdded(row, known, flags);
            && added.id == row.id
            && (row.id !in known ==>
                  added.rating == if flags.newRra && row.rating.status == NotAssessable
                                  then row.rating.(evidenceIds := []) else row.rating)
  {
  }

  lemma DraftRowsRemain(review: Review, draft: Draft, q: Request)
    requires !AllByRule(q.codes)
    ensures Prepared(review, draft, q).rra == draft.rra && Prepared(review, draft, q).strategy == draft.strategy
  {
    MechanicalIs(review.content, draft, q.codes, Available(q), q.checks.tooLong);
    RestoredIs(review.content, Mechanical(review.content, draft, q.codes, Available(q), q.checks.tooLong),
               q.codes, Available(q));
    hide Mechanical, PreserveCoverage;
  }

  /** Unless a limited repair drops new rows, the merged rows are the ones selected. */
  lemma NotLimited(review: Review, draft: Draft, q: Request)
    requires LimitedModeOverclaim in q.codes && review.limitedFraming ==>
               IncompleteCoverageAbsenceClaim in q.codes && MissingRraDriverAssessment in q.codes
    ensures Selected(review, draft, q).rra
         == Merged(review.content.rra, Prepared(review, draft, q).rra, AllowedFor(review, draft, q), FlagsOf(q.codes))
  {
    hide Prepared, Merged, Normalized, Allowed, Known;
  }

  lemma MergedAdds(originals: seq<RraRow>, drafts: seq<RraRow>, evidence: set<string>, flags: Flags, j: nat)
    requires j < |drafts| && EvidenceSafe(drafts[j].rating, evidence) && (flags.coverage ==> flags.newRra)
    requires forall k :: 0 <= k < |originals| ==> originals[k].id != drafts[j].id
    requires forall k :: 0 <= k < j ==> drafts[k].id != drafts[j].id
    ensures AsAdded(drafts[j], RowIds(originals), flags) in Merged(originals, drafts, evidence, flags)
  {
    var used, known := UsedIds(originals, drafts, evidence, flags), RowIds(originals);
    UsedExactly(originals, drafts, evidence, flags, drafts[j].id);
    AddedFirst(drafts, used, known, evidence, flags, j);
    hide UsedIds, KeptAll, AddedAll, Kept, EvidenceSafe, AsAdded;
  }

  /** Text apart, the strategy rows in the end are those chosen for the shifts. */
  lemma ChosenRows(review: Review, draft: Draft, q: Request, shift: Shift)
    requires Valid(review, draft, q)
    ensures var rows, chosen := Repaired(review, draft, q).content.strategy, ChosenRow(review, draft, q, shift);
            && IndexOf(shift) < |rows| && rows[IndexOf(shift)].shift == shift
            && rows[IndexOf(shift)].id == chosen.id && rows[IndexOf(shift)].rating == chosen.rating
  {
    RepairedStrategy(review, draft, q);
    hide Repaired, ChosenRow, StrategyOk, TextKept, Valid;
    var i := IndexOf(shift);
    assert Repaired(review, draft, q).content.strategy[i].shift == SHIFTS[i];
  }

  /**
   A shift the review lacks is filled by the draft's first supported row for it, without citations when missing rows
   were asked for and it assesses nothing, but not by a coverage repair that was not asked for any.
   */
  lemma RepairFillsShift(review: Review, draft: Draft, q: Request, shift: Shift)
    requires Valid(review, draft, q) && !AllByRule(q.codes)
    requires forall k :: 0 <= k < |review.content.strategy| ==> review.content.strategy[k].shift != shift
    ensures IndexOf(shift) < |Repaired(review, draft, q).content.strategy|
    ensures var row, d := Repaired(review, draft, q).content.strategy[IndexOf(shift)],
                          FirstSafe(draft.strategy, shift, AllowedFor(review, draft, q));
            var coverage, asked := IncompleteCoverageAbsenceClaim in q.codes, IncompleteStrategyAssessment in q.codes;
            if d.None? || (coverage && !asked) then row.rating == Rating(NotAssessable, Low, None, [])
            else
              && row.id == d.value.id
              && row.rating == if coverage && asked && d.value.rating.status == NotAssessable
                               then d.value.rating.(evidenceIds := []) else d.value.rating
  {
    ChosenRows(review, draft, q, shift);
    DraftRowsRemain(review, draft, q);
    MissingRowIs(shift, review.content.strategy, draft.strategy, AllowedFor(review, draft, q), FlagsOf(q.codes));
    hide Prepared, AllowedFor, FirstSafe, Valid, Repaired, StrategyFor;
  }
}
