/** The validation a review must pass: the checks on its assessment rows, priorities and summary. */
module ReviewValidator {
  import opened Basics
  import opened Assessments

  datatype Code =
    | LimitedModeOverclaim | DiagnosticDateConflict | UnknownPriorityArea | UnknownEvidence
    | RawEvidenceIdInNarrative | UnknownInstitutionalReferral | UnknownAssessmentEvidence
    | MissingRraDriverAssessment | IncompleteStrategyAssessment | MissingRegistrySupport | StageOverreach
    | StageLengthOverreach | MissingCommentReference | ProhibitedPolicyLanguage | WithheldDrafting
    | InvalidRevisionSummaryTitle | IncompleteCoverageAbsenceClaim

  function CountShift(rows: seq<StrategyRow>, shift: Shift): nat {
    if rows == [] then 0
    else CountShift(rows[..|rows| - 1], shift) + (if rows[|rows| - 1].shift == shift then 1 else 0)
  }

  function CountId(ids: seq<string>, id: string): nat {
    if ids == [] then 0
    else CountId(ids[..|ids| - 1], id) + (if ids[|ids| - 1] == id then 1 else 0)
  }

  function PriorityIds(areas: seq<Priority>): (ids: seq<string>)
    ensures |ids| == |areas| && forall i :: 0 <= i < |ids| ==> ids[i] == areas[i].id
  {
    if areas == [] then [] else PriorityIds(areas[..|areas| - 1]) + [areas[|areas| - 1].id]
  }

  function SummaryIds(summaries: seq<Summary>): (ids: seq<string>)
    ensures |ids| == |summaries| && forall i :: 0 <= i < |ids| ==> ids[i] == summaries[i].areaId
  {
    if summaries == [] then [] else SummaryIds(summaries[..|summaries| - 1]) + [summaries[|summaries| - 1].areaId]
  }

  function RraRatings(rows: seq<RraRow>): (ratings: seq<Rating>)
    ensures |ratings| == |rows| && forall i :: 0 <= i < |rows| ==> ratings[i] == rows[i].rating
  {
    if rows == [] then [] else RraRatings(rows[..|rows| - 1]) + [rows[|rows| - 1].rating]
  }

  function StrategyRatings(rows: seq<StrategyRow>): (ratings: seq<Rating>)
    ensures |ratings| == |rows| && forall i :: 0 <= i < |rows| ==> ratings[i] == rows[i].rating
  {
    if rows == [] then [] else StrategyRatings(rows[..|rows| - 1]) + [rows[|rows| - 1].rating]
  }

  predicate Distinct(ids: seq<string>) {
    forall i, j :: 0 <= i < j < |ids| ==> ids[i] != ids[j]
  }

  /** Summary and priorities name the same areas in the same order, each once. */
  predicate Linked(d: Draft) {
    && |d.summaries| == |d.priorities|
    && (forall i :: 0 <= i < |d.priorities| ==> d.summaries[i].areaId == d.priorities[i].id)
    && forall i, j :: 0 <= i < j < |d.priorities| ==> d.priorities[i].id != d.priorities[j].id
  }

  lemma LinkedIs(d: Draft)
    ensures Linked(d) <==> SummaryIds(d.summaries) == PriorityIds(d.priorities) && Distinct(PriorityIds(d.priorities))
  {
  }

  predicate Covers(rows: seq<StrategyRow>, shift: Shift) {
    exists k :: 0 <= k < |rows| && rows[k].shift == shift
  }

  predicate NeverTwice(rows: seq<StrategyRow>, shift: Shift) {
    forall i, j :: 0 <= i < j < |rows| ==> !(rows[i].shift == shift && rows[j].shift == shift)
  }

  /** One row is about this shift, and no other is. */
  predicate Once(rows: seq<StrategyRow>, shift: Shift) {
    Covers(rows, shift) && NeverTwice(rows, shift)
  }

  lemma OnceNext(rows: seq<StrategyRow>, shift: Shift)
    requires rows != []
    ensures var n := |rows| - 1;
            && (Covers(rows, shift) <==> rows[n].shift == shift || Covers(rows[..n], shift))
            && (NeverTwice(rows, shift)
                <==> NeverTwice(rows[..n], shift) && !(rows[n].shift == shift && Covers(rows[..n], shift)))
  {
    var n := |rows| - 1;
    assert forall i :: 0 <= i < n ==> rows[..n][i] == rows[i];
  }

  lemma {:induction false} OnceIs(rows: seq<StrategyRow>, shift: Shift)
    ensures CountShift(rows, shift) > 0 <==> Covers(rows, shift)
    ensures CountShift(rows, shift) <= 1 <==> NeverTwice(rows, shift)
  {
    if rows != [] {
      OnceIs(rows[..|rows| - 1], shift);
      OnceNext(rows, shift);
      hide Covers, NeverTwice;
    }
  }

  predicate Unregistered(row: StrategyRow, evidence: set<string>) {
    row.rating.status != NotAssessable
    && !(RegistryId(row.shift) in row.rating.evidenceIds && RegistryId(row.shift) in evidence)
  }

  /** Each shift is assessed once, and with its registry entry wherever something was assessed. */
  ghost predicate StrategyComplete(d: Draft, evidence: set<string>) {
    && (forall shift: Shift :: Once(d.strategy, shift))
    && forall i :: 0 <= i < |d.strategy| && d.strategy[i].rating.status != NotAssessable ==>
         RegistryId(d.strategy[i].shift) in d.strategy[i].rating.evidenceIds && RegistryId(d.strategy[i].shift) in evidence
  }

  predicate AllSafe(ratings: seq<Rating>, evidence: set<string>) {
    forall i :: 0 <= i < |ratings| ==> EvidenceSafe(ratings[i], evidence)
  }

  predicate AnyAbsent(ratings: seq<Rating>) {
    exists i :: 0 <= i < |ratings| && ratings[i].status == NotEvidenced
  }

  predicate AssessmentsKnown(d: Draft, evidence: set<string>) {
    && (forall i, id :: 0 <= i < |d.rra| && id in d.rra[i].rating.evidenceIds ==> id in evidence)
    && forall i, id :: 0 <= i < |d.strategy| && id in d.strategy[i].rating.evidenceIds ==> id in evidence
  }

  lemma KnownIs(d: Draft, evidence: set<string>)
    ensures AssessmentsKnown(d, evidence)
            <==> AllSafe(RraRatings(d.rra), evidence) && AllSafe(StrategyRatings(d.strategy), evidence)
  {
    var rra, strategy := RraRatings(d.rra), StrategyRatings(d.strategy);
    if AssessmentsKnown(d, evidence) {
      forall i | 0 <= i < |rra|
        ensures EvidenceSafe(rra[i], evidence)
      {
        assert forall k :: 0 <= k < |rra[i].evidenceIds| ==> rra[i].evidenceIds[k] in d.rra[i].rating.evidenceIds;
      }
      forall i | 0 <= i < |strategy|
        ensures EvidenceSafe(strategy[i], evidence)
      {
        assert forall k :: 0 <= k < |strategy[i].evidenceIds| ==>
            strategy[i].evidenceIds[k] in d.strategy[i].rating.evidenceIds;
      }
    }
    if AllSafe(rra, evidence) && AllSafe(strategy, evidence) {
      assert forall i :: 0 <= i < |d.rra| ==> EvidenceSafe(rra[i], evidence);
      assert forall i :: 0 <= i < |d.strategy| ==> EvidenceSafe(strategy[i], evidence);
    }
  }

  predicate ClaimsAbsence(d: Draft) {
    || (exists i :: 0 <= i < |d.rra| && d.rra[i].rating.status == NotEvidenced)
    || exists i :: 0 <= i < |d.strategy| && d.strategy[i].rating.status == NotEvidenced
  }

  lemma AbsenceIs(d: Draft)
    ensures ClaimsAbsence(d) <==> AnyAbsent(RraRatings(d.rra)) || AnyAbsent(StrategyRatings(d.strategy))
  {
    var rra, strategy := RraRatings(d.rra), StrategyRatings(d.strategy);
    assert forall i :: 0 <= i < |rra| ==> rra[i].status == d.rra[i].rating.status;
    assert forall i :: 0 <= i < |strategy| ==> strategy[i].status == d.strategy[i].rating.status;
    if i :| 0 <= i < |d.rra| && d.rra[i].rating.status == NotEvidenced {
      assert rra[i].status == NotEvidenced;
    }
    if i :| 0 <= i < |d.strategy| && d.strategy[i].rating.status == NotEvidenced {
      assert strategy[i].status == NotEvidenced;
    }
  }

  lemma {:induction false} CountPositive(ids: seq<string>, k: nat)
    requires k < |ids|
    ensures CountId(ids, ids[k]) >= 1
  {
    if k < |ids| - 1 {
      CountPositive(ids[..|ids| - 1], k);
    }
  }

  lemma {:induction false} CountAbsent(ids: seq<string>, id: string)
    requires forall i :: 0 <= i < |ids| ==> ids[i] != id
    ensures CountId(ids, id) == 0
  {
    if ids != [] {
      CountAbsent(ids[..|ids| - 1], id);
    }
  }

  /** No name is counted twice exactly when the names differ. */
  lemma {:induction false} DistinctCounts(ids: seq<string>)
    ensures Distinct(ids) <==> forall i :: 0 <= i < |ids| ==> CountId(ids, ids[i]) == 1
  {
    if ids != [] {
      var n := |ids| - 1;
      var front := ids[..n];
      DistinctCounts(front);
      if Distinct(ids) {
        CountAbsent(front, ids[n]);
      } else if exists i :: 0 <= i < n && ids[i] == ids[n] {
        var i :| 0 <= i < n && ids[i] == ids[n];
        CountPositive(front, i);
      } else if Distinct(front) {
        assert false;
      } else {
        var i :| 0 <= i < |front| && CountId(front, front[i]) != 1;
        CountPositive(front, i);
        assert CountId(ids, ids[i]) >= CountId(front, front[i]) > 1;
      }
    }
  }

  /** Some shift is missing or assessed twice. */
  predicate Miscounted(rows: seq<StrategyRow>) {
    exists k :: 0 <= k < |SHIFTS| && CountShift(rows, SHIFTS[k]) != 1
  }

  lemma CompleteIff(d: Draft, evidence: set<string>)
    ensures StrategyComplete(d, evidence)
            <==> !Miscounted(d.strategy) && !exists k :: 0 <= k < |d.strategy| && Unregistered(d.strategy[k], evidence)
  {
    forall shift: Shift
      ensures CountShift(d.strategy, shift) == 1 <==> Once(d.strategy, shift)
    {
      OnceIs(d.strategy, shift);
      hide Covers, NeverTwice;
    }
    hide Once, CountShift;
    if shift: Shift :| !Once(d.strategy, shift) {
      var k := if shift.AnticipateBetter? then 0 else if shift.DifferentiatedApproach? then 1
               else if shift.OneWbgJobs? then 2 else 3;
      assert SHIFTS[k] == shift;
    }
  }

  predicate Repeats(ids: seq<string>) {
    exists i :: 0 <= i < |ids| && CountId(ids, ids[i]) > 1
  }

  lemma RepeatsIff(ids: seq<string>)
    ensures Repeats(ids) <==> !Distinct(ids)
  {
    DistinctCounts(ids);
    forall i | 0 <= i < |ids|
      ensures CountId(ids, ids[i]) >= 1
    {
      CountPositive(ids, i);
    }
  }

  predicate Unresolved(areas: seq<string>, links: seq<string>) {
    exists i :: 0 <= i < |links| && CountId(areas, links[i]) != 1
  }

  lemma LinkageFaults(areas: seq<string>, links: seq<string>)
    ensures Repeats(areas) || Repeats(links) || links != areas || Unresolved(areas, links)
            <==> !(links == areas && Distinct(areas))
  {
    RepeatsIff(areas);
    RepeatsIff(links);
    DistinctCounts(areas);
  }

  method ValidateLinkage(d: Draft) returns (issues: seq<Code>)
    ensures forall c :: c in issues ==> c == UnknownPriorityArea
    ensures issues != [] <==> !Linked(d)
  {
    issues := [];
    var areas, links := PriorityIds(d.priorities), SummaryIds(d.summaries);
    LinkedIs(d);
    LinkageFaults(areas, links);
    hide Linked, Distinct, CountId, PriorityIds, SummaryIds;
    if Repeats(areas) {
      issues := issues + [UnknownPriorityArea];
    }
    if Repeats(links) {
      issues := issues + [UnknownPriorityArea];
    }
    if links != areas {
      issues := issues + [UnknownPriorityArea];
    }
    for i := 0 to |links|
      invariant forall c :: c in issues ==> c == UnknownPriorityArea
      invariant issues != [] <==>
                  Repeats(areas) || Repeats(links) || links != areas
                  || exists k :: 0 <= k < i && CountId(areas, links[k]) != 1
    {
      if CountId(areas, links[i]) != 1 {
        issues := issues + [UnknownPriorityArea];
      }
    }
  }

  method ValidateRatings(ratings: seq<Rating>, incompleteOptionalCoverage: bool, evidence: set<string>)
    returns (issues: seq<Code>)
    ensures forall c :: c in issues ==> c == UnknownAssessmentEvidence || c == IncompleteCoverageAbsenceClaim
    ensures UnknownAssessmentEvidence in issues <==> !AllSafe(ratings, evidence)
    ensures IncompleteCoverageAbsenceClaim in issues <==> incompleteOptionalCoverage && AnyAbsent(ratings)
  {
    issues := [];
    for i := 0 to |ratings|
      invariant forall c :: c in issues ==> c == UnknownAssessmentEvidence || c == IncompleteCoverageAbsenceClaim
      invariant UnknownAssessmentEvidence in issues <==> exists k :: 0 <= k < i && !EvidenceSafe(ratings[k], evidence)
      invariant IncompleteCoverageAbsenceClaim in issues <==>
                  incompleteOptionalCoverage && exists k :: 0 <= k < i && ratings[k].status == NotEvidenced
    {
      if !EvidenceSafe(ratings[i], evidence) {
        issues := issues + [UnknownAssessmentEvidence];
      }
      if incompleteOptionalCoverage && ratings[i].status == NotEvidenced {
        issues := issues + [IncompleteCoverageAbsenceClaim];
      }
    }
  }

  method ValidateRegistry(rows: seq<StrategyRow>, evidence: set<string>) returns (issues: seq<Code>)
    ensures forall c :: c in issues ==> c == IncompleteStrategyAssessment
    ensures issues != [] <==> Miscounted(rows) || exists k :: 0 <= k < |rows| && Unregistered(rows[k], evidence)
  {
    issues := if Miscounted(rows) then [IncompleteStrategyAssessment] else [];
    for i := 0 to |rows|
      invariant forall c :: c in issues ==> c == IncompleteStrategyAssessment
      invariant issues != [] <==> Miscounted(rows) || exists k :: 0 <= k < i && Unregistered(rows[k], evidence)
    {
      if Unregistered(rows[i], evidence) {
        issues := issues + [IncompleteStrategyAssessment];
      }
    }
  }

  // ---- user-facing text ----

  function SummaryParts(summaries: seq<Summary>): seq<string> {
    if summaries == [] then [] else [summaries[0].title] + SummaryParts(summaries[1..])
  }

  function RraParts(rows: seq<RraRow>): seq<string> {
    if rows == [] then []
    else
      var t := rows[0].text;
      [t.driver, t.response, t.delivery, t.indicator, t.gap] + RraParts(rows[1..])
  }

  function StrategyParts(rows: seq<StrategyRow>): seq<string> {
    if rows == [] then [] else [rows[0].text] + StrategyParts(rows[1..])
  }

  function AreaParts(areas: seq<Priority>): seq<string> {
    if areas == [] then []
    else
      var a := areas[0];
      [a.heading, a.assessment, a.why, a.action] + (if a.comment.Some? then [a.comment.value] else []) + AreaParts(areas[1..])
  }

  /** Every text of a review that a reader sees, in the order the validator joins them. */
  function ResultParts(d: Draft): seq<string> {
    [d.overall, d.alignment, d.strategyReadout] + SummaryParts(d.summaries) + RraParts(d.rra)
    + StrategyParts(d.strategy) + AreaParts(d.priorities) + d.limitations + [d.note]
  }

  /** Each text of a review that a reader sees: those of its own, of its summary, rows and priorities. */
  predicate Shows(d: Draft, s: string) {
    || s in [d.overall, d.alignment, d.strategyReadout, d.note] || s in d.limitations
    || (exists i :: 0 <= i < |d.summaries| && s == d.summaries[i].title)
    || (exists i :: 0 <= i < |d.rra| && ShowsRow(d.rra[i].text, s))
    || (exists i :: 0 <= i < |d.strategy| && s == d.strategy[i].text)
    || exists i :: 0 <= i < |d.priorities| && ShowsArea(d.priorities[i], s)
  }

  predicate ShowsRow(t: RraText, s: string) {
    s == t.driver || s == t.response || s == t.delivery || s == t.indicator || s == t.gap
  }

  predicate ShowsArea(a: Priority, s: string) {
    s == a.heading || s == a.assessment || s == a.why || s == a.action || a.comment == Some(s)
  }

  lemma {:induction false} SummaryPartsAre(summaries: seq<Summary>, s: string)
    ensures s in SummaryParts(summaries) <==> exists i :: 0 <= i < |summaries| && s == summaries[i].title
  {
    if summaries != [] {
      SummaryPartsAre(summaries[1..], s);
      assert forall i :: 0 < i < |summaries| ==> summaries[i] == summaries[1..][i - 1];
    }
  }

  lemma {:induction false} RraPartsAre(rows: seq<RraRow>, s: string)
    ensures s in RraParts(rows) <==> exists i :: 0 <= i < |rows| && ShowsRow(rows[i].text, s)
  {
    if rows != [] {
      RraPartsAre(rows[1..], s);
      var t := rows[0].text;
      assert ShowsRow(t, s) <==> s in [t.driver, t.response, t.delivery, t.indicator, t.gap];
      hide ShowsRow;
      assert forall i :: 0 < i < |rows| ==> rows[i] == rows[1..][i - 1];
    }
  }

  lemma {:induction false} StrategyPartsAre(rows: seq<StrategyRow>, s: string)
    ensures s in StrategyParts(rows) <==> exists i :: 0 <= i < |rows| && s == rows[i].text
  {
    if rows != [] {
      StrategyPartsAre(rows[1..], s);
      assert forall i :: 0 < i < |rows| ==> rows[i] == rows[1..][i - 1];
    }
  }

  lemma {:induction false} AreaPartsAre(areas: seq<Priority>, s: string)
    ensures s in AreaParts(areas) <==> exists i :: 0 <= i < |areas| && ShowsArea(areas[i], s)
  {
    if areas != [] {
      AreaPartsAre(areas[1..], s);
      var a := areas[0];
      assert ShowsArea(a, s)
             <==> s in [a.heading, a.assessment, a.why, a.action] || s in if a.comment.Some? then [a.comment.value] else [];
      hide ShowsArea;
      assert forall i :: 0 < i < |areas| ==> areas[i] == areas[1..][i - 1];
    }
  }

  /** No text is left out of those that are validated. */
  lemma PartsAre(d: Draft, s: string)
    ensures s in ResultParts(d) <==> Shows(d, s)
  {
    SummaryPartsAre(d.summaries, s);
    RraPartsAre(d.rra, s);
    StrategyPartsAre(d.strategy, s);
    AreaPartsAre(d.priorities, s);
    hide ShowsRow, ShowsArea, SummaryParts, RraParts, StrategyParts, AreaParts;
  }

  /**
   The checks on rows and links, as the validator makes them: it walks the rows and the summary and
   appends a code for every fault. The order of the codes plays no part afterwards.
   */
  method Validate(d: Draft, rraMode: bool, incompleteOptionalCoverage: bool, evidence: set<string>)
    returns (issues: seq<Code>)
    ensures IncompleteStrategyAssessment in issues <==> !StrategyComplete(d, evidence)
    ensures UnknownAssessmentEvidence in issues <==> !AssessmentsKnown(d, evidence)
    ensures MissingRraDriverAssessment in issues <==> rraMode && d.rra == []
    ensures IncompleteCoverageAbsenceClaim in issues <==> incompleteOptionalCoverage && ClaimsAbsence(d)
    ensures UnknownPriorityArea in issues <==> !Linked(d)
  {
    CompleteIff(d, evidence);
    KnownIs(d, evidence);
    AbsenceIs(d);
    hide AssessmentsKnown, ClaimsAbsence, Miscounted, Linked, StrategyComplete, Unregistered, AllSafe, AnyAbsent,
         RraRatings, StrategyRatings;
    var missing := if rraMode && d.rra == [] then [MissingRraDriverAssessment] else [];
    var registry := ValidateRegistry(d.strategy, evidence);
    var rra := ValidateRatings(RraRatings(d.rra), incompleteOptionalCoverage, evidence);
    var strategy := ValidateRatings(StrategyRatings(d.strategy), incompleteOptionalCoverage, evidence);
    var linkage := ValidateLinkage(d);
    assert linkage != [] ==> linkage[0] in linkage;
    assert registry != [] ==> registry[0] in registry;
    assert missing != [] ==> missing[0] in missing;
    issues := missing + registry + rra + strategy + linkage;
    assert forall c :: c in issues <==> c in missing || c in registry || c in rra || c in strategy || c in linkage;
  }
}
