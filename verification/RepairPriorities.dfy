/** What a repair may change in the priorities and the revision summary. */
module RepairPriorities {
  import opened Basics
  import opened Assessments
  import opened ReviewValidator

  predicate IsRegistry(id: string, available: set<string>) {
    id in available && HasPrefix(id, "registry-")
  }

  predicate AllAvailable(ids: seq<string>, available: set<string>) {
    forall i :: 0 <= i < |ids| ==> ids[i] in available
  }

  predicate NoRegistry(ids: seq<string>, available: set<string>) {
    forall i :: 0 <= i < |ids| ==> !IsRegistry(ids[i], available)
  }

  /** The registry entries a candidate cites beyond `own`. */
  function RegistryLinks(candidate: seq<string>, own: seq<string>, available: set<string>): (links: seq<string>)
    ensures forall i :: 0 <= i < |links| ==> IsRegistry(links[i], available) && links[i] !in own
  {
    if candidate == [] then []
    else
      (if IsRegistry(candidate[0], available) && candidate[0] !in own then [candidate[0]] else [])
      + RegistryLinks(candidate[1..], own, available)
  }

  /** Own citations, and registry entries only when registry support was missing. */
  function Citations(own: seq<string>, candidate: seq<string>, codes: set<Code>, available: set<string>): seq<string> {
    own + (if MissingRegistrySupport in codes && NoRegistry(own, available)
           then RegistryLinks(candidate, own, available) else [])
  }

  function Matches(areas: seq<Priority>, id: string): seq<Priority> {
    if areas == [] then []
    else Matches(areas[..|areas| - 1], id) + (if areas[|areas| - 1].id == id then [areas[|areas| - 1]] else [])
  }

  function LastArea(areas: seq<Priority>, id: string): Option<Priority> {
    if areas == [] then None
    else if areas[|areas| - 1].id == id then Some(areas[|areas| - 1])
    else LastArea(areas[..|areas| - 1], id)
  }

  /** A corrected area keeps everything the issues did not question. */
  function Corrected(area: Priority, candidate: Priority, codes: set<Code>, available: set<string>): Priority {
    candidate.(
      locator := area.locator,
      gapLocus := area.gapLocus,
      sensitivity := area.sensitivity,
      scale := if StageOverreach in codes then candidate.scale else area.scale,
      comment := if MissingCommentReference in codes then candidate.comment else area.comment,
      evidenceIds :=
        if UnknownEvidence !in codes || AllAvailable(area.evidenceIds, available)
        then Citations(area.evidenceIds, candidate.evidenceIds, codes, available)
        else candidate.evidenceIds)
  }

  /** An area the draft does not answer exactly once comes back as it was. */
  function Preserved(area: Priority, drafts: seq<Priority>, codes: set<Code>, available: set<string>): Priority {
    var matches := Matches(drafts, area.id);
    if |matches| == 1 then Corrected(area, matches[0], codes, available) else area
  }

  function PreservedAll(areas: seq<Priority>, drafts: seq<Priority>, codes: set<Code>, available: set<string>)
    : (r: seq<Priority>)
    ensures |r| == |areas|
    ensures forall i :: 0 <= i < |areas| ==> r[i] == Preserved(areas[i], drafts, codes, available)
  {
    if areas == [] then []
    else PreservedAll(areas[..|areas| - 1], drafts, codes, available)
         + [Preserved(areas[|areas| - 1], drafts, codes, available)]
  }

  function LastSummary(summaries: seq<Summary>, id: string): Option<Summary> {
    if summaries == [] then None
    else if summaries[|summaries| - 1].areaId == id then Some(summaries[|summaries| - 1])
    else LastSummary(summaries[..|summaries| - 1], id)
  }

  function Retitled(original: Summary, drafts: seq<Summary>): Summary {
    var titled := LastSummary(drafts, original.areaId);
    if titled.Some? then titled.value else original
  }

  function RetitledAll(originals: seq<Summary>, drafts: seq<Summary>): (r: seq<Summary>)
    ensures |r| == |originals|
  {
    seq(|originals|, i requires 0 <= i < |originals| => Retitled(originals[i], drafts))
  }

  function PreserveCoverage(original: Draft, draft: Draft, codes: set<Code>, available: set<string>): Draft {
    if original.priorities == [] then draft
    else
      var areas := PreservedAll(original.priorities, draft.priorities, codes, available);
      if original.summaries != [] && UnknownPriorityArea !in codes then
        draft.(priorities := areas, summaries := RetitledAll(original.summaries, draft.summaries))
      else draft.(priorities := areas)
  }

  method PreservePriorityCoverage(original: Draft, draft: Draft, codes: set<Code>, available: set<string>)
    returns (r: Draft)
    ensures r == PreserveCoverage(original, draft, codes, available)
  {
    if original.priorities == [] {
      return draft;
    }
    hide Corrected;
    var areas := [];
    for i := 0 to |original.priorities|
      invariant areas == PreservedAll(original.priorities[..i], draft.priorities, codes, available)
    {
      var area := original.priorities[i];
      assert original.priorities[..i + 1][..i] == original.priorities[..i];
      var matches := Matches(draft.priorities, area.id);
      if |matches| != 1 {
        areas := areas + [area];
      } else {
        areas := areas + [Corrected(area, matches[0], codes, available)];
      }
    }
    assert original.priorities[..|original.priorities|] == original.priorities;
    r := draft.(priorities := areas);
    if original.summaries != [] && UnknownPriorityArea !in codes {
      r := r.(summaries := RetitledAll(original.summaries, draft.summaries));
    }
  }

  // ---- corrections that touch no assessment ----

  const MECHANICAL := {StageLengthOverreach, UnknownInstitutionalReferral, MissingRegistrySupport}

  function Adjusted(area: Priority, drafts: seq<Priority>, codes: set<Code>, available: set<string>,
                    tooLong: string -> bool): Priority
  {
    match LastArea(drafts, area.id)
    case None => area
    case Some(candidate) =>
      area.(
        action := if StageLengthOverreach in codes && tooLong(area.action) then candidate.action else area.action,
        evidenceIds := Citations(area.evidenceIds, candidate.evidenceIds, codes, available))
  }

  function AdjustedAll(areas: seq<Priority>, drafts: seq<Priority>, codes: set<Code>, available: set<string>,
                       tooLong: string -> bool): (r: seq<Priority>)
    ensures |r| == |areas|
    ensures forall i :: 0 <= i < |areas| ==> r[i] == Adjusted(areas[i], drafts, codes, available, tooLong)
  {
    if areas == [] then []
    else AdjustedAll(areas[..|areas| - 1], drafts, codes, available, tooLong)
         + [Adjusted(areas[|areas| - 1], drafts, codes, available, tooLong)]
  }

  /** When every issue is mechanical, the review itself stands in for the draft. */
  function Mechanical(original: Draft, draft: Draft, codes: set<Code>, available: set<string>, tooLong: string -> bool)
    : Draft
  {
    if codes == {} || !(codes <= MECHANICAL) then draft
    else
      original.(
        priorities := AdjustedAll(original.priorities, draft.priorities, codes, available, tooLong),
        referrals := if UnknownInstitutionalReferral in codes then draft.referrals else original.referrals)
  }

  method RestrictToMechanical(original: Draft, draft: Draft, codes: set<Code>, available: set<string>,
                              tooLong: string -> bool) returns (r: Draft)
    ensures r == Mechanical(original, draft, codes, available, tooLong)
  {
    r := draft;
    if codes != {} && codes <= MECHANICAL {
      hide RegistryLinks, IsRegistry;
      var areas := [];
      for i := 0 to |original.priorities|
        invariant areas == AdjustedAll(original.priorities[..i], draft.priorities, codes, available, tooLong)
      {
        var area := original.priorities[i];
        assert original.priorities[..i + 1][..i] == original.priorities[..i];
        var candidate := LastArea(draft.priorities, area.id);
        var updated := area;
        if candidate.Some? {
          if StageLengthOverreach in codes && tooLong(area.action) {
            updated := updated.(action := candidate.value.action);
          }
          if MissingRegistrySupport in codes && NoRegistry(area.evidenceIds, available) {
            updated := updated.(
              evidenceIds := area.evidenceIds + RegistryLinks(candidate.value.evidenceIds, area.evidenceIds, available));
          } else {
            assert area.evidenceIds + [] == area.evidenceIds;
          }
        }
        areas := areas + [updated];
      }
      assert original.priorities[..|original.priorities|] == original.priorities;
      r := original.(priorities := areas);
      if UnknownInstitutionalReferral in codes {
        r := r.(referrals := draft.referrals);
      }
    }
  }

  // ---- what stays ----

  /** Identity, place and sensitivity stay; citations that were all available only gain registry entries. */
  predicate AreaKept(area: Priority, r: Priority, available: set<string>) {
    && r.id == area.id && r.locator == area.locator && r.gapLocus == area.gapLocus && r.sensitivity == area.sensitivity
    && (AllAvailable(area.evidenceIds, available) ==>
          && area.evidenceIds <= r.evidenceIds
          && forall i :: |area.evidenceIds| <= i < |r.evidenceIds| ==>
               r.evidenceIds[i] in available && HasPrefix(r.evidenceIds[i], "registry-"))
  }

  predicate AreasKept(areas: seq<Priority>, r: seq<Priority>, available: set<string>) {
    |r| == |areas| && forall i :: 0 <= i < |areas| ==> AreaKept(areas[i], r[i], available)
  }

  lemma {:induction false} MatchesFit(areas: seq<Priority>, id: string)
    ensures forall a :: a in Matches(areas, id) ==> a in areas && a.id == id
  {
    if areas != [] {
      MatchesFit(areas[..|areas| - 1], id);
    }
  }

  lemma PreservedIsKept(area: Priority, drafts: seq<Priority>, codes: set<Code>, available: set<string>)
    ensures AreaKept(area, Preserved(area, drafts, codes, available), available)
  {
    MatchesFit(drafts, area.id);
    var matches := Matches(drafts, area.id);
    if |matches| == 1 {
      assert matches[0] in matches;
    }
  }

  /** A repair of a review with priorities keeps every one of them, whatever the draft drops, adds or rewrites. */
  lemma CoverageIsPreserved(original: Draft, draft: Draft, codes: set<Code>, available: set<string>)
    requires original.priorities != []
    ensures AreasKept(original.priorities, PreserveCoverage(original, draft, codes, available).priorities, available)
  {
    forall i | 0 <= i < |original.priorities|
      ensures AreaKept(original.priorities[i], Preserved(original.priorities[i], draft.priorities, codes, available), available)
    {
      PreservedIsKept(original.priorities[i], draft.priorities, codes, available);
    }
    hide Preserved, AreaKept;
  }

  lemma AreaKeptTransitive(a: Priority, b: Priority, c: Priority, available: set<string>)
    requires AreaKept(a, b, available) && AreaKept(b, c, available)
    ensures AreaKept(a, c, available)
  {
    if AllAvailable(a.evidenceIds, available) {
      assert AllAvailable(b.evidenceIds, available);
      forall i | |a.evidenceIds| <= i < |c.evidenceIds|
        ensures c.evidenceIds[i] in available && HasPrefix(c.evidenceIds[i], "registry-")
      {
        if i < |b.evidenceIds| {
          assert c.evidenceIds[i] == b.evidenceIds[i];
        }
      }
    }
  }

  lemma AreasKeptTransitive(a: seq<Priority>, b: seq<Priority>, c: seq<Priority>, available: set<string>)
    requires AreasKept(a, b, available) && AreasKept(b, c, available)
    ensures AreasKept(a, c, available)
  {
    forall i | 0 <= i < |a|
      ensures AreaKept(a[i], c[i], available)
    {
      AreaKeptTransitive(a[i], b[i], c[i], available);
    }
  }

  lemma {:induction false} LastSummaryFits(summaries: seq<Summary>, id: string)
    ensures LastSummary(summaries, id).Some? ==> LastSummary(summaries, id).value.areaId == id
  {
    if summaries != [] {
      LastSummaryFits(summaries[..|summaries| - 1], id);
    }
  }

  /** A sound link between summary and priorities stays sound unless it was itself in question. */
  lemma LinkageIsPreserved(original: Draft, draft: Draft, codes: set<Code>, available: set<string>)
    requires Linked(original) && original.priorities != [] && UnknownPriorityArea !in codes
    ensures Linked(PreserveCoverage(original, draft, codes, available))
  {
    var r := PreserveCoverage(original, draft, codes, available);
    CoverageIsPreserved(original, draft, codes, available);
    assert |original.summaries| == |SummaryIds(original.summaries)| == |original.priorities|;
    forall i | 0 <= i < |original.summaries|
      ensures r.summaries[i].areaId == original.summaries[i].areaId
    {
      LastSummaryFits(draft.summaries, original.summaries[i].areaId);
    }
    hide PreservedAll, AreaKept;
    assert SummaryIds(r.summaries) == SummaryIds(original.summaries);
    assert forall i :: 0 <= i < |original.priorities| ==> r.priorities[i].id == original.priorities[i].id by {
      CoverageIsPreserved(original, draft, codes, available);
    }
    assert PriorityIds(r.priorities) == PriorityIds(original.priorities);
  }

  // ---- what the draft does contribute ----

  lemma {:induction false} OnlyMatch(areas: seq<Priority>, k: nat)
    requires k < |areas| && forall i :: 0 <= i < |areas| && i != k ==> areas[i].id != areas[k].id
    ensures Matches(areas, areas[k].id) == [areas[k]]
  {
    var front := areas[..|areas| - 1];
    if k < |areas| - 1 {
      OnlyMatch(front, k);
    } else {
      NoMatch(front, areas[k].id);
    }
  }

  lemma {:induction false} NoMatch(areas: seq<Priority>, id: string)
    requires forall i :: 0 <= i < |areas| ==> areas[i].id != id
    ensures Matches(areas, id) == []
  {
    if areas != [] {
      NoMatch(areas[..|areas| - 1], id);
    }
  }

  /**
   The one draft area that answers an area rewrites its narrative and action; scale, comment and citations
   change only where the issues put them in question.
   */
  lemma CorrectionIsTaken(area: Priority, drafts: seq<Priority>, codes: set<Code>, available: set<string>, k: nat)
    requires k < |drafts| && drafts[k].id == area.id
    requires forall i :: 0 <= i < |drafts| && i != k ==> drafts[i].id != area.id
    ensures var r := Preserved(area, drafts, codes, available);
            && r.heading == drafts[k].heading && r.assessment == drafts[k].assessment
            && r.why == drafts[k].why && r.action == drafts[k].action
            && r.scale == (if StageOverreach in codes then drafts[k].scale else area.scale)
            && r.comment == (if MissingCommentReference in codes then drafts[k].comment else area.comment)
            && (UnknownEvidence in codes && !AllAvailable(area.evidenceIds, available) ==>
                  r.evidenceIds == drafts[k].evidenceIds)
            && (UnknownEvidence !in codes || AllAvailable(area.evidenceIds, available) ==>
                  area.evidenceIds <= r.evidenceIds
                  && (MissingRegistrySupport !in codes ==> r.evidenceIds == area.evidenceIds))
  {
    OnlyMatch(drafts, k);
  }

  /** An omitted or repeated answer restores the area untouched. */
  lemma OmissionRestores(area: Priority, drafts: seq<Priority>, codes: set<Code>, available: set<string>)
    requires forall i :: 0 <= i < |drafts| ==> drafts[i].id != area.id
    ensures Preserved(area, drafts, codes, available) == area
  {
    NoMatch(drafts, area.id);
  }

  lemma {:induction false} TwoMatch(areas: seq<Priority>, j: nat, k: nat)
    requires j <= k < |areas| && areas[j].id == areas[k].id
    ensures |Matches(areas, areas[k].id)| >= if j < k then 2 else 1
  {
    if k < |areas| - 1 {
      TwoMatch(areas[..|areas| - 1], j, k);
    } else if j < k {
      TwoMatch(areas[..k], j, j);
    }
  }

  lemma RepetitionRestores(area: Priority, drafts: seq<Priority>, codes: set<Code>, available: set<string>, j: nat, k: nat)
    requires j < k < |drafts| && drafts[j].id == drafts[k].id == area.id
    ensures Preserved(area, drafts, codes, available) == area
  {
    TwoMatch(drafts, j, k);
  }

  /** Only priorities and the revision summary are restored, and that only when it was not in question. */
  lemma RestoredIs(original: Draft, draft: Draft, codes: set<Code>, available: set<string>)
    ensures var r := PreserveCoverage(original, draft, codes, available);
            && r.(priorities := draft.priorities, summaries := draft.summaries) == draft
            && (original.priorities == [] ==> r == draft)
            && (original.summaries == [] || UnknownPriorityArea in codes ==> r.summaries == draft.summaries)
  {
    hide Preserved, Retitled;
  }

  lemma {:induction false} LastSummaryAt(summaries: seq<Summary>, id: string, k: nat)
    requires k < |summaries| && summaries[k].areaId == id && forall j :: k < j < |summaries| ==> summaries[j].areaId != id
    ensures LastSummary(summaries, id) == Some(summaries[k])
  {
    if k < |summaries| - 1 {
      LastSummaryAt(summaries[..|summaries| - 1], id, k);
    }
  }

  lemma {:induction false} NoLastSummary(summaries: seq<Summary>, id: string)
    requires forall j :: 0 <= j < |summaries| ==> summaries[j].areaId != id
    ensures LastSummary(summaries, id) == None
  {
    if summaries != [] {
      NoLastSummary(summaries[..|summaries| - 1], id);
    }
  }

  /** The revision summary keeps its entries, each in the draft's last words about its area, if any. */
  lemma SummaryIs(original: Draft, draft: Draft, codes: set<Code>, available: set<string>, i: nat, k: nat)
    requires original.priorities != [] && UnknownPriorityArea !in codes && i < |original.summaries|
    requires k <= |draft.summaries|
    requires k < |draft.summaries| ==> draft.summaries[k].areaId == original.summaries[i].areaId
    requires forall j :: 0 <= j < |draft.summaries| && (j > k || k == |draft.summaries|) ==>
               draft.summaries[j].areaId != original.summaries[i].areaId
    ensures var r := PreserveCoverage(original, draft, codes, available);
            && |r.summaries| == |original.summaries|
            && r.summaries[i] == if k < |draft.summaries| then draft.summaries[k] else original.summaries[i]
  {
    hide PreservedAll;
    if k < |draft.summaries| {
      LastSummaryAt(draft.summaries, original.summaries[i].areaId, k);
    } else {
      NoLastSummary(draft.summaries, original.summaries[i].areaId);
    }
  }

  // ---- what a mechanical repair does ----

  lemma {:induction false} LastAreaAt(areas: seq<Priority>, k: nat)
    requires k < |areas| && forall j :: k < j < |areas| ==> areas[j].id != areas[k].id
    ensures LastArea(areas, areas[k].id) == Some(areas[k])
  {
    if k < |areas| - 1 {
      LastAreaAt(areas[..|areas| - 1], k);
    }
  }

  lemma {:induction false} NoLastArea(areas: seq<Priority>, id: string)
    requires forall j :: 0 <= j < |areas| ==> areas[j].id != id
    ensures LastArea(areas, id) == None
  {
    if areas != [] {
      NoLastArea(areas[..|areas| - 1], id);
    }
  }

  /** The three kinds of issue that are put right by rule, and nothing else, and at least one of them. */
  predicate AllByRule(codes: set<Code>) {
    && codes != {}
    && forall c :: c in codes ==>
         c == StageLengthOverreach || c == UnknownInstitutionalReferral || c == MissingRegistrySupport
  }

  /** By rule the review keeps all but its priorities and, when they were in question, its referrals. */
  lemma MechanicalIs(original: Draft, draft: Draft, codes: set<Code>, available: set<string>, tooLong: string -> bool)
    ensures var r := Mechanical(original, draft, codes, available, tooLong);
            if AllByRule(codes) then
              && r.(priorities := original.priorities, referrals := original.referrals) == original
              && |r.priorities| == |original.priorities|
              && r.referrals == if UnknownInstitutionalReferral in codes then draft.referrals else original.referrals
            else r == draft
  {
    hide AdjustedAll, Adjusted;
    assert AllByRule(codes) <==> codes != {} && codes <= MECHANICAL;
  }

  /** Such a priority gains the draft's action when its own is too long, and registry entries when it had none. */
  lemma MechanicalAreaIs(original: Draft, draft: Draft, codes: set<Code>, available: set<string>, tooLong: string -> bool,
                         i: nat, k: nat)
    requires AllByRule(codes) && i < |original.priorities| && k <= |draft.priorities|
    requires k < |draft.priorities| ==> draft.priorities[k].id == original.priorities[i].id
    requires forall j :: 0 <= j < |draft.priorities| && (j > k || k == |draft.priorities|) ==>
               draft.priorities[j].id != original.priorities[i].id
    ensures var area, r := original.priorities[i], Mechanical(original, draft, codes, available, tooLong);
            && |r.priorities| == |original.priorities|
            && if k == |draft.priorities| then r.priorities[i] == area
               else
                 var b, supplied := draft.priorities[k], MissingRegistrySupport in codes
                   && forall id :: id in area.evidenceIds ==> !(id in available && HasPrefix(id, "registry-"));
                 && r.priorities[i].(action := area.action, evidenceIds := area.evidenceIds) == area
                 && r.priorities[i].action
                    == (if StageLengthOverreach in codes && tooLong(area.action) then b.action else area.action)
                 && area.evidenceIds <= r.priorities[i].evidenceIds
                 && forall id :: id in r.priorities[i].evidenceIds <==>
                      id in area.evidenceIds
                      || (supplied && id in b.evidenceIds && id in available && HasPrefix(id, "registry-"))
  {
    var area := original.priorities[i];
    assert codes <= MECHANICAL;
    if k < |draft.priorities| {
      LastAreaAt(draft.priorities, k);
      CitationsAre(area.evidenceIds, draft.priorities[k].evidenceIds, codes, available);
    } else {
      NoLastArea(draft.priorities, area.id);
    }
    hide Citations, LastArea, IsRegistry, NoRegistry;
  }

  lemma CitationsAre(own: seq<string>, candidate: seq<string>, codes: set<Code>, available: set<string>)
    ensures own <= Citations(own, candidate, codes, available)
    ensures var supplied := MissingRegistrySupport in codes
              && forall id :: id in own ==> !(id in available && HasPrefix(id, "registry-"));
            forall id :: id in Citations(own, candidate, codes, available) <==>
              id in own || (supplied && id in candidate && id in available && HasPrefix(id, "registry-"))
  {
    assert NoRegistry(own, available)
           <==> forall id :: id in own ==> !(id in available && HasPrefix(id, "registry-")) by {
      hide HasPrefix;
      forall i | 0 <= i < |own|
        ensures own[i] in own
      {
      }
    }
    forall id
      ensures id in RegistryLinks(candidate, own, available)
              <==> id in candidate && id in available && HasPrefix(id, "registry-") && id !in own
    {
      LinksAreAll(candidate, own, available, id);
    }
    hide RegistryLinks, NoRegistry, HasPrefix;
  }

  lemma {:induction false} LinksAreAll(candidate: seq<string>, own: seq<string>, available: set<string>, id: string)
    ensures id in RegistryLinks(candidate, own, available) <==> id in candidate && IsRegistry(id, available) && id !in own
  {
    if candidate != [] {
      LinksAreAll(candidate[1..], own, available, id);
      assert id in candidate <==> id == candidate[0] || id in candidate[1..];
      hide IsRegistry;
    }
  }

  /** Missing registry support is supplied: an area without any gains exactly the candidate's available registry entries. */
  lemma SupportIsSupplied(area: Priority, drafts: seq<Priority>, codes: set<Code>, available: set<string>, k: nat, id: string)
    requires k < |drafts| && drafts[k].id == area.id && UnknownEvidence !in codes && MissingRegistrySupport in codes
    requires forall i :: 0 <= i < |drafts| && i != k ==> drafts[i].id != area.id
    requires forall own :: own in area.evidenceIds ==> !(own in available && HasPrefix(own, "registry-"))
    ensures id in Preserved(area, drafts, codes, available).evidenceIds
            <==> id in area.evidenceIds
                 || (id in drafts[k].evidenceIds && id in available && HasPrefix(id, "registry-"))
  {
    OnlyMatch(drafts, k);
    CitationsAre(area.evidenceIds, drafts[k].evidenceIds, codes, available);
    hide Citations, HasPrefix;
  }
}
