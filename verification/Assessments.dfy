/** Assessment rows, priorities and the content of a review, with the contracts of the rows. */
module Assessments {
  import opened Basics

  datatype Status = Aligned | PartiallyAligned | NotEvidenced | NotAssessable

  datatype Confidence = High | Medium | Low

  datatype GapLocus =
    | CpfNarrative | ResultsFramework | DeliveryArrangements | MonitoringAdaptation | DownstreamOperationalization

  datatype Shift = AnticipateBetter | DifferentiatedApproach | OneWbgJobs | ToolkitPartnershipsStaffing

  /** Declaration order. */
  const SHIFTS := [AnticipateBetter, DifferentiatedApproach, OneWbgJobs, ToolkitPartnershipsStaffing]

  function RegistryId(shift: Shift): string {
    match shift
    case AnticipateBetter => "registry-PUB-FCV-STRAT-001"
    case DifferentiatedApproach => "registry-PUB-FCV-STRAT-002"
    case OneWbgJobs => "registry-PUB-FCV-STRAT-003"
    case ToolkitPartnershipsStaffing => "registry-PUB-FCV-STRAT-004"
  }

  /** What both kinds of row share. */
  datatype Rating = Rating(status: Status, confidence: Confidence, gapLocus: Option<GapLocus>, evidenceIds: seq<string>)

  datatype RraText = RraText(driver: string, response: string, delivery: string, indicator: string, gap: string)

  datatype RraRow = RraRow(id: string, text: RraText, rating: Rating)

  datatype StrategyRow = StrategyRow(id: string, shift: Shift, text: string, rating: Rating)

  datatype Summary = Summary(areaId: string, title: string)

  datatype Priority = Priority(
    id: string, heading: string, assessment: string, why: string, action: string, locator: string,
    scale: string, evidenceIds: seq<string>, sensitivity: string, gapLocus: GapLocus, comment: Option<string>)

  /** The part of a review that a model writes. */
  datatype Draft = Draft(
    overall: string, alignment: string, strategyReadout: string, summaries: seq<Summary>,
    priorities: seq<Priority>, rra: seq<RraRow>, strategy: seq<StrategyRow>,
    referrals: seq<string>, limitations: seq<string>, note: string)

  predicate Nonblank(s: string) {
    exists i :: 0 <= i < |s| && !IsBlankChar(s[i])
  }

  predicate RatingOk(r: Rating) {
    && (r.status == PartiallyAligned || r.status == NotEvidenced ==> r.gapLocus.Some?)
    && (r.status != NotAssessable ==> r.evidenceIds != [])
    && forall i :: 0 <= i < |r.evidenceIds| ==> Nonblank(r.evidenceIds[i])
  }

  predicate RraTextOk(t: RraText) {
    Nonblank(t.driver) && Nonblank(t.response) && Nonblank(t.delivery) && Nonblank(t.indicator) && Nonblank(t.gap)
  }

  /** The contract every stored driver assessment meets. */
  predicate RraOk(row: RraRow) {
    Nonblank(row.id) && RraTextOk(row.text) && RatingOk(row.rating)
  }

  predicate StrategyOk(row: StrategyRow) {
    Nonblank(row.id) && Nonblank(row.text) && RatingOk(row.rating)
  }

  ghost predicate RowsOk(d: Draft) {
    && (forall i :: 0 <= i < |d.rra| ==> RraOk(d.rra[i]))
    && (forall i :: 0 <= i < |d.strategy| ==> StrategyOk(d.strategy[i]))
  }

  predicate EvidenceSafe(r: Rating, evidence: set<string>) {
    forall i :: 0 <= i < |r.evidenceIds| ==> r.evidenceIds[i] in evidence
  }

  /** Only available evidence, and the shift's own registry entry unless nothing was assessed. */
  predicate StrategySafe(row: StrategyRow, evidence: set<string>) {
    EvidenceSafe(row.rating, evidence)
    && (row.rating.status != NotAssessable ==>
          RegistryId(row.shift) in row.rating.evidenceIds && RegistryId(row.shift) in evidence)
  }

  predicate OnePerShift(rows: seq<StrategyRow>) {
    |rows| == |SHIFTS| && forall i :: 0 <= i < |SHIFTS| ==> rows[i].shift == SHIFTS[i]
  }
}
