/**
 One strategy row for every strategic shift, whatever rows the review and the repair draft hold. The
 exception is a review that already held several rows for one shift; when that matters is proved below.
 */
module RepairStrategy {
  import opened Basics
  import opened Assessments
  import opened RepairMerge

  function FirstOf(rows: seq<StrategyRow>, shift: Shift): Option<StrategyRow> {
    if rows == [] then None
    else if rows[0].shift == shift then Some(rows[0])
    else FirstOf(rows[1..], shift)
  }

  function FirstSafe(rows: seq<StrategyRow>, shift: Shift, evidence: set<string>): Option<StrategyRow> {
    if rows == [] then None
    else if rows[0].shift == shift && StrategySafe(rows[0], evidence) then Some(rows[0])
    else FirstSafe(rows[1..], shift, evidence)
  }

  function ShiftName(shift: Shift): string {
    match shift
    case AnticipateBetter => "anticipate_better"
    case DifferentiatedApproach => "differentiated_approach"
    case OneWbgJobs => "one_wbg_jobs"
    case ToolkitPartnershipsStaffing => "toolkit_partnerships_staffing"
  }

  const UNAVAILABLE :=
    "This strategic shift was not assessable " + "after validation repair because "
    + "a complete model-authored row was unavailable."

  function Fallback(shift: Shift): StrategyRow {
    StrategyRow("repair-strategy-" + ShiftName(shift), shift, UNAVAILABLE, Rating(NotAssessable, Low, None, []))
  }

  function OrElse(row: Option<StrategyRow>, other: StrategyRow): StrategyRow {
    if row.Some? then row.value else other
  }

  /** A repair may not answer for another row than the original's first. */
  predicate IdentityMismatch(raw: Option<StrategyRow>, repaired: Option<StrategyRow>, flags: Flags) {
    flags.coverage
    && ((raw.None? && !flags.missingStrategy) || (repaired.Some? && raw.Some? && raw.value.id != repaired.value.id))
  }

  /** The draft's downgrade of the original's first row, when it offers a usable one. */
  function StrategyDowngrade(raw: StrategyRow, repaired: Option<StrategyRow>, safe: bool): Option<StrategyRow> {
    if repaired.Some? && IsCoverageRepair(raw.rating, repaired.value.rating) then
      match CoverageRating(raw.rating, repaired.value.rating, safe)
      case None => None
      case Some(rating) => Some(repaired.value.(rating := rating))
    else None
  }

  function Chosen(shift: Shift, raw: Option<StrategyRow>, original: Option<StrategyRow>,
                  repaired: Option<StrategyRow>, flags: Flags): StrategyRow
  {
    if IdentityMismatch(raw, repaired, flags) then OrElse(original, Fallback(shift))
    else if flags.missingStrategy && raw.None? && repaired.Some? then
      repaired.value.(rating := MissingCoverageRating(repaired.value.rating))
    else if flags.coverage && raw.Some? && raw.value.rating.status == NotEvidenced then
      OrElse(StrategyDowngrade(raw.value, repaired, original.Some?), OrElse(original, Fallback(shift)))
    else OrElse(original, OrElse(repaired, Fallback(shift)))
  }

  function StrategyFor(shift: Shift, originals: seq<StrategyRow>, drafts: seq<StrategyRow>,
                       evidence: set<string>, flags: Flags): StrategyRow
  {
    Chosen(shift, FirstOf(originals, shift), FirstSafe(originals, shift, evidence),
           FirstSafe(drafts, shift, evidence), flags)
  }

  function Normalized(shifts: seq<Shift>, originals: seq<StrategyRow>, drafts: seq<StrategyRow>,
                      evidence: set<string>, flags: Flags): (rows: seq<StrategyRow>)
    ensures |rows| == |shifts|
    ensures forall i :: 0 <= i < |shifts| ==> rows[i] == StrategyFor(shifts[i], originals, drafts, evidence, flags)
  {
    if shifts == [] then []
    else Normalized(shifts[..|shifts| - 1], originals, drafts, evidence, flags)
         + [StrategyFor(shifts[|shifts| - 1], originals, drafts, evidence, flags)]
  }

  method FindRows(rows: seq<StrategyRow>, shift: Shift, evidence: set<string>)
    returns (first: Option<StrategyRow>, safe: Option<StrategyRow>)
    ensures first == FirstOf(rows, shift) && safe == FirstSafe(rows, shift, evidence)
  {
    hide StrategySafe;
    first, safe := None, None;
    assert rows[|rows|..] == [];
    for i := |rows| downto 0
      invariant first == FirstOf(rows[i..], shift) && safe == FirstSafe(rows[i..], shift, evidence)
    {
      assert rows[i..][1..] == rows[i + 1..];
      if rows[i].shift == shift {
        first := Some(rows[i]);
        if StrategySafe(rows[i], evidence) {
          safe := Some(rows[i]);
        }
      }
    }
    assert rows[0..] == rows;
  }

  method NormalizeStrategy(originals: seq<StrategyRow>, drafts: seq<StrategyRow>, evidence: set<string>, flags: Flags)
    returns (rows: seq<StrategyRow>)
    ensures rows == Normalized(SHIFTS, originals, drafts, evidence, flags)
  {
    hide FirstOf, FirstSafe, Fallback, MissingCoverageRating, CoverageRating;
    rows := [];
    for i := 0 to |SHIFTS|
      invariant rows == Normalized(SHIFTS[..i], originals, drafts, evidence, flags)
    {
      var shift := SHIFTS[i];
      assert SHIFTS[..i + 1][..i] == SHIFTS[..i];
      var raw, original := FindRows(originals, shift, evidence);
      var _, repaired := FindRows(drafts, shift, evidence);
      var row: StrategyRow;
      if flags.coverage
        && ((raw.None? && !flags.missingStrategy) || (repaired.Some? && raw.Some? && raw.value.id != repaired.value.id)) {
        row := OrElse(original, Fallback(shift));
      } else if flags.missingStrategy && raw.None? && repaired.Some? {
        row := repaired.value.(rating := MissingCoverageRating(repaired.value.rating));
      } else if flags.coverage && raw.Some? && raw.value.rating.status == NotEvidenced {
        row := OrElse(original, Fallback(shift));
        if repaired.Some? && IsCoverageRepair(raw.value.rating, repaired.value.rating) {
          var rating := CoverageRating(raw.value.rating, repaired.value.rating, original.Some?);
          if rating.Some? {
            row := repaired.value.(rating := rating.value);
          }
        }
      } else {
        row := OrElse(original, OrElse(repaired, Fallback(shift)));
      }
      assert row == StrategyFor(shift, originals, drafts, evidence, flags);
      rows := rows + [row];
    }
    assert SHIFTS[..|SHIFTS|] == SHIFTS;
  }

  // ---- what every chosen row is ----

  predicate AllStrategyOk(rows: seq<StrategyRow>) {
    forall i :: 0 <= i < |rows| ==> StrategyOk(rows[i])
  }

  lemma {:induction false} FirstOfFits(rows: seq<StrategyRow>, shift: Shift)
    ensures FirstOf(rows, shift).Some? ==> FirstOf(rows, shift).value.shift == shift && FirstOf(rows, shift).value in rows
    ensures FirstOf(rows, shift).None? <==> forall i :: 0 <= i < |rows| ==> rows[i].shift != shift
  {
    if rows != [] {
      FirstOfFits(rows[1..], shift);
      assert forall i :: 0 < i < |rows| ==> rows[i] == rows[1..][i - 1];
    }
  }

  lemma {:induction false} FirstSafeFits(rows: seq<StrategyRow>, shift: Shift, evidence: set<string>)
    ensures var r := FirstSafe(rows, shift, evidence);
            && (r.Some? ==> r.value.shift == shift && r.value in rows && StrategySafe(r.value, evidence))
            && (r.None? <==> forall i :: 0 <= i < |rows| && rows[i].shift == shift ==> !StrategySafe(rows[i], evidence))
  {
    hide StrategySafe;
    if rows != [] {
      FirstSafeFits(rows[1..], shift, evidence);
      assert forall i :: 0 < i < |rows| ==> rows[i] == rows[1..][i - 1];
    }
  }

  lemma FallbackFits(shift: Shift, evidence: set<string>)
    ensures StrategyOk(Fallback(shift)) && StrategySafe(Fallback(shift), evidence) && Fallback(shift).shift == shift
  {
    var row := Fallback(shift);
    assert row.id[0] == 'r' && row.text[0] == 'T';
  }

  /** The row for a shift is about that shift and meets the row contract, whatever the draft says. */
  lemma StrategyRowFits(shift: Shift, originals: seq<StrategyRow>, drafts: seq<StrategyRow>,
                        evidence: set<string>, flags: Flags)
    requires AllStrategyOk(originals) && AllStrategyOk(drafts)
    ensures var row := StrategyFor(shift, originals, drafts, evidence, flags);
            row.shift == shift && StrategyOk(row)
  {
    hide FirstOf, FirstSafe, Fallback, StrategySafe, Nonblank;
    FirstOfFits(originals, shift);
    FirstSafeFits(originals, shift, evidence);
    FirstSafeFits(drafts, shift, evidence);
    FallbackFits(shift, evidence);
  }

  // ---- when it is safe ----

  /**
   The review's first row for the shift is an unsafe absence claim, and a later row for the same shift
   is safe: the one row then vouches for the other's evidence.
   */
  predicate Ambiguous(shift: Shift, originals: seq<StrategyRow>, evidence: set<string>) {
    var raw := FirstOf(originals, shift);
    raw.Some? && raw.value.rating.status == NotEvidenced && !StrategySafe(raw.value, evidence)
    && FirstSafe(originals, shift, evidence).Some?
  }

  /** At most one original row for the shift leaves no ambiguity. */
  lemma SingleIsUnambiguous(shift: Shift, originals: seq<StrategyRow>, evidence: set<string>)
    requires forall i, j :: 0 <= i < j < |originals| ==> !(originals[i].shift == shift && originals[j].shift == shift)
    ensures !Ambiguous(shift, originals, evidence)
  {
    FirstOfFits(originals, shift);
    FirstSafeFits(originals, shift, evidence);
  }

  lemma UnambiguousIsSafe(shift: Shift, originals: seq<StrategyRow>, drafts: seq<StrategyRow>,
                          evidence: set<string>, flags: Flags)
    requires !(Ambiguous(shift, originals, evidence) && RegistryId(shift) in evidence)
    ensures StrategySafe(StrategyFor(shift, originals, drafts, evidence, flags), evidence)
  {
    FirstOfFits(originals, shift);
    FirstSafeFits(originals, shift, evidence);
    FirstSafeFits(drafts, shift, evidence);
    FallbackFits(shift, evidence);
    hide FirstOf, FirstSafe, Fallback;
  }

  /** The draft that turns an ambiguous shift into a row without its evidence. */
  function Adversary(raw: StrategyRow): StrategyRow {
    StrategyRow(raw.id, raw.shift, "x", Rating(PartiallyAligned, Low, Some(CpfNarrative), [RegistryId(raw.shift)]))
  }

  lemma AmbiguousCanFail(shift: Shift, originals: seq<StrategyRow>, evidence: set<string>, flags: Flags)
    requires AllStrategyOk(originals) && flags.coverage
    requires Ambiguous(shift, originals, evidence) && RegistryId(shift) in evidence
    ensures var drafts := [Adversary(FirstOf(originals, shift).value)];
            AllStrategyOk(drafts) && !StrategySafe(StrategyFor(shift, originals, drafts, evidence, flags), evidence)
  {
    var raw := FirstOf(originals, shift).value;
    FirstOfFits(originals, shift);
    var row := Adversary(raw);
    assert row.text[0] == 'x' && RegistryId(shift)[0] == 'r';
    assert StrategySafe(row, evidence) && FirstSafe([row], shift, evidence) == Some(row);
  }

  /**
   The chosen row cites available evidence, with the shift's registry entry, for every draft and every
   combination of flags exactly when the shift is not ambiguous or its registry entry is unavailable.
   */
  lemma AlwaysSafeIff(shift: Shift, originals: seq<StrategyRow>, evidence: set<string>)
    requires AllStrategyOk(originals)
    ensures (forall drafts: seq<StrategyRow>, flags: Flags :: AllStrategyOk(drafts) ==>
               StrategySafe(StrategyFor(shift, originals, drafts, evidence, flags), evidence))
            <==> !(Ambiguous(shift, originals, evidence) && RegistryId(shift) in evidence)
  {
    if Ambiguous(shift, originals, evidence) && RegistryId(shift) in evidence {
      AmbiguousCanFail(shift, originals, evidence, Flags(true, false, false));
    } else {
      forall drafts: seq<StrategyRow>, flags: Flags
        ensures StrategySafe(StrategyFor(shift, originals, drafts, evidence, flags), evidence)
      {
        UnambiguousIsSafe(shift, originals, drafts, evidence, flags);
      }
    }
  }

  // ---- what is kept ----

  /** A shift's only row, when safe, stays word for word, unless a coverage repair downgrades its absence claim. */
  lemma SafeRowIsKept(originals: seq<StrategyRow>, k: nat, drafts: seq<StrategyRow>, evidence: set<string>, flags: Flags)
    requires k < |originals| && StrategySafe(originals[k], evidence)
    requires forall i :: 0 <= i < |originals| && i != k ==> originals[i].shift != originals[k].shift
    ensures var row := StrategyFor(originals[k].shift, originals, drafts, evidence, flags);
            row.id == originals[k].id && row.shift == originals[k].shift
            && (|| (row.rating == originals[k].rating && row.text == originals[k].text)
                || (flags.coverage && Downgraded(originals[k].rating, row.rating)))
  {
    var shift := originals[k].shift;
    FirstOfFits(originals, shift);
    FirstSafeFits(originals, shift, evidence);
    FirstSafeFits(drafts, shift, evidence);
    assert FirstOf(originals, shift) == Some(originals[k]) == FirstSafe(originals, shift, evidence);
    hide FirstOf, FirstSafe, Fallback;
  }

  // ---- what the draft does contribute ----

  lemma {:induction false} FirstSafeIs(rows: seq<StrategyRow>, evidence: set<string>, k: nat)
    requires k < |rows| && StrategySafe(rows[k], evidence)
    requires forall i :: 0 <= i < k ==> rows[i].shift != rows[k].shift || !StrategySafe(rows[i], evidence)
    ensures FirstSafe(rows, rows[k].shift, evidence) == Some(rows[k])
  {
    hide StrategySafe;
    if k > 0 {
      FirstSafeIs(rows[1..], evidence, k - 1);
    }
  }

  /**
   A shift the review lacks is filled by the draft's first supported row for it, whole but for citations
   where nothing was assessed; a coverage repair may do so only when it is also asked for missing rows.
   */
  lemma MissingShiftIsFilled(originals: seq<StrategyRow>, drafts: seq<StrategyRow>, evidence: set<string>,
                             flags: Flags, k: nat)
    requires k < |drafts| && StrategySafe(drafts[k], evidence)
    requires forall i :: 0 <= i < k ==> drafts[i].shift != drafts[k].shift || !StrategySafe(drafts[i], evidence)
    requires forall i :: 0 <= i < |originals| ==> originals[i].shift != drafts[k].shift
    ensures var row := StrategyFor(drafts[k].shift, originals, drafts, evidence, flags);
            if flags.coverage && !flags.missingStrategy then row == Fallback(drafts[k].shift)
            else row.id == drafts[k].id && row.text == drafts[k].text && row.rating.status == drafts[k].rating.status
                 && (row.rating == drafts[k].rating || (row.rating.status == NotAssessable && row.rating.evidenceIds == []))
  {
    FirstSafeIs(drafts, evidence, k);
    FirstOfFits(originals, drafts[k].shift);
    FirstSafeFits(originals, drafts[k].shift, evidence);
    hide FirstOf, FirstSafe, Fallback, StrategySafe;
  }

  /** Under a coverage repair, a supported absence claim the draft downgrades under its own identity is downgraded. */
  lemma StrategyOfferIsTaken(originals: seq<StrategyRow>, j: nat, drafts: seq<StrategyRow>, evidence: set<string>,
                             flags: Flags, k: nat)
    requires flags.coverage && j < |originals| && StrategySafe(originals[j], evidence)
    requires forall i :: 0 <= i < |originals| && i != j ==> originals[i].shift != originals[j].shift
    requires k < |drafts| && drafts[k].shift == originals[j].shift && StrategySafe(drafts[k], evidence)
    requires forall i :: 0 <= i < k ==> drafts[i].shift != drafts[k].shift || !StrategySafe(drafts[i], evidence)
    requires drafts[k].id == originals[j].id && originals[j].rating.status == NotEvidenced
    requires drafts[k].rating.status == NotAssessable || drafts[k].rating.status == PartiallyAligned
    ensures var row := StrategyFor(originals[j].shift, originals, drafts, evidence, flags);
            row.text == drafts[k].text && row.rating.status == drafts[k].rating.status
            && Downgraded(originals[j].rating, row.rating)
  {
    var shift := originals[j].shift;
    FirstSafeIs(drafts, evidence, k);
    FirstOfFits(originals, shift);
    FirstSafeFits(originals, shift, evidence);
    assert FirstOf(originals, shift) == Some(originals[j]) == FirstSafe(originals, shift, evidence);
    hide FirstOf, FirstSafe, Fallback;
  }

  /** The fallback row stands in only where neither side has a supported row to keep or to take. */
  lemma FallbackOnlyWhenNothing(shift: Shift, originals: seq<StrategyRow>, drafts: seq<StrategyRow>,
                                evidence: set<string>, flags: Flags, j: nat)
    requires j < |originals| && originals[j].shift == shift && StrategySafe(originals[j], evidence)
    ensures var row := StrategyFor(shift, originals, drafts, evidence, flags);
            row in originals || exists i :: 0 <= i < |drafts| && row.id == drafts[i].id && row.text == drafts[i].text
  {
    FirstOfFits(originals, shift);
    FirstSafeFits(originals, shift, evidence);
    FirstSafeFits(drafts, shift, evidence);
    hide FirstOf, FirstSafe, Fallback, StrategySafe;
  }

  function WithEvidence(row: StrategyRow, ids: seq<string>): StrategyRow {
    row.(rating := row.rating.(evidenceIds := ids))
  }

  /**
   The row for a shift that the review lacks: the draft's first supported row, without citations where missing rows
   are asked for and nothing was assessed; none under a coverage repair that does not ask for missing rows.
   */
  lemma MissingRowIs(shift: Shift, originals: seq<StrategyRow>, drafts: seq<StrategyRow>, evidence: set<string>, flags: Flags)
    requires forall i :: 0 <= i < |originals| ==> originals[i].shift != shift
    ensures var d, row := FirstSafe(drafts, shift, evidence), StrategyFor(shift, originals, drafts, evidence, flags);
            if d.None? || (flags.coverage && !flags.missingStrategy) then row == Fallback(shift)
            else if flags.missingStrategy && d.value.rating.status == NotAssessable then row == WithEvidence(d.value, [])
            else row == d.value
  {
    FirstOfFits(originals, shift);
    FirstSafeFits(originals, shift, evidence);
    hide FirstOf, FirstSafe, Fallback;
  }

  /**
   The row for a shift that the review has: its first supported row, else, outside a coverage repair or when the
   draft keeps the name of an assessed row, the draft's, else the fallback. Under a coverage repair an absence claim gives
   way to the draft's row of the same name that assesses nothing, or that is partly aligned on the review's evidence.
   */
  lemma PresentRowIs(shift: Shift, originals: seq<StrategyRow>, drafts: seq<StrategyRow>, evidence: set<string>, flags: Flags)
    requires FirstOf(originals, shift).Some?
    ensures var o, s := FirstOf(originals, shift).value, FirstSafe(originals, shift, evidence);
            var d := FirstSafe(drafts, shift, evidence);
            var row := StrategyFor(shift, originals, drafts, evidence, flags);
            var same := d.Some? && d.value.id == o.id;
            var own := if s.Some? then s.value else Fallback(shift);
            && (!flags.coverage || (same && o.rating.status != NotEvidenced) ==>
                  row == if s.None? && d.Some? then d.value else own)
            && (flags.coverage && !same ==> row == own)
            && (flags.coverage && same && o.rating.status == NotEvidenced ==>
                  if d.value.rating.status == NotAssessable then row == WithEvidence(d.value, [])
                  else if d.value.rating.status == PartiallyAligned && s.Some?
                  then row == WithEvidence(d.value, o.rating.evidenceIds)
                  else row == own)
  {
    hide FirstOf, FirstSafe, Fallback;
  }
}
