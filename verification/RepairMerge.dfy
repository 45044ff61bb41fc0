/**
 Merging a model's repair draft with the review it repairs: which assessment rows survive, which are
 replaced and which are added. The draft is arbitrary.
 */
module RepairMerge {
  import opened Basics
  import opened Assessments

  /** What this repair may do to rows. */
  datatype Flags = Flags(coverage: bool, newRra: bool, missingStrategy: bool)

  predicate IsCoverageRepair(original: Rating, repaired: Rating) {
    original.status == NotEvidenced && (repaired.status == NotAssessable || repaired.status == PartiallyAligned)
  }

  function MissingCoverageRating(repaired: Rating): Rating {
    if repaired.status == NotAssessable then repaired.(evidenceIds := []) else repaired
  }

  function CoverageRating(original: Rating, repaired: Rating, originalSafe: bool): Option<Rating> {
    if repaired.status == PartiallyAligned && !originalSafe then None
    else Some(repaired.(evidenceIds := if repaired.status == NotAssessable then [] else original.evidenceIds))
  }

  // ---- driver assessments ----

  /** The first usable downgrade the draft offers for `original`. */
  function FirstRepair(rows: seq<RraRow>, original: RraRow, evidence: set<string>): Option<RraRow> {
    if rows == [] then None
    else if rows[0].id == original.id && EvidenceSafe(rows[0].rating, evidence)
            && IsCoverageRepair(original.rating, rows[0].rating) then Some(rows[0])
    else FirstRepair(rows[1..], original, evidence)
  }

  function Downgrade(original: RraRow, drafts: seq<RraRow>, evidence: set<string>): Option<RraRow> {
    match FirstRepair(drafts, original, evidence)
    case None => None
    case Some(repaired) =>
      match CoverageRating(original.rating, repaired.rating, EvidenceSafe(original.rating, evidence))
      case None => None
      case Some(rating) => Some(repaired.(rating := rating))
  }

  predicate Downgradable(original: RraRow, flags: Flags) {
    flags.coverage && original.rating.status == NotEvidenced
  }

  /** What becomes of one original row. */
  function Kept(original: RraRow, drafts: seq<RraRow>, evidence: set<string>, flags: Flags): seq<RraRow> {
    if Downgradable(original, flags) && Downgrade(original, drafts, evidence).Some? then
      [Downgrade(original, drafts, evidence).value]
    else if EvidenceSafe(original.rating, evidence) then [original]
    else []
  }

  function KeptAll(originals: seq<RraRow>, drafts: seq<RraRow>, evidence: set<string>, flags: Flags): seq<RraRow> {
    if originals == [] then []
    else Kept(originals[0], drafts, evidence, flags) + KeptAll(originals[1..], drafts, evidence, flags)
  }

  /** Identities the draft may no longer add: rows that were kept, and absence claims being repaired. */
  function Uses(original: RraRow, drafts: seq<RraRow>, evidence: set<string>, flags: Flags): set<string> {
    if Kept(original, drafts, evidence, flags) != [] || Downgradable(original, flags) then {original.id} else {}
  }

  function UsedIds(originals: seq<RraRow>, drafts: seq<RraRow>, evidence: set<string>, flags: Flags): set<string> {
    if originals == [] then {}
    else Uses(originals[0], drafts, evidence, flags) + UsedIds(originals[1..], drafts, evidence, flags)
  }

  function RowIds(rows: seq<RraRow>): (ids: set<string>)
    ensures forall id :: id in ids <==> exists i :: 0 <= i < |rows| && rows[i].id == id
  {
    set i | 0 <= i < |rows| :: rows[i].id
  }

  /** What one draft row adds. */
  function Added(row: RraRow, used: set<string>, known: set<string>, evidence: set<string>, flags: Flags): seq<RraRow> {
    if flags.coverage && row.id !in known && !flags.newRra then []
    else if row.id in used || !EvidenceSafe(row.rating, evidence) then []
    else if flags.newRra && row.id !in known then [row.(rating := MissingCoverageRating(row.rating))]
    else [row]
  }

  function AddedAll(drafts: seq<RraRow>, used: set<string>, known: set<string>, evidence: set<string>, flags: Flags)
    : seq<RraRow>
  {
    if drafts == [] then []
    else
      var added := Added(drafts[0], used, known, evidence, flags);
      added + AddedAll(drafts[1..], if added == [] then used else used + {drafts[0].id}, known, evidence, flags)
  }

  function Merged(originals: seq<RraRow>, drafts: seq<RraRow>, evidence: set<string>, flags: Flags): seq<RraRow> {
    KeptAll(originals, drafts, evidence, flags)
    + AddedAll(drafts, UsedIds(originals, drafts, evidence, flags), RowIds(originals), evidence, flags)
  }

  method FindRepair(drafts: seq<RraRow>, original: RraRow, evidence: set<string>) returns (r: Option<RraRow>)
    ensures r == FirstRepair(drafts, original, evidence)
  {
    for i := 0 to |drafts|
      invariant FirstRepair(drafts[i..], original, evidence) == FirstRepair(drafts, original, evidence)
    {
      assert drafts[i..][1..] == drafts[i + 1..];
      if drafts[i].id == original.id && EvidenceSafe(drafts[i].rating, evidence)
        && IsCoverageRepair(original.rating, drafts[i].rating) {
        return Some(drafts[i]);
      }
    }
    return None;
  }

  method FindDowngrade(original: RraRow, drafts: seq<RraRow>, evidence: set<string>) returns (r: Option<RraRow>)
    ensures r == Downgrade(original, drafts, evidence)
  {
    r := None;
    var repaired := FindRepair(drafts, original, evidence);
    if repaired.Some? {
      var rating := CoverageRating(original.rating, repaired.value.rating, EvidenceSafe(original.rating, evidence));
      if rating.Some? {
        r := Some(repaired.value.(rating := rating.value));
      }
    }
  }

  lemma NextKept(originals: seq<RraRow>, i: nat, drafts: seq<RraRow>, evidence: set<string>, flags: Flags,
                 merged: seq<RraRow>, used: set<string>)
    requires i < |originals|
    ensures merged + KeptAll(originals[i..], drafts, evidence, flags)
         == merged + Kept(originals[i], drafts, evidence, flags) + KeptAll(originals[i + 1..], drafts, evidence, flags)
    ensures used + UsedIds(originals[i..], drafts, evidence, flags)
         == used + Uses(originals[i], drafts, evidence, flags) + UsedIds(originals[i + 1..], drafts, evidence, flags)
  {
    hide Kept, Uses;
    assert originals[i..][1..] == originals[i + 1..];
  }

  method KeepOriginal(original: RraRow, drafts: seq<RraRow>, evidence: set<string>, flags: Flags,
                      merged: seq<RraRow>, used: set<string>)
    returns (merged': seq<RraRow>, used': set<string>)
    ensures merged' == merged + Kept(original, drafts, evidence, flags)
    ensures used' == used + Uses(original, drafts, evidence, flags)
  {
    hide Downgrade, EvidenceSafe;
    merged', used' := merged, used;
    var safe := EvidenceSafe(original.rating, evidence);
    var normalized: Option<RraRow> := None;
    if flags.coverage && original.rating.status == NotEvidenced {
      normalized := FindDowngrade(original, drafts, evidence);
      if normalized.Some? || !safe {
        used' := used' + {original.id};
      }
    }
    if normalized.Some? {
      merged' := merged' + [normalized.value];
    } else if safe {
      merged', used' := merged' + [original], used' + {original.id};
    }
  }

  method KeepOriginals(originals: seq<RraRow>, drafts: seq<RraRow>, evidence: set<string>, flags: Flags)
    returns (merged: seq<RraRow>, used: set<string>)
    ensures merged == KeptAll(originals, drafts, evidence, flags)
    ensures used == UsedIds(originals, drafts, evidence, flags)
  {
    hide Kept, Uses;
    merged, used := [], {};
    assert originals[0..] == originals;
    for i := 0 to |originals|
      invariant merged + KeptAll(originals[i..], drafts, evidence, flags) == KeptAll(originals, drafts, evidence, flags)
      invariant used + UsedIds(originals[i..], drafts, evidence, flags) == UsedIds(originals, drafts, evidence, flags)
    {
      NextKept(originals, i, drafts, evidence, flags, merged, used);
      merged, used := KeepOriginal(originals[i], drafts, evidence, flags, merged, used);
    }
    assert originals[|originals|..] == [] && merged + [] == merged;
  }

  lemma NextAdded(drafts: seq<RraRow>, i: nat, used: set<string>, known: set<string>, evidence: set<string>, flags: Flags,
                  merged: seq<RraRow>)
    requires i < |drafts|
    ensures var added := Added(drafts[i], used, known, evidence, flags);
            merged + AddedAll(drafts[i..], used, known, evidence, flags)
            == merged + added
               + AddedAll(drafts[i + 1..], if added == [] then used else used + {drafts[i].id}, known, evidence, flags)
  {
    hide Added;
    assert drafts[i..][1..] == drafts[i + 1..];
  }

  method MergeRra(originals: seq<RraRow>, drafts: seq<RraRow>, evidence: set<string>, flags: Flags)
    returns (merged: seq<RraRow>)
    ensures merged == Merged(originals, drafts, evidence, flags)
  {
    var used: set<string>;
    var known := RowIds(originals);
    merged, used := KeepOriginals(originals, drafts, evidence, flags);
    ghost var all := Merged(originals, drafts, evidence, flags);
    assert drafts[0..] == drafts;
    hide AddedAll, Merged, EvidenceSafe, RowIds;
    for i := 0 to |drafts|
      invariant merged + AddedAll(drafts[i..], used, known, evidence, flags) == all
    {
      var row := drafts[i];
      NextAdded(drafts, i, used, known, evidence, flags, merged);
      if !(flags.coverage && row.id !in known && !flags.newRra)
        && row.id !in used && EvidenceSafe(row.rating, evidence) {
        var rating := if flags.newRra && row.id !in known then MissingCoverageRating(row.rating) else row.rating;
        merged, used := merged + [row.(rating := rating)], used + {row.id};
      } else {
        assert merged + [] == merged;
      }
    }
    NoneAdded(drafts, used, known, evidence, flags, merged);
  }

  lemma NoneAdded(drafts: seq<RraRow>, used: set<string>, known: set<string>, evidence: set<string>, flags: Flags,
                  merged: seq<RraRow>)
    ensures merged + AddedAll(drafts[|drafts|..], used, known, evidence, flags) == merged
  {
    assert drafts[|drafts|..] == [];
  }

  lemma {:induction false} FirstRepairFits(drafts: seq<RraRow>, original: RraRow, evidence: set<string>)
    ensures var r := FirstRepair(drafts, original, evidence);
            r.Some? ==> r.value in drafts && r.value.id == original.id && EvidenceSafe(r.value.rating, evidence)
                        && IsCoverageRepair(original.rating, r.value.rating)
  {
    if drafts != [] {
      FirstRepairFits(drafts[1..], original, evidence);
    }
  }

  /** A downgrade of an absence claim. */
  predicate Downgraded(original: Rating, result: Rating) {
    original.status == NotEvidenced
    && (|| (result.status == NotAssessable && result.evidenceIds == [])
        || (result.status == PartiallyAligned && result.evidenceIds == original.evidenceIds))
  }

  predicate AllRraOk(rows: seq<RraRow>) {
    forall i :: 0 <= i < |rows| ==> RraOk(rows[i])
  }

  predicate AllRraSafe(rows: seq<RraRow>, evidence: set<string>) {
    forall i :: 0 <= i < |rows| ==> EvidenceSafe(rows[i].rating, evidence)
  }

  lemma DowngradeFits(original: RraRow, drafts: seq<RraRow>, evidence: set<string>)
    requires RraOk(original) && AllRraOk(drafts)
    ensures var r := Downgrade(original, drafts, evidence);
            r.Some? ==> r.value.id == original.id && Downgraded(original.rating, r.value.rating)
                        && RraOk(r.value) && EvidenceSafe(r.value.rating, evidence)
  {
    FirstRepairFits(drafts, original, evidence);
  }

  lemma {:induction false} KeptAllFits(originals: seq<RraRow>, drafts: seq<RraRow>, evidence: set<string>, flags: Flags)
    requires AllRraOk(originals) && AllRraOk(drafts)
    ensures var kept := KeptAll(originals, drafts, evidence, flags);
            AllRraOk(kept) && AllRraSafe(kept, evidence)
  {
    if originals != [] {
      DowngradeFits(originals[0], drafts, evidence);
      KeptAllFits(originals[1..], drafts, evidence, flags);
      hide Downgrade, RraOk, EvidenceSafe;
    }
  }

  lemma {:induction false} AddedAllFits(
      drafts: seq<RraRow>, used: set<string>, known: set<string>, evidence: set<string>, flags: Flags)
    requires AllRraOk(drafts)
    ensures var added := AddedAll(drafts, used, known, evidence, flags);
            AllRraOk(added) && AllRraSafe(added, evidence)
  {
    if drafts != [] {
      var added := Added(drafts[0], used, known, evidence, flags);
      AddedAllFits(drafts[1..], if added == [] then used else used + {drafts[0].id}, known, evidence, flags);
    }
  }

  /** Whatever the draft says, merged rows meet their contract and cite only available evidence. */
  lemma MergedFits(originals: seq<RraRow>, drafts: seq<RraRow>, evidence: set<string>, flags: Flags)
    requires AllRraOk(originals) && AllRraOk(drafts)
    ensures var merged := Merged(originals, drafts, evidence, flags);
            AllRraOk(merged) && AllRraSafe(merged, evidence)
  {
    KeptAllFits(originals, drafts, evidence, flags);
    AddedAllFits(drafts, UsedIds(originals, drafts, evidence, flags), RowIds(originals), evidence, flags);
  }

  // ---- what the draft does contribute ----

  /** The draft row a downgrade is taken from. */
  predicate Offers(row: RraRow, original: RraRow, evidence: set<string>) {
    && row.id == original.id && EvidenceSafe(row.rating, evidence)
    && original.rating.status == NotEvidenced
    && (row.rating.status == NotAssessable || row.rating.status == PartiallyAligned)
  }

  lemma {:induction false} FirstRepairIs(drafts: seq<RraRow>, original: RraRow, evidence: set<string>, k: nat)
    requires k < |drafts| && Offers(drafts[k], original, evidence)
    requires forall i :: 0 <= i < k ==> !Offers(drafts[i], original, evidence)
    ensures FirstRepair(drafts, original, evidence) == Some(drafts[k])
  {
    if k > 0 {
      assert !Offers(drafts[0], original, evidence);
      FirstRepairIs(drafts[1..], original, evidence, k - 1);
    }
  }

  /**
   Under a coverage repair, an absence claim the draft downgrades is downgraded: the first usable offer is
   taken, whole but for its citations, unless it rests on original evidence that is itself unavailable.
   */
  lemma OfferIsTaken(original: RraRow, drafts: seq<RraRow>, evidence: set<string>, flags: Flags, k: nat)
    requires flags.coverage && k < |drafts| && Offers(drafts[k], original, evidence)
    requires forall i :: 0 <= i < k ==> !Offers(drafts[i], original, evidence)
    ensures var kept := Kept(original, drafts, evidence, flags);
            if drafts[k].rating.status == PartiallyAligned && !EvidenceSafe(original.rating, evidence) then kept == []
            else |kept| == 1 && kept[0].id == original.id && kept[0].text == drafts[k].text
                 && kept[0].rating.status == drafts[k].rating.status && kept[0].rating.confidence == drafts[k].rating.confidence
                 && kept[0].rating.gapLocus == drafts[k].rating.gapLocus
                 && Downgraded(original.rating, kept[0].rating)
  {
    FirstRepairIs(drafts, original, evidence, k);
  }

  /** Without an offer a supported row stays as it was, and an unsupported one goes. */
  lemma NoOfferNoChange(original: RraRow, drafts: seq<RraRow>, evidence: set<string>, flags: Flags)
    requires !flags.coverage || forall i :: 0 <= i < |drafts| ==> !Offers(drafts[i], original, evidence)
    ensures Kept(original, drafts, evidence, flags) == if EvidenceSafe(original.rating, evidence) then [original] else []
  {
    FirstRepairFits(drafts, original, evidence);
    var r := FirstRepair(drafts, original, evidence);
    if r.Some? && flags.coverage {
      assert Offers(r.value, original, evidence);
      assert false;
    }
  }

  /** The draft may not add under the identity of a kept row or of an absence claim under repair, and of no other row. */
  lemma {:induction false} UsedExactly(
      originals: seq<RraRow>, drafts: seq<RraRow>, evidence: set<string>, flags: Flags, id: string)
    ensures id in UsedIds(originals, drafts, evidence, flags)
            <==> exists i :: 0 <= i < |originals| && originals[i].id == id
                             && (Kept(originals[i], drafts, evidence, flags) != []
                                 || (flags.coverage && originals[i].rating.status == NotEvidenced))
  {
    hide Kept;
    if originals != [] {
      UsedExactly(originals[1..], drafts, evidence, flags, id);
      assert forall i :: 0 < i < |originals| ==> originals[i] == originals[1..][i - 1];
    }
  }

  /** Whether a draft row may be added at all: supported, under an unused identity, and new only where new rows are allowed. */
  predicate MayAdd(row: RraRow, used: set<string>, known: set<string>, evidence: set<string>, flags: Flags) {
    EvidenceSafe(row.rating, evidence) && row.id !in used && (flags.coverage && !flags.newRra ==> row.id in known)
  }

  function AsAdded(row: RraRow, known: set<string>, flags: Flags): RraRow {
    if flags.newRra && row.id !in known && row.rating.status == NotAssessable
    then row.(rating := row.rating.(evidenceIds := []))
    else row
  }

  /**
   Of the draft rows that may be added exactly the first of each identity is added, and only its citations
   can change, to none where nothing was assessed.
   */
  lemma {:induction false} AddedExactly(
      drafts: seq<RraRow>, used: set<string>, known: set<string>, evidence: set<string>, flags: Flags, k: nat)
    requires k < |drafts|
    requires forall i :: 0 <= i < k ==> drafts[i].id != drafts[k].id || !MayAdd(drafts[i], used, known, evidence, flags)
    ensures var added := AddedAll(drafts, used, known, evidence, flags);
            && (MayAdd(drafts[k], used, known, evidence, flags) ==> AsAdded(drafts[k], known, flags) in added)
            && (forall row :: row in added ==>
                  exists i :: 0 <= i < |drafts| && row == AsAdded(drafts[i], known, flags)
                              && MayAdd(drafts[i], used, known, evidence, flags))
            && (forall i, j :: 0 <= i < j < |added| ==> added[i].id != added[j].id)
  {
    AddedFrom(drafts, used, known, evidence, flags);
    AddedFirst(drafts, used, known, evidence, flags, k);
  }

  lemma AddedIs(row: RraRow, used: set<string>, known: set<string>, evidence: set<string>, flags: Flags)
    ensures Added(row, used, known, evidence, flags)
         == if MayAdd(row, used, known, evidence, flags) then [AsAdded(row, known, flags)] else []
  {
    hide EvidenceSafe;
  }

  lemma SameIdentity(known: set<string>, flags: Flags)
    ensures forall row: RraRow :: AsAdded(row, known, flags).id == row.id
  {
  }

  lemma {:induction false} AddedFrom(
      drafts: seq<RraRow>, used: set<string>, known: set<string>, evidence: set<string>, flags: Flags)
    ensures var added := AddedAll(drafts, used, known, evidence, flags);
            && (forall row :: row in added ==>
                  exists i :: 0 <= i < |drafts| && row == AsAdded(drafts[i], known, flags)
                              && MayAdd(drafts[i], used, known, evidence, flags))
            && (forall row :: row in added ==> row.id !in used)
            && (forall i, j :: 0 <= i < j < |added| ==> added[i].id != added[j].id)
  {
    if drafts != [] {
      var first := Added(drafts[0], used, known, evidence, flags);
      var used' := if first == [] then used else used + {drafts[0].id};
      var rest := AddedAll(drafts[1..], used', known, evidence, flags);
      AddedFrom(drafts[1..], used', known, evidence, flags);
      AddedIs(drafts[0], used, known, evidence, flags);
      SameIdentity(known, flags);
      hide Added, AsAdded, EvidenceSafe;
      forall row | row in rest
        ensures exists i :: 0 <= i < |drafts| && row == AsAdded(drafts[i], known, flags)
                            && MayAdd(drafts[i], used, known, evidence, flags)
      {
        var i :| 0 <= i < |drafts[1..]| && row == AsAdded(drafts[1..][i], known, flags)
                 && MayAdd(drafts[1..][i], used', known, evidence, flags);
        assert drafts[1..][i] == drafts[i + 1];
      }
      assert forall j :: 0 <= j < |rest| ==> rest[j] in rest;
    }
  }

  lemma {:induction false} AddedFirst(
      drafts: seq<RraRow>, used: set<string>, known: set<string>, evidence: set<string>, flags: Flags, k: nat)
    requires k < |drafts|
    requires forall i :: 0 <= i < k ==> drafts[i].id != drafts[k].id || !MayAdd(drafts[i], used, known, evidence, flags)
    ensures MayAdd(drafts[k], used, known, evidence, flags) ==>
              AsAdded(drafts[k], known, flags) in AddedAll(drafts, used, known, evidence, flags)
  {
    if k > 0 && MayAdd(drafts[k], used, known, evidence, flags) {
      var first := Added(drafts[0], used, known, evidence, flags);
      var used' := if first == [] then used else used + {drafts[0].id};
      AddedIs(drafts[0], used, known, evidence, flags);
      SameIdentity(known, flags);
      hide Added, AsAdded, EvidenceSafe;
      assert forall i :: 0 <= i < k - 1 ==> drafts[1..][i] == drafts[i + 1];
      AddedFirst(drafts[1..], used', known, evidence, flags, k - 1);
    }
  }
}
