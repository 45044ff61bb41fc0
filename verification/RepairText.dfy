/**
 Guarded wording: a repair may replace the text of a kept row only where the old text is at fault and
 the new text is not. The checks themselves are arbitrary.
 */
module RepairText {
  import opened Basics
  import opened Assessments
  import opened RepairMerge

  /** The checks in force for one repair, and the replacement of raw evidence names in narrative. */
  datatype Guard = Guard(
    forbidden: string -> bool, dateConflict: string -> bool, overclaim: string -> bool, scrub: string -> string)

  /** A scrubbed narrative is never left blank: what is cut out is replaced by words. */
  ghost predicate Sane(g: Guard) {
    forall s: string :: Nonblank(s) ==> Nonblank(g.scrub(s))
  }

  predicate Cures(g: Guard, original: string, candidate: string) {
    || (g.forbidden(original) && !g.forbidden(candidate))
    || (g.dateConflict(original) && !g.dateConflict(candidate))
    || (g.overclaim(original) && !g.overclaim(candidate))
  }

  function Clean(g: Guard, original: string, candidate: string): string {
    if Cures(g, original, candidate) then candidate else original
  }

  function CleanRraText(g: Guard, original: RraText, candidate: RraText): RraText {
    RraText(Clean(g, original.driver, candidate.driver),
            Clean(g, original.response, candidate.response),
            Clean(g, original.delivery, candidate.delivery),
            Clean(g, original.indicator, candidate.indicator),
            Clean(g, original.gap, candidate.gap))
  }

  function ScrubRraText(g: Guard, t: RraText): RraText {
    RraText(g.scrub(t.driver), g.scrub(t.response), g.scrub(t.delivery), g.scrub(t.indicator), g.scrub(t.gap))
  }

  // ---- which draft row may reword a kept row ----

  function LastRra(rows: seq<RraRow>, id: string): Option<RraRow> {
    if rows == [] then None
    else if rows[|rows| - 1].id == id then Some(rows[|rows| - 1])
    else LastRra(rows[..|rows| - 1], id)
  }

  function CountRra(rows: seq<RraRow>, id: string): nat {
    if rows == [] then 0
    else CountRra(rows[..|rows| - 1], id) + (if rows[|rows| - 1].id == id then 1 else 0)
  }

  function LastStrategy(rows: seq<StrategyRow>, shift: Shift, id: string): Option<StrategyRow> {
    if rows == [] then None
    else if rows[|rows| - 1].shift == shift && rows[|rows| - 1].id == id then Some(rows[|rows| - 1])
    else LastStrategy(rows[..|rows| - 1], shift, id)
  }

  function CountStrategy(rows: seq<StrategyRow>, shift: Shift, id: string): nat {
    if rows == [] then 0
    else CountStrategy(rows[..|rows| - 1], shift, id)
         + (if rows[|rows| - 1].shift == shift && rows[|rows| - 1].id == id then 1 else 0)
  }

  /** In limited mode an identity that is not unique on both sides authorises nothing. */
  function RewordedRra(row: RraRow, rows: seq<RraRow>, drafts: seq<RraRow>, g: Guard, limited: bool): RraRow {
    var candidate := LastRra(drafts, row.id);
    if candidate.None? || (limited && !(CountRra(rows, row.id) == 1 && CountRra(drafts, row.id) == 1)) then row
    else row.(text := CleanRraText(g, row.text, candidate.value.text))
  }

  function RewordedStrategy(row: StrategyRow, rows: seq<StrategyRow>, drafts: seq<StrategyRow>, g: Guard, limited: bool)
    : StrategyRow
  {
    var candidate := LastStrategy(drafts, row.shift, row.id);
    if candidate.None?
       || (limited && !(CountStrategy(rows, row.shift, row.id) == 1 && CountStrategy(drafts, row.shift, row.id) == 1))
    then row
    else row.(text := Clean(g, row.text, candidate.value.text))
  }

  function RewordRra(rows: seq<RraRow>, drafts: seq<RraRow>, g: Guard, limited: bool): (r: seq<RraRow>)
    ensures |r| == |rows|
  {
    seq(|rows|, i requires 0 <= i < |rows| => RewordedRra(rows[i], rows, drafts, g, limited))
  }

  function RewordStrategy(rows: seq<StrategyRow>, drafts: seq<StrategyRow>, g: Guard, limited: bool): (r: seq<StrategyRow>)
    ensures |r| == |rows|
  {
    seq(|rows|, i requires 0 <= i < |rows| => RewordedStrategy(rows[i], rows, drafts, g, limited))
  }

  function ScrubRra(rows: seq<RraRow>, g: Guard): (r: seq<RraRow>)
    ensures |r| == |rows|
  {
    seq(|rows|, i requires 0 <= i < |rows| => rows[i].(text := ScrubRraText(g, rows[i].text)))
  }

  function ScrubStrategy(rows: seq<StrategyRow>, g: Guard): (r: seq<StrategyRow>)
    ensures |r| == |rows|
  {
    seq(|rows|, i requires 0 <= i < |rows| => rows[i].(text := g.scrub(rows[i].text)))
  }

  // ---- what rewording may do ----

  datatype Fault = ForbiddenPhrase | ConflictingDate | LimitedOverclaim

  predicate HasFault(g: Guard, s: string, fault: Fault) {
    match fault
    case ForbiddenPhrase => g.forbidden(s)
    case ConflictingDate => g.dateConflict(s)
    case LimitedOverclaim => g.overclaim(s)
  }

  /** Some fault of the one text is not one of the other. */
  predicate Improves(g: Guard, original: string, candidate: string) {
    exists fault :: HasFault(g, original, fault) && !HasFault(g, candidate, fault)
  }

  lemma CuresIs(g: Guard, original: string, candidate: string)
    ensures Cures(g, original, candidate) <==> Improves(g, original, candidate)
  {
    assert g.forbidden(original) == HasFault(g, original, ForbiddenPhrase);
    assert g.dateConflict(original) == HasFault(g, original, ConflictingDate);
    assert g.overclaim(original) == HasFault(g, original, LimitedOverclaim);
    assert g.forbidden(candidate) == HasFault(g, candidate, ForbiddenPhrase);
    assert g.dateConflict(candidate) == HasFault(g, candidate, ConflictingDate);
    assert g.overclaim(candidate) == HasFault(g, candidate, LimitedOverclaim);
  }

  /** The old text, or a text without some fault of it. */
  predicate Permitted(g: Guard, original: string, t: string) {
    t == original || Improves(g, original, t)
  }

  /** A permitted text, scrubbed or not. */
  ghost predicate TextKept(g: Guard, original: string, result: string) {
    exists t: string :: Permitted(g, original, t) && (result == t || result == g.scrub(t))
  }

  ghost predicate RraTextKept(g: Guard, original: RraText, result: RraText) {
    && TextKept(g, original.driver, result.driver)
    && TextKept(g, original.response, result.response)
    && TextKept(g, original.delivery, result.delivery)
    && TextKept(g, original.indicator, result.indicator)
    && TextKept(g, original.gap, result.gap)
  }

  lemma CleanThenScrub(g: Guard, original: string, candidate: string)
    ensures TextKept(g, original, Clean(g, original, candidate))
    ensures TextKept(g, original, g.scrub(Clean(g, original, candidate)))
    ensures TextKept(g, original, original) && TextKept(g, original, g.scrub(original))
  {
    CuresIs(g, original, candidate);
    assert Permitted(g, original, original);
    assert Permitted(g, original, Clean(g, original, candidate));
  }

  lemma RraTextIsKept(g: Guard, original: RraText, candidate: RraText)
    ensures RraTextKept(g, original, CleanRraText(g, original, candidate))
    ensures RraTextKept(g, original, ScrubRraText(g, CleanRraText(g, original, candidate)))
    ensures RraTextKept(g, original, original) && RraTextKept(g, original, ScrubRraText(g, original))
  {
    CleanThenScrub(g, original.driver, candidate.driver);
    CleanThenScrub(g, original.response, candidate.response);
    CleanThenScrub(g, original.delivery, candidate.delivery);
    CleanThenScrub(g, original.indicator, candidate.indicator);
    CleanThenScrub(g, original.gap, candidate.gap);
    hide TextKept, Clean;
  }

  lemma {:induction false} LastRraFits(rows: seq<RraRow>, id: string)
    ensures LastRra(rows, id).Some? ==> LastRra(rows, id).value in rows && LastRra(rows, id).value.id == id
  {
    if rows != [] {
      LastRraFits(rows[..|rows| - 1], id);
    }
  }

  lemma {:induction false} LastStrategyFits(rows: seq<StrategyRow>, shift: Shift, id: string)
    ensures LastStrategy(rows, shift, id).Some? ==> LastStrategy(rows, shift, id).value in rows
  {
    if rows != [] {
      LastStrategyFits(rows[..|rows| - 1], shift, id);
    }
  }

  /** Rewording and scrubbing touch only text, keep the row contract and change text only as the guard allows. */
  lemma RewordedRraFits(row: RraRow, rows: seq<RraRow>, drafts: seq<RraRow>, g: Guard, limited: bool)
    requires RraOk(row) && AllRraOk(drafts) && Sane(g)
    ensures var r := RewordedRra(row, rows, drafts, g, limited);
            && r.id == row.id && r.rating == row.rating && RraOk(r) && RraTextKept(g, row.text, r.text)
            && RraOk(r.(text := ScrubRraText(g, r.text))) && RraTextKept(g, row.text, ScrubRraText(g, r.text))
  {
    LastRraFits(drafts, row.id);
    var candidate := LastRra(drafts, row.id);
    RraTextIsKept(g, row.text, if candidate.Some? then candidate.value.text else row.text);
    hide Nonblank, RraTextKept, LastRra, CountRra, RatingOk, Cures, TextKept, Permitted;
  }

  lemma RewordedStrategyFits(row: StrategyRow, rows: seq<StrategyRow>, drafts: seq<StrategyRow>, g: Guard, limited: bool)
    requires StrategyOk(row) && (forall i :: 0 <= i < |drafts| ==> StrategyOk(drafts[i])) && Sane(g)
    ensures var r := RewordedStrategy(row, rows, drafts, g, limited);
            && r.id == row.id && r.shift == row.shift && r.rating == row.rating
            && StrategyOk(r) && TextKept(g, row.text, r.text)
            && StrategyOk(r.(text := g.scrub(r.text))) && TextKept(g, row.text, g.scrub(r.text))
  {
    LastStrategyFits(drafts, row.shift, row.id);
    var candidate := LastStrategy(drafts, row.shift, row.id);
    CleanThenScrub(g, row.text, if candidate.Some? then candidate.value.text else row.text);
    hide Nonblank, TextKept, LastStrategy, CountStrategy, RatingOk, Cures;
  }

  // ---- what rewording achieves ----

  /**
   Faults of the original that the candidate lacks are gone from the result, which is the candidate when there are
   any and else the original.
   */
  predicate Cured(g: Guard, original: string, candidate: string, result: string) {
    && (forall fault :: HasFault(g, original, fault) && !HasFault(g, candidate, fault) ==> !HasFault(g, result, fault))
    && result == if Improves(g, original, candidate) then candidate else original
  }

  lemma CleanCures(g: Guard, original: string, candidate: string)
    ensures Cured(g, original, candidate, Clean(g, original, candidate))
  {
    CuresIs(g, original, candidate);
    hide Cures;
  }

  /** A draft row is taken at its word for a kept row when its identity is unique on both sides. */
  lemma UniqueRowAuthorises(row: RraRow, rows: seq<RraRow>, drafts: seq<RraRow>, g: Guard, limited: bool, k: nat)
    requires k < |drafts| && drafts[k].id == row.id && CountRra(rows, row.id) == 1
    requires forall i :: 0 <= i < |drafts| && i != k ==> drafts[i].id != row.id
    ensures RewordedRra(row, rows, drafts, g, limited).text == CleanRraText(g, row.text, drafts[k].text)
  {
    OnlyRra(drafts, row.id, k);
  }

  /** Then every fault that the draft's text does not share is gone from the kept row, field by field. */
  lemma FaultsAreCured(row: RraRow, rows: seq<RraRow>, drafts: seq<RraRow>, g: Guard, limited: bool, k: nat)
    requires k < |drafts| && drafts[k].id == row.id && CountRra(rows, row.id) == 1
    requires forall i :: 0 <= i < |drafts| && i != k ==> drafts[i].id != row.id
    ensures var a, b, r := row.text, drafts[k].text, RewordedRra(row, rows, drafts, g, limited).text;
            && Cured(g, a.driver, b.driver, r.driver) && Cured(g, a.response, b.response, r.response)
            && Cured(g, a.delivery, b.delivery, r.delivery) && Cured(g, a.indicator, b.indicator, r.indicator)
            && Cured(g, a.gap, b.gap, r.gap)
  {
    UniqueRowAuthorises(row, rows, drafts, g, limited, k);
    var a, b := row.text, drafts[k].text;
    CleanCures(g, a.driver, b.driver);
    CleanCures(g, a.response, b.response);
    CleanCures(g, a.delivery, b.delivery);
    CleanCures(g, a.indicator, b.indicator);
    CleanCures(g, a.gap, b.gap);
    hide RewordedRra, Cured, Clean;
  }

  lemma {:induction false} LastRraAt(rows: seq<RraRow>, id: string, k: nat)
    requires k < |rows| && rows[k].id == id && forall i :: k < i < |rows| ==> rows[i].id != id
    ensures LastRra(rows, id) == Some(rows[k])
  {
    if k < |rows| - 1 {
      LastRraAt(rows[..|rows| - 1], id, k);
    }
  }

  /** Outside limited mode the last draft row of the same name is taken at its word. */
  lemma LastRowAuthorises(row: RraRow, rows: seq<RraRow>, drafts: seq<RraRow>, g: Guard, k: nat)
    requires k < |drafts| && drafts[k].id == row.id && forall i :: k < i < |drafts| ==> drafts[i].id != row.id
    ensures RewordedRra(row, rows, drafts, g, false) == row.(text := CleanRraText(g, row.text, drafts[k].text))
  {
    LastRraAt(drafts, row.id, k);
  }

  /** Without a draft row of its name a row stays. */
  lemma NoRowNoRewording(row: RraRow, rows: seq<RraRow>, drafts: seq<RraRow>, g: Guard, limited: bool)
    requires forall i :: 0 <= i < |drafts| ==> drafts[i].id != row.id
    ensures RewordedRra(row, rows, drafts, g, limited) == row
  {
    LastRraFits(drafts, row.id);
  }

  lemma {:induction false} OnlyRra(rows: seq<RraRow>, id: string, k: nat)
    requires k < |rows| && rows[k].id == id && forall i :: 0 <= i < |rows| && i != k ==> rows[i].id != id
    ensures LastRra(rows, id) == Some(rows[k]) && CountRra(rows, id) == 1
  {
    var front := rows[..|rows| - 1];
    if k < |rows| - 1 {
      OnlyRra(front, id, k);
    } else {
      NoneRra(front, id);
    }
  }

  lemma {:induction false} NoneRra(rows: seq<RraRow>, id: string)
    requires forall i :: 0 <= i < |rows| ==> rows[i].id != id
    ensures CountRra(rows, id) == 0
  {
    if rows != [] {
      NoneRra(rows[..|rows| - 1], id);
    }
  }

  /** The same for a strategy row, whose identity is its shift and its name. */
  lemma UniqueStrategyAuthorises(row: StrategyRow, rows: seq<StrategyRow>, drafts: seq<StrategyRow>, g: Guard,
                                 limited: bool, k: nat)
    requires k < |drafts| && drafts[k].shift == row.shift && drafts[k].id == row.id
    requires CountStrategy(rows, row.shift, row.id) == 1
    requires forall i :: 0 <= i < |drafts| && i != k ==> drafts[i].shift != row.shift || drafts[i].id != row.id
    ensures RewordedStrategy(row, rows, drafts, g, limited) == row.(text := Clean(g, row.text, drafts[k].text))
  {
    OnlyStrategy(drafts, row.shift, row.id, k);
  }

  lemma {:induction false} OnlyStrategy(rows: seq<StrategyRow>, shift: Shift, id: string, k: nat)
    requires k < |rows| && rows[k].shift == shift && rows[k].id == id
    requires forall i :: 0 <= i < |rows| && i != k ==> rows[i].shift != shift || rows[i].id != id
    ensures LastStrategy(rows, shift, id) == Some(rows[k]) && CountStrategy(rows, shift, id) == 1
  {
    var front := rows[..|rows| - 1];
    if k < |rows| - 1 {
      OnlyStrategy(front, shift, id, k);
    } else {
      NoneStrategy(front, shift, id);
    }
  }

  lemma {:induction false} NoneStrategy(rows: seq<StrategyRow>, shift: Shift, id: string)
    requires forall i :: 0 <= i < |rows| ==> rows[i].shift != shift || rows[i].id != id
    ensures CountStrategy(rows, shift, id) == 0
  {
    if rows != [] {
      NoneStrategy(rows[..|rows| - 1], shift, id);
    }
  }

  lemma {:induction false} TwiceRra(rows: seq<RraRow>, j: nat, k: nat)
    requires j <= k < |rows| && rows[j].id == rows[k].id
    ensures CountRra(rows, rows[k].id) >= if j < k then 2 else 1
  {
    if k < |rows| - 1 {
      TwiceRra(rows[..|rows| - 1], j, k);
    } else if j < k {
      TwiceRra(rows[..k], j, j);
    }
  }

  /** In limited mode an identity repeated on either side authorises no rewording. */
  lemma AmbiguousRowStays(row: RraRow, rows: seq<RraRow>, drafts: seq<RraRow>, g: Guard, i: nat, j: nat)
    requires (i < j < |rows| && rows[i].id == rows[j].id == row.id)
             || (i < j < |drafts| && drafts[i].id == drafts[j].id == row.id)
    ensures RewordedRra(row, rows, drafts, g, true) == row
  {
    if i < j < |rows| && rows[i].id == rows[j].id == row.id {
      TwiceRra(rows, i, j);
    } else {
      TwiceRra(drafts, i, j);
    }
  }

  lemma {:induction false} LastStrategyAt(rows: seq<StrategyRow>, shift: Shift, id: string, k: nat)
    requires k < |rows| && rows[k].shift == shift && rows[k].id == id
    requires forall i :: k < i < |rows| ==> rows[i].shift != shift || rows[i].id != id
    ensures LastStrategy(rows, shift, id) == Some(rows[k])
  {
    if k < |rows| - 1 {
      LastStrategyAt(rows[..|rows| - 1], shift, id, k);
    }
  }

  lemma LastStrategyAuthorises(row: StrategyRow, rows: seq<StrategyRow>, drafts: seq<StrategyRow>, g: Guard, k: nat)
    requires k < |drafts| && drafts[k].shift == row.shift && drafts[k].id == row.id
    requires forall i :: k < i < |drafts| ==> drafts[i].shift != row.shift || drafts[i].id != row.id
    ensures RewordedStrategy(row, rows, drafts, g, false) == row.(text := Clean(g, row.text, drafts[k].text))
  {
    LastStrategyAt(drafts, row.shift, row.id, k);
  }

  lemma NoStrategyNoRewording(row: StrategyRow, rows: seq<StrategyRow>, drafts: seq<StrategyRow>, g: Guard, limited: bool)
    requires forall i :: 0 <= i < |drafts| ==> drafts[i].shift != row.shift || drafts[i].id != row.id
    ensures RewordedStrategy(row, rows, drafts, g, limited) == row
  {
    NoLastStrategy(drafts, row.shift, row.id);
  }

  lemma {:induction false} NoLastStrategy(rows: seq<StrategyRow>, shift: Shift, id: string)
    requires forall i :: 0 <= i < |rows| ==> rows[i].shift != shift || rows[i].id != id
    ensures LastStrategy(rows, shift, id) == None
  {
    if rows != [] {
      NoLastStrategy(rows[..|rows| - 1], shift, id);
    }
  }

  lemma {:induction false} TwiceStrategy(rows: seq<StrategyRow>, j: nat, k: nat)
    requires j <= k < |rows| && rows[j].shift == rows[k].shift && rows[j].id == rows[k].id
    ensures CountStrategy(rows, rows[k].shift, rows[k].id) >= if j < k then 2 else 1
  {
    if k < |rows| - 1 {
      TwiceStrategy(rows[..|rows| - 1], j, k);
    } else if j < k {
      TwiceStrategy(rows[..k], j, j);
    }
  }

  /** In limited mode a shift and name repeated on either side authorise no rewording. */
  lemma AmbiguousStrategyStays(row: StrategyRow, rows: seq<StrategyRow>, drafts: seq<StrategyRow>, g: Guard, i: nat, j: nat)
    requires || (i < j < |rows| && rows[i].shift == rows[j].shift == row.shift && rows[i].id == rows[j].id == row.id)
             || (i < j < |drafts| && drafts[i].shift == drafts[j].shift == row.shift
                 && drafts[i].id == drafts[j].id == row.id)
    ensures RewordedStrategy(row, rows, drafts, g, true) == row
  {
    if i < j < |rows| && rows[i].shift == rows[j].shift == row.shift && rows[i].id == rows[j].id == row.id {
      TwiceStrategy(rows, i, j);
    } else {
      TwiceStrategy(drafts, i, j);
    }
  }
}
