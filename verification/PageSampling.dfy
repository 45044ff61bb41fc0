/** Which pages of a long document are read: a leading prefix, pages spread over the interior, and the last page. */
module PageSampling {
  import opened Basics

  const PREFIX_PAGES := 4

  function Min(a: int, b: int): int {
    if a <= b then a else b
  }

  /** Rounding a quotient to the nearest integer, ties to the even one. */
  function RoundHalfEven(num: nat, den: nat): nat
    requires den > 0
  {
    var q, rest := num / den, num % den;
    if 2 * rest < den || (2 * rest == den && q % 2 == 0) then q else q + 1
  }

  /** The first occurrences, in order, as building a dictionary keeps them. */
  function Dedup(s: seq<int>): seq<int> {
    if s == [] then []
    else
      var front := Dedup(s[..|s| - 1]);
      if s[|s| - 1] in front then front else front + [s[|s| - 1]]
  }

  predicate Increasing(s: seq<int>) {
    forall i, j :: 0 <= i < j < |s| ==> s[i] < s[j]
  }

  function Range(lo: int, count: nat): (r: seq<int>)
    ensures |r| == count && forall i :: 0 <= i < count ==> r[i] == lo + i
  {
    if count == 0 then [] else Range(lo, count - 1) + [lo + count - 1]
  }

  /** The page for one interior slot: evenly spaced from the first interior page to the last. */
  function Slot(prefix: nat, interior: nat, slots: nat, position: nat): int
    requires slots > 1 && interior > 0
  {
    prefix + RoundHalfEven(position * (interior - 1), slots - 1)
  }

  function Spread(prefix: nat, interior: nat, slots: nat, count: nat): (r: seq<int>)
    requires slots > 1 && interior > 0
    ensures |r| == count && forall i :: 0 <= i < count ==> r[i] == Slot(prefix, interior, slots, i)
  {
    if count == 0 then []
    else Spread(prefix, interior, slots, count - 1) + [Slot(prefix, interior, slots, count - 1)]
  }

  function Interior(prefix: nat, interior: nat, slots: nat): seq<int>
    requires slots > 0 && interior > 0
  {
    if slots == 1 then [prefix] else Dedup(Spread(prefix, interior, slots, slots))
  }

  function PageIndices(pageCount: nat, limit: Option<int>): seq<int> {
    if limit.Some? && limit.value <= 0 then []
    else if limit.None? || pageCount <= limit.value then Range(0, pageCount)
    else if limit.value <= 1 then [0]
    else
      var prefix: nat := Min(PREFIX_PAGES, limit.value - 1);
      var slots := limit.value - prefix - 1;
      if slots <= 0 then Range(0, prefix) + [pageCount - 1]
      else Range(0, prefix) + Interior(prefix, pageCount - 1 - prefix, slots) + [pageCount - 1]
  }

  // ---- rounding ----

  /** No further than a half from the quotient. */
  lemma RoundsNear(num: nat, den: nat)
    requires den > 0
    ensures 2 * num - den <= 2 * (den * RoundHalfEven(num, den)) <= 2 * num + den
  {
    var q, rest := num / den, num % den;
    assert num == den * q + rest;
    assert den * (q + 1) == den * q + den;
  }

  lemma Cancel(d: nat, x: int, y: int)
    requires d > 0 && d * x < d * y
    ensures x < y
  {
  }

  /** The nearest integer, and of two as near the even one. */
  predicate IsNearest(r: int, num: int, den: int)
    requires den > 0
  {
    && 2 * num <= 2 * (den * r) + den && 2 * (den * r) <= 2 * num + den
    && (2 * num == 2 * (den * r) + den || 2 * (den * r) == 2 * num + den ==> r % 2 == 0)
  }

  lemma RoundsToNearest(num: nat, den: nat)
    requires den > 0
    ensures IsNearest(RoundHalfEven(num, den), num, den)
  {
    var q, rest := num / den, num % den;
    assert num == den * q + rest;
    assert den * (q + 1) == den * q + den;
  }

  /** Quotients more than one apart round to different integers, even at ties. */
  lemma RoundIncreases(a: nat, b: nat, den: nat)
    requires den > 0 && b > a + den
    ensures RoundHalfEven(a, den) < RoundHalfEven(b, den)
  {
    RoundsNear(a, den);
    RoundsNear(b, den);
    hide RoundHalfEven;
    Cancel(den, RoundHalfEven(a, den), RoundHalfEven(b, den));
  }

  lemma OneMore(a: nat, den: nat)
    requires den > 0
    ensures (a + den) / den == a / den + 1 && (a + den) % den == a % den
  {
    var q, p := a / den, (a + den) / den;
    assert den * q <= a < den * q + den && den * p <= a + den < den * p + den;
    assert den * (q + 1) == den * q + den && den * (q + 2) == den * q + 2 * den && den * (p + 1) == den * p + den;
    Cancel(den, p, q + 2);
    Cancel(den, q + 1, p + 1);
  }

  /** At exactly one apart they meet just when both are ties and the lower is odd, as one and a half and two and a half. */
  lemma TiesCollide(a: nat, den: nat)
    requires den > 0
    ensures RoundHalfEven(a, den) == RoundHalfEven(a + den, den) <==> 2 * (a % den) == den && a / den % 2 == 1
  {
    OneMore(a, den);
  }

  /** Rounding adds less than one to the distance of neighbours. */
  lemma RoundNear(a: nat, step: nat, den: nat)
    requires den > 0
    ensures (RoundHalfEven(a + step, den) - RoundHalfEven(a, den) - 1) * den <= step
  {
    RoundsNear(a, den);
    RoundsNear(a + step, den);
    hide RoundHalfEven;
    var x, y := RoundHalfEven(a, den), RoundHalfEven(a + step, den);
    Spaced(den, x, y);
  }

  lemma Spaced(d: int, x: int, y: int)
    ensures (y - x - 1) * d == d * y - d * x - d
  {
  }

  lemma RoundWhole(k: nat, den: nat)
    requires den > 0
    ensures RoundHalfEven(den * k, den) == k
  {
    RoundsNear(den * k, den);
    hide RoundHalfEven;
    var r := RoundHalfEven(den * k, den);
    assert den * (k - 1) == den * k - den && den * (k + 1) == den * k + den;
    Cancel(den, k - 1, r);
    Cancel(den, r, k + 1);
  }

  lemma {:induction false} DedupIncreasing(s: seq<int>)
    requires Increasing(s)
    ensures Dedup(s) == s
  {
    if s != [] {
      DedupIncreasing(s[..|s| - 1]);
      assert s == s[..|s| - 1] + [s[|s| - 1]];
    }
  }

  lemma NextSlot(prefix: nat, interior: nat, slots: nat, i: nat)
    requires slots > 1 && interior > slots
    ensures Slot(prefix, interior, slots, i) < Slot(prefix, interior, slots, i + 1)
    ensures (Slot(prefix, interior, slots, i + 1) - Slot(prefix, interior, slots, i) - 1) * (slots - 1) <= interior - 1
  {
    assert (i + 1) * (interior - 1) == i * (interior - 1) + (interior - 1);
    RoundIncreases(i * (interior - 1), (i + 1) * (interior - 1), slots - 1);
    RoundNear(i * (interior - 1), interior - 1, slots - 1);
  }

  lemma {:induction false} SlotsIncrease(prefix: nat, interior: nat, slots: nat, i: nat, j: nat)
    requires slots > 1 && interior > slots && i < j
    ensures Slot(prefix, interior, slots, i) < Slot(prefix, interior, slots, j)
  {
    NextSlot(prefix, interior, slots, j - 1);
    if i < j - 1 {
      SlotsIncrease(prefix, interior, slots, i, j - 1);
    }
  }

  /** Removing duplicates removes nothing: interior pages are distinct, from the first to the last. */
  lemma InteriorFits(prefix: nat, interior: nat, slots: nat)
    requires slots > 1 && interior > slots
    ensures var pages := Interior(prefix, interior, slots);
            && pages == Spread(prefix, interior, slots, slots)
            && Increasing(pages) && pages[0] == prefix && pages[slots - 1] == prefix + interior - 1
  {
    var pages := Spread(prefix, interior, slots, slots);
    forall i, j | 0 <= i < j < |pages|
      ensures pages[i] < pages[j]
    {
      SlotsIncrease(prefix, interior, slots, i, j);
    }
    DedupIncreasing(pages);
    RoundWhole(0, slots - 1);
    RoundWhole(interior - 1, slots - 1);
    assert (slots - 1) * 0 == 0 * (interior - 1);
  }

  // ---- the sample ----

  /** The interior slots of a sample that leaves pages out. */
  function Slots(limit: int): int {
    limit - Min(PREFIX_PAGES, limit - 1) - 1
  }

  lemma JoinIncreasing(a: seq<int>, b: seq<int>)
    requires Increasing(a) && Increasing(b)
    requires a != [] && b != [] ==> a[|a| - 1] < b[0]
    ensures Increasing(a + b)
  {
    forall i, j | 0 <= i < j < |a + b|
      ensures (a + b)[i] < (a + b)[j]
    {
      if i < |a| <= j {
        assert a[i] <= a[|a| - 1] < b[0] <= b[j - |a|];
      }
    }
  }

  function Lead(limit: int): nat
    requires limit >= 2
  {
    Min(PREFIX_PAGES, limit - 1)
  }

  /** A sample that leaves pages out is the leading pages, the interior ones and the last. */
  lemma SampleParts(pageCount: nat, limit: int)
    requires limit >= 2 && pageCount > limit && Slots(limit) >= 1
    ensures var middle := Interior(Lead(limit), pageCount - 1 - Lead(limit), Slots(limit));
            && PageIndices(pageCount, Some(limit)) == Range(0, Lead(limit)) + middle + [pageCount - 1]
            && |middle| == Slots(limit) && Increasing(middle)
            && middle[0] == Lead(limit) && middle[Slots(limit) - 1] < pageCount - 1
  {
    hide Spread, Dedup, Slot;
    var middle := Interior(Lead(limit), pageCount - 1 - Lead(limit), Slots(limit));
    if Slots(limit) >= 2 {
      InteriorFits(Lead(limit), pageCount - 1 - Lead(limit), Slots(limit));
    } else {
      assert middle == [Lead(limit)];
    }
    hide Interior;
  }

  lemma Assembled(lead: nat, middle: seq<int>, last: int)
    requires lead > 0 && middle != [] && Increasing(middle) && middle[0] == lead && middle[|middle| - 1] < last
    ensures var pages := Range(0, lead) + middle + [last];
            && |pages| == lead + |middle| + 1 && Increasing(pages)
            && (forall i :: 0 <= i < |pages| ==> 0 <= pages[i] <= last)
            && (forall i :: 0 <= i < lead ==> pages[i] == i)
            && pages[0] == 0 && pages[|pages| - 1] == last
  {
    JoinIncreasing(Range(0, lead), middle);
    JoinIncreasing(Range(0, lead) + middle, [last]);
    FromFirstToLast(Range(0, lead) + middle + [last]);
  }

  lemma AssembledGap(lead: nat, middle: seq<int>, last: int, i: nat)
    requires middle != [] && middle[0] == lead && middle[|middle| - 1] == last - 1
    requires i < lead + |middle|
    ensures var pages := Range(0, lead) + middle + [last];
            if lead <= i && i + 1 < lead + |middle|
            then pages[i] == middle[i - lead] && pages[i + 1] == middle[i + 1 - lead]
            else pages[i + 1] - pages[i] == 1
  {
  }

  /** Distinct pages in order, all in range, as many as the limit allows, with the leading pages and the last. */
  predicate GoodSample(pages: seq<int>, pageCount: nat, limit: int) {
    && |pages| == Min(limit, pageCount) && Increasing(pages)
    && (forall i :: 0 <= i < |pages| ==> 0 <= pages[i] < pageCount)
    && (forall i :: 0 <= i < 4 && i < limit - 1 && i < pageCount ==> i < |pages| && pages[i] == i)
    && (pages != [] ==> pages[0] == 0)
    && (pages != [] && limit >= 2 ==> pages[|pages| - 1] == pageCount - 1)
  }

  lemma SpreadSample(pageCount: nat, limit: int)
    requires limit >= 2 && pageCount > limit && Slots(limit) >= 1
    ensures GoodSample(PageIndices(pageCount, Some(limit)), pageCount, limit)
  {
    hide PageIndices, Interior;
    SampleParts(pageCount, limit);
    Assembled(Lead(limit), Interior(Lead(limit), pageCount - 1 - Lead(limit), Slots(limit)), pageCount - 1);
  }

  lemma {:induction false} ShortPages(pageCount: nat, limit: int)
    requires limit >= 2 && pageCount > limit && Slots(limit) < 1
    ensures PageIndices(pageCount, Some(limit)) == Range(0, limit - 1) + [pageCount - 1]
  {
    hide Interior, Range;
  }

  lemma ShortSample(pageCount: nat, limit: int)
    requires limit >= 2 && pageCount > limit && Slots(limit) < 1
    ensures GoodSample(PageIndices(pageCount, Some(limit)), pageCount, limit)
  {
    ShortPages(pageCount, limit);
    var pages := Range(0, limit - 1) + [pageCount - 1];
    hide PageIndices;
    JoinIncreasing(Range(0, limit - 1), [pageCount - 1]);
    FromFirstToLast(pages);
    assert pages[0] == 0 && forall i :: 0 <= i < limit - 1 ==> pages[i] == i;
  }

  lemma {:induction false} RangeIsGood(pageCount: nat, limit: int)
    requires limit > 0 && pageCount <= limit
    ensures GoodSample(Range(0, pageCount), pageCount, limit)
  {
    assert Min(limit, pageCount) == pageCount;
  }

  lemma {:induction false} WholeSample(pageCount: nat, limit: int)
    requires limit > 0 && (limit == 1 || pageCount <= limit)
    ensures GoodSample(PageIndices(pageCount, Some(limit)), pageCount, limit)
  {
    hide Interior;
    if pageCount <= limit {
      assert PageIndices(pageCount, Some(limit)) == Range(0, pageCount);
      RangeIsGood(pageCount, limit);
    } else {
      assert PageIndices(pageCount, Some(limit)) == [0];
      assert GoodSample([0], pageCount, limit);
    }
  }

  /** Every page without a limit, none when the limit leaves none, and else a good sample. */
  lemma SampleFits(pageCount: nat, limit: Option<int>)
    ensures var pages := PageIndices(pageCount, limit);
            if limit.None? then |pages| == pageCount && forall i :: 0 <= i < pageCount ==> pages[i] == i
            else if limit.value <= 0 then pages == []
            else GoodSample(pages, pageCount, limit.value)
  {
    hide GoodSample;
    if limit.Some? && limit.value > 0 {
      hide PageIndices;
      if limit.value == 1 || pageCount <= limit.value {
        WholeSample(pageCount, limit.value);
      } else if Slots(limit.value) >= 1 {
        SpreadSample(pageCount, limit.value);
      } else {
        ShortSample(pageCount, limit.value);
      }
    }
  }

  /**
   Which interior pages: a single one is the first after the leading pages; of several, the `i`-th is the page nearest
   to its even share of the way from the first interior page to the last.
   */
  lemma {:induction false} InteriorAt(pageCount: nat, limit: int, i: nat)
    requires pageCount > limit && i < limit - 5
    ensures var pages := PageIndices(pageCount, Some(limit));
            && 4 + i < |pages|
            && if limit == 6 then pages[4] == 4 else IsNearest(pages[4 + i] - 4, i * (pageCount - 6), limit - 6)
  {
    hide IsNearest, PageIndices, Interior, Range;
    SampleParts(pageCount, limit);
    var lead, slots, interior := Lead(limit), Slots(limit), pageCount - 1 - Lead(limit);
    InMiddle(Range(0, lead), Interior(lead, interior, slots), [pageCount - 1], i);
    if slots >= 2 {
      InteriorSlot(lead, interior, slots, i);
    }
  }

  lemma InMiddle(a: seq<int>, b: seq<int>, c: seq<int>, i: nat)
    requires i < |b|
    ensures |a + b + c| == |a| + |b| + |c| && (a + b + c)[|a| + i] == b[i]
  {
  }

  lemma InteriorSlot(lead: nat, interior: nat, slots: nat, i: nat)
    requires slots > 1 && interior > slots && i < slots
    ensures i < |Interior(lead, interior, slots)|
    ensures IsNearest(Interior(lead, interior, slots)[i] - lead, i * (interior - 1), slots - 1)
  {
    hide IsNearest, Interior, RoundHalfEven, Dedup, Increasing;
    InteriorFits(lead, interior, slots);
    var num: nat := i * (interior - 1);
    RoundsToNearest(num, slots - 1);
    assert Slot(lead, interior, slots, i) == lead + RoundHalfEven(num, slots - 1);
  }

  lemma FromFirstToLast(s: seq<int>)
    requires Increasing(s) && s != []
    ensures forall i :: 0 <= i < |s| ==> s[0] <= s[i] <= s[|s| - 1]
  {
  }

  lemma PageGap(pageCount: nat, limit: int, i: nat)
    requires limit >= 2 && pageCount > limit && Slots(limit) >= 2 && i + 1 < limit
    ensures var pages, lead, interior := PageIndices(pageCount, Some(limit)), Lead(limit), pageCount - 1 - Lead(limit);
            && |pages| == limit
            && (|| pages[i + 1] - pages[i] == 1
                || (lead <= i && pages[i + 1] - pages[i] == Slot(lead, interior, Slots(limit), i + 1 - lead)
                                                          - Slot(lead, interior, Slots(limit), i - lead)))
  {
    hide PageIndices, Interior, Slot;
    var lead, slots, interior := Lead(limit), Slots(limit), pageCount - 1 - Lead(limit);
    var pages, middle := PageIndices(pageCount, Some(limit)), Interior(lead, interior, slots);
    SampleParts(pageCount, limit);
    InteriorFits(lead, interior, slots);
    hide Slots, Lead;
    AssembledGap(lead, middle, pageCount - 1, i);
  }

  lemma GapBound(gap: int, spacing: int, slots: int, bound: int)
    requires gap == 1 || gap == spacing
    requires (spacing - 1) * slots <= bound && bound >= 0
    ensures (gap - 1) * slots <= bound
  {
  }

  /**
   With at least two interior slots, neighbouring sampled pages are never further apart than the exact
   step between slots plus one.
   */
  lemma SampleGaps(pageCount: nat, limit: int, i: nat)
    requires limit >= 7 && pageCount > limit && i + 1 < limit
    ensures |PageIndices(pageCount, Some(limit))| == limit
    ensures var pages := PageIndices(pageCount, Some(limit));
            (pages[i + 1] - pages[i] - 1) * (limit - 6) <= pageCount - 6
  {
    hide PageIndices, Slot;
    var lead, slots, interior := Lead(limit), Slots(limit), pageCount - 1 - Lead(limit);
    var pages := PageIndices(pageCount, Some(limit));
    PageGap(pageCount, limit, i);
    var k: nat := if lead <= i then i - lead else 0;
    NextSlot(lead, interior, slots, k);
    assert i + 1 - lead == k + 1 || i < lead;
    GapBound(pages[i + 1] - pages[i], Slot(lead, interior, slots, k + 1) - Slot(lead, interior, slots, k),
             slots - 1, interior - 1);
  }
}
