/** Which documents are digested so that the rest can be read verbatim within a budget. */
module DigestPlan {
  /** Characters of the documents before `n` whose positions are in `chosen`. */
  function Total(sizes: seq<nat>, n: nat, chosen: set<nat>): nat
    requires n <= |sizes|
  {
    if n == 0 then 0 else Total(sizes, n - 1, chosen) + (if n - 1 in chosen then sizes[n - 1] else 0)
  }

  function Count(n: nat, chosen: set<nat>): nat {
    if n == 0 then 0 else Count(n - 1, chosen) + (if n - 1 in chosen then 1 else 0)
  }

  function Positions(n: nat): (r: set<nat>)
    ensures forall i :: i in r <==> 0 <= i < n
  {
    if n == 0 then {} else Positions(n - 1) + {n - 1}
  }

  predicate IsPlan(sizes: seq<nat>, digested: set<nat>) {
    forall i :: i in digested ==> i < |sizes|
  }

  /** Characters left verbatim when `digested` are digested. */
  function Verbatim(sizes: seq<nat>, digested: set<nat>): nat {
    Total(sizes, |sizes|, Positions(|sizes|) - digested)
  }

  /** Largest first, then in order of position. */
  predicate Precedes(sizes: seq<nat>, i: nat, j: nat)
    requires i < |sizes| && j < |sizes|
  {
    sizes[i] > sizes[j] || (sizes[i] == sizes[j] && i <= j)
  }

  predicate IsPositions(sizes: seq<nat>, s: seq<nat>) {
    forall k :: 0 <= k < |s| ==> s[k] < |sizes|
  }

  predicate Ordered(sizes: seq<nat>, s: seq<nat>) {
    IsPositions(sizes, s)
    && (forall j, k :: 0 <= j < k < |s| ==> Precedes(sizes, s[j], s[k]) && s[j] != s[k])
  }

  function Insert(sizes: seq<nat>, i: nat, s: seq<nat>): seq<nat>
    requires i < |sizes| && IsPositions(sizes, s)
  {
    if s == [] || Precedes(sizes, i, s[0]) then [i] + s else [s[0]] + Insert(sizes, i, s[1..])
  }

  lemma {:induction false} InsertOrders(sizes: seq<nat>, i: nat, s: seq<nat>)
    requires i < |sizes| && Ordered(sizes, s) && i !in s
    ensures Ordered(sizes, Insert(sizes, i, s))
    ensures forall k :: k in Insert(sizes, i, s) <==> k == i || k in s
    decreases |s|
  {
    if s != [] && !Precedes(sizes, i, s[0]) {
      InsertOrders(sizes, i, s[1..]);
      var rest := Insert(sizes, i, s[1..]);
      assert s == [s[0]] + s[1..];
      forall k | 0 <= k < |rest|
        ensures Precedes(sizes, s[0], rest[k]) && s[0] != rest[k]
      {
        assert rest[k] in rest;
      }
    }
  }

  /** The positions before `n`, largest document first. */
  function Order(sizes: seq<nat>, n: nat): (s: seq<nat>)
    requires n <= |sizes|
    ensures Ordered(sizes, s) && forall k :: k in s <==> 0 <= k < n
  {
    if n == 0 then []
    else
      InsertOrders(sizes, n - 1, Order(sizes, n - 1));
      Insert(sizes, n - 1, Order(sizes, n - 1))
  }

  function Prefix(order: seq<nat>, k: nat): (r: set<nat>)
    requires k <= |order|
    ensures forall i :: i in r <==> i in order[..k]
  {
    set i | i in order[..k]
  }

  // ---- sums ----

  lemma {:induction false} TotalSplits(sizes: seq<nat>, n: nat, a: set<nat>, b: set<nat>)
    requires n <= |sizes| && a !! b
    ensures Total(sizes, n, a + b) == Total(sizes, n, a) + Total(sizes, n, b)
  {
    if n > 0 {
      TotalSplits(sizes, n - 1, a, b);
    }
  }

  lemma {:induction false} TotalOne(sizes: seq<nat>, n: nat, i: nat)
    requires n <= |sizes| && i < |sizes|
    ensures Total(sizes, n, {i}) == if i < n then sizes[i] else 0
  {
    if n > 0 {
      TotalOne(sizes, n - 1, i);
    }
  }

  lemma {:induction false} CountSplits(n: nat, a: set<nat>, i: nat)
    requires i !in a
    ensures Count(n, a + {i}) == Count(n, a) + (if i < n then 1 else 0)
  {
    if n > 0 {
      CountSplits(n - 1, a, i);
    }
  }

  lemma {:induction false} CountIsSize(n: nat, a: set<nat>)
    requires forall i :: i in a ==> i < n
    ensures Count(n, a) == |a|
    decreases |a|
  {
    if a == {} {
      CountNone(n);
    } else {
      var i :| i in a;
      CountIsSize(n, a - {i});
      CountSplits(n, a - {i}, i);
      assert a - {i} + {i} == a;
    }
  }

  lemma {:induction false} CountNone(n: nat)
    ensures Count(n, {}) == 0
  {
    if n > 0 {
      CountNone(n - 1);
    }
  }

  lemma VerbatimIs(sizes: seq<nat>, digested: set<nat>)
    requires IsPlan(sizes, digested)
    ensures Verbatim(sizes, digested) + Total(sizes, |sizes|, digested) == Total(sizes, |sizes|, Positions(|sizes|))
  {
    TotalSplits(sizes, |sizes|, Positions(|sizes|) - digested, digested);
    assert Positions(|sizes|) - digested + digested == Positions(|sizes|);
  }

  lemma Distribute(a: int, x: int, y: int)
    ensures a * (x + y) == a * x + a * y
  {
  }

  /** Replacing members by others at most as large, `floor` apart, costs at least `floor` for each member lost. */
  lemma {:induction false} Exchange(sizes: seq<nat>, n: nat, top: set<nat>, other: set<nat>, floor: nat)
    requires n <= |sizes|
    requires forall i :: 0 <= i < n && i in top && i !in other ==> sizes[i] >= floor
    requires forall i :: 0 <= i < n && i in other && i !in top ==> sizes[i] <= floor
    ensures Total(sizes, n, top) - Total(sizes, n, other) >= floor * (Count(n, top) - Count(n, other))
  {
    if n > 0 {
      Exchange(sizes, n - 1, top, other, floor);
      Distribute(floor, Count(n - 1, top) - Count(n - 1, other),
                 (if n - 1 in top then 1 else 0) - (if n - 1 in other then 1 else 0));
    }
  }

  lemma PrefixSize(order: seq<nat>, k: nat)
    requires k <= |order| && forall i, j :: 0 <= i < j < |order| ==> order[i] != order[j]
    ensures |Prefix(order, k)| == k
  {
    if k > 0 {
      PrefixSize(order, k - 1);
      assert order[..k] == order[..k - 1] + [order[k - 1]];
      assert Prefix(order, k) == Prefix(order, k - 1) + {order[k - 1]};
      assert order[k - 1] !in order[..k - 1];
    }
  }

  lemma PrefixFloor(sizes: seq<nat>, k: nat, i: nat)
    requires 0 < k <= |Order(sizes, |sizes|)| && i < |sizes|
    ensures var order := Order(sizes, |sizes|);
            (i in Prefix(order, k) ==> sizes[i] >= sizes[order[k - 1]])
            && (i !in Prefix(order, k) ==> sizes[i] <= sizes[order[k - 1]])
  {
    var order := Order(sizes, |sizes|);
    assert i in order;
    var p :| 0 <= p < |order| && order[p] == i;
    hide Order;
    if p < k {
      assert order[..k][p] == i;
    }
  }

  lemma PrefixIsPlan(sizes: seq<nat>, k: nat)
    requires k <= |Order(sizes, |sizes|)|
    ensures IsPlan(sizes, Prefix(Order(sizes, |sizes|), k)) && |Prefix(Order(sizes, |sizes|), k)| == k
  {
    var order := Order(sizes, |sizes|);
    var top := Prefix(order, k);
    PrefixSize(order, k);
    forall i | i in top
      ensures i < |sizes|
    {
      assert i in order;
    }
  }

  /** No set of at most `k` documents is larger than the first `k` in order. */
  lemma LargestPrefix(sizes: seq<nat>, k: nat, other: set<nat>)
    requires k <= |Order(sizes, |sizes|)| && |other| <= k && IsPlan(sizes, other)
    ensures Total(sizes, |sizes|, other) <= Total(sizes, |sizes|, Prefix(Order(sizes, |sizes|), k))
  {
    var order := Order(sizes, |sizes|);
    var top := Prefix(order, k);
    PrefixIsPlan(sizes, k);
    CountIsSize(|sizes|, top);
    CountIsSize(|sizes|, other);
    if k == 0 {
      assert other == {} == top;
    } else {
      var floor := sizes[order[k - 1]];
      forall i | 0 <= i < |sizes|
        ensures i in top ==> sizes[i] >= floor
        ensures i !in top ==> sizes[i] <= floor
      {
        PrefixFloor(sizes, k, i);
      }
      hide Order, Prefix, Total, Count;
      Exchange(sizes, |sizes|, top, other, floor);
      NonNegative(floor, k - |other|);
    }
  }

  lemma NonNegative(a: nat, b: nat)
    ensures a * b >= 0
  {
  }

  /**
   The plan fits the budget when it is not negative, no plan with fewer documents fits, no chosen
   document could stay verbatim, and chosen documents come before the others in order of size.
   */
  method PlanDigests(sizes: seq<nat>, budget: int) returns (selected: set<nat>)
    ensures IsPlan(sizes, selected)
    ensures budget >= 0 ==> Verbatim(sizes, selected) <= budget
    ensures budget < 0 ==> selected == Positions(|sizes|)
    ensures forall other: set<nat> :: IsPlan(sizes, other) && Verbatim(sizes, other) <= budget ==> |selected| <= |other|
    ensures forall p :: p in selected ==> Verbatim(sizes, selected - {p}) > budget
    ensures forall i, j :: i in selected && j !in selected && 0 <= j < |sizes| ==>
              sizes[i] > sizes[j] || (sizes[i] == sizes[j] && i < j)
  {
    var order := Order(sizes, |sizes|);
    var remaining: int := Total(sizes, |sizes|, Positions(|sizes|));
    selected := {};
    var k := 0;
    assert Positions(|sizes|) - {} == Positions(|sizes|);
    assert Verbatim(sizes, {}) == remaining;
    assert Prefix(order, 0) == {};
    hide Order, Prefix, Verbatim, Positions;
    while k < |order| && remaining > budget
      invariant k <= |order| && selected == Prefix(order, k)
      invariant remaining == Verbatim(sizes, selected)
      invariant k > 0 ==> Verbatim(sizes, Prefix(order, k - 1)) > budget
    {
      NextSelected(sizes, order, k);
      selected, remaining := selected + {order[k]}, remaining - sizes[order[k]];
      k := k + 1;
    }
    PrefixIsPlan(sizes, k);
    Optimal(sizes, budget, k);
    LargestFirst(sizes, k);
    if k == |order| {
      EverySelected(sizes);
    }
    forall p | p in selected
      ensures Verbatim(sizes, selected - {p}) > budget
    {
      assert |selected - {p}| < |selected|;
    }
  }

  lemma Outside(order: seq<nat>, q: nat, k: nat)
    requires q < |order| && k <= |order| && order[q] !in Prefix(order, k)
    ensures k <= q
  {
    assert forall p :: 0 <= p < k ==> order[..k][p] == order[p];
  }

  lemma LargestFirst(sizes: seq<nat>, k: nat)
    requires k <= |Order(sizes, |sizes|)|
    ensures var selected := Prefix(Order(sizes, |sizes|), k);
            forall i, j :: i in selected && j !in selected && 0 <= j < |sizes| ==>
              i < |sizes| && (sizes[i] > sizes[j] || (sizes[i] == sizes[j] && i < j))
  {
    var order := Order(sizes, |sizes|);
    var selected := Prefix(order, k);
    forall i, j | i in selected && j !in selected && 0 <= j < |sizes|
      ensures i < |sizes| && (sizes[i] > sizes[j] || (sizes[i] == sizes[j] && i < j))
    {
      assert j in order;
      var q :| 0 <= q < |order| && order[q] == j;
      var p :| 0 <= p < k && order[..k][p] == i;
      Outside(order, q, k);
    }
  }

  lemma EverySelected(sizes: seq<nat>)
    ensures var order := Order(sizes, |sizes|);
            Prefix(order, |order|) == Positions(|sizes|) && Verbatim(sizes, Positions(|sizes|)) == 0
  {
    var order := Order(sizes, |sizes|);
    assert order[..|order|] == order;
    assert Positions(|sizes|) - Positions(|sizes|) == {};
    TotalNone(sizes, |sizes|);
  }

  lemma {:induction false} TotalNone(sizes: seq<nat>, n: nat)
    requires n <= |sizes|
    ensures Total(sizes, n, {}) == 0
  {
    if n > 0 {
      TotalNone(sizes, n - 1);
    }
  }

  lemma NextPrefix(order: seq<nat>, k: nat)
    requires k < |order| && forall i, j :: 0 <= i < j < |order| ==> order[i] != order[j]
    ensures order[k] !in Prefix(order, k) && Prefix(order, k + 1) == Prefix(order, k) + {order[k]}
  {
    assert order[..k + 1] == order[..k] + [order[k]];
  }

  lemma NextSelected(sizes: seq<nat>, order: seq<nat>, k: nat)
    requires order == Order(sizes, |sizes|) && k < |order|
    ensures Prefix(order, k + 1) == Prefix(order, k) + {order[k]}
    ensures Verbatim(sizes, Prefix(order, k + 1)) == Verbatim(sizes, Prefix(order, k)) - sizes[order[k]]
  {
    var before, i := Prefix(order, k), order[k];
    NextPrefix(order, k);
    assert i in order;
    hide Order, Prefix, Total;
    var rest := Positions(|sizes|) - (before + {i});
    TotalSplits(sizes, |sizes|, rest, {i});
    TotalOne(sizes, |sizes|, i);
    assert rest + {i} == Positions(|sizes|) - before;
  }

  lemma Optimal(sizes: seq<nat>, budget: int, k: nat)
    requires k <= |Order(sizes, |sizes|)|
    requires k > 0 ==> Verbatim(sizes, Prefix(Order(sizes, |sizes|), k - 1)) > budget
    ensures forall other: set<nat> :: IsPlan(sizes, other) && Verbatim(sizes, other) <= budget ==> k <= |other|
  {
    hide Order, Prefix, Verbatim;
    forall other: set<nat> | IsPlan(sizes, other) && Verbatim(sizes, other) <= budget
      ensures k <= |other|
    {
      if |other| < k {
        LargestPrefix(sizes, k - 1, other);
        PrefixIsPlan(sizes, k - 1);
        VerbatimIs(sizes, other);
        VerbatimIs(sizes, Prefix(Order(sizes, |sizes|), k - 1));
      }
    }
  }

  // ---- which segments a digest cites ----

  const MAX_CITED := 40

  /** First occurrences, in order. */
  function Distinct(ids: seq<string>): seq<string> {
    if ids == [] then []
    else
      var front := Distinct(ids[..|ids| - 1]);
      if ids[|ids| - 1] in front then front else front + [ids[|ids| - 1]]
  }

  function Known(ids: seq<string>, pages: set<string>): seq<string> {
    if ids == [] then []
    else Known(ids[..|ids| - 1], pages) + (if ids[|ids| - 1] in pages then [ids[|ids| - 1]] else [])
  }

  /** The known identifiers of every key point, in order. */
  function AllKnown(points: seq<seq<string>>, pages: set<string>): seq<string> {
    if points == [] then [] else AllKnown(points[..|points| - 1], pages) + Known(points[|points| - 1], pages)
  }

  function Take(ids: seq<string>, n: nat): seq<string> {
    if |ids| <= n then ids else ids[..n]
  }

  lemma {:induction false} DistinctFits(ids: seq<string>)
    ensures forall id :: id in Distinct(ids) <==> id in ids
    ensures forall i, j :: 0 <= i < j < |Distinct(ids)| ==> Distinct(ids)[i] != Distinct(ids)[j]
  {
    if ids != [] {
      DistinctFits(ids[..|ids| - 1]);
      assert ids == ids[..|ids| - 1] + [ids[|ids| - 1]];
    }
  }

  /** Repeats within a point make no difference. */
  lemma {:induction false} DistinctTwice(before: seq<string>, ids: seq<string>)
    ensures Distinct(before + Distinct(ids)) == Distinct(before + ids)
  {
    if ids != [] {
      var front, id := ids[..|ids| - 1], ids[|ids| - 1];
      DistinctTwice(before, front);
      DistinctFits(front);
      DistinctFits(before + front);
      assert (before + ids)[..|before + ids| - 1] == before + front;
      if id !in Distinct(front) {
        assert before + Distinct(ids) == (before + Distinct(front)) + [id];
        assert (before + Distinct(front) + [id])[..|before + Distinct(front)|] == before + Distinct(front);
      }
    }
  }

  lemma NextCited(ids: seq<string>, id: string)
    ensures Take(Distinct(ids + [id]), MAX_CITED)
         == var cited := Take(Distinct(ids), MAX_CITED);
            if id !in cited && |cited| < MAX_CITED then cited + [id] else cited
  {
    assert (ids + [id])[..|ids|] == ids;
  }

  /**
   The cited segments are the first forty distinct known ones, in the order the points name them: none twice,
   none unknown, and one is left out only when the forty are full.
   */
  method CiteSegments(points: seq<seq<string>>, pages: set<string>) returns (cited: seq<string>)
    ensures cited == Take(Distinct(AllKnown(points, pages)), MAX_CITED)
  {
    cited := [];
    ghost var seen: seq<string> := [];
    hide Distinct, Known, Take;
    NothingCited();
    for i := 0 to |points|
      invariant seen == AllKnown(points[..i], pages)
      invariant cited == Take(Distinct(seen), MAX_CITED)
    {
      assert points[..i + 1][..i] == points[..i];
      var known := Distinct(Known(points[i], pages));
      assert seen + known[..0] == seen;
      for j := 0 to |known|
        invariant cited == Take(Distinct(seen + known[..j]), MAX_CITED)
      {
        NextCited(seen + known[..j], known[j]);
        assert seen + known[..j] + [known[j]] == seen + known[..j + 1];
        if known[j] !in cited && |cited| < MAX_CITED {
          cited := cited + [known[j]];
        }
      }
      assert known[..|known|] == known;
      DistinctTwice(seen, Known(points[i], pages));
      seen := seen + Known(points[i], pages);
    }
    assert points[..|points|] == points;
  }

  lemma NothingCited()
    ensures Take(Distinct([]), MAX_CITED) == []
  {
  }

  lemma {:induction false} KnownIn(ids: seq<string>, pages: set<string>, id: string)
    ensures id in Known(ids, pages) <==> id in ids && id in pages
  {
    if ids != [] {
      KnownIn(ids[..|ids| - 1], pages, id);
      assert ids == ids[..|ids| - 1] + [ids[|ids| - 1]];
    }
  }

  lemma {:induction false} AllKnownIn(points: seq<seq<string>>, pages: set<string>, id: string)
    ensures id in AllKnown(points, pages) <==> id in pages && exists i :: 0 <= i < |points| && id in points[i]
  {
    if points != [] {
      var n := |points| - 1;
      AllKnownIn(points[..n], pages, id);
      KnownIn(points[n], pages, id);
      assert forall i :: 0 <= i < n ==> points[..n][i] == points[i];
    }
  }

  lemma CitedFits(points: seq<seq<string>>, pages: set<string>)
    ensures var cited := Take(Distinct(AllKnown(points, pages)), MAX_CITED);
            && |cited| <= 40
            && (forall i, j :: 0 <= i < j < |cited| ==> cited[i] != cited[j])
            && (forall id :: id in cited ==> id in pages && exists i :: 0 <= i < |points| && id in points[i])
            && (|cited| < 40 ==> forall i, id :: 0 <= i < |points| && id in points[i] && id in pages ==> id in cited)
  {
    var all := AllKnown(points, pages);
    DistinctFits(all);
    forall id
      ensures id in all <==> id in pages && exists i :: 0 <= i < |points| && id in points[i]
    {
      AllKnownIn(points, pages, id);
    }
    hide Distinct, AllKnown;
    var cited := Take(Distinct(all), MAX_CITED);
    assert forall id :: id in cited ==> id in Distinct(all);
  }

  // ---- in the order the points name them ----

  /** A place in the key points: which point, and where in it. */
  datatype Place = Place(point: nat, at: nat)

  predicate Before(p: Place, q: Place) {
    p.point < q.point || (p.point == q.point && p.at < q.at)
  }

  predicate Names(points: seq<seq<string>>, p: Place, id: string) {
    p.point < |points| && p.at < |points[p.point]| && points[p.point][p.at] == id
  }

  /** Where the known identifiers stand: every one, in order. */
  ghost predicate Located(ids: seq<string>, places: seq<Place>, points: seq<seq<string>>, pages: set<string>) {
    && |places| == |ids|
    && (forall k :: 0 <= k < |ids| ==> ids[k] in pages && Names(points, places[k], ids[k]))
    && (forall j, k :: 0 <= j < k < |ids| ==> Before(places[j], places[k]))
    && (forall p, id :: Names(points, p, id) && id in pages ==> p in places)
  }

  /** The same within one list. */
  ghost predicate Listed(ids: seq<string>, places: seq<nat>, all: seq<string>, pages: set<string>) {
    && |places| == |ids|
    && (forall k :: 0 <= k < |ids| ==> ids[k] in pages && places[k] < |all| && all[places[k]] == ids[k])
    && (forall j, k :: 0 <= j < k < |ids| ==> places[j] < places[k])
    && (forall i :: 0 <= i < |all| && all[i] in pages ==> i in places)
  }

  lemma {:induction false} KnownListed(ids: seq<string>, pages: set<string>) returns (places: seq<nat>)
    ensures Listed(Known(ids, pages), places, ids, pages)
  {
    if ids == [] {
      places := [];
    } else {
      var n := |ids| - 1;
      places := KnownListed(ids[..n], pages);
      NextListed(Known(ids[..n], pages), places, ids, pages);
      places := places + (if ids[n] in pages then [n] else []);
    }
  }

  lemma NextListed(known: seq<string>, places: seq<nat>, ids: seq<string>, pages: set<string>)
    requires ids != [] && Listed(known, places, ids[..|ids| - 1], pages)
    ensures var n := |ids| - 1;
            Listed(known + (if ids[n] in pages then [ids[n]] else []), places + (if ids[n] in pages then [n] else []),
                   ids, pages)
  {
    var n := |ids| - 1;
    assert forall i :: 0 <= i < n ==> ids[..n][i] == ids[i];
  }

  function PlacesIn(point: nat, places: seq<nat>): (r: seq<Place>)
    ensures |r| == |places| && forall k :: 0 <= k < |places| ==> r[k] == Place(point, places[k])
  {
    seq(|places|, k requires 0 <= k < |places| => Place(point, places[k]))
  }

  lemma {:induction false} AllKnownLocated(points: seq<seq<string>>, pages: set<string>) returns (places: seq<Place>)
    ensures Located(AllKnown(points, pages), places, points, pages)
  {
    if points == [] {
      places := [];
    } else {
      var n := |points| - 1;
      var before := AllKnownLocated(points[..n], pages);
      var last := KnownListed(points[n], pages);
      places := before + PlacesIn(n, last);
      NextLocated(AllKnown(points[..n], pages), before, Known(points[n], pages), last, points, pages);
    }
  }

  lemma NextLocated(ids: seq<string>, before: seq<Place>, known: seq<string>, last: seq<nat>, points: seq<seq<string>>,
                    pages: set<string>)
    requires points != [] && Located(ids, before, points[..|points| - 1], pages)
    requires Listed(known, last, points[|points| - 1], pages)
    ensures Located(ids + known, before + PlacesIn(|points| - 1, last), points, pages)
  {
    var n := |points| - 1;
    var all, places := ids + known, before + PlacesIn(n, last);
    assert forall i :: 0 <= i < n ==> points[..n][i] == points[i];
    forall k | 0 <= k < |all|
      ensures all[k] in pages && Names(points, places[k], all[k])
      ensures if k < |ids| then places[k].point < n && places[k] == before[k] else places[k] == Place(n, last[k - |ids|])
    {
      if k < |ids| {
        assert Names(points[..n], before[k], ids[k]);
      }
    }
    forall p, id | Names(points, p, id) && id in pages
      ensures p in places
    {
      if p.point < n {
        assert Names(points[..n], p, id);
      } else {
        var k :| 0 <= k < |last| && last[k] == p.at;
        assert places[|before| + k] == p;
      }
    }
  }

  lemma {:induction false} DistinctOrder(ids: seq<string>, i: nat, id: string) returns (a: nat)
    requires i < |Distinct(ids)| && id !in Distinct(ids)[..i + 1]
    ensures a < |ids| && ids[a] == Distinct(ids)[i] && id !in ids[..a + 1]
  {
    var n := |ids| - 1;
    var front := Distinct(ids[..n]);
    if i < |front| {
      assert Distinct(ids)[..i + 1] == front[..i + 1];
      a := DistinctOrder(ids[..n], i, id);
      assert ids[..n][..a + 1] == ids[..a + 1];
    } else {
      DistinctFits(ids[..n]);
      a := n;
      assert Distinct(ids)[..i + 1] == front + [ids[n]];
      assert ids[..n + 1] == ids[..n] + [ids[n]];
    }
  }

  /** A cited segment is named before any other known one that is cited later or not at all. */
  lemma CitedInOrder(points: seq<seq<string>>, pages: set<string>, i: nat, other: string) returns (p: Place)
    requires var cited := Take(Distinct(AllKnown(points, pages)), MAX_CITED);
             i < |cited| && other in pages && forall h :: 0 <= h <= i ==> cited[h] != other
    ensures Names(points, p, Take(Distinct(AllKnown(points, pages)), MAX_CITED)[i])
    ensures forall q :: Names(points, q, other) ==> Before(p, q)
  {
    var all := AllKnown(points, pages);
    assert Distinct(all)[..i + 1] == Take(Distinct(all), MAX_CITED)[..i + 1];
    var a := DistinctOrder(all, i, other);
    var places := AllKnownLocated(points, pages);
    p := places[a];
    hide AllKnown, Distinct, Names;
    assert forall c :: 0 <= c <= a ==> all[..a + 1][c] == all[c];
    forall q | Names(points, q, other)
      ensures Before(p, q)
    {
      assert q in places;
      var b :| 0 <= b < |places| && places[b] == q;
      SamePlace(points, q, all[b], other);
    }
  }

  lemma SamePlace(points: seq<seq<string>>, p: Place, a: string, b: string)
    requires Names(points, p, a) && Names(points, p, b)
    ensures a == b
  {
  }
}
