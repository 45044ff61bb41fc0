/** Which of the accepted research claims a review may use, and how searched claims are accepted. */
module ClaimSelection {
  import opened Basics

  datatype Kind = StructuralDynamic | CurrentDevelopment

  datatype Verification = Verified | PartiallyVerified | Unverified

  /** Dates are day numbers, all positive. */
  datatype Claim = Claim(
    id: string, publisher: string, kind: Kind, verification: Verification, date: Option<nat>,
    fcvRelevant: Option<bool>, url: Option<string>, quote: string, relevance: string, licensed: bool)

  /**
   The request's dates, and what is left abstract: text normalisation, the length of a claim's JSON,
   and the checks on sources.
   */
  datatype Rules = Rules(
    windowStart: nat, reviewDate: nat, diagnosticDate: Option<nat>,
    normalizeUrl: string -> string, fold: string -> string, blank: string -> bool, size: Claim -> nat,
    publicUrl: Option<string> -> bool, permitted: Claim -> bool)

  const MAX_SOURCES := 3
  const MAX_FINDINGS := 6
  const MAX_CHARACTERS := 6000

  /** Within two years of the review, and after the diagnostic when one is being updated. */
  predicate IsRecent(c: Claim, rules: Rules) {
    c.date.Some? && rules.windowStart <= c.date.value <= rules.reviewDate
    && (rules.diagnosticDate.Some? ==> rules.diagnosticDate.value < c.date.value)
  }

  predicate IsSubstantive(c: Claim, rules: Rules) {
    c.fcvRelevant != Some(false) && !rules.blank(c.quote) && !rules.blank(c.relevance)
  }

  function Graded(c: Claim, rules: Rules): Claim {
    if IsRecent(c, rules) then c else c.(verification := Unverified)
  }

  predicate Eligible(c: Claim, rules: Rules) {
    (IsRecent(c, rules) || (c.date.None? && c.fcvRelevant == Some(true))) && IsSubstantive(c, rules)
  }

  function EligibleOf(claims: seq<Claim>, rules: Rules): seq<Claim> {
    if claims == [] then []
    else
      (if Eligible(Graded(claims[0], rules), rules) then [Graded(claims[0], rules)] else [])
      + EligibleOf(claims[1..], rules)
  }

  // ---- the order claims are offered in ----

  function DateKey(c: Claim): nat {
    if c.date.Some? then c.date.value else 0
  }

  /** Newest first, then by identifier. */
  predicate InOrder(a: Claim, b: Claim) {
    DateKey(a) > DateKey(b) || (DateKey(a) == DateKey(b) && !TextLess(b.id, a.id))
  }

  predicate Sorted(claims: seq<Claim>) {
    forall i, j :: 0 <= i < j < |claims| ==> InOrder(claims[i], claims[j])
  }

  lemma InOrderTotal(a: Claim, b: Claim)
    ensures InOrder(a, b) || InOrder(b, a)
  {
    TextLessTotal(a.id, b.id);
  }

  lemma InOrderTransitive(a: Claim, b: Claim, c: Claim)
    requires InOrder(a, b) && InOrder(b, c)
    ensures InOrder(a, c)
  {
    if DateKey(a) == DateKey(b) == DateKey(c) && TextLess(c.id, a.id) {
      TextLessTotal(a.id, b.id);
      TextLessTotal(b.id, c.id);
      if TextLess(a.id, b.id) {
        TextLessTransitive(c.id, a.id, b.id);
      }
    }
  }

  /** Stable insertion: `c` goes before the first claim that must not precede it. */
  function Insert(c: Claim, sorted: seq<Claim>): seq<Claim> {
    if sorted == [] || InOrder(c, sorted[0]) then [c] + sorted
    else [sorted[0]] + Insert(c, sorted[1..])
  }

  function Sort(claims: seq<Claim>): seq<Claim> {
    if claims == [] then [] else Insert(claims[0], Sort(claims[1..]))
  }

  lemma {:induction false} InsertSorts(c: Claim, sorted: seq<Claim>)
    requires Sorted(sorted)
    ensures multiset(Insert(c, sorted)) == multiset([c]) + multiset(sorted)
    ensures Sorted(Insert(c, sorted))
    decreases |sorted|
  {
    var r := Insert(c, sorted);
    if sorted == [] {
    } else if InOrder(c, sorted[0]) {
      forall j | 0 <= j < |sorted|
        ensures InOrder(c, sorted[j])
      {
        if j > 0 {
          InOrderTransitive(c, sorted[0], sorted[j]);
        }
      }
    } else {
      InOrderTotal(c, sorted[0]);
      InsertSorts(c, sorted[1..]);
      var rest := Insert(c, sorted[1..]);
      assert sorted == [sorted[0]] + sorted[1..];
      forall j | 0 <= j < |rest|
        ensures InOrder(sorted[0], rest[j])
      {
        assert rest[j] in multiset(rest);
        assert rest[j] == c || rest[j] in sorted[1..];
      }
    }
  }

  lemma {:induction false} SortSorts(claims: seq<Claim>)
    ensures Sorted(Sort(claims)) && multiset(Sort(claims)) == multiset(claims)
  {
    if claims != [] {
      SortSorts(claims[1..]);
      InsertSorts(claims[0], Sort(claims[1..]));
      assert claims == [claims[0]] + claims[1..];
    }
  }

  lemma {:induction false} SortedStays(claims: seq<Claim>)
    requires Sorted(claims)
    ensures Sort(claims) == claims
  {
    if claims != [] {
      SortedStays(claims[1..]);
      assert claims == [claims[0]] + claims[1..];
    }
  }

  // ---- the caps ----

  function UrlOf(c: Claim, rules: Rules): string {
    rules.normalizeUrl(if c.url.Some? then c.url.value else "")
  }

  function Urls(claims: seq<Claim>, rules: Rules): set<string> {
    if claims == [] then {} else Urls(claims[..|claims| - 1], rules) + {UrlOf(claims[|claims| - 1], rules)}
  }

  function Characters(claims: seq<Claim>, rules: Rules): nat {
    if claims == [] then 0 else Characters(claims[..|claims| - 1], rules) + rules.size(claims[|claims| - 1])
  }

  /** Whether `c` may join `kept` without breaking a cap. */
  predicate Room(kept: seq<Claim>, c: Claim, rules: Rules) {
    && |kept| < MAX_FINDINGS
    && (UrlOf(c, rules) in Urls(kept, rules) || |Urls(kept, rules)| < MAX_SOURCES)
    && Characters(kept, rules) + rules.size(c) <= MAX_CHARACTERS
  }

  /** Each claim joins when it has room at its turn. */
  function Kept(claims: seq<Claim>, rules: Rules): seq<Claim> {
    if claims == [] then []
    else
      var kept := Kept(claims[..|claims| - 1], rules);
      if Room(kept, claims[|claims| - 1], rules) then kept + [claims[|claims| - 1]] else kept
  }

  function Qualifying(claims: seq<Claim>, rules: Rules): seq<Claim> {
    Kept(Sort(EligibleOf(claims, rules)), rules)
  }

  lemma OneMore(kept: seq<Claim>, c: Claim, rules: Rules)
    ensures Urls(kept + [c], rules) == Urls(kept, rules) + {UrlOf(c, rules)}
    ensures Characters(kept + [c], rules) == Characters(kept, rules) + rules.size(c)
  {
    assert (kept + [c])[..|kept|] == kept;
  }

  lemma NextKept(claims: seq<Claim>, k: nat, rules: Rules)
    requires k < |claims|
    ensures var kept := Kept(claims[..k], rules);
            Kept(claims[..k + 1], rules) == if Room(kept, claims[k], rules) then kept + [claims[k]] else kept
  {
    assert claims[..k + 1][..k] == claims[..k];
  }

  method QualifyingClaims(claims: seq<Claim>, rules: Rules) returns (kept: seq<Claim>)
    ensures kept == Qualifying(claims, rules)
  {
    var offered := Sort(EligibleOf(claims, rules));
    kept := [];
    assert Kept(offered[..0], rules) == [] && Urls([], rules) == {} && Characters([], rules) == 0;
    hide Sort, EligibleOf, Kept, Urls, Characters, UrlOf;
    var urls: set<string>, characters := {}, 0;
    var i := 0;
    while i < |offered|
      invariant i <= |offered| && kept == Kept(offered[..i], rules)
      invariant urls == Urls(kept, rules) && characters == Characters(kept, rules)
      invariant |kept| < MAX_FINDINGS
    {
      var c := offered[i];
      NextKept(offered, i, rules);
      OneMore(kept, c, rules);
      var url := UrlOf(c, rules);
      i := i + 1;
      if url !in urls && |urls| >= MAX_SOURCES {
        continue;
      }
      if characters + rules.size(c) > MAX_CHARACTERS {
        continue;
      }
      kept, urls, characters := kept + [c], urls + {url}, characters + rules.size(c);
      if |kept| >= MAX_FINDINGS {
        FullStaysFull(offered, i, rules);
        return;
      }
    }
    assert offered[..|offered|] == offered;
  }

  lemma {:induction false} FullStaysFull(claims: seq<Claim>, i: nat, rules: Rules)
    requires i <= |claims| && |Kept(claims[..i], rules)| >= MAX_FINDINGS
    ensures Kept(claims, rules) == Kept(claims[..i], rules)
  {
    if i < |claims| {
      assert claims[..|claims| - 1][..i] == claims[..i];
      FullStaysFull(claims[..|claims| - 1], i, rules);
    } else {
      assert claims[..i] == claims;
    }
  }

  // ---- what is selected ----

  lemma {:induction false} KeptWithinCaps(claims: seq<Claim>, rules: Rules)
    ensures var kept := Kept(claims, rules);
            |kept| <= MAX_FINDINGS && |Urls(kept, rules)| <= MAX_SOURCES && Characters(kept, rules) <= MAX_CHARACTERS
    ensures forall c :: c in Kept(claims, rules) ==> c in claims
  {
    if claims != [] {
      var before, c := Kept(claims[..|claims| - 1], rules), claims[|claims| - 1];
      KeptWithinCaps(claims[..|claims| - 1], rules);
      assert (before + [c])[..|before|] == before;
    }
  }

  lemma {:induction false} KeptIsPrefix(claims: seq<Claim>, k: nat, rules: Rules)
    requires k <= |claims|
    ensures Kept(claims[..k], rules) <= Kept(claims, rules)
  {
    if k < |claims| {
      assert claims[..|claims| - 1][..k] == claims[..k];
      KeptIsPrefix(claims[..|claims| - 1], k, rules);
    } else {
      assert claims[..k] == claims;
    }
  }

  lemma {:induction false} EligibleOfFits(claims: seq<Claim>, rules: Rules)
    ensures forall c :: c in EligibleOf(claims, rules) <==>
              exists i :: 0 <= i < |claims| && c == Graded(claims[i], rules) && Eligible(c, rules)
  {
    hide Graded, Eligible;
    if claims != [] {
      EligibleOfFits(claims[1..], rules);
      assert forall i :: 0 < i < |claims| ==> claims[i] == claims[1..][i - 1];
    }
  }

  lemma OfferedFits(claims: seq<Claim>, rules: Rules)
    ensures forall c :: c in Sort(EligibleOf(claims, rules)) <==> c in EligibleOf(claims, rules)
  {
    SortSorts(EligibleOf(claims, rules));
    forall c
      ensures c in Sort(EligibleOf(claims, rules)) <==> c in EligibleOf(claims, rules)
    {
      assert c in Sort(EligibleOf(claims, rules)) <==> c in multiset(Sort(EligibleOf(claims, rules)));
    }
  }

  /** A claim dated within the window, up to the day of the review and after the diagnostic it updates. */
  ghost predicate DatedInWindow(c: Claim, rules: Rules) {
    exists d: nat :: c.date == Some(d) && rules.windowStart <= d && d <= rules.reviewDate
                     && !(rules.diagnosticDate.Some? && d <= rules.diagnosticDate.value)
  }

  /** What is offered for selection of an accepted claim: dated ones as they are, undated ones as unverified. */
  ghost predicate OfferedAs(offered: Claim, accepted: Claim, rules: Rules) {
    && accepted.fcvRelevant != Some(false) && !rules.blank(accepted.quote) && !rules.blank(accepted.relevance)
    && if DatedInWindow(accepted, rules) then offered == accepted
       else accepted.date == None && accepted.fcvRelevant == Some(true) && offered == accepted.(verification := Unverified)
  }

  lemma GradedIs(accepted: Claim, rules: Rules)
    ensures Eligible(Graded(accepted, rules), rules)
            <==> exists offered :: OfferedAs(offered, accepted, rules) && offered == Graded(accepted, rules)
    ensures forall offered :: OfferedAs(offered, accepted, rules) ==> offered == Graded(accepted, rules)
  {
    assert IsRecent(accepted, rules) <==> DatedInWindow(accepted, rules);
    if Eligible(Graded(accepted, rules), rules) {
      assert OfferedAs(Graded(accepted, rules), accepted, rules);
    }
  }

  /** Exactly the claims so offered are offered. */
  lemma OfferedIs(claims: seq<Claim>, c: Claim, rules: Rules)
    ensures c in Sort(EligibleOf(claims, rules)) <==> exists i :: 0 <= i < |claims| && OfferedAs(c, claims[i], rules)
  {
    EligibleOfFits(claims, rules);
    OfferedFits(claims, rules);
    forall i | 0 <= i < |claims|
      ensures OfferedAs(c, claims[i], rules) <==> c == Graded(claims[i], rules) && Eligible(c, rules)
    {
      GradedIs(claims[i], rules);
    }
    hide OfferedAs, Graded, Eligible, Sort, EligibleOf;
  }

  /** Newest first, undated last, and by name among those of one day. */
  predicate NewestFirst(claims: seq<Claim>) {
    forall i, j :: 0 <= i < j < |claims| ==>
      && (claims[j].date.Some? && claims[j].date.value > 0 ==>
            claims[i].date.Some? && claims[i].date.value >= claims[j].date.value)
      && (claims[i].date == claims[j].date ==> !TextLess(claims[j].id, claims[i].id))
  }

  /** The sources the claims come from. */
  function Sources(claims: seq<Claim>, rules: Rules): set<string> {
    set c | c in claims :: rules.normalizeUrl(match c.url case Some(url) => url case None => "")
  }

  lemma {:induction false} UrlsAreSources(claims: seq<Claim>, rules: Rules)
    ensures Urls(claims, rules) == Sources(claims, rules)
  {
    if claims != [] {
      var n := |claims| - 1;
      UrlsAreSources(claims[..n], rules);
      assert claims == claims[..n] + [claims[n]];
      assert Sources(claims, rules) == Sources(claims[..n], rules) + {UrlOf(claims[n], rules)};
    }
  }

  lemma SortedIsNewestFirst(claims: seq<Claim>)
    requires Sorted(claims)
    ensures NewestFirst(claims)
  {
    hide TextLess;
    forall i, j | 0 <= i < j < |claims|
      ensures InOrder(claims[i], claims[j])
    {
    }
  }

  lemma {:induction false} SelectedIsOffered(claims: seq<Claim>, c: Claim, rules: Rules)
    requires c in Qualifying(claims, rules)
    ensures exists i :: 0 <= i < |claims| && OfferedAs(c, claims[i], rules)
  {
    KeptWithinCaps(Sort(EligibleOf(claims, rules)), rules);
    OfferedIs(claims, c, rules);
  }

  /** Selected claims keep every cap, stand newest first, and are offered ones. */
  lemma QualifyingFits(claims: seq<Claim>, rules: Rules)
    ensures var q := Qualifying(claims, rules);
            && |q| <= 6 && |Sources(q, rules)| <= 3 && Characters(q, rules) <= 6000 && NewestFirst(q)
    ensures forall c :: c in Qualifying(claims, rules) ==>
              exists i :: 0 <= i < |claims| && OfferedAs(c, claims[i], rules)
  {
    var offered := Sort(EligibleOf(claims, rules));
    SortSorts(EligibleOf(claims, rules));
    KeptWithinCaps(offered, rules);
    KeptSorted(offered, rules);
    UrlsAreSources(Kept(offered, rules), rules);
    SortedIsNewestFirst(Kept(offered, rules));
    hide OfferedAs, NewestFirst, Sources, Characters, Sorted, Kept, Sort, EligibleOf;
    forall c | c in Qualifying(claims, rules)
      ensures exists i :: 0 <= i < |claims| && OfferedAs(c, claims[i], rules)
    {
      SelectedIsOffered(claims, c, rules);
    }
  }

  /**
   An offered claim is left out exactly when, at its turn, adding it to what was already selected would break a cap:
   six claims, three sources or six thousand characters.
   */
  lemma LeftOutOnlyByCaps(claims: seq<Claim>, k: nat, rules: Rules)
    requires k < |Sort(EligibleOf(claims, rules))|
    ensures var offered := Sort(EligibleOf(claims, rules));
            var before, after := Kept(offered[..k], rules), Kept(offered[..k + 1], rules);
            && before <= after <= Qualifying(claims, rules)
            && after == if |before| == 6 || |Sources(before + [offered[k]], rules)| > 3
                           || Characters(before, rules) + rules.size(offered[k]) > 6000 then before
                        else before + [offered[k]]
  {
    var offered := Sort(EligibleOf(claims, rules));
    hide Sort, EligibleOf, Kept;
    KeptIsPrefix(offered, k + 1, rules);
    KeptWithinCaps(offered[..k], rules);
    NextKept(offered, k, rules);
    RoomIs(Kept(offered[..k], rules), offered[k], rules);
    hide Room, Urls, Sources, Characters;
  }

  lemma RoomIs(kept: seq<Claim>, c: Claim, rules: Rules)
    requires |kept| <= 6 && |Urls(kept, rules)| <= 3
    ensures Room(kept, c, rules)
            <==> |kept| < 6 && |Sources(kept + [c], rules)| <= 3 && Characters(kept, rules) + rules.size(c) <= 6000
  {
    OneMore(kept, c, rules);
    UrlsAreSources(kept + [c], rules);
    hide Urls, Sources, Characters, UrlOf;
    assert UrlOf(c, rules) in Urls(kept, rules) ==> Urls(kept, rules) + {UrlOf(c, rules)} == Urls(kept, rules);
  }

  /** The characters of claims are those of each, added up. */
  lemma {:induction false} CharactersAddUp(a: seq<Claim>, b: seq<Claim>, c: Claim, rules: Rules)
    ensures Characters(a + b, rules) == Characters(a, rules) + Characters(b, rules)
    ensures Characters([c], rules) == rules.size(c)
  {
    if b == [] {
      assert a + b == a;
    } else {
      var n := |b| - 1;
      CharactersAddUp(a, b[..n], c, rules);
      assert (a + b)[..|a + b| - 1] == a + b[..n];
    }
    assert [c][..0] == [];
  }

  lemma {:induction false} KeptSorted(claims: seq<Claim>, rules: Rules)
    requires Sorted(claims)
    ensures Sorted(Kept(claims, rules))
  {
    if claims != [] {
      var front := claims[..|claims| - 1];
      KeptSorted(front, rules);
      KeptWithinCaps(front, rules);
      var before := Kept(front, rules);
      forall i | 0 <= i < |before|
        ensures InOrder(before[i], claims[|claims| - 1])
      {
        assert before[i] in front;
      }
    }
  }

  lemma {:induction false} KeptStays(claims: seq<Claim>, rules: Rules)
    ensures Kept(Kept(claims, rules), rules) == Kept(claims, rules)
  {
    if claims != [] {
      var before, c := Kept(claims[..|claims| - 1], rules), claims[|claims| - 1];
      KeptStays(claims[..|claims| - 1], rules);
      assert (before + [c])[..|before|] == before;
    }
  }

  lemma {:induction false} EligibleStays(claims: seq<Claim>, rules: Rules)
    requires forall c :: c in claims ==> Eligible(c, rules) && Graded(c, rules) == c
    ensures EligibleOf(claims, rules) == claims
  {
    if claims != [] {
      EligibleStays(claims[1..], rules);
      assert claims == [claims[0]] + claims[1..];
    }
  }

  /** Selecting again changes nothing. */
  lemma QualifyingIdempotent(claims: seq<Claim>, rules: Rules)
    ensures Qualifying(Qualifying(claims, rules), rules) == Qualifying(claims, rules)
  {
    var offered := Sort(EligibleOf(claims, rules));
    var q := Qualifying(claims, rules);
    SortSorts(EligibleOf(claims, rules));
    KeptWithinCaps(offered, rules);
    KeptSorted(offered, rules);
    EligibleOfFits(claims, rules);
    OfferedFits(claims, rules);
    forall c | c in q
      ensures Eligible(c, rules) && Graded(c, rules) == c
    {
      assert c in offered;
    }
    EligibleStays(q, rules);
    SortedStays(q);
    KeptStays(offered, rules);
  }

  // ---- accepting what a search returned ----

  datatype Reason = DuplicateInSearch | Licensed | NoPublicUrl | NotRelevant | NotPermitted | DuplicateAccepted

  function CountId(claims: seq<Claim>, id: string): nat {
    if claims == [] then 0
    else CountId(claims[..|claims| - 1], id) + (if claims[|claims| - 1].id == id then 1 else 0)
  }

  /** Why a claim of this search is refused, if it is. */
  function Refusal(c: Claim, search: seq<Claim>, rules: Rules): Option<Reason> {
    if CountId(search, c.id) > 1 then Some(DuplicateInSearch)
    else if c.licensed then Some(Licensed)
    else if !rules.publicUrl(c.url) then Some(NoPublicUrl)
    else if rules.blank(c.relevance) then Some(NotRelevant)
    else if !rules.permitted(c) then Some(NotPermitted)
    else None
  }

  /** Two claims of the search go by this identifier. */
  predicate Repeated(search: seq<Claim>, id: string) {
    exists i, j :: 0 <= i < j < |search| && search[i].id == id && search[j].id == id
  }

  lemma {:induction false} CountedMost(claims: seq<Claim>, id: string)
    ensures CountId(claims, id) == 0 <==> forall i :: 0 <= i < |claims| ==> claims[i].id != id
    ensures CountId(claims, id) > 1 <==> Repeated(claims, id)
  {
    if claims != [] {
      var n := |claims| - 1;
      CountedMost(claims[..n], id);
      if Repeated(claims, id) {
        var i, j :| 0 <= i < j < |claims| && claims[i].id == id && claims[j].id == id;
        assert claims[..n][i].id == id;
        assert j < n ==> claims[..n][j].id == id && Repeated(claims[..n], id);
      }
      if Repeated(claims[..n], id) {
        var i, j :| 0 <= i < j < n && claims[..n][i].id == id && claims[..n][j].id == id;
        assert claims[i].id == id && claims[j].id == id;
      }
    }
  }

  /** What is held against a claim, the first in this order: repeated, licensed, not public, not relevant, not permitted. */
  lemma RefusalIs(c: Claim, search: seq<Claim>, rules: Rules)
    ensures Refusal(c, search, rules) == Some(DuplicateInSearch) <==> Repeated(search, c.id)
    ensures Refusal(c, search, rules) == Some(Licensed) <==> !Repeated(search, c.id) && c.licensed
    ensures Refusal(c, search, rules) == Some(NoPublicUrl)
            <==> !Repeated(search, c.id) && !c.licensed && !rules.publicUrl(c.url)
    ensures Refusal(c, search, rules) == Some(NotRelevant)
            <==> !Repeated(search, c.id) && !c.licensed && rules.publicUrl(c.url) && rules.blank(c.relevance)
    ensures Refusal(c, search, rules) == Some(NotPermitted)
            <==> !Repeated(search, c.id) && !c.licensed && rules.publicUrl(c.url) && !rules.blank(c.relevance)
                 && !rules.permitted(c)
    ensures Refusal(c, search, rules) == None
            <==> !Repeated(search, c.id) && !c.licensed && rules.publicUrl(c.url) && !rules.blank(c.relevance)
                 && rules.permitted(c)
  {
    CountedMost(search, c.id);
    hide CountId, Repeated;
  }

  /** The claims at these places, in order. */
  ghost predicate Picks(picked: seq<Claim>, places: seq<nat>, from: seq<Claim>) {
    && |places| == |picked|
    && (forall k :: 0 <= k < |places| ==> places[k] < |from| && picked[k] == from[places[k]])
    && (forall j, k :: 0 <= j < k < |places| ==> places[j] < places[k])
  }

  lemma NothingPicked(from: seq<Claim>)
    ensures Picks([], [], from)
  {
  }

  lemma NextPicked(picked: seq<Claim>, places: seq<nat>, from: seq<Claim>, i: nat)
    requires Picks(picked, places, from) && i < |from| && forall k :: k in places ==> k < i
    ensures Picks(picked + [from[i]], places + [i], from)
  {
    assert forall k :: 0 <= k < |places| ==> places[k] in places;
  }

  /** The reasons of the first `n` claims of a search, by name. */
  ghost predicate Refused(n: nat, refused: map<string, Reason>, search: seq<Claim>, rules: Rules)
    requires n <= |search|
  {
    && (forall id :: id in refused <==>
          exists i :: 0 <= i < n && search[i].id == id && Refusal(search[i], search, rules).Some?)
    && forall i :: 0 <= i < n && Refusal(search[i], search, rules).Some? ==>
         refused[search[i].id] == Refusal(search[i], search, rules).value
  }

  lemma NextRefused(n: nat, refused: map<string, Reason>, search: seq<Claim>, rules: Rules)
    requires n < |search| && Refused(n, refused, search, rules)
    ensures var reason := Refusal(search[n], search, rules);
            Refused(n + 1, if reason.Some? then refused[search[n].id := reason.value] else refused, search, rules)
  {
    forall i | 0 <= i < n && search[i].id == search[n].id
      ensures Refusal(search[i], search, rules) == Some(DuplicateInSearch) == Refusal(search[n], search, rules)
    {
      CountedTwice(search, i, n);
    }
    hide Refusal;
  }

  /** Of the first `n` claims of a search, those without a reason are retained. */
  ghost predicate Retaining(n: nat, retained: seq<Claim>, places: seq<nat>, search: seq<Claim>, rules: Rules) {
    && n <= |search| && Picks(retained, places, search)
    && (forall k :: k in places <==> 0 <= k < n && Refusal(search[k], search, rules).None?)
    && forall c :: c in retained <==> c in search[..n] && Refusal(c, search, rules).None?
  }

  lemma NextRetained(n: nat, retained: seq<Claim>, places: seq<nat>, search: seq<Claim>, rules: Rules)
    requires n < |search| && Retaining(n, retained, places, search, rules)
    ensures if Refusal(search[n], search, rules).Some? then Retaining(n + 1, retained, places, search, rules)
            else Retaining(n + 1, retained + [search[n]], places + [n], search, rules)
  {
    hide Refusal, Picks;
    if Refusal(search[n], search, rules).None? {
      NextPicked(retained, places, search, n);
    }
    assert search[..n + 1] == search[..n] + [search[n]];
  }

  method RetainPublicClaims(search: seq<Claim>, rules: Rules)
    returns (retained: seq<Claim>, refused: map<string, Reason>, ghost places: seq<nat>)
    ensures Picks(retained, places, search)
    ensures forall i :: i in places <==> 0 <= i < |search| && Refusal(search[i], search, rules).None?
    ensures forall c :: c in retained <==> c in search && Refusal(c, search, rules).None?
    ensures forall id :: id in refused <==>
              exists i :: 0 <= i < |search| && search[i].id == id && Refusal(search[i], search, rules).Some?
    ensures forall i :: 0 <= i < |search| && Refusal(search[i], search, rules).Some? ==>
              refused[search[i].id] == Refusal(search[i], search, rules).value
  {
    retained, refused, places := [], map[], [];
    NothingPicked(search);
    hide Refusal, Picks;
    for i := 0 to |search|
      invariant Retaining(i, retained, places, search, rules) && Refused(i, refused, search, rules)
    {
      var reason := Refusal(search[i], search, rules);
      NextRetained(i, retained, places, search, rules);
      NextRefused(i, refused, search, rules);
      if reason.Some? {
        refused := refused[search[i].id := reason.value];
      } else {
        retained, places := retained + [search[i]], places + [i];
      }
    }
    assert search[..|search|] == search;
  }

  lemma {:induction false} CountedTwice(claims: seq<Claim>, j: nat, k: nat)
    requires j <= k < |claims| && claims[j].id == claims[k].id
    ensures CountId(claims, claims[k].id) >= if j < k then 2 else 1
  {
    if k < |claims| - 1 {
      CountedTwice(claims[..|claims| - 1], j, k);
    } else if j < k {
      CountedTwice(claims[..k], j, j);
    }
  }

  /** Accepted claims have different identifiers, whatever their case. */
  predicate DistinctKeys(accepted: seq<Claim>, rules: Rules) {
    forall i, j :: 0 <= i < j < |accepted| ==> rules.fold(accepted[i].id) != rules.fold(accepted[j].id)
  }

  predicate HasKey(accepted: seq<Claim>, key: string, rules: Rules) {
    exists i :: 0 <= i < |accepted| && rules.fold(accepted[i].id) == key
  }

  lemma KeysGrow(accepted: seq<Claim>, c: Claim, rules: Rules)
    ensures forall key :: HasKey(accepted + [c], key, rules) <==> HasKey(accepted, key, rules) || rules.fold(c.id) == key
  {
    var more := accepted + [c];
    assert more[|accepted|] == c && forall k :: 0 <= k < |accepted| ==> more[k] == accepted[k];
  }

  /** A claim found acceptable is new: no accepted claim and no acceptable one before it goes by its identifier. */
  ghost predicate New(j: nat, search: seq<Claim>, accepted: seq<Claim>, rules: Rules)
    requires j < |search|
  {
    && Refusal(search[j], search, rules).None?
    && !HasKey(accepted, rules.fold(search[j].id), rules)
    && forall i :: 0 <= i < j && Refusal(search[i], search, rules).None? ==>
         rules.fold(search[i].id) != rules.fold(search[j].id)
  }

  /** Of the first `n` acceptable claims, exactly the new ones are added, in order; the keys are those seen. */
  ghost predicate MergedSoFar(added: seq<Claim>, places: seq<nat>, n: nat, kept: seq<nat>, search: seq<Claim>,
                              accepted: seq<Claim>, rules: Rules)
  {
    && n <= |kept| && (forall k :: 0 <= k < |kept| ==> kept[k] < |search|)
    && Picks(added, places, search)
    && (forall j :: j in places <==> j in kept[..n] && New(j, search, accepted, rules))
    && forall key :: HasKey(accepted + added, key, rules)
         <==> HasKey(accepted, key, rules) || exists k :: 0 <= k < n && rules.fold(search[kept[k]].id) == key
  }

  /** The acceptable claims' places, in order. */
  ghost predicate Acceptable(kept: seq<nat>, search: seq<Claim>, rules: Rules) {
    && (forall i :: i in kept <==> 0 <= i < |search| && Refusal(search[i], search, rules).None?)
    && forall j, k :: 0 <= j < k < |kept| ==> kept[j] < kept[k]
  }

  lemma NewIs(n: nat, kept: seq<nat>, search: seq<Claim>, accepted: seq<Claim>, rules: Rules)
    requires n < |kept| && Acceptable(kept, search, rules)
    ensures kept[n] < |search|
    ensures New(kept[n], search, accepted, rules)
            <==> !HasKey(accepted, rules.fold(search[kept[n]].id), rules)
                 && forall k :: 0 <= k < n ==> rules.fold(search[kept[k]].id) != rules.fold(search[kept[n]].id)
  {
    hide Refusal, HasKey;
    var j := kept[n];
    assert j in kept;
    forall i | 0 <= i < j && Refusal(search[i], search, rules).None?
      ensures exists k :: 0 <= k < n && kept[k] == i
    {
      assert i in kept;
      var k :| 0 <= k < |kept| && kept[k] == i;
    }
    forall k | 0 <= k < n
      ensures kept[k] < j && Refusal(search[kept[k]], search, rules).None?
    {
      assert kept[k] in kept;
    }
  }

  lemma NextMerged(added: seq<Claim>, places: seq<nat>, n: nat, kept: seq<nat>, search: seq<Claim>,
                   accepted: seq<Claim>, rules: Rules)
    requires MergedSoFar(added, places, n, kept, search, accepted, rules) && n < |kept| && Acceptable(kept, search, rules)
    ensures kept[n] < |search|
    ensures var c := search[kept[n]];
            if HasKey(accepted + added, rules.fold(c.id), rules)
            then MergedSoFar(added, places, n + 1, kept, search, accepted, rules)
            else MergedSoFar(added + [c], places + [kept[n]], n + 1, kept, search, accepted, rules)
  {
    NewIs(n, kept, search, accepted, rules);
    var c := search[kept[n]];
    KeysGrow(accepted + added, c, rules);
    assert accepted + (added + [c]) == accepted + added + [c];
    hide HasKey, New, Refusal;
    assert kept[..n + 1] == kept[..n] + [kept[n]];
    forall k | 0 <= k < |places|
      ensures places[k] < kept[n]
    {
      assert places[k] in places && places[k] in kept[..n];
    }
  }

  lemma TakenIs(added: seq<Claim>, places: seq<nat>, n: nat, kept: seq<nat>, search: seq<Claim>,
                accepted: seq<Claim>, rules: Rules)
    requires MergedSoFar(added, places, n, kept, search, accepted, rules) && n < |kept| && Acceptable(kept, search, rules)
    ensures kept[n] < |search|
    ensures HasKey(accepted + added, rules.fold(search[kept[n]].id), rules) <==> !New(kept[n], search, accepted, rules)
  {
    NewIs(n, kept, search, accepted, rules);
    hide HasKey, New, Refusal, Picks;
  }

  /** An acceptable claim of the search that is not new leaves this name. */
  ghost predicate Doubled(id: string, search: seq<Claim>, accepted: seq<Claim>, rules: Rules) {
    exists j :: 0 <= j < |search| && id == "duplicate_id:" + search[j].id
                && Refusal(search[j], search, rules).None? && !New(j, search, accepted, rules)
  }

  /** A claim of the search by this name is refused, and why. */
  predicate RefusedFor(id: string, reason: Reason, search: seq<Claim>, rules: Rules) {
    exists i :: 0 <= i < |search| && search[i].id == id && Refusal(search[i], search, rules) == Some(reason)
  }

  predicate RefusedAtAll(id: string, search: seq<Claim>, rules: Rules) {
    exists i :: 0 <= i < |search| && search[i].id == id && Refusal(search[i], search, rules).Some?
  }

  /** Nothing accepted is lost or replaced, and exactly the new acceptable claims are added, in the order found. */
  ghost predicate Adds(search: seq<Claim>, accepted: seq<Claim>, accepted': seq<Claim>, rules: Rules) {
    && accepted <= accepted'
    && exists places :: Picks(accepted'[|accepted|..], places, search)
                        && forall j :: j in places <==> 0 <= j < |search| && New(j, search, accepted, rules)
  }

  /** Exactly the other claims leave a reason, under their own name or as duplicates; older reasons stay. */
  ghost predicate Reasons(search: seq<Claim>, accepted: seq<Claim>, rejected: map<string, Reason>,
                          rejected': map<string, Reason>, rules: Rules)
  {
    && (forall id :: id in rejected' <==>
          id in rejected || RefusedAtAll(id, search, rules) || Doubled(id, search, accepted, rules))
    && forall id :: id in rejected' ==>
         if Doubled(id, search, accepted, rules) then rejected'[id] == DuplicateAccepted
         else if RefusedAtAll(id, search, rules) then RefusedFor(id, rejected'[id], search, rules)
         else rejected'[id] == rejected[id]
  }

  /** Adding a search to the accepted claims, kept in insertion order. */
  method MergeClaims(search: seq<Claim>, accepted: seq<Claim>, rejected: map<string, Reason>, rules: Rules)
    returns (accepted': seq<Claim>, rejected': map<string, Reason>)
    requires DistinctKeys(accepted, rules)
    ensures DistinctKeys(accepted', rules)
    ensures Adds(search, accepted, accepted', rules)
    ensures Reasons(search, accepted, rejected, rejected', rules)
  {
    hide Merging, Refusal, Picks, New, HasKey, DistinctKeys, Reasons, Adds;
    var retained, refused;
    ghost var kept, places: seq<nat>;
    retained, refused, kept := RetainPublicClaims(search, rules);
    var added: seq<Claim> := [];
    rejected', places := rejected + refused, [];
    NothingMerged(retained, kept, rejected', search, accepted, rules);
    for i := 0 to |retained|
      invariant Merging(i, retained, kept, added, places, rejected + refused, rejected', search, accepted, rules)
    {
      var c := retained[i];
      NextMerging(i, retained, kept, added, places, rejected + refused, rejected', search, accepted, rules);
      if HasKey(accepted + added, rules.fold(c.id), rules) {
        rejected' := rejected'["duplicate_id:" + c.id := DuplicateAccepted];
      } else {
        added, places := added + [c], places + [kept[i]];
      }
    }
    accepted' := accepted + added;
    AllAdded(retained, kept, added, places, rejected + refused, rejected', search, accepted, rules);
    AllReasons(retained, kept, added, places, refused, rejected, rejected', search, accepted, rules);
  }

  /** One of the first `n` claims retained is not new and leaves this name. */
  ghost predicate DoubledBy(id: string, n: nat, kept: seq<nat>, search: seq<Claim>, accepted: seq<Claim>, rules: Rules)
    requires n <= |kept| && forall k :: 0 <= k < |kept| ==> kept[k] < |search|
  {
    exists k :: 0 <= k < n && id == "duplicate_id:" + search[kept[k]].id && !New(kept[k], search, accepted, rules)
  }

  /** The reasons given so far: those there were, but for the first `n` claims retained. */
  ghost predicate Noted(n: nat, kept: seq<nat>, base: map<string, Reason>, rejected: map<string, Reason>,
                        search: seq<Claim>, accepted: seq<Claim>, rules: Rules)
  {
    && n <= |kept| && (forall k :: 0 <= k < |kept| ==> kept[k] < |search|)
    && forall id :: (id in rejected <==> id in base || DoubledBy(id, n, kept, search, accepted, rules))
                    && (id in rejected ==>
                          rejected[id] == if DoubledBy(id, n, kept, search, accepted, rules) then DuplicateAccepted
                                          else base[id])
  }

  lemma NextDoubled(id: string, n: nat, kept: seq<nat>, search: seq<Claim>, accepted: seq<Claim>, rules: Rules)
    requires n < |kept| && forall k :: 0 <= k < |kept| ==> kept[k] < |search|
    ensures DoubledBy(id, n + 1, kept, search, accepted, rules)
            <==> DoubledBy(id, n, kept, search, accepted, rules)
                 || (id == "duplicate_id:" + search[kept[n]].id && !New(kept[n], search, accepted, rules))
  {
    hide New;
  }

  lemma NextNoted(n: nat, kept: seq<nat>, base: map<string, Reason>, rejected: map<string, Reason>, search: seq<Claim>,
                  accepted: seq<Claim>, rules: Rules)
    requires Noted(n, kept, base, rejected, search, accepted, rules) && n < |kept|
    ensures Noted(n + 1, kept, base,
                  if New(kept[n], search, accepted, rules) then rejected
                  else rejected["duplicate_id:" + search[kept[n]].id := DuplicateAccepted],
                  search, accepted, rules)
  {
    forall id
      ensures DoubledBy(id, n + 1, kept, search, accepted, rules)
              <==> DoubledBy(id, n, kept, search, accepted, rules)
                   || (id == "duplicate_id:" + search[kept[n]].id && !New(kept[n], search, accepted, rules))
    {
      NextDoubled(id, n, kept, search, accepted, rules);
    }
    hide DoubledBy, New;
  }

  /** The loop's work on the first `n` of the claims retained, which stand at the places `kept`. */
  ghost predicate Merging(n: nat, retained: seq<Claim>, kept: seq<nat>, added: seq<Claim>, places: seq<nat>,
                          base: map<string, Reason>, rejected: map<string, Reason>, search: seq<Claim>,
                          accepted: seq<Claim>, rules: Rules)
  {
    && Acceptable(kept, search, rules) && Picks(retained, kept, search) && n <= |retained|
    && MergedSoFar(added, places, n, kept, search, accepted, rules) && DistinctKeys(accepted + added, rules)
    && Noted(n, kept, base, rejected, search, accepted, rules)
  }

  lemma NothingMerged(retained: seq<Claim>, kept: seq<nat>, base: map<string, Reason>, search: seq<Claim>,
                      accepted: seq<Claim>, rules: Rules)
    requires Picks(retained, kept, search) && DistinctKeys(accepted, rules)
    requires forall i :: i in kept <==> 0 <= i < |search| && Refusal(search[i], search, rules).None?
    ensures Merging(0, retained, kept, [], [], base, base, search, accepted, rules)
  {
    hide Refusal, HasKey, New;
    assert accepted + [] == accepted && kept[..0] == [];
  }

  lemma NextDistinct(c: Claim, accepted: seq<Claim>, rules: Rules)
    requires DistinctKeys(accepted, rules) && !HasKey(accepted, rules.fold(c.id), rules)
    ensures DistinctKeys(accepted + [c], rules)
  {
  }

  lemma NextMerging(n: nat, retained: seq<Claim>, kept: seq<nat>, added: seq<Claim>, places: seq<nat>,
                    base: map<string, Reason>, rejected: map<string, Reason>, search: seq<Claim>,
                    accepted: seq<Claim>, rules: Rules)
    requires Merging(n, retained, kept, added, places, base, rejected, search, accepted, rules) && n < |retained|
    ensures |kept| == |retained|
    ensures var c := retained[n];
            if HasKey(accepted + added, rules.fold(c.id), rules)
            then Merging(n + 1, retained, kept, added, places, base, rejected["duplicate_id:" + c.id := DuplicateAccepted],
                         search, accepted, rules)
            else Merging(n + 1, retained, kept, added + [c], places + [kept[n]], base, rejected, search, accepted, rules)
  {
    NextMerged(added, places, n, kept, search, accepted, rules);
    TakenIs(added, places, n, kept, search, accepted, rules);
    NextNoted(n, kept, base, rejected, search, accepted, rules);
    hide Acceptable, MergedSoFar, DistinctKeys, HasKey, Noted, New;
    assert retained[n] == search[kept[n]];
    if !HasKey(accepted + added, rules.fold(retained[n].id), rules) {
      NextDistinct(retained[n], accepted + added, rules);
      assert accepted + added + [retained[n]] == accepted + (added + [retained[n]]);
    }
  }

  lemma AllAdded(retained: seq<Claim>, kept: seq<nat>, added: seq<Claim>, places: seq<nat>, base: map<string, Reason>,
                 rejected: map<string, Reason>, search: seq<Claim>, accepted: seq<Claim>, rules: Rules)
    requires Merging(|retained|, retained, kept, added, places, base, rejected, search, accepted, rules)
    ensures DistinctKeys(accepted + added, rules) && Adds(search, accepted, accepted + added, rules)
  {
    hide HasKey, Refusal, New, DistinctKeys;
    assert kept[..|kept|] == kept;
    assert forall j :: j in places <==> 0 <= j < |search| && New(j, search, accepted, rules) by {
      NewAreAcceptable(search, accepted, rules);
    }
    hide Picks, Noted;
    assert (accepted + added)[|accepted|..] == added;
  }

  lemma NewAreAcceptable(search: seq<Claim>, accepted: seq<Claim>, rules: Rules)
    ensures forall j :: 0 <= j < |search| && New(j, search, accepted, rules) ==> Refusal(search[j], search, rules).None?
  {
    hide Refusal, HasKey;
  }

  lemma AllReasons(retained: seq<Claim>, kept: seq<nat>, added: seq<Claim>, places: seq<nat>, refused: map<string, Reason>,
                   before: map<string, Reason>, rejected: map<string, Reason>, search: seq<Claim>,
                   accepted: seq<Claim>, rules: Rules)
    requires Merging(|retained|, retained, kept, added, places, before + refused, rejected, search, accepted, rules)
    requires Refused(|search|, refused, search, rules)
    ensures Reasons(search, accepted, before, rejected, rules)
  {
    assert |kept| == |retained|;
    hide HasKey, Refusal, New, DistinctKeys, MergedSoFar, Picks;
    forall id
      ensures DoubledBy(id, |kept|, kept, search, accepted, rules) <==> Doubled(id, search, accepted, rules)
      ensures id in refused <==> RefusedAtAll(id, search, rules)
      ensures id in refused ==> RefusedFor(id, refused[id], search, rules)
    {
      DoubledIs(id, kept, search, accepted, rules);
      RefusedIs(id, refused, search, rules);
    }
    hide DoubledBy, Doubled, RefusedAtAll, RefusedFor, Refused;
  }

  lemma DoubledIs(id: string, kept: seq<nat>, search: seq<Claim>, accepted: seq<Claim>, rules: Rules)
    requires Acceptable(kept, search, rules) && forall k :: 0 <= k < |kept| ==> kept[k] < |search|
    ensures DoubledBy(id, |kept|, kept, search, accepted, rules) <==> Doubled(id, search, accepted, rules)
  {
    hide Refusal, New;
    if Doubled(id, search, accepted, rules) {
      var j :| 0 <= j < |search| && id == "duplicate_id:" + search[j].id
               && Refusal(search[j], search, rules).None? && !New(j, search, accepted, rules);
      assert j in kept;
      var k :| 0 <= k < |kept| && kept[k] == j;
      assert id == "duplicate_id:" + search[kept[k]].id;
    }
    if DoubledBy(id, |kept|, kept, search, accepted, rules) {
      var k :| 0 <= k < |kept| && id == "duplicate_id:" + search[kept[k]].id && !New(kept[k], search, accepted, rules);
      assert kept[k] in kept;
    }
  }

  lemma RefusedIs(id: string, refused: map<string, Reason>, search: seq<Claim>, rules: Rules)
    requires Refused(|search|, refused, search, rules)
    ensures id in refused <==> RefusedAtAll(id, search, rules)
    ensures id in refused ==> RefusedFor(id, refused[id], search, rules)
  {
    hide Refusal;
  }
}
