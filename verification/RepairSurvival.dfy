/** Survival of rows in order: one list of rows embedded in another. */
module RepairSurvival {
  import opened Basics
  import opened Assessments
  import opened RepairMerge
  import opened RepairText

  /** The text went through these guards, one after the other. */
  ghost predicate TextChain(guards: seq<Guard>, original: string, result: string) {
    if guards == [] then original == result
    else exists middle: string :: TextKept(guards[0], original, middle) && TextChain(guards[1..], middle, result)
  }

  ghost predicate RraTextChain(guards: seq<Guard>, original: RraText, result: RraText) {
    && TextChain(guards, original.driver, result.driver)
    && TextChain(guards, original.response, result.response)
    && TextChain(guards, original.delivery, result.delivery)
    && TextChain(guards, original.indicator, result.indicator)
    && TextChain(guards, original.gap, result.gap)
  }

  /** How closely a survivor resembles its original: whether a coverage repair came by, and which guards did. */
  datatype Closeness = Closeness(coverage: bool, guards: seq<Guard>)

  /**
   The same identity, and either the same rating with text changed only as each guard allows in turn, or, after
   a coverage repair, a downgrade of an absence claim.
   */
  ghost predicate Related(c: Closeness, original: RraRow, result: RraRow) {
    original.id == result.id
    && (|| (c.coverage && Downgraded(original.rating, result.rating))
        || (original.rating == result.rating && RraTextChain(c.guards, original.text, result.text)))
  }

  ghost predicate StrategyRelated(c: Closeness, original: StrategyRow, result: StrategyRow) {
    original.id == result.id && original.shift == result.shift
    && (|| (c.coverage && Downgraded(original.rating, result.rating))
        || (original.rating == result.rating && TextChain(c.guards, original.text, result.text)))
  }

  /** First the one and then the other. */
  function Then(c: Closeness, d: Closeness): Closeness {
    Closeness(c.coverage || d.coverage, c.guards + d.guards)
  }

  /** Every row of `xs` has its survivor in `ys`, in the same order. */
  ghost predicate Embeds(c: Closeness, xs: seq<RraRow>, ys: seq<RraRow>)
    decreases |ys|
  {
    xs == []
    || (ys != [] && ((Related(c, xs[0], ys[0]) && Embeds(c, xs[1..], ys[1..])) || Embeds(c, xs, ys[1..])))
  }

  lemma OneGuard(g: Guard, original: string, result: string)
    requires TextKept(g, original, result)
    ensures TextChain([g], original, result)
  {
    assert [g][1..] == [] && TextChain([], result, result);
  }

  lemma {:induction false} ChainJoins(gs: seq<Guard>, hs: seq<Guard>, a: string, b: string, c: string)
    requires TextChain(gs, a, b) && TextChain(hs, b, c)
    ensures TextChain(gs + hs, a, c)
  {
    if gs == [] {
      assert gs + hs == hs;
    } else {
      var middle: string :| TextKept(gs[0], a, middle) && TextChain(gs[1..], middle, b);
      ChainJoins(gs[1..], hs, middle, b, c);
      assert (gs + hs)[0] == gs[0] && (gs + hs)[1..] == gs[1..] + hs;
    }
  }

  lemma RraChainJoins(gs: seq<Guard>, hs: seq<Guard>, a: RraText, b: RraText, c: RraText)
    requires RraTextChain(gs, a, b) && RraTextChain(hs, b, c)
    ensures RraTextChain(gs + hs, a, c)
  {
    ChainJoins(gs, hs, a.driver, b.driver, c.driver);
    ChainJoins(gs, hs, a.response, b.response, c.response);
    ChainJoins(gs, hs, a.delivery, b.delivery, c.delivery);
    ChainJoins(gs, hs, a.indicator, b.indicator, c.indicator);
    ChainJoins(gs, hs, a.gap, b.gap, c.gap);
    hide TextChain;
  }

  lemma RelatedTransitive(c: Closeness, d: Closeness, x: RraRow, y: RraRow, z: RraRow)
    requires Related(c, x, y) && Related(d, y, z)
    ensures Related(Then(c, d), x, z)
  {
    hide RraTextChain;
    if x.rating == y.rating && RraTextChain(c.guards, x.text, y.text)
       && y.rating == z.rating && RraTextChain(d.guards, y.text, z.text) {
      RraChainJoins(c.guards, d.guards, x.text, y.text, z.text);
    }
  }

  lemma StrategyTransitive(c: Closeness, d: Closeness, x: StrategyRow, y: StrategyRow, z: StrategyRow)
    requires StrategyRelated(c, x, y) && StrategyRelated(d, y, z)
    ensures StrategyRelated(Then(c, d), x, z)
  {
    hide TextChain;
    if x.rating == y.rating && TextChain(c.guards, x.text, y.text)
       && y.rating == z.rating && TextChain(d.guards, y.text, z.text) {
      ChainJoins(c.guards, d.guards, x.text, y.text, z.text);
    }
  }

  lemma EmbedsBoth(c: Closeness, x: RraRow, xs: seq<RraRow>, y: RraRow, ys: seq<RraRow>)
    requires Related(c, x, y) && Embeds(c, xs, ys)
    ensures Embeds(c, [x] + xs, [y] + ys)
  {
    hide Related;
    assert ([x] + xs)[1..] == xs && ([y] + ys)[1..] == ys;
  }

  lemma EmbedsSkip(c: Closeness, xs: seq<RraRow>, y: RraRow, ys: seq<RraRow>)
    requires Embeds(c, xs, ys)
    ensures Embeds(c, xs, [y] + ys)
  {
    hide Related;
    assert ([y] + ys)[1..] == ys;
  }

  lemma {:induction false} EmbedsAppend(c: Closeness, xs: seq<RraRow>, ys: seq<RraRow>, more: seq<RraRow>)
    requires Embeds(c, xs, ys)
    ensures Embeds(c, xs, ys + more)
    decreases |ys|
  {
    hide Related;
    if xs != [] {
      assert (ys + more)[0] == ys[0] && (ys + more)[1..] == ys[1..] + more;
      if Related(c, xs[0], ys[0]) && Embeds(c, xs[1..], ys[1..]) {
        EmbedsAppend(c, xs[1..], ys[1..], more);
      } else {
        EmbedsAppend(c, xs, ys[1..], more);
      }
    }
  }

  /** Survival composes: what happened to each text is what happened in the one step and then in the other. */
  lemma {:induction false} EmbedsTransitive(c: Closeness, d: Closeness, xs: seq<RraRow>, ys: seq<RraRow>,
                                            zs: seq<RraRow>)
    requires Embeds(c, xs, ys) && Embeds(d, ys, zs)
    ensures Embeds(Then(c, d), xs, zs)
    decreases |zs|
  {
    hide Related;
    if xs != [] {
      if !(Related(d, ys[0], zs[0]) && Embeds(d, ys[1..], zs[1..])) {
        EmbedsTransitive(c, d, xs, ys, zs[1..]);
      } else if !(Related(c, xs[0], ys[0]) && Embeds(c, xs[1..], ys[1..])) {
        EmbedsTransitive(c, d, xs, ys[1..], zs[1..]);
      } else {
        EmbedsTransitive(c, d, xs[1..], ys[1..], zs[1..]);
        RelatedTransitive(c, d, xs[0], ys[0], zs[0]);
      }
    }
  }

  lemma {:induction false} EmbedsEach(c: Closeness, xs: seq<RraRow>, ys: seq<RraRow>)
    requires |xs| == |ys| && forall i :: 0 <= i < |xs| ==> Related(c, xs[i], ys[i])
    ensures Embeds(c, xs, ys)
    decreases |ys|
  {
    hide Related;
    if xs != [] {
      EmbedsEach(c, xs[1..], ys[1..]);
    }
  }

  /** A survivor may be reworded. */
  lemma EmbedsReworded(coverage: bool, g: Guard, xs: seq<RraRow>, ys: seq<RraRow>, zs: seq<RraRow>)
    requires Embeds(Closeness(coverage, []), xs, ys) && |zs| == |ys|
    requires forall i :: 0 <= i < |ys| ==>
      zs[i].id == ys[i].id && zs[i].rating == ys[i].rating && RraTextKept(g, ys[i].text, zs[i].text)
    ensures Embeds(Closeness(coverage, [g]), xs, zs)
  {
    var exact, guarded := Closeness(coverage, []), Closeness(false, [g]);
    hide TextKept, TextChain, Embeds;
    forall i | 0 <= i < |ys|
      ensures Related(guarded, ys[i], zs[i])
    {
      var a, b := ys[i].text, zs[i].text;
      OneGuard(g, a.driver, b.driver);
      OneGuard(g, a.response, b.response);
      OneGuard(g, a.delivery, b.delivery);
      OneGuard(g, a.indicator, b.indicator);
      OneGuard(g, a.gap, b.gap);
    }
    EmbedsEach(guarded, ys, zs);
    EmbedsTransitive(exact, guarded, xs, ys, zs);
    assert Then(exact, guarded) == Closeness(coverage, [g]);
  }

  /** Rows whose identity the original review knew. */
  function Known(rows: seq<RraRow>, ids: set<string>): seq<RraRow> {
    if rows == [] then []
    else (if rows[0].id in ids then [rows[0]] else []) + Known(rows[1..], ids)
  }

  lemma {:induction false} KnownSubset(rows: seq<RraRow>, ids: set<string>)
    ensures forall r :: r in Known(rows, ids) ==> r in rows && r.id in ids
  {
    if rows != [] {
      KnownSubset(rows[1..], ids);
    }
  }

  lemma {:induction false} EmbedsKnown(c: Closeness, xs: seq<RraRow>, ys: seq<RraRow>, ids: set<string>)
    requires Embeds(c, xs, ys) && forall i :: 0 <= i < |xs| ==> xs[i].id in ids
    ensures Embeds(c, xs, Known(ys, ids))
    decreases |ys|
  {
    if xs != [] {
      var rest := Known(ys[1..], ids);
      if Related(c, xs[0], ys[0]) && Embeds(c, xs[1..], ys[1..]) {
        EmbedsKnown(c, xs[1..], ys[1..], ids);
        EmbedsBoth(c, xs[0], xs[1..], ys[0], rest);
        assert [xs[0]] + xs[1..] == xs;
      } else {
        EmbedsKnown(c, xs, ys[1..], ids);
        EmbedsSkip(c, xs, ys[0], rest);
        assert [] + rest == rest;
      }
    }
  }

  /** The rows whose evidence is available. */
  function Supported(rows: seq<RraRow>, evidence: set<string>): seq<RraRow> {
    if rows == [] then []
    else (if EvidenceSafe(rows[0].rating, evidence) then [rows[0]] else []) + Supported(rows[1..], evidence)
  }

  lemma {:induction false} AllSupported(rows: seq<RraRow>, evidence: set<string>)
    requires AllRraSafe(rows, evidence)
    ensures Supported(rows, evidence) == rows
  {
    if rows != [] {
      AllSupported(rows[1..], evidence);
      assert rows == [rows[0]] + rows[1..];
    }
  }

  /** Supported rows stand in order among all the rows. */
  lemma {:induction false} SupportedEmbeds(rows: seq<RraRow>, evidence: set<string>, coverage: bool)
    ensures Embeds(Closeness(coverage, []), Supported(rows, evidence), rows)
  {
    hide EvidenceSafe, Related;
    if rows != [] {
      var c, rest := Closeness(coverage, []), Supported(rows[1..], evidence);
      SupportedEmbeds(rows[1..], evidence, coverage);
      assert [rows[0]] + rows[1..] == rows;
      if EvidenceSafe(rows[0].rating, evidence) {
        ExactlyItself(rows[0], coverage);
        EmbedsBoth(c, rows[0], rest, rows[0], rows[1..]);
      } else {
        EmbedsSkip(c, rest, rows[0], rows[1..]);
        assert [] + rest == rest;
      }
    }
  }

  lemma ExactlyItself(row: RraRow, coverage: bool)
    ensures Related(Closeness(coverage, []), row, row)
  {
  }

  lemma {:induction false} SupportedSubset(rows: seq<RraRow>, evidence: set<string>)
    ensures forall r :: r in Supported(rows, evidence) ==> r in rows
  {
    if rows != [] {
      SupportedSubset(rows[1..], evidence);
    }
  }

  lemma KeptIsRelated(original: RraRow, drafts: seq<RraRow>, evidence: set<string>, flags: Flags)
    requires RraOk(original) && AllRraOk(drafts)
    ensures var kept := Kept(original, drafts, evidence, flags);
            (kept == [] && !EvidenceSafe(original.rating, evidence))
            || (|kept| == 1 && Related(Closeness(flags.coverage, []), original, kept[0]))
  {
    DowngradeFits(original, drafts, evidence);
    hide Downgrade, EvidenceSafe;
  }

  lemma {:induction false} KeptAllEmbeds(originals: seq<RraRow>, drafts: seq<RraRow>, evidence: set<string>, flags: Flags)
    requires AllRraOk(originals) && AllRraOk(drafts)
    ensures Embeds(Closeness(flags.coverage, []), Supported(originals, evidence), KeptAll(originals, drafts, evidence, flags))
  {
    if originals != [] {
      var c, kept := Closeness(flags.coverage, []), Kept(originals[0], drafts, evidence, flags);
      var xs, rest := Supported(originals[1..], evidence), KeptAll(originals[1..], drafts, evidence, flags);
      KeptAllEmbeds(originals[1..], drafts, evidence, flags);
      KeptIsRelated(originals[0], drafts, evidence, flags);
      hide Kept, Related, EvidenceSafe, Embeds;
      if kept == [] {
        assert kept + rest == rest && [] + xs == xs;
      } else {
        assert kept == [kept[0]];
        EmbedsBoth(c, originals[0], xs, kept[0], rest);
        EmbedsSkip(c, xs, kept[0], rest);
        assert [] + xs == xs;
      }
    }
  }

  /**
   Every original row with available evidence survives the merge, in order and word for word, unless a coverage
   repair downgraded it.
   */
  lemma MergedEmbeds(originals: seq<RraRow>, drafts: seq<RraRow>, evidence: set<string>, flags: Flags)
    requires AllRraOk(originals) && AllRraOk(drafts)
    ensures Embeds(Closeness(flags.coverage, []), Supported(originals, evidence), Merged(originals, drafts, evidence, flags))
  {
    KeptAllEmbeds(originals, drafts, evidence, flags);
    EmbedsAppend(Closeness(flags.coverage, []), Supported(originals, evidence), KeptAll(originals, drafts, evidence, flags),
                 AddedAll(drafts, UsedIds(originals, drafts, evidence, flags), RowIds(originals), evidence, flags));
  }

  // ---- the one row of an identity ----

  /** The row at `i` is the only one of its identity. */
  predicate Alone(rows: seq<RraRow>, i: nat, id: string) {
    && i < |rows| && rows[i].id == id
    && forall j :: 0 <= j < |rows| && j != i ==> rows[j].id != id
  }

  predicate NoneOf(rows: seq<RraRow>, id: string) {
    forall j :: 0 <= j < |rows| ==> rows[j].id != id
  }

  lemma AloneInFront(rows: seq<RraRow>, others: seq<RraRow>, i: nat, id: string)
    requires Alone(rows, i, id) && NoneOf(others, id)
    ensures Alone(rows + others, i, id) && Alone(others + rows, |others| + i, id)
  {
  }

  lemma {:induction false} KeptNone(originals: seq<RraRow>, drafts: seq<RraRow>, evidence: set<string>, flags: Flags, id: string)
    requires NoneOf(originals, id)
    ensures NoneOf(KeptAll(originals, drafts, evidence, flags), id)
  {
    if originals != [] {
      KeptNone(originals[1..], drafts, evidence, flags, id);
      FirstRepairFits(drafts, originals[0], evidence);
      hide EvidenceSafe, FirstRepair;
    }
  }

  /** A supported row that was the only one of its identity is the only one of those kept. */
  lemma {:induction false} KeptAlone(originals: seq<RraRow>, drafts: seq<RraRow>, evidence: set<string>, flags: Flags,
                                     k: nat, id: string)
    returns (i: nat)
    requires Alone(originals, k, id) && EvidenceSafe(originals[k].rating, evidence)
    ensures Alone(KeptAll(originals, drafts, evidence, flags), i, id) && id in UsedIds(originals, drafts, evidence, flags)
  {
    var first, rest := Kept(originals[0], drafts, evidence, flags), KeptAll(originals[1..], drafts, evidence, flags);
    FirstRepairFits(drafts, originals[0], evidence);
    assert |first| <= 1 && (first != [] ==> first[0].id == originals[0].id);
    if k == 0 {
      KeptNone(originals[1..], drafts, evidence, flags, id);
      hide Kept, EvidenceSafe;
      AloneInFront(first, rest, 0, id);
      i := 0;
    } else {
      i := KeptAlone(originals[1..], drafts, evidence, flags, k - 1, id);
      hide Kept, EvidenceSafe;
      assert NoneOf(first, id);
      AloneInFront(rest, first, i, id);
      i := |first| + i;
    }
  }

  lemma MergedAlone(originals: seq<RraRow>, drafts: seq<RraRow>, evidence: set<string>, flags: Flags, k: nat, id: string)
    returns (i: nat)
    requires Alone(originals, k, id) && EvidenceSafe(originals[k].rating, evidence)
    ensures Alone(Merged(originals, drafts, evidence, flags), i, id)
  {
    i := KeptAlone(originals, drafts, evidence, flags, k, id);
    var used := UsedIds(originals, drafts, evidence, flags);
    var added := AddedAll(drafts, used, RowIds(originals), evidence, flags);
    AddedFrom(drafts, used, RowIds(originals), evidence, flags);
    assert forall j :: 0 <= j < |added| ==> added[j] in added;
    AloneInFront(KeptAll(originals, drafts, evidence, flags), added, i, id);
  }

  lemma {:induction false} KnownAlone(rows: seq<RraRow>, ids: set<string>, k: nat, id: string) returns (i: nat)
    requires Alone(rows, k, id) && id in ids
    ensures Alone(Known(rows, ids), i, id)
  {
    var first, rest := if rows[0].id in ids then [rows[0]] else [], Known(rows[1..], ids);
    if k == 0 {
      KnownSubset(rows[1..], ids);
      assert forall j :: 0 <= j < |rest| ==> rest[j] in rest;
      assert forall r :: r in rows[1..] ==> r.id != id;
      AloneInFront(first, rest, 0, id);
      i := 0;
    } else {
      i := KnownAlone(rows[1..], ids, k - 1, id);
      AloneInFront(rest, first, i, id);
      i := |first| + i;
    }
  }

  lemma {:induction false} AloneCounts(rows: seq<RraRow>, i: nat, id: string)
    requires Alone(rows, i, id)
    ensures CountRra(rows, id) == 1
  {
    OnlyRra(rows, id, i);
  }
}
