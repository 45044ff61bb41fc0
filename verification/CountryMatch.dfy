/**
 Whether a source mentions the selected country, once names of other countries that merely contain its
 name have been removed. Normalised text is a sequence of words one space apart.
 */
module CountryMatch {
  import opened Basics

  /** A word, the spaces before it, and the place it has in the source. */
  datatype Word = Word(text: string, gap: nat, at: nat)

  type Name = seq<string>

  function Words(source: seq<string>): (ws: seq<Word>)
    ensures |ws| == |source|
    ensures forall i :: 0 <= i < |ws| ==> ws[i] == Word(source[i], if i == 0 then 0 else 1, i)
  {
    if source == [] then []
    else Words(source[..|source| - 1]) + [Word(source[|source| - 1], if |source| == 1 then 0 else 1, |source| - 1)]
  }

  /** The name stands at word `i`, its own words exactly one space apart. */
  predicate MatchesAt(ws: seq<Word>, i: nat, name: Name) {
    i + |name| <= |ws|
    && forall j :: i <= j < i + |name| ==> ws[j].text == name[j - i] && (j > i ==> ws[j].gap == 1)
  }

  predicate Matches(ws: seq<Word>, name: Name) {
    exists i :: 0 <= i <= |ws| - |name| && MatchesAt(ws, i, name)
  }

  predicate Occurs(source: seq<string>, p: nat, name: Name) {
    p + |name| <= |source| && forall j :: p <= j < p + |name| ==> source[j] == name[j - p]
  }

  /** Every occurrence replaced, from left to right, by one space; `extra` spaces wait for the next word. */
  function RemoveFrom(ws: seq<Word>, name: Name, extra: nat): seq<Word>
    requires name != []
    decreases |ws|
  {
    if ws == [] then []
    else if MatchesAt(ws, 0, name) then RemoveFrom(ws[|name|..], name, extra + ws[0].gap + 1)
    else [ws[0].(gap := ws[0].gap + extra)] + RemoveFrom(ws[1..], name, 0)
  }

  function Remove(ws: seq<Word>, name: Name): seq<Word>
    requires name != []
  {
    RemoveFrom(ws, name, 0)
  }

  predicate AllNamed(names: seq<Name>) {
    forall i :: 0 <= i < |names| ==> names[i] != []
  }

  function RemoveAll(ws: seq<Word>, names: seq<Name>): seq<Word>
    requires AllNamed(names)
  {
    if names == [] then ws
    else Remove(RemoveAll(ws, names[..|names| - 1]), names[|names| - 1])
  }

  // ---- which names are removed ----

  /** A country's name and aliases, normalised. */
  type Country = seq<Name>

  predicate Contains(name: Name, marker: Name) {
    exists i :: 0 <= i <= |name| - |marker| && Occurs(name, i, marker)
  }

  function NonemptyNames(names: seq<Name>): (r: seq<Name>)
    ensures forall n :: n in r <==> n in names && n != []
  {
    if names == [] then []
    else NonemptyNames(names[..|names| - 1]) + (if names[|names| - 1] == [] then [] else [names[|names| - 1]])
  }

  /** The names of the first country that has this one among its names. */
  function MarkersIn(table: seq<Country>, selected: Name): seq<Name> {
    if table == [] then [selected]
    else if selected in table[0] then table[0]
    else MarkersIn(table[1..], selected)
  }

  function Markers(table: seq<Country>, selected: Name): seq<Name> {
    NonemptyNames(MarkersIn(table, selected))
  }

  predicate ContainsAny(name: Name, markers: seq<Name>) {
    exists i :: 0 <= i < |markers| && Contains(name, markers[i])
  }

  function CompoundIn(names: seq<Name>, markers: seq<Name>): (r: seq<Name>)
    ensures AllNamed(r)
  {
    if names == [] then []
    else
      CompoundIn(names[..|names| - 1], markers)
      + (if names[|names| - 1] != [] && ContainsAny(names[|names| - 1], markers) then [names[|names| - 1]] else [])
  }

  /** Names of other countries that contain a name of the selected one. */
  function Compound(table: seq<Country>, selected: Name, markers: seq<Name>): (r: seq<Name>)
    ensures AllNamed(r)
  {
    if table == [] then []
    else
      Compound(table[..|table| - 1], selected, markers)
      + (if selected in table[|table| - 1] then [] else CompoundIn(table[|table| - 1], markers))
  }

  function Disambiguated(source: seq<string>, table: seq<Country>, selected: Name): seq<Word> {
    RemoveAll(Words(source), Compound(table, selected, Markers(table, selected)))
  }

  predicate Mentions(source: seq<string>, table: seq<Country>, selected: Name) {
    var markers := Markers(table, selected);
    exists i :: 0 <= i < |markers| && Matches(Disambiguated(source, table, selected), markers[i])
  }

  lemma {:induction false} RemoveAllJoin(ws: seq<Word>, a: seq<Name>, b: seq<Name>)
    requires AllNamed(a) && AllNamed(b)
    ensures RemoveAll(ws, a + b) == RemoveAll(RemoveAll(ws, a), b)
  {
    hide Remove;
    if b == [] {
      assert a + b == a;
    } else {
      var n := |b| - 1;
      RemoveAllJoin(ws, a, b[..n]);
      assert (a + b)[..|a + b| - 1] == a + b[..n];
    }
  }

  method RemoveNames(ws: seq<Word>, names: Country, markers: seq<Name>) returns (r: seq<Word>)
    ensures r == RemoveAll(ws, CompoundIn(names, markers))
  {
    hide Remove, ContainsAny;
    r := ws;
    for n := 0 to |names|
      invariant r == RemoveAll(ws, CompoundIn(names[..n], markers))
    {
      assert names[..n + 1][..n] == names[..n];
      if names[n] != [] && ContainsAny(names[n], markers) {
        RemoveAllJoin(ws, CompoundIn(names[..n], markers), [names[n]]);
        r := Remove(r, names[n]);
      } else {
        assert CompoundIn(names[..n], markers) + [] == CompoundIn(names[..n], markers);
      }
    }
    assert names[..|names|] == names;
  }

  method SourceMentionsCountry(source: seq<string>, table: seq<Country>, selected: Option<Name>) returns (mentioned: bool)
    ensures mentioned <==> selected.None? || Mentions(source, table, selected.value)
  {
    if selected.None? {
      return true;
    }
    hide CompoundIn, RemoveAll, Matches, Markers;
    var markers := Markers(table, selected.value);
    var disambiguated := Words(source);
    assert RemoveAll(Words(source), []) == Words(source) by { NoneRemoved(Words(source)); }
    for c := 0 to |table|
      invariant disambiguated == RemoveAll(Words(source), Compound(table[..c], selected.value, markers))
    {
      assert table[..c + 1][..c] == table[..c];
      ghost var before := Compound(table[..c], selected.value, markers);
      if selected.value !in table[c] {
        RemoveAllJoin(Words(source), before, CompoundIn(table[c], markers));
        disambiguated := RemoveNames(disambiguated, table[c], markers);
      } else {
        assert before + [] == before;
      }
    }
    assert table[..|table|] == table;
    mentioned := exists i :: 0 <= i < |markers| && Matches(disambiguated, markers[i]);
  }

  lemma NoneRemoved(ws: seq<Word>)
    ensures RemoveAll(ws, []) == ws
  {
  }

  // ---- removal never joins words ----

  /** Words keep their text and order, and stand one space apart exactly when they were neighbours in the source. */
  ghost predicate WellPlaced(ws: seq<Word>, source: seq<string>) {
    && (forall i :: 0 <= i < |ws| ==> ws[i].at < |source| && ws[i].text == source[ws[i].at])
    && (forall i, j :: 0 <= i < j < |ws| ==> ws[i].at < ws[j].at)
    && (forall i :: 0 < i < |ws| ==> ws[i].gap >= 1 && (ws[i].gap == 1 <==> ws[i].at == ws[i - 1].at + 1))
  }

  predicate Present(ws: seq<Word>, p: nat) {
    exists i :: 0 <= i < |ws| && ws[i].at == p
  }

  lemma Tail(ws: seq<Word>, n: nat, source: seq<string>)
    requires WellPlaced(ws, source) && n <= |ws|
    ensures WellPlaced(ws[n..], source)
  {
    forall i | 0 < i < |ws[n..]|
      ensures ws[n..][i].gap >= 1 && (ws[n..][i].gap == 1 <==> ws[n..][i].at == ws[n..][i - 1].at + 1)
    {
      assert ws[n..][i] == ws[n + i] && ws[n..][i - 1] == ws[n + i - 1];
    }
  }

  /** The first word left is the first offered, or stands at least two spaces from whatever came before. */
  lemma {:induction false} RemoveFits(ws: seq<Word>, name: Name, extra: nat, source: seq<string>)
    requires name != [] && WellPlaced(ws, source)
    ensures var r := RemoveFrom(ws, name, extra);
            && WellPlaced(r, source)
            && (forall p: nat :: Present(r, p) ==> Present(ws, p))
            && (r != [] ==> ws != [] && ws[0].at <= r[0].at
                            && (if r[0].at == ws[0].at then r[0].gap == ws[0].gap + extra else r[0].gap >= 2))
    decreases |ws|
  {
    var r := RemoveFrom(ws, name, extra);
    if ws == [] {
    } else if MatchesAt(ws, 0, name) {
      var rest := ws[|name|..];
      Tail(ws, |name|, source);
      RemoveFits(rest, name, extra + ws[0].gap + 1, source);
      hide MatchesAt, Present;
      forall p: nat | Present(rest, p)
        ensures Present(ws, p)
      {
        PresentSplit(ws, |name|, p);
      }
      if r != [] {
        assert rest[0] == ws[|name|];
      }
    } else {
      var rest, r' := ws[1..], RemoveFrom(ws[1..], name, 0);
      Tail(ws, 1, source);
      RemoveFits(rest, name, 0, source);
      hide MatchesAt, Present;
      assert r == [ws[0].(gap := ws[0].gap + extra)] + r';
      ConsFits(ws, r, rest, r', extra, source);
    }
  }

  lemma ConsFits(ws: seq<Word>, r: seq<Word>, rest: seq<Word>, r': seq<Word>, extra: nat, source: seq<string>)
    requires ws != [] && WellPlaced(ws, source) && WellPlaced(r', source)
    requires rest == ws[1..] && r == [ws[0].(gap := ws[0].gap + extra)] + r'
    requires forall p: nat :: Present(r', p) ==> Present(rest, p)
    requires r' != [] ==> rest != [] && rest[0].at <= r'[0].at
                          && (if r'[0].at == rest[0].at then r'[0].gap == rest[0].gap else r'[0].gap >= 2)
    ensures WellPlaced(r, source) && forall p: nat :: Present(r, p) ==> Present(ws, p)
  {
    forall p: nat | Present(r, p)
      ensures Present(ws, p)
    {
      if p == ws[0].at {
        assert ws[0].at == p;
      } else {
        var i :| 0 <= i < |r| && r[i].at == p;
        assert r'[i - 1].at == p;
        assert Present(r', p) && Present(rest, p);
        var j :| 0 <= j < |rest| && rest[j].at == p;
        assert ws[j + 1].at == p;
      }
    }
    forall i | 0 <= i < |r'|
      ensures ws[0].at < r'[i].at
    {
      assert Present(r', r'[i].at);
      var j :| 0 <= j < |rest| && rest[j].at == r'[i].at;
      assert ws[j + 1] == rest[j];
    }
    forall i | 0 < i < |r|
      ensures r[i].gap >= 1 && (r[i].gap == 1 <==> r[i].at == r[i - 1].at + 1)
    {
      if i == 1 {
        assert r[1] == r'[0] && rest[0] == ws[1] && ws[1].at > ws[0].at;
      } else {
        assert r[i] == r'[i - 1] && r[i - 1] == r'[i - 2];
      }
    }
  }

  /** A match among the words left is an occurrence in the source, all of whose words are left. */
  lemma MatchIsOccurrence(ws: seq<Word>, i: nat, name: Name, source: seq<string>)
    requires WellPlaced(ws, source) && name != [] && MatchesAt(ws, i, name)
    ensures forall j :: i <= j < i + |name| ==> ws[j].at == ws[i].at + (j - i)
    ensures Occurs(source, ws[i].at, name)
    ensures forall p: nat :: ws[i].at <= p < ws[i].at + |name| ==> Present(ws, p)
  {
    var n := i + 1;
    while n < i + |name|
      invariant i + 1 <= n <= i + |name|
      invariant forall j :: i <= j < n ==> ws[j].at == ws[i].at + (j - i)
    {
      assert ws[n].gap == 1 && ws[n - 1].at == ws[i].at + (n - 1 - i);
      n := n + 1;
    }
    var start := ws[i].at;
    assert ws[i + |name| - 1].at == start + (|name| - 1) < |source|;
    forall p: nat | start <= p < start + |name|
      ensures Present(ws, p) && source[p] == name[p - start]
    {
      var j := i + (p - start);
      assert ws[j].at == p && ws[j].text == name[j - i];
    }
  }

  lemma NextIs(ws: seq<Word>, n: nat, j: nat, q: nat, source: seq<string>)
    requires WellPlaced(ws, source) && 0 < n <= |ws| && j < |ws|
    requires ws[n - 1].at == q - 1 && ws[j].at == q
    ensures n < |ws| && ws[n].at == q
  {
  }

  /** An occurrence in the source all of whose words are left is a match. */
  lemma OccurrenceIsMatch(ws: seq<Word>, p: nat, name: Name, source: seq<string>) returns (i: nat)
    requires WellPlaced(ws, source) && name != [] && Occurs(source, p, name)
    requires forall q: nat :: p <= q < p + |name| ==> Present(ws, q)
    ensures MatchesAt(ws, i, name) && ws[i].at == p
  {
    assert Present(ws, p);
    i :| 0 <= i < |ws| && ws[i].at == p;
    var n := i + 1;
    while n < i + |name|
      invariant i + 1 <= n <= i + |name| && n <= |ws|
      invariant forall j :: i <= j < n ==> ws[j].at == p + (j - i) && (j > i ==> ws[j].gap == 1)
    {
      var q: nat := p + (n - i);
      assert Present(ws, q);
      var j :| 0 <= j < |ws| && ws[j].at == q;
      NextIs(ws, n, j, q, source);
      n := n + 1;
    }
    forall j | i <= j < i + |name|
      ensures ws[j].text == name[j - i]
    {
      assert ws[j].text == source[p + (j - i)];
    }
  }

  // ---- what is removed ----

  lemma PresentSplit(ws: seq<Word>, n: nat, p: nat)
    requires n <= |ws|
    ensures Present(ws, p) <==> Present(ws[..n], p) || Present(ws[n..], p)
  {
    if i :| 0 <= i < |ws| && ws[i].at == p {
      if i < n {
        assert ws[..n][i].at == p;
      } else {
        assert ws[n..][i - n].at == p;
      }
    }
  }

  lemma PresentCons(w: Word, rest: seq<Word>, p: nat)
    ensures Present([w] + rest, p) <==> w.at == p || Present(rest, p)
  {
    var ws := [w] + rest;
    PresentSplit(ws, 1, p);
    assert ws[..1] == [w] && ws[1..] == rest;
    assert [w][0] == w;
  }

  lemma BlockIsOccurrence(ws: seq<Word>, name: Name, source: seq<string>, p: nat)
    requires name != [] && WellPlaced(ws, source) && MatchesAt(ws, 0, name) && Present(ws[..|name|], p)
    ensures ws[0].at <= p < ws[0].at + |name| && Occurs(source, ws[0].at, name)
  {
    MatchIsOccurrence(ws, 0, name, source);
    var i :| 0 <= i < |name| && ws[..|name|][i].at == p;
    assert ws[i].at == ws[0].at + (i - 0);
  }

  /** A word goes only as part of an occurrence of the removed name. */
  lemma {:induction false} RemovedIsNamed(ws: seq<Word>, name: Name, extra: nat, source: seq<string>, p: nat)
    returns (q: nat)
    requires name != [] && WellPlaced(ws, source) && Present(ws, p) && !Present(RemoveFrom(ws, name, extra), p)
    ensures q <= p < q + |name| && Occurs(source, q, name)
    decreases |ws|
  {
    hide Occurs, WellPlaced;
    if MatchesAt(ws, 0, name) {
      PresentSplit(ws, |name|, p);
      if Present(ws[..|name|], p) {
        BlockIsOccurrence(ws, name, source, p);
        q := ws[0].at;
      } else {
        Tail(ws, |name|, source);
        q := RemovedIsNamed(ws[|name|..], name, extra + ws[0].gap + 1, source, p);
      }
    } else {
      PresentCons(ws[0], ws[1..], p);
      assert [ws[0]] + ws[1..] == ws;
      Tail(ws, 1, source);
      PresentCons(ws[0].(gap := ws[0].gap + extra), RemoveFrom(ws[1..], name, 0), p);
      hide MatchesAt, Present;
      q := RemovedIsNamed(ws[1..], name, 0, source, p);
    }
  }

  /** The words of an occurrence. */
  predicate AllPresent(ws: seq<Word>, p: nat, name: Name) {
    forall q: nat :: p <= q < p + |name| ==> Present(ws, q)
  }

  lemma FirstIsNotIt(ws: seq<Word>, p: nat, name: Name, source: seq<string>)
    requires name != [] && WellPlaced(ws, source) && Occurs(source, p, name) && AllPresent(ws, p, name)
    requires ws != [] && !MatchesAt(ws, 0, name)
    ensures ws[0].at < p
  {
    var i := OccurrenceIsMatch(ws, p, name, source);
    assert i > 0;
  }

  /** Every occurrence of the removed name loses a word. */
  lemma {:induction false} OccurrenceLosesWord(ws: seq<Word>, name: Name, extra: nat, source: seq<string>, p: nat)
    requires name != [] && WellPlaced(ws, source) && Occurs(source, p, name)
    ensures !AllPresent(RemoveFrom(ws, name, extra), p, name)
    decreases |ws|
  {
    var r := RemoveFrom(ws, name, extra);
    RemoveFits(ws, name, extra, source);
    if AllPresent(r, p, name) {
      assert AllPresent(ws, p, name);
      assert Present(ws, p);
      if MatchesAt(ws, 0, name) {
        Tail(ws, |name|, source);
        OccurrenceLosesWord(ws[|name|..], name, extra + ws[0].gap + 1, source, p);
      } else {
        FirstIsNotIt(ws, p, name, source);
        Tail(ws, 1, source);
        OccurrenceLosesWord(ws[1..], name, 0, source, p);
        var q: nat :| p <= q < p + |name| && !Present(RemoveFrom(ws[1..], name, 0), q);
        PresentCons(ws[0].(gap := ws[0].gap + extra), RemoveFrom(ws[1..], name, 0), q);
      }
    }
  }

  // ---- all removals ----

  lemma WordsFit(source: seq<string>)
    ensures WellPlaced(Words(source), source)
    ensures forall p: nat :: Present(Words(source), p) <==> p < |source|
  {
    hide Words;
    forall p: nat | p < |source|
      ensures Present(Words(source), p)
    {
      assert Words(source)[p].at == p;
    }
  }

  lemma {:induction false} RemoveAllFits(source: seq<string>, names: seq<Name>)
    requires AllNamed(names)
    ensures WellPlaced(RemoveAll(Words(source), names), source)
    ensures forall p: nat :: Present(RemoveAll(Words(source), names), p) ==> p < |source|
  {
    WordsFit(source);
    if names != [] {
      var n := |names| - 1;
      RemoveAllFits(source, names[..n]);
      RemoveFits(RemoveAll(Words(source), names[..n]), names[n], 0, source);
      hide Present, WellPlaced;
    }
  }

  lemma {:induction false} RemovedIsCompound(source: seq<string>, names: seq<Name>, p: nat) returns (k: nat, q: nat)
    requires AllNamed(names) && p < |source| && !Present(RemoveAll(Words(source), names), p)
    ensures k < |names| && q <= p < q + |names[k]| && Occurs(source, q, names[k])
  {
    WordsFit(source);
    hide Present, WellPlaced, Occurs;
    var n := |names| - 1;
    if names == [] {
      assert false;
    } else if Present(RemoveAll(Words(source), names[..n]), p) {
      RemoveAllFits(source, names[..n]);
      k := n;
      q := RemovedIsNamed(RemoveAll(Words(source), names[..n]), names[n], 0, source, p);
    } else {
      k, q := RemovedIsCompound(source, names[..n], p);
    }
  }

  lemma {:induction false} CompoundLosesWord(source: seq<string>, names: seq<Name>, k: nat, p: nat)
    requires AllNamed(names) && k < |names| && Occurs(source, p, names[k])
    ensures !AllPresent(RemoveAll(Words(source), names), p, names[k])
  {
    var n := |names| - 1;
    var before := RemoveAll(Words(source), names[..n]);
    RemoveAllFits(source, names[..n]);
    RemoveFits(before, names[n], 0, source);
    hide Present, WellPlaced, Occurs;
    if k == n {
      OccurrenceLosesWord(before, names[n], 0, source, p);
    } else {
      CompoundLosesWord(source, names[..n], k, p);
    }
  }

  /** Two stretches of the source share a word. */
  predicate Overlap(p: nat, m: nat, q: nat, n: nat) {
    p < q + n && q < p + m
  }

  /**
   A name matches after the removals exactly where it occurs in the source with none of its words removed:
   removing names never joins words into a new occurrence.
   */
  lemma MatchIff(source: seq<string>, names: seq<Name>, marker: Name)
    requires AllNamed(names) && marker != []
    ensures Matches(RemoveAll(Words(source), names), marker)
            <==> exists p: nat :: Occurs(source, p, marker) && AllPresent(RemoveAll(Words(source), names), p, marker)
  {
    var left := RemoveAll(Words(source), names);
    RemoveAllFits(source, names);
    hide WellPlaced, Occurs, RemoveAll, Present;
    if Matches(left, marker) {
      var i :| 0 <= i <= |left| - |marker| && MatchesAt(left, i, marker);
      MatchIsOccurrence(left, i, marker, source);
      assert AllPresent(left, left[i].at, marker);
    }
    if p: nat :| Occurs(source, p, marker) && AllPresent(left, p, marker) {
      var i := OccurrenceIsMatch(left, p, marker, source);
      assert MatchesAt(left, i, marker);
    }
  }

  /**
   Removal is exact: a word is removed only inside an occurrence of a removed name, and every occurrence of a
   removed name loses a word.
   */
  lemma RemovalIsExact(source: seq<string>, names: seq<Name>)
    requires AllNamed(names)
    ensures forall p: nat :: p < |source| && !Present(RemoveAll(Words(source), names), p) ==>
              exists k, q: nat :: 0 <= k < |names| && q <= p < q + |names[k]| && Occurs(source, q, names[k])
    ensures forall k, p: nat :: 0 <= k < |names| && Occurs(source, p, names[k]) ==>
              !AllPresent(RemoveAll(Words(source), names), p, names[k])
  {
    forall p: nat | p < |source| && !Present(RemoveAll(Words(source), names), p)
      ensures exists k, q: nat :: 0 <= k < |names| && q <= p < q + |names[k]| && Occurs(source, q, names[k])
    {
      var k, q := RemovedIsCompound(source, names, p);
    }
    forall k, p: nat | 0 <= k < |names| && Occurs(source, p, names[k])
      ensures !AllPresent(RemoveAll(Words(source), names), p, names[k])
    {
      CompoundLosesWord(source, names, k, p);
    }
  }

  /** An occurrence that shares no word with any removed name survives. */
  lemma UntouchedSurvives(source: seq<string>, names: seq<Name>, marker: Name, p: nat)
    requires AllNamed(names) && marker != [] && Occurs(source, p, marker)
    requires forall k, q: nat :: 0 <= k < |names| && Occurs(source, q, names[k]) ==>
      !Overlap(p, |marker|, q, |names[k]|)
    ensures Matches(RemoveAll(Words(source), names), marker)
  {
    var left := RemoveAll(Words(source), names);
    forall w: nat | p <= w < p + |marker|
      ensures Present(left, w)
    {
      if !Present(left, w) {
        var k, q := RemovedIsCompound(source, names, w);
        assert false;
      }
    }
    MatchIff(source, names, marker);
    assert AllPresent(left, p, marker);
  }

  /**
   The whole check: a source mentions the country exactly when one of its names occurs there with none of its
   words removed, and any name of its own that overlaps no other country's compound name is enough.
   */
  lemma MentionsIff(source: seq<string>, table: seq<Country>, selected: Name)
    ensures var markers := Markers(table, selected);
            var names := Compound(table, selected, markers);
            var left := RemoveAll(Words(source), names);
            && (Mentions(source, table, selected) <==>
                  exists i, p: nat :: 0 <= i < |markers| && Occurs(source, p, markers[i]) && AllPresent(left, p, markers[i]))
            && forall i, p: nat :: 0 <= i < |markers| && Occurs(source, p, markers[i])
                 && (forall k, q: nat :: 0 <= k < |names| && Occurs(source, q, names[k]) ==>
                       !Overlap(p, |markers[i]|, q, |names[k]|))
                 ==> Mentions(source, table, selected)
  {
    var markers := Markers(table, selected);
    var names := Compound(table, selected, markers);
    hide RemoveAll, Occurs, Matches, Compound, Markers, AllPresent, AllNamed;
    forall i | 0 <= i < |markers|
      ensures Matches(RemoveAll(Words(source), names), markers[i])
              <==> exists p: nat :: Occurs(source, p, markers[i]) && AllPresent(RemoveAll(Words(source), names), p, markers[i])
    {
      MarkersNamed(table, selected, i);
      MatchIff(source, names, markers[i]);
    }
    forall i, p: nat | 0 <= i < |markers| && Occurs(source, p, markers[i])
      && (forall k, q: nat :: 0 <= k < |names| && Occurs(source, q, names[k]) ==> !Overlap(p, |markers[i]|, q, |names[k]|))
      ensures Mentions(source, table, selected)
    {
      MarkersNamed(table, selected, i);
      UntouchedSurvives(source, names, markers[i], p);
    }
  }

  /** The names that count: those of the first country that goes by the selected name, or else that name alone. */
  lemma {:induction false} MarkersAre(table: seq<Country>, selected: Name, name: Name)
    ensures name in Markers(table, selected)
            <==> && name != []
                 && ((exists c :: 0 <= c < |table| && selected in table[c] && name in table[c]
                                  && forall b :: 0 <= b < c ==> selected !in table[b])
                     || (name == selected && forall c :: 0 <= c < |table| ==> selected !in table[c]))
  {
    if table != [] && selected !in table[0] {
      MarkersAre(table[1..], selected, name);
      assert forall c :: 0 < c < |table| ==> table[c] == table[1..][c - 1];
    }
  }

  /** The words of one name stand together in another. */
  ghost predicate Within(marker: Name, name: Name) {
    exists before: Name, after: Name :: name == before + marker + after
  }

  lemma ContainsIs(name: Name, marker: Name)
    ensures Contains(name, marker) <==> Within(marker, name)
  {
    if i :| 0 <= i <= |name| - |marker| && Occurs(name, i, marker) {
      assert name == name[..i] + marker + name[i + |marker|..];
    }
    if before: Name, after: Name :| name == before + marker + after {
      assert Occurs(name, |before|, marker);
    }
  }

  /** The name contains one that counts. */
  ghost predicate Confusing(name: Name, markers: seq<Name>) {
    name != [] && exists marker :: marker in markers && Within(marker, name)
  }

  lemma {:induction false} CompoundInAre(names: seq<Name>, markers: seq<Name>, name: Name)
    ensures name in CompoundIn(names, markers) <==> name in names && Confusing(name, markers)
  {
    hide Contains, Within;
    if names != [] {
      CompoundInAre(names[..|names| - 1], markers, name);
      forall i | 0 <= i < |markers|
        ensures Contains(names[|names| - 1], markers[i]) <==> Within(markers[i], names[|names| - 1])
      {
        ContainsIs(names[|names| - 1], markers[i]);
      }
      assert names == names[..|names| - 1] + [names[|names| - 1]];
    }
  }

  /** A country that does not go by the selected name goes by this one. */
  predicate OtherCountry(table: seq<Country>, selected: Name, name: Name) {
    exists c :: 0 <= c < |table| && selected !in table[c] && name in table[c]
  }

  lemma OneMoreCountry(table: seq<Country>, selected: Name, name: Name)
    requires table != []
    ensures var n := |table| - 1;
            OtherCountry(table, selected, name)
            <==> OtherCountry(table[..n], selected, name) || (selected !in table[n] && name in table[n])
  {
    var n := |table| - 1;
    assert forall c :: 0 <= c < n ==> table[..n][c] == table[c];
  }

  /** The names removed: those of countries that do not go by the selected name and that contain one that counts. */
  lemma {:induction false} CompoundAre(table: seq<Country>, selected: Name, markers: seq<Name>, name: Name)
    ensures name in Compound(table, selected, markers)
            <==> OtherCountry(table, selected, name) && Confusing(name, markers)
  {
    hide Confusing, OtherCountry, CompoundIn;
    if table == [] {
      NoCountry(selected, name);
    } else {
      var n := |table| - 1;
      CompoundAre(table[..n], selected, markers, name);
      CompoundInAre(table[n], markers, name);
      OneMoreCountry(table, selected, name);
    }
  }

  lemma NoCountry(selected: Name, name: Name)
    ensures !OtherCountry([], selected, name)
  {
  }

  lemma MarkersNamed(table: seq<Country>, selected: Name, i: nat)
    requires i < |Markers(table, selected)|
    ensures Markers(table, selected)[i] != []
  {
    var markers := Markers(table, selected);
    assert markers[i] in markers;
  }
}
