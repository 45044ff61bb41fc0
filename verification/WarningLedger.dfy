/**
 The list of extraction warnings while uploaded documents are first sampled and later replaced by full
 extractions: it always accounts for exactly the documents held.
 */
module WarningLedger {
  import opened Basics

  datatype Role = Package | Context

  /** An extracted document: its text does not matter here beyond being usable. */
  datatype Document = Document(name: string, text: string, warnings: seq<string>, usable: bool)

  datatype Upload = Upload(name: string, data: string, supported: bool)

  /** What extracting an upload does; `Foreign` is an exception nobody expects. */
  datatype Extraction = Extracted(document: Document) | TooLarge | Unreadable | Foreign

  datatype Failure = CountExceeded | DocumentTooLarge | DocumentUnreadable | DiagnosticUnavailable | Unexpected

  /** Extraction with sampling, in full, and of a diagnostic; and names that suggest a diagnostic. */
  datatype World = World(
    sampled: Upload -> Extraction, full: Upload -> Extraction, diagnostic: Upload -> Extraction,
    suggestsDiagnostic: string -> bool)

  const MAX_PACKAGE := 40
  const EXCLUDED := "An optional uploaded document could not be read and was excluded."

  // ---- removing warnings ----

  function RemoveFirst(values: seq<string>, w: string): seq<string> {
    if values == [] then []
    else if values[0] == w then values[1..]
    else [values[0]] + RemoveFirst(values[1..], w)
  }

  function RemoveEach(values: seq<string>, removals: seq<string>): seq<string> {
    if removals == [] then values
    else RemoveFirst(RemoveEach(values, removals[..|removals| - 1]), removals[|removals| - 1])
  }

  method RemoveWarnings(values: seq<string>, removals: seq<string>) returns (remaining: seq<string>)
    ensures remaining == RemoveEach(values, removals)
  {
    remaining := values;
    for i := 0 to |removals|
      invariant remaining == RemoveEach(values, removals[..i])
    {
      assert removals[..i + 1][..i] == removals[..i];
      remaining := RemoveFirst(remaining, removals[i]);
    }
    assert removals[..|removals|] == removals;
  }

  lemma {:induction false} RemoveFirstBag(values: seq<string>, w: string)
    ensures multiset(RemoveFirst(values, w)) == multiset(values) - multiset{w}
  {
    if values != [] {
      assert values == [values[0]] + values[1..];
      if values[0] != w {
        RemoveFirstBag(values[1..], w);
      }
    }
  }

  lemma BagMinusOneMore(a: multiset<string>, b: multiset<string>, w: string)
    ensures a - b - multiset{w} == a - (b + multiset{w})
  {
  }

  /** Each removal takes away one copy where there is one. */
  lemma {:induction false} RemoveEachBag(values: seq<string>, removals: seq<string>)
    ensures multiset(RemoveEach(values, removals)) == multiset(values) - multiset(removals)
  {
    hide RemoveFirst;
    if removals != [] {
      var front, w := removals[..|removals| - 1], removals[|removals| - 1];
      RemoveEachBag(values, front);
      RemoveFirstBag(RemoveEach(values, front), w);
      BagMinusOneMore(multiset(values), multiset(front), w);
      assert removals == front + [w];
    }
  }

  // ---- what the warnings account for ----

  function WarningsOf(documents: seq<Document>): multiset<string> {
    if documents == [] then multiset{}
    else WarningsOf(documents[..|documents| - 1]) + multiset(documents[|documents| - 1].warnings)
  }

  function Notices(n: nat): multiset<string> {
    multiset{}[EXCLUDED := n]
  }

  lemma {:induction false} WarningsReplaced(documents: seq<Document>, i: nat, d: Document)
    requires i < |documents|
    ensures multiset(documents[i].warnings) <= WarningsOf(documents)
    ensures WarningsOf(documents[i := d]) == WarningsOf(documents) - multiset(documents[i].warnings) + multiset(d.warnings)
  {
    var n := |documents| - 1;
    if i < n {
      WarningsReplaced(documents[..n], i, d);
      assert documents[i := d][..n] == documents[..n][i := d];
    } else {
      assert documents[i := d][..n] == documents[..n];
    }
  }

  lemma {:induction false} WarningIn(documents: seq<Document>, w: string)
    ensures w in WarningsOf(documents) <==> exists i :: 0 <= i < |documents| && w in documents[i].warnings
  {
    if documents != [] {
      var n := |documents| - 1;
      WarningIn(documents[..n], w);
      if i :| 0 <= i < n && w in documents[..n][i].warnings {
        assert w in documents[i].warnings;
      }
      if i :| 0 <= i < |documents| && w in documents[i].warnings && i < n {
        assert w in documents[..n][i].warnings;
      }
    }
  }

  lemma BagReplaced(values: multiset<string>, old_: multiset<string>, new_: multiset<string>,
                    all: multiset<string>, others: multiset<string>)
    requires values == others + all && old_ <= all
    ensures values - old_ + new_ == others + (all - old_ + new_)
  {
  }

  /** A list that tells what `documents` warn of, besides `others`. */
  predicate Tells(values: seq<string>, others: multiset<string>, documents: seq<Document>) {
    multiset(values) == others + WarningsOf(documents)
  }

  /** Such a list still does when a document is replaced, its warnings with it. */
  method ReplaceWarnings(values: seq<string>, documents: seq<Document>, i: nat, d: Document, ghost others: multiset<string>)
    returns (r: seq<string>)
    requires i < |documents| && Tells(values, others, documents)
    ensures Tells(r, others, documents[i := d])
  {
    RemoveEachBag(values, documents[i].warnings);
    WarningsReplaced(documents, i, d);
    hide WarningsOf, RemoveEach;
    BagReplaced(multiset(values), multiset(documents[i].warnings), multiset(d.warnings), WarningsOf(documents), others);
    var remaining := RemoveWarnings(values, documents[i].warnings);
    r := remaining + d.warnings;
  }

  /** The three groups of documents and the notices, with either group of uploads last. */
  lemma Regroup(a: multiset<string>, b: multiset<string>, c: multiset<string>, d: multiset<string>)
    ensures a + b + c + d == a + c + d + b
    ensures a + b + c + d == a + b + d + c
  {
  }

  // ---- first extraction ----

  /** Documents extracted from some of the uploads, in order. */
  ghost predicate Samples(documents: seq<Document>, uploads: seq<Upload>, world: World) {
    |documents| == |uploads|
    && forall i :: 0 <= i < |documents| ==> world.sampled(uploads[i]) == Extracted(documents[i]) && documents[i].usable
  }

  /** An upload of a supported form whose sample can be used. */
  predicate Usable(item: Upload, world: World) {
    item.supported && world.sampled(item).Extracted? && world.sampled(item).document.usable
  }

  /** A failure the upload calls for: a package may not lose any, a context upload only when it is not a diagnostic. */
  predicate CallsFor(f: Failure, item: Upload, strict: bool, world: World) {
    match f
    case Unexpected => item.supported && world.sampled(item) == Foreign
    case DocumentTooLarge => strict && item.supported && world.sampled(item) == TooLarge
    case DocumentUnreadable =>
      strict && !(item.supported && (world.sampled(item) == Foreign || world.sampled(item) == TooLarge))
      && !Usable(item, world)
    case DiagnosticUnavailable =>
      !strict && item.supported && world.sampled(item) == TooLarge && world.suggestsDiagnostic(item.name)
    case CountExceeded => false
  }

  predicate Harmless(item: Upload, strict: bool, world: World) {
    forall f: Failure :: !CallsFor(f, item, strict, world)
  }

  /** The uploads at these positions, counted from one: exactly the usable ones, in order. */
  ghost predicate Retains(indexes: seq<nat>, retained: seq<Upload>, items: seq<Upload>, world: World) {
    && |indexes| == |retained|
    && (forall k :: 0 <= k < |indexes| ==>
          1 <= indexes[k] <= |items| && retained[k] == items[indexes[k] - 1] && Usable(retained[k], world))
    && (forall j, k :: 0 <= j < k < |indexes| ==> indexes[j] < indexes[k])
    && (forall i :: 0 <= i < |items| && Usable(items[i], world) ==> i + 1 in indexes)
  }

  lemma NextRetained(indexes: seq<nat>, retained: seq<Upload>, items: seq<Upload>, world: World, i: nat)
    requires i < |items| && Retains(indexes, retained, items[..i], world)
    ensures if Usable(items[i], world) then Retains(indexes + [i + 1], retained + [items[i]], items[..i + 1], world)
            else Retains(indexes, retained, items[..i + 1], world)
  {
    hide Usable;
    assert forall k :: 0 <= k < i ==> items[..i + 1][k] == items[..i][k];
  }

  /** One upload: a document to hold, nothing when it is excluded, or a failure of the whole step. */
  method SampleUpload(item: Upload, strict: bool, world: World) returns (failure: Option<Failure>, held: Option<Document>)
    ensures failure.Some? ==> CallsFor(failure.value, item, strict, world)
    ensures failure.None? ==> Harmless(item, strict, world)
    ensures failure.None? ==> (held.Some? <==> Usable(item, world))
    ensures failure.None? && held.Some? ==> world.sampled(item) == Extracted(held.value)
    ensures failure.None? && strict ==> held.Some?
  {
    var extraction := if item.supported then world.sampled(item) else Unreadable;
    failure, held := None, None;
    match extraction
    case Extracted(document) =>
      if document.usable {
        held := Some(document);
      } else if strict {
        failure := Some(DocumentUnreadable);
      }
    case TooLarge =>
      if strict {
        failure := Some(DocumentTooLarge);
      } else if world.suggestsDiagnostic(item.name) {
        failure := Some(DiagnosticUnavailable);
      }
    case Unreadable =>
      if strict {
        failure := Some(DocumentUnreadable);
      }
    case Foreign =>
      failure := Some(Unexpected);
  }

  lemma OneMoreSample(documents: seq<Document>, uploads: seq<Upload>, d: Document, u: Upload, world: World)
    requires Samples(documents, uploads, world) && world.sampled(u) == Extracted(d) && Usable(u, world)
    ensures Samples(documents + [d], uploads + [u], world)
  {
  }

  predicate Accounted(documents: seq<Document>, warnings: seq<string>, excluded: nat) {
    multiset(warnings) == WarningsOf(documents) + Notices(excluded)
  }

  lemma OneMoreDocument(documents: seq<Document>, d: Document, warnings: seq<string>, excluded: nat)
    requires Accounted(documents, warnings, excluded)
    ensures Accounted(documents + [d], warnings + d.warnings, excluded)
  {
    assert (documents + [d])[..|documents|] == documents;
  }

  lemma OneMoreNotice(documents: seq<Document>, warnings: seq<string>, excluded: nat)
    requires Accounted(documents, warnings, excluded)
    ensures Accounted(documents, warnings + [EXCLUDED], excluded + 1)
  {
    hide WarningsOf;
  }

  /** Some item calls for this failure, and none before it for any. */
  ghost predicate FirstCallsFor(f: Failure, items: seq<Upload>, strict: bool, world: World) {
    exists i :: 0 <= i < |items| && CallsFor(f, items[i], strict, world)
                && forall j :: 0 <= j < i ==> Harmless(items[j], strict, world)
  }

  /** The lists under construction. */
  datatype Sampling = Sampling(documents: seq<Document>, retained: seq<Upload>, indexes: seq<nat>, warnings: seq<string>,
                               excluded: nat)

  function With(r: Sampling, item: Upload, index: nat, d: Document): Sampling {
    Sampling(r.documents + [d], r.retained + [item], r.indexes + [index], r.warnings + d.warnings, r.excluded)
  }

  function Without(r: Sampling): Sampling {
    r.(warnings := r.warnings + [EXCLUDED], excluded := r.excluded + 1)
  }

  ghost predicate SampledSoFar(r: Sampling, items: seq<Upload>, n: nat, strict: bool, world: World) {
    && n <= |items| && Retains(r.indexes, r.retained, items[..n], world) && Samples(r.documents, r.retained, world)
    && Accounted(r.documents, r.warnings, r.excluded) && |r.documents| + r.excluded == n
    && (strict ==> r.excluded == 0 && r.retained == items[..n])
    && forall j :: 0 <= j < n ==> Harmless(items[j], strict, world)
  }

  lemma NextHeld(r: Sampling, items: seq<Upload>, n: nat, strict: bool, world: World, d: Document)
    requires SampledSoFar(r, items, n, strict, world) && n < |items| && Harmless(items[n], strict, world)
    requires Usable(items[n], world) && world.sampled(items[n]) == Extracted(d)
    ensures SampledSoFar(With(r, items[n], n + 1, d), items, n + 1, strict, world)
  {
    hide Accounted, Samples, Retains, Usable, Harmless;
    NextRetained(r.indexes, r.retained, items, world, n);
    OneMoreDocument(r.documents, d, r.warnings, r.excluded);
    OneMoreSample(r.documents, r.retained, d, items[n], world);
    assert |r.documents + [d]| == |r.documents| + 1;
  }

  lemma NextExcluded(r: Sampling, items: seq<Upload>, n: nat, strict: bool, world: World)
    requires SampledSoFar(r, items, n, strict, world) && n < |items| && Harmless(items[n], strict, world)
    requires !Usable(items[n], world) && !strict
    ensures SampledSoFar(Without(r), items, n + 1, strict, world)
  {
    hide Accounted, Samples, Retains, Usable, Harmless;
    NextRetained(r.indexes, r.retained, items, world, n);
    OneMoreNotice(r.documents, r.warnings, r.excluded);
  }

  lemma NothingSampled(items: seq<Upload>, strict: bool, world: World)
    ensures SampledSoFar(Sampling([], [], [], [], 0), items, 0, strict, world)
  {
    hide Usable, Harmless;
    assert Notices(0) == multiset{};
  }

  method SampleNext(before: Sampling, items: seq<Upload>, i: nat, strict: bool, world: World)
    returns (failure: Option<Failure>, r: Sampling)
    requires i < |items| && SampledSoFar(before, items, i, strict, world)
    ensures failure.None? ==> SampledSoFar(r, items, i + 1, strict, world)
    ensures failure.Some? ==> FirstCallsFor(failure.value, items, strict, world) && !Harmless(items[i], strict, world)
  {
    hide SampledSoFar, Usable, CallsFor, Harmless, FirstCallsFor, With, Without;
    var held: Option<Document>;
    failure, held := SampleUpload(items[i], strict, world);
    r := before;
    if failure.Some? {
      FirstFailing(failure.value, r, items, i, strict, world);
    } else if held.None? {
      NextExcluded(r, items, i, strict, world);
      r := Without(r);
    } else {
      NextHeld(r, items, i, strict, world, held.value);
      r := With(r, items[i], i + 1, held.value);
    }
  }

  /** The failure is one the first upload that calls for any calls for; there is one exactly when some upload does. */
  method ExtractOptionalUploads(items: seq<Upload>, strict: bool, world: World)
    returns (failure: Option<Failure>, r: Sampling)
    ensures failure.None? <==>
      (strict ==> |items| <= 40) && forall i :: 0 <= i < |items| ==> Harmless(items[i], strict, world)
    ensures failure.Some? ==>
      if strict && |items| > 40 then failure.value == CountExceeded
      else FirstCallsFor(failure.value, items, strict, world)
    ensures failure.None? ==>
      && Retains(r.indexes, r.retained, items, world) && Samples(r.documents, r.retained, world)
      && Accounted(r.documents, r.warnings, r.excluded)
      && |r.documents| + r.excluded == |items|
      && (strict ==> r.excluded == 0 && r.retained == items)
  {
    hide SampledSoFar, Harmless, FirstCallsFor, Retains, Samples, Accounted, Usable, CallsFor;
    failure, r := None, Sampling([], [], [], [], 0);
    if strict && |items| > MAX_PACKAGE {
      return Some(CountExceeded), r;
    }
    NothingSampled(items, strict, world);
    for i := 0 to |items|
      invariant failure.None? && SampledSoFar(r, items, i, strict, world)
    {
      failure, r := SampleNext(r, items, i, strict, world);
      if failure.Some? {
        return;
      }
    }
    AllSampled(r, items, strict, world);
  }

  lemma AllSampled(r: Sampling, items: seq<Upload>, strict: bool, world: World)
    requires SampledSoFar(r, items, |items|, strict, world)
    ensures Retains(r.indexes, r.retained, items, world) && Samples(r.documents, r.retained, world)
    ensures Accounted(r.documents, r.warnings, r.excluded) && |r.documents| + r.excluded == |items|
    ensures strict ==> r.excluded == 0 && r.retained == items
    ensures forall i :: 0 <= i < |items| ==> Harmless(items[i], strict, world)
  {
    hide Retains, Samples, Accounted, Harmless;
    assert items[..|items|] == items;
  }

  lemma FirstFailing(f: Failure, r: Sampling, items: seq<Upload>, i: nat, strict: bool, world: World)
    requires i < |items| && CallsFor(f, items[i], strict, world) && SampledSoFar(r, items, i, strict, world)
    ensures !Harmless(items[i], strict, world) && FirstCallsFor(f, items, strict, world)
  {
    hide CallsFor, Retains, Samples, Accounted;
  }

  // ---- what replaces a sample ----

  /** Only the diagnostic of this group, if it is here, is replaced, by its full extraction. */
  ghost predicate DiagnosticHeld(after: seq<Document>, before: seq<Document>, uploads: seq<Upload>, role: Role,
                                 diagnostic: Option<(Role, nat)>, world: World)
  {
    |after| == |before| == |uploads|
    && forall i :: 0 <= i < |after| ==>
         if diagnostic == Some((role, i)) then world.diagnostic(uploads[i]) == Extracted(after[i]) else after[i] == before[i]
  }

  /** Of the first `n` documents, every one but the diagnostic is replaced by its full, usable extraction. */
  ghost predicate OthersInFull(after: seq<Document>, before: seq<Document>, uploads: seq<Upload>, n: nat, role: Role,
                               diagnostic: Option<(Role, nat)>, world: World)
  {
    |after| == |before| == |uploads|
    && forall i :: 0 <= i < |after| ==>
         if i >= n || diagnostic == Some((role, i)) then after[i] == before[i]
         else world.full(uploads[i]) == Extracted(after[i]) && after[i].usable
  }

  /** What a context document becomes: its full extraction when there is a usable one, else the sample stays. */
  function FullOrSampled(upload: Upload, sampled: Document, world: World): Document {
    var extraction := world.full(upload);
    if extraction.Extracted? && extraction.document.usable then extraction.document else sampled
  }

  ghost predicate OthersInFullOrSampled(after: seq<Document>, before: seq<Document>, uploads: seq<Upload>, n: nat,
                                        role: Role, diagnostic: Option<(Role, nat)>, world: World)
  {
    |after| == |before| == |uploads|
    && forall i :: 0 <= i < |after| ==>
         after[i] == if i >= n || diagnostic == Some((role, i)) then before[i] else FullOrSampled(uploads[i], before[i], world)
  }

  lemma NextInFull(after: seq<Document>, before: seq<Document>, uploads: seq<Upload>, n: nat, role: Role,
                   diagnostic: Option<(Role, nat)>, world: World, d: Document)
    requires OthersInFull(after, before, uploads, n, role, diagnostic, world) && n < |after|
    requires if diagnostic == Some((role, n)) then d == after[n] else world.full(uploads[n]) == Extracted(d) && d.usable
    ensures OthersInFull(after[n := d], before, uploads, n + 1, role, diagnostic, world)
  {
  }

  lemma NextInFullOrSampled(after: seq<Document>, before: seq<Document>, uploads: seq<Upload>, n: nat, role: Role,
                            diagnostic: Option<(Role, nat)>, world: World, d: Document)
    requires OthersInFullOrSampled(after, before, uploads, n, role, diagnostic, world) && n < |after|
    requires d == if diagnostic == Some((role, n)) then after[n] else FullOrSampled(uploads[n], after[n], world)
    ensures OthersInFullOrSampled(after[n := d], before, uploads, n + 1, role, diagnostic, world)
  {
    hide FullOrSampled;
    assert after[n] == before[n];
  }

  predicate Exempt(i: nat, role: Role, diagnostic: Option<(Role, nat)>) {
    diagnostic == Some((role, i))
  }

  /** Of the first `n` uploads, every one but the diagnostic has a usable full extraction. */
  predicate NoneFailsInFull(uploads: seq<Upload>, n: nat, role: Role, diagnostic: Option<(Role, nat)>, world: World)
    requires n <= |uploads|
  {
    forall i :: 0 <= i < n && !Exempt(i, role, diagnostic) ==>
      world.full(uploads[i]).Extracted? && world.full(uploads[i]).document.usable
  }

  /** The first upload without one says which failure. */
  predicate FirstFailsInFull(f: Failure, uploads: seq<Upload>, role: Role, diagnostic: Option<(Role, nat)>, world: World) {
    exists i :: 0 <= i < |uploads| && !Exempt(i, role, diagnostic)
                && NoneFailsInFull(uploads, i, role, diagnostic, world)
                && match world.full(uploads[i])
                   case TooLarge => f == DocumentTooLarge
                   case Unreadable => f == DocumentUnreadable
                   case Foreign => f == Unexpected
                   case Extracted(d) => f == DocumentUnreadable && !d.usable
  }

  /** Of the first `n` uploads, none but perhaps the diagnostic meets an exception nobody expects. */
  predicate NoneForeign(uploads: seq<Upload>, n: nat, role: Role, diagnostic: Option<(Role, nat)>, world: World)
    requires n <= |uploads|
  {
    forall i :: 0 <= i < n && !Exempt(i, role, diagnostic) ==> world.full(uploads[i]) != Foreign
  }

  /** The package documents at the end: all in full. */
  ghost predicate AllInFull(documents: seq<Document>, uploads: seq<Upload>, role: Role,
                            diagnostic: Option<(Role, nat)>, world: World)
  {
    |documents| == |uploads|
    && forall i :: 0 <= i < |documents| ==>
         Extracted(documents[i])
         == if diagnostic == Some((role, i)) then world.diagnostic(uploads[i]) else world.full(uploads[i])
  }

  /** The context documents at the end: in full, but for samples that have no usable full extraction. */
  ghost predicate BestHeld(documents: seq<Document>, before: seq<Document>, uploads: seq<Upload>, role: Role,
                           diagnostic: Option<(Role, nat)>, world: World)
  {
    |documents| == |before| == |uploads|
    && forall i :: 0 <= i < |documents| ==>
         if diagnostic == Some((role, i)) then world.diagnostic(uploads[i]) == Extracted(documents[i])
         else match world.full(uploads[i])
              case Extracted(full) => documents[i] == (if full.usable then full else before[i])
              case _ => documents[i] == before[i]
  }

  lemma OneHeld(before: seq<Document>, uploads: seq<Upload>, role: Role, i: nat, d: Document, world: World)
    requires |before| == |uploads| && i < |before| && world.diagnostic(uploads[i]) == Extracted(d)
    ensures DiagnosticHeld(before[i := d], before, uploads, role, Some((role, i)), world)
  {
  }

  lemma NoneHeld(before: seq<Document>, uploads: seq<Upload>, role: Role, diagnostic: Option<(Role, nat)>, world: World)
    requires |before| == |uploads| && (diagnostic.Some? ==> diagnostic.value.0 != role)
    ensures DiagnosticHeld(before, before, uploads, role, diagnostic, world)
  {
  }

  lemma ThenInFull(before: seq<Document>, middle: seq<Document>, after: seq<Document>, uploads: seq<Upload>, role: Role,
                   diagnostic: Option<(Role, nat)>, world: World)
    requires DiagnosticHeld(middle, before, uploads, role, diagnostic, world)
    ensures OthersInFull(after, middle, uploads, |uploads|, role, diagnostic, world) ==>
              AllInFull(after, uploads, role, diagnostic, world)
    ensures OthersInFullOrSampled(after, middle, uploads, |uploads|, role, diagnostic, world) ==>
              BestHeld(after, before, uploads, role, diagnostic, world)
  {
  }

  /**
   Every package document but the diagnostic is extracted again in full, its warnings exchanged as it goes; one
   that cannot be extracted is a failure of the run.
   */
  method ExtractAllInFull(sampled: seq<Document>, uploads: seq<Upload>, values: seq<string>,
                          diagnostic: Option<(Role, nat)>, world: World, ghost others: multiset<string>)
    returns (failure: Option<Failure>, documents: seq<Document>, warnings: seq<string>)
    requires |sampled| == |uploads| && Tells(values, others, sampled)
    ensures failure.None? <==> NoneFailsInFull(uploads, |uploads|, Package, diagnostic, world)
    ensures failure.Some? ==> FirstFailsInFull(failure.value, uploads, Package, diagnostic, world)
    ensures failure.None? ==>
      && Tells(warnings, others, documents)
      && OthersInFull(documents, sampled, uploads, |uploads|, Package, diagnostic, world)
  {
    failure, documents, warnings := None, sampled, values;
    assert OthersInFull(documents, sampled, uploads, 0, Package, diagnostic, world);
    hide Tells, OthersInFull;
    for i := 0 to |uploads|
      invariant failure.None? && |documents| == |uploads| && Tells(warnings, others, documents)
      invariant NoneFailsInFull(uploads, i, Package, diagnostic, world)
      invariant OthersInFull(documents, sampled, uploads, i, Package, diagnostic, world)
    {
      var document := documents[i];
      assert documents[i := document] == documents;
      if diagnostic != Some((Package, i)) {
        var extraction := world.full(uploads[i]);
        if !extraction.Extracted? || !extraction.document.usable {
          failure := Some(if extraction.TooLarge? then DocumentTooLarge
                          else if extraction.Foreign? then Unexpected
                          else DocumentUnreadable);
          return;
        }
        document := extraction.document;
        warnings := ReplaceWarnings(warnings, documents, i, document, others);
      }
      NextInFull(documents, sampled, uploads, i, Package, diagnostic, world, document);
      documents := documents[i := document];
    }
  }

  /** A context document that cannot be extracted in full keeps its sample and the sample's warnings. */
  method ExtractWherePossible(sampled: seq<Document>, uploads: seq<Upload>, values: seq<string>,
                              diagnostic: Option<(Role, nat)>, world: World, ghost others: multiset<string>)
    returns (failure: Option<Failure>, documents: seq<Document>, warnings: seq<string>)
    requires |sampled| == |uploads| && Tells(values, others, sampled)
    ensures failure.None? <==> NoneForeign(uploads, |uploads|, Context, diagnostic, world)
    ensures failure.Some? ==> failure.value == Unexpected
    ensures failure.None? ==>
      && Tells(warnings, others, documents)
      && OthersInFullOrSampled(documents, sampled, uploads, |uploads|, Context, diagnostic, world)
  {
    failure, documents, warnings := None, sampled, values;
    assert OthersInFullOrSampled(documents, sampled, uploads, 0, Context, diagnostic, world);
    hide Tells, OthersInFullOrSampled;
    for i := 0 to |uploads|
      invariant failure.None? && |documents| == |uploads| && Tells(warnings, others, documents)
      invariant NoneForeign(uploads, i, Context, diagnostic, world)
      invariant OthersInFullOrSampled(documents, sampled, uploads, i, Context, diagnostic, world)
    {
      var document := documents[i];
      assert documents[i := document] == documents;
      if diagnostic != Some((Context, i)) {
        var extraction := world.full(uploads[i]);
        if extraction.Foreign? {
          failure := Some(Unexpected);
          return;
        }
        if extraction.Extracted? && extraction.document.usable {
          document := extraction.document;
          warnings := ReplaceWarnings(warnings, documents, i, document, others);
        }
      }
      NextInFullOrSampled(documents, sampled, uploads, i, Context, diagnostic, world, document);
      documents := documents[i := document];
    }
  }

  // ---- the run's context ----

  /** The keys of the run's context that these steps read and change. */
  class RunContext {
    var primary: Document
    var packageDocuments: seq<Document>
    var contextDocuments: seq<Document>
    var packageUploads: seq<Upload>
    var contextUploads: seq<Upload>
    var diagnostic: Option<(Role, nat)>
    var warnings: seq<string>

    constructor (p: Document)
      ensures primary == p && diagnostic == None && packageDocuments == contextDocuments == []
      ensures packageUploads == contextUploads == [] && warnings == []
    {
      primary, diagnostic := p, None;
      packageDocuments, contextDocuments, packageUploads, contextUploads, warnings := [], [], [], [], [];
    }

    function Held(): multiset<string>
      reads this
    {
      multiset(primary.warnings) + WarningsOf(packageDocuments) + WarningsOf(contextDocuments)
    }

    /** The list is what the held documents warn of, and `excluded` notices. */
    ghost predicate Ledger(excluded: nat)
      reads this
    {
      && |packageDocuments| == |packageUploads| && |contextDocuments| == |contextUploads|
      && multiset(warnings) == Held() + Notices(excluded)
    }

    method Extract(packageItems: seq<Upload>, contextItems: seq<Upload>, world: World)
      returns (failure: Option<Failure>, excluded: nat)
      modifies this
      ensures primary == old(primary)
      ensures failure.None? <==>
        && |packageItems| <= 40 && (forall i :: 0 <= i < |packageItems| ==> Harmless(packageItems[i], true, world))
        && forall i :: 0 <= i < |contextItems| ==> Harmless(contextItems[i], false, world)
      ensures failure.None? ==>
        && Ledger(excluded) && diagnostic == old(diagnostic)
        && (exists indexes :: Retains(indexes, contextUploads, contextItems, world))
        && Samples(packageDocuments, packageUploads, world) && packageUploads == packageItems
        && Samples(contextDocuments, contextUploads, world) && |contextDocuments| + excluded == |contextItems|
    {
      hide WarningsOf, Notices, Accounted, Harmless, Retains;
      var packages, contexts;
      failure, packages := ExtractOptionalUploads(packageItems, true, world);
      excluded := 0;
      if failure.Some? {
        return;
      }
      failure, contexts := ExtractOptionalUploads(contextItems, false, world);
      if failure.Some? {
        return;
      }
      packageDocuments, packageUploads := packages.documents, packages.retained;
      contextDocuments, contextUploads, excluded := contexts.documents, contexts.retained, contexts.excluded;
      warnings := primary.warnings + packages.warnings + contexts.warnings;
      BothAccounted(primary, packages.documents, packages.warnings, contexts.documents, contexts.warnings, excluded);
    }

    /** Everything the list accounts for besides the package documents. */
    function BesidesPackages(excluded: nat): multiset<string>
      reads `primary, `contextDocuments
    {
      multiset(primary.warnings) + WarningsOf(contextDocuments) + Notices(excluded)
    }

    function BesidesContexts(excluded: nat): multiset<string>
      reads `primary, `packageDocuments
    {
      multiset(primary.warnings) + WarningsOf(packageDocuments) + Notices(excluded)
    }

    lemma LedgerIff(excluded: nat)
      requires |packageDocuments| == |packageUploads| && |contextDocuments| == |contextUploads|
      ensures Ledger(excluded) <==> Tells(warnings, BesidesPackages(excluded), packageDocuments)
      ensures Ledger(excluded) <==> Tells(warnings, BesidesContexts(excluded), contextDocuments)
    {
      hide WarningsOf, Notices, Accounted, Samples;
      Regroup(multiset(primary.warnings), WarningsOf(packageDocuments), WarningsOf(contextDocuments), Notices(excluded));
    }

    method ReplacePackage(position: nat, document: Document, ghost excluded: nat)
      requires Ledger(excluded) && position < |packageDocuments|
      modifies `packageDocuments, `warnings
      ensures Ledger(excluded) && packageDocuments == old(packageDocuments)[position := document]
    {
      LedgerIff(excluded);
      hide Ledger, Tells, BesidesPackages, BesidesContexts, WarningsOf, Notices, Held;
      warnings := ReplaceWarnings(warnings, packageDocuments, position, document, BesidesPackages(excluded));
      packageDocuments := packageDocuments[position := document];
      LedgerIff(excluded);
    }

    method ReplaceContext(position: nat, document: Document, ghost excluded: nat)
      requires Ledger(excluded) && position < |contextDocuments|
      modifies `contextDocuments, `warnings
      ensures Ledger(excluded) && contextDocuments == old(contextDocuments)[position := document]
    {
      LedgerIff(excluded);
      hide Ledger, Tells, BesidesPackages, BesidesContexts, WarningsOf, Notices, Held;
      warnings := ReplaceWarnings(warnings, contextDocuments, position, document, BesidesContexts(excluded));
      contextDocuments := contextDocuments[position := document];
      LedgerIff(excluded);
    }

    /** The diagnostic, once chosen, is held in full. */
    method ReplaceDiagnostic(role: Role, position: nat, document: Document, ghost excluded: nat)
      requires Ledger(excluded)
      requires position < if role == Package then |packageDocuments| else |contextDocuments|
      modifies `packageDocuments, `contextDocuments, `warnings, `diagnostic
      ensures Ledger(excluded) && diagnostic == Some((role, position))
      ensures packageDocuments
           == if role == Package then old(packageDocuments)[position := document] else old(packageDocuments)
      ensures contextDocuments
           == if role == Context then old(contextDocuments)[position := document] else old(contextDocuments)
    {
      hide WarningsOf, Notices, Accounted, Samples;
      diagnostic := Some((role, position));
      if role == Package {
        ReplacePackage(position, document, excluded);
      } else {
        ReplaceContext(position, document, excluded);
      }
    }

    /** On failure the documents stay as they were, though the list has changed. */
    method ReextractPackages(world: World, ghost excluded: nat) returns (failure: Option<Failure>)
      requires Ledger(excluded)
      modifies `packageDocuments, `warnings
      ensures failure.None? <==> NoneFailsInFull(packageUploads, |packageUploads|, Package, diagnostic, world)
      ensures failure.Some? ==> FirstFailsInFull(failure.value, packageUploads, Package, diagnostic, world)
      ensures failure.None? ==>
        && Ledger(excluded)
        && OthersInFull(packageDocuments, old(packageDocuments), packageUploads, |packageUploads|, Package, diagnostic, world)
    {
      LedgerIff(excluded);
      hide Ledger, Tells, BesidesPackages, BesidesContexts, WarningsOf, Notices, Held, OthersInFull;
      var documents;
      failure, documents, warnings :=
        ExtractAllInFull(packageDocuments, packageUploads, warnings, diagnostic, world, BesidesPackages(excluded));
      if failure.None? {
        packageDocuments := documents;
        LedgerIff(excluded);
      }
    }

    method ReextractContexts(world: World, ghost excluded: nat) returns (failure: Option<Failure>)
      requires Ledger(excluded)
      modifies `contextDocuments, `warnings
      ensures failure.None? <==> NoneForeign(contextUploads, |contextUploads|, Context, diagnostic, world)
      ensures failure.Some? ==> failure.value == Unexpected
      ensures failure.None? ==>
        && Ledger(excluded)
        && OthersInFullOrSampled(contextDocuments, old(contextDocuments), contextUploads, |contextUploads|, Context,
                                 diagnostic, world)
    {
      LedgerIff(excluded);
      hide Ledger, Tells, BesidesPackages, BesidesContexts, WarningsOf, Notices, Held, OthersInFullOrSampled;
      var documents;
      failure, documents, warnings :=
        ExtractWherePossible(contextDocuments, contextUploads, warnings, diagnostic, world, BesidesContexts(excluded));
      if failure.None? {
        contextDocuments := documents;
        LedgerIff(excluded);
      }
    }

    /** Some document of either group, or none. */
    predicate Chooses(chosen: Option<(Role, nat)>)
      reads this
    {
      chosen.Some? ==> chosen.value.1 < if chosen.value.0 == Package then |packageDocuments| else |contextDocuments|
    }

    /** What extracting the chosen diagnostic in full comes to. */
    function DiagnosticExtraction(chosen: (Role, nat), world: World): Extraction
      reads this
      requires chosen.1 < if chosen.0 == Package then |packageUploads| else |contextUploads|
    {
      world.diagnostic(if chosen.0 == Package then packageUploads[chosen.1] else contextUploads[chosen.1])
    }

    method HoldDiagnostic(chosen: Option<(Role, nat)>, world: World, ghost excluded: nat) returns (failure: Option<Failure>)
      requires Ledger(excluded) && diagnostic.None? && Chooses(chosen)
      modifies `packageDocuments, `contextDocuments, `warnings, `diagnostic
      ensures failure.None? <==> chosen.None? || old(DiagnosticExtraction(chosen.value, world)).Extracted?
      ensures failure.Some? ==>
        failure.value == if old(DiagnosticExtraction(chosen.value, world)).TooLarge? then DiagnosticUnavailable else Unexpected
      ensures failure.None? ==>
        && Ledger(excluded) && diagnostic == chosen
        && DiagnosticHeld(packageDocuments, old(packageDocuments), packageUploads, Package, chosen, world)
        && DiagnosticHeld(contextDocuments, old(contextDocuments), contextUploads, Context, chosen, world)
    {
      failure := None;
      assert |packageDocuments| == |packageUploads| && |contextDocuments| == |contextUploads|;
      hide Ledger, DiagnosticHeld;
      if chosen.None? {
        NoneHeld(packageDocuments, packageUploads, Package, chosen, world);
        NoneHeld(contextDocuments, contextUploads, Context, chosen, world);
        return;
      }
      var (role, position) := chosen.value;
      var extraction := world.diagnostic(if role == Package then packageUploads[position] else contextUploads[position]);
      if !extraction.Extracted? {
        return Some(if extraction.TooLarge? then DiagnosticUnavailable else Unexpected);
      }
      if role == Package {
        OneHeld(packageDocuments, packageUploads, Package, position, extraction.document, world);
        NoneHeld(contextDocuments, contextUploads, Context, chosen, world);
      } else {
        NoneHeld(packageDocuments, packageUploads, Package, chosen, world);
        OneHeld(contextDocuments, contextUploads, Context, position, extraction.document, world);
      }
      ReplaceDiagnostic(role, position, extraction.document, excluded);
    }

    /** The documents' part of the research step: the chosen diagnostic, if any, and then both groups. */
    method HoldInFull(chosen: Option<(Role, nat)>, world: World, ghost excluded: nat) returns (failure: Option<Failure>)
      requires Ledger(excluded) && diagnostic.None? && Chooses(chosen)
      modifies `packageDocuments, `contextDocuments, `warnings, `diagnostic
      ensures failure.None? <==>
        && (chosen.None? || old(DiagnosticExtraction(chosen.value, world)).Extracted?)
        && NoneFailsInFull(packageUploads, |packageUploads|, Package, chosen, world)
        && NoneForeign(contextUploads, |contextUploads|, Context, chosen, world)
      ensures failure.Some? ==>
        if chosen.Some? && !old(DiagnosticExtraction(chosen.value, world)).Extracted?
        then failure.value
             == if old(DiagnosticExtraction(chosen.value, world)).TooLarge? then DiagnosticUnavailable else Unexpected
        else if !NoneFailsInFull(packageUploads, |packageUploads|, Package, chosen, world)
        then FirstFailsInFull(failure.value, packageUploads, Package, chosen, world)
        else failure.value == Unexpected
      ensures failure.None? ==>
        && Ledger(excluded) && diagnostic == chosen
        && AllInFull(packageDocuments, packageUploads, Package, chosen, world)
        && BestHeld(contextDocuments, old(contextDocuments), contextUploads, Context, chosen, world)
    {
      hide Ledger, DiagnosticHeld, OthersInFull, OthersInFullOrSampled, AllInFull, BestHeld, NoneFailsInFull, NoneForeign,
           FirstFailsInFull;
      failure := HoldDiagnostic(chosen, world, excluded);
      if failure.Some? {
        return;
      }
      ghost var packages, contexts := packageDocuments, contextDocuments;
      failure := ReextractPackages(world, excluded);
      if failure.Some? {
        return;
      }
      ThenInFull(old(packageDocuments), packages, packageDocuments, packageUploads, Package, chosen, world);
      failure := ReextractContexts(world, excluded);
      ThenInFull(old(contextDocuments), contexts, contextDocuments, contextUploads, Context, chosen, world);
    }
  }

  lemma BothAccounted(primary: Document, packages: seq<Document>, packageWarnings: seq<string>,
                      contexts: seq<Document>, contextWarnings: seq<string>, excluded: nat)
    requires Accounted(packages, packageWarnings, 0) && Accounted(contexts, contextWarnings, excluded)
    ensures multiset(primary.warnings + packageWarnings + contextWarnings)
         == multiset(primary.warnings) + WarningsOf(packages) + WarningsOf(contexts) + Notices(excluded)
  {
    hide WarningsOf;
    assert Notices(0) == multiset{};
  }

  // ---- what the list tells ----

  /** A held document that was only sampled says so. */
  ghost predicate StillSampled(documents: seq<Document>, isSampling: string -> bool) {
    exists i, w :: 0 <= i < |documents| && w in documents[i].warnings && isSampling(w)
  }

  /**
   While the ledger holds, the list carries a sampling warning exactly when some held package or context
   document is still sampled: the primary document never is, and a notice is not such a warning.
   */
  lemma SamplingWarningIff(c: RunContext, excluded: nat, isSampling: string -> bool)
    requires c.Ledger(excluded)
    requires !isSampling(EXCLUDED) && forall w :: w in c.primary.warnings ==> !isSampling(w)
    ensures (exists w :: w in c.warnings && isSampling(w))
            <==> StillSampled(c.packageDocuments, isSampling) || StillSampled(c.contextDocuments, isSampling)
  {
    forall w
      ensures w in c.warnings && isSampling(w)
              <==> isSampling(w) && (w in WarningsOf(c.packageDocuments) || w in WarningsOf(c.contextDocuments))
    {
      assert w in c.warnings <==> w in multiset(c.warnings);
      assert w in Notices(excluded) ==> w == EXCLUDED;
      assert w in multiset(c.primary.warnings) <==> w in c.primary.warnings;
    }
    SampledIff(c.packageDocuments, isSampling);
    SampledIff(c.contextDocuments, isSampling);
  }

  lemma SampledIff(documents: seq<Document>, isSampling: string -> bool)
    ensures StillSampled(documents, isSampling) <==> exists w :: w in WarningsOf(documents) && isSampling(w)
  {
    forall w
      ensures w in WarningsOf(documents) <==> exists i :: 0 <= i < |documents| && w in documents[i].warnings
    {
      WarningIn(documents, w);
    }
  }
}
