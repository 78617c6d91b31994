/** Search over the current text and the published passages. */
module Search {
  import opened Wrappers
  import opened Ordering
  import opened Lease
  import opened Knowledge

  /** Weights are counted in tenths. */
  datatype Term = Term(value: string, weight: int)

  predicate StartsAt(text: string, part: string, i: nat) {
    i + |part| <= |text| && text[i..i + |part|] == part
  }

  predicate Contains(text: string, part: string) {
    exists i :: 0 <= i <= |text| && StartsAt(text, part, i)
  }

  predicate Matched(body: string, terms: seq<Term>) {
    exists t :: t in terms && Contains(body, t.value)
  }

  /** Weight of the terms found in the body; `bonus` per term, `extra` when the title has it too. */
  function Weight(body: string, title: string, terms: seq<Term>, bonus: int, extra: int): int {
    if terms == [] then 0
    else
      var t := terms[|terms| - 1];
      Weight(body, title, terms[..|terms| - 1], bonus, extra) +
      (if Contains(body, t.value) then t.weight + bonus + (if Contains(title, t.value) then extra else 0) else 0)
  }

  /** `score` counts thousandths. */
  datatype Hit = Hit(
    source: int, revision: nat, hash: Digest<seq<string>>, lineStart: int, lineEnd: int,
    excerpt: string, score: int, semantic: bool)

  // ------------------------------------------------------------ lexical scan

  function From(i: nat): nat { if i < 2 then 0 else i - 2 }

  function To(lines: seq<string>, i: nat): nat { Min(|lines|, i + 3) }

  function Window(text: Text, lines: seq<string>, i: nat): string
    requires i < |lines|
  {
    text.clip(lines[From(i)..To(lines, i)])
  }

  predicate WindowMatches(text: Text, s: Source, terms: seq<Term>, i: nat)
    requires i < |s.lines|
  {
    Matched(text.fold(Window(text, s.lines, i)), terms)
  }

  function WindowScore(text: Text, s: Source, terms: seq<Term>, i: nat): int
    requires i < |s.lines|
  {
    100 * Weight(text.fold(Window(text, s.lines, i)), text.fold(s.title), terms, 5, 20)
  }

  function WindowHit(text: Text, s: Source, terms: seq<Term>, i: nat): Hit
    requires i < |s.lines|
  {
    Hit(s.id, s.revision, s.hash, From(i) + 1, To(s.lines, i), Window(text, s.lines, i),
        WindowScore(text, s, terms, i), false)
  }

  /** Window i matches, beats every earlier matching window and is not beaten by a later one below n. */
  ghost predicate FirstBest(text: Text, s: Source, terms: seq<Term>, i: nat, n: nat) {
    && i < n <= |s.lines| && WindowMatches(text, s, terms, i)
    && (forall k :: 0 <= k < i && WindowMatches(text, s, terms, k) ==>
          WindowScore(text, s, terms, k) < WindowScore(text, s, terms, i))
    && (forall k :: i < k < n && WindowMatches(text, s, terms, k) ==>
          WindowScore(text, s, terms, k) <= WindowScore(text, s, terms, i))
  }

  function BestUpTo(text: Text, s: Source, terms: seq<Term>, n: nat): (r: Option<nat>)
    requires n <= |s.lines|
    ensures r.Some? ==> FirstBest(text, s, terms, r.value, n)
    ensures r.None? ==> forall k :: 0 <= k < n ==> !WindowMatches(text, s, terms, k)
  {
    if n == 0 then None
    else
      var best := BestUpTo(text, s, terms, n - 1);
      var matches := WindowMatches(text, s, terms, n - 1);
      var score := WindowScore(text, s, terms, n - 1);
      if matches && (best.None? || score > WindowScore(text, s, terms, best.value)) then Some(n - 1)
      else best
  }

  /** The first maximum over all windows, or nothing when no window matches. */
  method BestPassage(text: Text, s: Source, terms: seq<Term>) returns (best: Option<Hit>)
    ensures best == LexicalHit(text, s, terms)
    ensures best.None? <==> forall k :: 0 <= k < |s.lines| ==> !WindowMatches(text, s, terms, k)
    ensures best.Some? ==>
              exists i :: FirstBest(text, s, terms, i, |s.lines|) && best.value == WindowHit(text, s, terms, i)
  {
    best := None;
    for i := 0 to |s.lines|
      invariant var b := BestUpTo(text, s, terms, i);
        best == if b.Some? then Some(WindowHit(text, s, terms, b.value)) else None
    {
      if WindowMatches(text, s, terms, i) {
        if best.None? || WindowScore(text, s, terms, i) > best.value.score {
          best := Some(WindowHit(text, s, terms, i));
        }
      }
    }
  }

  function LexicalHit(text: Text, s: Source, terms: seq<Term>): Option<Hit> {
    var b := BestUpTo(text, s, terms, |s.lines|);
    if b.Some? then Some(WindowHit(text, s, terms, b.value)) else None
  }

  // -------------------------------------------------------- published passages

  /** `lines.slice(lineStart - 1, lineEnd)` */
  function Slice(lines: seq<string>, lineStart: int, lineEnd: int): seq<string> {
    var from := Max(0, Min(lineStart - 1, |lines|));
    lines[from..Max(from, Min(lineEnd, |lines|))]
  }

  function SemanticBody(text: Text, p: Passage): string { text.fold(p.summary + " " + Join(p.aliases)) }

  function Join(words: seq<string>): string {
    if words == [] then "" else if |words| == 1 then words[0] else words[0] + " " + Join(words[1..])
  }

  function SemanticScore(text: Text, terms: seq<Term>, p: Passage): int {
    var base := 4_000 + 100 * Weight(SemanticBody(text, p), "", terms, 10, 0);
    (base as real + p.confidence * 2_500.0 + 0.5).Floor
  }

  /** The check made before a passage is quoted. */
  predicate Quotable(text: Text, s: Source, p: Passage) {
    var excerpt := text.clip(Slice(s.lines, p.lineStart, p.lineEnd));
    excerpt != "" && Digest(excerpt) == p.excerptHash
  }

  function SemanticHit(text: Text, s: Source, terms: seq<Term>, p: Passage): Hit {
    Hit(s.id, s.revision, s.hash, p.lineStart, p.lineEnd, text.clip(Slice(s.lines, p.lineStart, p.lineEnd)),
        SemanticScore(text, terms, p), true)
  }

  function SemanticHits(text: Text, s: Source, terms: seq<Term>, passages: seq<Passage>): seq<Hit> {
    if passages == [] then []
    else
      var p := passages[|passages| - 1];
      SemanticHits(text, s, terms, passages[..|passages| - 1]) +
      (if Matched(SemanticBody(text, p), terms) && Quotable(text, s, p) then [SemanticHit(text, s, terms, p)] else [])
  }

  predicate PublishedFor(j: Enrichment, s: Source) {
    && j.payload.workspace == s.workspace && j.payload.source == s.id
    && j.payload.revision == s.revision && j.payload.hash == s.hash && j.status.Completed?
  }

  /** The first of the latest completed enrichments of the current revision. */
  function Publication(jobs: seq<Enrichment>, s: Source): (r: Option<Enrichment>)
    ensures r.Some? ==> r.value in jobs && PublishedFor(r.value, s)
    ensures r.None? ==> forall j :: j in jobs ==> !PublishedFor(j, s)
  {
    if jobs == [] then None
    else
      var n := |jobs| - 1;
      assert jobs == jobs[..n] + [jobs[n]];
      var best := Publication(jobs[..n], s);
      var better := PublishedFor(jobs[n], s) && (best.None? || jobs[n].updatedAt > best.value.updatedAt);
      if better then Some(jobs[n]) else best
  }

  function PublishedHits(text: Text, jobs: seq<Enrichment>, s: Source, terms: seq<Term>): seq<Hit> {
    var publication := Publication(jobs, s);
    if publication.None? then [] else SemanticHits(text, s, terms, publication.value.payload.passages)
  }

  // ------------------------------------------------------------------ all hits

  function Searched(sources: seq<Source>, workspace: int, ids: set<int>): (r: seq<Source>)
    ensures forall s :: s in r <==> s in sources && s.workspace == workspace && s.enabled && s.id in ids
  {
    if sources == [] then []
    else
      var n := |sources| - 1;
      assert sources == sources[..n] + [sources[n]];
      Searched(sources[..n], workspace, ids) +
      (if sources[n].workspace == workspace && sources[n].enabled && sources[n].id in ids then [sources[n]] else [])
  }

  function LexicalHits(text: Text, sources: seq<Source>, terms: seq<Term>): seq<Hit> {
    if sources == [] then []
    else
      var hit := LexicalHit(text, sources[|sources| - 1], terms);
      LexicalHits(text, sources[..|sources| - 1], terms) + (if hit.Some? then [hit.value] else [])
  }

  function AllPublished(text: Text, jobs: seq<Enrichment>, sources: seq<Source>, terms: seq<Term>): seq<Hit> {
    if sources == [] then []
    else
      AllPublished(text, jobs, sources[..|sources| - 1], terms) +
      PublishedHits(text, jobs, sources[|sources| - 1], terms)
  }

  function RawHits(text: Text, s: State, workspace: int, ids: set<int>, terms: seq<Term>): seq<Hit> {
    var sources := Searched(s.sources, workspace, ids);
    LexicalHits(text, sources, terms) + AllPublished(text, s.jobs, sources, terms)
  }

  // --------------------------------------------------------- one hit per range

  predicate SamePlace(a: Hit, b: Hit) {
    a.source == b.source && a.lineStart == b.lineStart && a.lineEnd == b.lineEnd
  }

  function FindPlace(hits: seq<Hit>, h: Hit): (k: nat)
    ensures k <= |hits|
    ensures k < |hits| ==> SamePlace(hits[k], h)
    ensures forall i :: 0 <= i < k ==> !SamePlace(hits[i], h)
  {
    if hits == [] then 0
    else if SamePlace(hits[0], h) then 0
    else
      var k := FindPlace(hits[1..], h);
      assert forall i :: 0 < i < k + 1 ==> hits[i] == hits[1..][i - 1];
      k + 1
  }

  ghost predicate OnePerPlace(unique: seq<Hit>) {
    forall i, j :: 0 <= i < j < |unique| ==> !SamePlace(unique[i], unique[j])
  }

  /** Hit i beats every earlier hit for its place and is beaten by no later one. */
  ghost predicate FirstBestAt(hits: seq<Hit>, i: nat) {
    && i < |hits|
    && (forall k :: 0 <= k < i && SamePlace(hits[k], hits[i]) ==> hits[k].score < hits[i].score)
    && (forall k :: i < k < |hits| && SamePlace(hits[k], hits[i]) ==> hits[k].score <= hits[i].score)
  }

  ghost predicate FirstBestHit(hits: seq<Hit>, u: Hit) {
    exists i: nat :: FirstBestAt(hits, i) && hits[i] == u
  }

  predicate Covers(unique: seq<Hit>, h: Hit) { FindPlace(unique, h) < |unique| }

  ghost predicate AllCovered(hits: seq<Hit>, unique: seq<Hit>) {
    forall i {:trigger Covers(unique, hits[i])} :: 0 <= i < |hits| ==> Covers(unique, hits[i])
  }

  /** `unique` holds, one per place, the hits found at positions `at`. */
  ghost predicate Represents(hits: seq<Hit>, unique: seq<Hit>, at: seq<nat>) {
    && OnePerPlace(unique)
    && |at| == |unique|
    && (forall k :: 0 <= k < |at| ==> FirstBestAt(hits, at[k]) && hits[at[k]] == unique[k])
    && AllCovered(hits, unique)
  }

  lemma BestStays(hits: seq<Hit>, h: Hit, i: nat)
    requires FirstBestAt(hits, i)
    requires !SamePlace(hits[i], h) || h.score <= hits[i].score
    ensures FirstBestAt(hits + [h], i)
  {
  }

  lemma BestMoves(hits: seq<Hit>, h: Hit, i: nat)
    requires FirstBestAt(hits, i)
    requires SamePlace(hits[i], h) && h.score > hits[i].score
    ensures FirstBestAt(hits + [h], |hits|)
  {
  }

  lemma BestIsNew(hits: seq<Hit>, unique: seq<Hit>, h: Hit)
    requires AllCovered(hits, unique)
    requires !Covers(unique, h)
    ensures FirstBestAt(hits + [h], |hits|)
  {
    forall k | 0 <= k < |hits| ensures !SamePlace(hits[k], h) {
      assert Covers(unique, hits[k]);
      assert SamePlace(unique[FindPlace(unique, hits[k])], hits[k]);
    }
  }

  lemma CoversReplaced(unique: seq<Hit>, k: nat, h: Hit, x: Hit)
    requires k < |unique| && SamePlace(unique[k], h) && Covers(unique, x)
    ensures Covers(unique[k := h], x)
  {
    var n := FindPlace(unique, x);
    assert SamePlace(unique[k := h][n], x);
  }

  lemma CoversMore(unique: seq<Hit>, h: Hit, x: Hit)
    requires Covers(unique, x) || SamePlace(h, x)
    ensures Covers(unique + [h], x)
  {
    var more := unique + [h];
    assert more[|unique|] == h;
    if Covers(unique, x) {
      assert more[FindPlace(unique, x)] == unique[FindPlace(unique, x)];
    }
  }

  /** One hit per place, every hit's place among them, each the first best of its place. */
  ghost predicate KeepsBest(hits: seq<Hit>, unique: seq<Hit>) {
    OnePerPlace(unique) && AllCovered(hits, unique) && forall u :: u in unique ==> FirstBestHit(hits, u)
  }

  /** The `unique` map, in insertion order. */
  method OneHitPerPlace(hits: seq<Hit>) returns (unique: seq<Hit>, ghost at: seq<nat>)
    ensures Represents(hits, unique, at) && KeepsBest(hits, unique)
  {
    unique, at := PlaceAll(hits);
    BestOfEach(hits, unique, at);
  }

  method PlaceAll(hits: seq<Hit>) returns (unique: seq<Hit>, ghost at: seq<nat>)
    ensures Represents(hits, unique, at)
  {
    unique, at := [], [];
    for i := 0 to |hits|
      invariant Represents(hits[..i], unique, at)
    {
      unique, at := Place(hits[..i], unique, at, hits[i]);
      assert hits[..i + 1] == hits[..i] + [hits[i]];
    }
    assert hits[..|hits|] == hits;
  }

  lemma BestOfEach(hits: seq<Hit>, unique: seq<Hit>, at: seq<nat>)
    requires Represents(hits, unique, at)
    ensures KeepsBest(hits, unique)
  {
    forall u | u in unique
      ensures FirstBestHit(hits, u)
    {
      var k :| 0 <= k < |unique| && unique[k] == u;
      assert FirstBestAt(hits, at[k]);
    }
  }

  lemma PlaceNew(hits: seq<Hit>, unique: seq<Hit>, at: seq<nat>, h: Hit)
    requires Represents(hits, unique, at) && FindPlace(unique, h) == |unique|
    ensures Represents(hits + [h], unique + [h], at + [|hits|])
  {
    var more, after, at' := hits + [h], unique + [h], at + [|hits|];
    BestIsNew(hits, unique, h);
    forall n | 0 <= n < |at'|
      ensures FirstBestAt(more, at'[n]) && more[at'[n]] == after[n]
    {
      if n < |at| {
        BestStays(hits, h, at[n]);
      }
    }
    forall i | 0 <= i < |more|
      ensures Covers(after, more[i])
    {
      CoversMore(unique, h, more[i]);
    }
  }

  lemma StillOnePerPlace(unique: seq<Hit>, k: nat, h: Hit)
    requires OnePerPlace(unique) && k < |unique| && SamePlace(unique[k], h)
    ensures OnePerPlace(unique[k := h])
  {
  }

  lemma PlaceBetter(hits: seq<Hit>, unique: seq<Hit>, at: seq<nat>, h: Hit, k: nat)
    requires Represents(hits, unique, at) && k < |unique| && SamePlace(unique[k], h) && h.score > unique[k].score
    ensures Represents(hits + [h], unique[k := h], at[k := |hits|])
  {
    var more, after, at' := hits + [h], unique[k := h], at[k := |hits|];
    StillOnePerPlace(unique, k, h);
    BestMoves(hits, h, at[k]);
    forall n | 0 <= n < |at'|
      ensures FirstBestAt(more, at'[n]) && more[at'[n]] == after[n]
    {
      if n != k {
        assert !SamePlace(unique[n], h);
        BestStays(hits, h, at[n]);
      }
    }
    forall i | 0 <= i < |more|
      ensures Covers(after, more[i])
    {
      if i < |hits| {
        CoversReplaced(unique, k, h, hits[i]);
      } else {
        assert SamePlace(after[k], h);
      }
    }
  }

  lemma PlaceKept(hits: seq<Hit>, unique: seq<Hit>, at: seq<nat>, h: Hit, k: nat)
    requires Represents(hits, unique, at) && k < |unique| && k == FindPlace(unique, h) && h.score <= unique[k].score
    ensures Represents(hits + [h], unique, at)
  {
    var more := hits + [h];
    forall n | 0 <= n < |at|
      ensures FirstBestAt(more, at[n]) && more[at[n]] == unique[n]
    {
      assert n != k ==> !SamePlace(unique[n], h);
      BestStays(hits, h, at[n]);
    }
  }

  /** One turn of the loop: keep the better of two hits for the same place. */
  method Place(ghost hits: seq<Hit>, unique: seq<Hit>, ghost at: seq<nat>, h: Hit)
    returns (after: seq<Hit>, ghost at': seq<nat>)
    requires Represents(hits, unique, at)
    ensures Represents(hits + [h], after, at')
  {
    var k := FindPlace(unique, h);
    if k == |unique| {
      PlaceNew(hits, unique, at, h);
      after, at' := unique + [h], at + [|hits|];
    } else if h.score > unique[k].score {
      PlaceBetter(hits, unique, at, h, k);
      after, at' := unique[k := h], at[k := |hits|];
    } else {
      PlaceKept(hits, unique, at, h, k);
      after, at' := unique, at;
    }
  }

  // ------------------------------------------------------------------- ranking

  /** Higher scores first, then the source id. */
  predicate Outranks(a: Hit, b: Hit) {
    a.score > b.score || (a.score == b.score && a.source < b.source)
  }

  function HitSlots(unique: seq<Hit>): (r: seq<Slot>)
    ensures |r| == |unique| && forall i :: 0 <= i < |r| ==> r[i] == Slot(-unique[i].score, unique[i].source, 0, i)
    ensures DistinctIndices(r)
  {
    seq(|unique|, i requires 0 <= i < |unique| => Slot(-unique[i].score, unique[i].source, 0, i))
  }

  function SearchLimit(requested: Option<int>): (n: int)
    ensures 1 <= n <= 20
  {
    Clamp(requested, 8, 1, 20)
  }

  /** The place of hit h is returned, or the results are full and h outranks none of them. */
  ghost predicate Accounted(results: seq<Hit>, limit: int, h: Hit) {
    Covers(results, h) || (|results| == limit && forall k :: 0 <= k < |results| ==> !Outranks(h, results[k]))
  }

  /**
    What a search promises about all the hits it found: at most one result per
    place, each the first best hit of its place, in rank order, and no place
    left out outranks one that is returned.
   */
  ghost predicate TopHits(hits: seq<Hit>, limit: int, results: seq<Hit>) {
    && OnePerPlace(results)
    && |results| <= limit
    && (forall k :: 0 <= k < |results| ==> FirstBestHit(hits, results[k]))
    && (forall i, j :: 0 <= i < j < |results| ==> !Outranks(results[j], results[i]))
    && (forall i :: 0 <= i < |hits| ==> Accounted(results, limit, hits[i]))
  }

  function SlotOf(unique: seq<Hit>, n: nat): Slot
    requires n < |unique|
  {
    Slot(-unique[n].score, unique[n].source, 0, n)
  }

  lemma SlotsSorted(unique: seq<Hit>, r: seq<Slot>)
    requires r == Sorted(HitSlots(unique))
    ensures |r| == |unique| && DistinctIndices(r) && Ascending(r)
    ensures forall p :: 0 <= p < |r| ==> r[p].index < |unique| && r[p] == SlotOf(unique, r[p].index)
    ensures forall n :: 0 <= n < |unique| ==> SlotOf(unique, n) in r
  {
    var slots := HitSlots(unique);
    SortedAscending(slots);
    forall p | 0 <= p < |r|
      ensures r[p].index < |unique| && r[p] == SlotOf(unique, r[p].index)
    {
      assert r[p] in slots;
    }
    forall n | 0 <= n < |unique|
      ensures SlotOf(unique, n) in r
    {
      assert slots[n] in slots;
    }
  }

  /** The unique hits in rank order: position p holds unique hit `Ranking(unique)[p].index`. */
  function Ranking(unique: seq<Hit>): (r: seq<Slot>)
    ensures |r| == |unique| && DistinctIndices(r) && Ascending(r)
    ensures forall p :: 0 <= p < |r| ==> r[p].index < |unique| && r[p] == SlotOf(unique, r[p].index)
    ensures forall n :: 0 <= n < |unique| ==> SlotOf(unique, n) in r
  {
    SlotsSorted(unique, Sorted(HitSlots(unique)));
    Sorted(HitSlots(unique))
  }

  /** Sort and slice. */
  function TopOf(unique: seq<Hit>, limit: nat): (r: seq<Hit>)
    ensures |r| == Min(limit, |unique|)
  {
    seq(Min(limit, |unique|), p requires 0 <= p < |unique| => unique[Ranking(unique)[p].index])
  }

  lemma RankOrder(unique: seq<Hit>, p: nat, q: nat)
    requires p < q < |unique|
    ensures Ranking(unique)[p].index != Ranking(unique)[q].index
    ensures !Outranks(unique[Ranking(unique)[q].index], unique[Ranking(unique)[p].index])
  {
  }

  lemma BestOfPlace(hits: seq<Hit>, i: nat, u: nat)
    requires FirstBestAt(hits, u) && i < |hits| && SamePlace(hits[u], hits[i])
    ensures hits[i].score <= hits[u].score && hits[i].source == hits[u].source
  {
  }

  lemma CoversAt(results: seq<Hit>, p: nat, h: Hit)
    requires p < |results| && SamePlace(results[p], h)
    ensures Covers(results, h)
  {
  }

  lemma EveryHitAccounted(hits: seq<Hit>, unique: seq<Hit>, at: seq<nat>, limit: nat, i: nat)
    requires Represents(hits, unique, at) && i < |hits|
    ensures Accounted(TopOf(unique, limit), limit, hits[i])
  {
    assert Covers(unique, hits[i]);
    var n := FindPlace(unique, hits[i]);
    var p := PositionOf(unique, n);
    var results := TopOf(unique, limit);
    if p < |results| {
      CoversAt(results, p, hits[i]);
    } else {
      BestOfPlace(hits, i, at[n]);
      forall k | 0 <= k < |results| ensures !Outranks(hits[i], results[k]) {
        RankOrder(unique, k, p);
      }
    }
  }

  lemma PositionOf(unique: seq<Hit>, n: nat) returns (p: nat)
    requires n < |unique|
    ensures p < |unique| && Ranking(unique)[p].index == n
  {
    var r := Ranking(unique);
    assert SlotOf(unique, n) in r;
    p :| 0 <= p < |r| && r[p] == SlotOf(unique, n);
  }

  lemma TopIsTop(hits: seq<Hit>, unique: seq<Hit>, at: seq<nat>, limit: nat)
    requires Represents(hits, unique, at)
    ensures TopHits(hits, limit, TopOf(unique, limit))
  {
    var results := TopOf(unique, limit);
    forall i, j | 0 <= i < j < |results|
      ensures !SamePlace(results[i], results[j]) && !Outranks(results[j], results[i])
    {
      RankOrder(unique, i, j);
    }
    forall k | 0 <= k < |results| ensures FirstBestHit(hits, results[k]) {
      assert FirstBestAt(hits, at[Ranking(unique)[k].index]);
    }
    forall i | 0 <= i < |hits| ensures Accounted(results, limit, hits[i]) {
      EveryHitAccounted(hits, unique, at, limit, i);
    }
  }

  method ScanSources(text: Text, sources: seq<Source>, terms: seq<Term>) returns (hits: seq<Hit>)
    ensures hits == LexicalHits(text, sources, terms)
  {
    hits := [];
    for i := 0 to |sources|
      invariant hits == LexicalHits(text, sources[..i], terms)
    {
      var best := BestPassage(text, sources[i], terms);
      assert sources[..i + 1][..i] == sources[..i];
      if best.Some? {
        hits := hits + [best.value];
      }
    }
    assert sources[..|sources|] == sources;
  }

  method QuoteSources(text: Text, jobs: seq<Enrichment>, sources: seq<Source>, terms: seq<Term>)
    returns (hits: seq<Hit>)
    ensures hits == AllPublished(text, jobs, sources, terms)
  {
    hits := [];
    for i := 0 to |sources|
      invariant hits == AllPublished(text, jobs, sources[..i], terms)
    {
      assert sources[..i + 1][..i] == sources[..i];
      var found := QuotePassages(text, jobs, sources[i], terms);
      hits := hits + found;
    }
    assert sources[..|sources|] == sources;
  }

  /** The loop over the passages published for one source. */
  method QuotePassages(text: Text, jobs: seq<Enrichment>, s: Source, terms: seq<Term>) returns (hits: seq<Hit>)
    ensures hits == PublishedHits(text, jobs, s, terms)
  {
    hits := [];
    var publication := Publication(jobs, s);
    if publication.Some? {
      var passages := publication.value.payload.passages;
      for i := 0 to |passages|
        invariant hits == SemanticHits(text, s, terms, passages[..i])
      {
        assert passages[..i + 1][..i] == passages[..i];
        if Matched(SemanticBody(text, passages[i]), terms) {
          if Quotable(text, s, passages[i]) {
            hits := hits + [SemanticHit(text, s, terms, passages[i])];
          }
        }
      }
      assert passages[..|passages|] == passages;
    }
  }
}
