/** What a search finds, in terms of the stored sources, passages and lines, in every reachable state. */
module SearchFinds {
  import opened Wrappers
  import opened Lease
  import opened Knowledge
  import opened KnowledgeRuns
  import opened Search
  import opened SearchAgrees

  // ------------------------------------------------------------ what is an answer

  predicate Asked(x: Source, workspace: int, ids: set<int>) { x.workspace == workspace && x.enabled && x.id in ids }

  /** A term occurs in the text once it is folded. */
  predicate Mentions(text: Text, body: string, terms: seq<Term>) {
    exists t :: t in terms && Contains(text.fold(body), t.value)
  }

  /** A completed enrichment of the source's revision and hash holds the passage. */
  ghost predicate Holding(jobs: seq<Enrichment>, x: Source, p: Passage) {
    exists j :: j in jobs && j.status == Completed && p in j.payload.passages
                && j.payload.workspace == x.workspace && j.payload.source == x.id
                && j.payload.revision == x.revision && j.payload.hash == x.hash
  }

  /** The hit names the source as it stands and quotes these lines of it. */
  ghost predicate QuotesLines(text: Text, x: Source, from: int, to: int, h: Hit) {
    && 1 <= from <= to <= |x.lines|
    && h.source == x.id && h.revision == x.revision && h.hash == x.hash
    && h.lineStart == from && h.lineEnd == to && h.excerpt == text.clip(x.lines[from - 1..to])
  }

  /**
    The hit of a passage: its lines, scored 4 plus the weight of its terms, one more
    for each, and 2.5 times its confidence, rounded to thousandths.
   */
  ghost predicate PassageHit(text: Text, x: Source, terms: seq<Term>, p: Passage, h: Hit) {
    && QuotesLines(text, x, p.lineStart, p.lineEnd, h) && h.semantic
    && var body := text.fold(p.summary + " " + Join(p.aliases));
       var exact := (4_000 + 100 * Weight(body, "", terms, 10, 0)) as real + 2_500.0 * p.confidence;
       exact - 0.5 < h.score as real <= exact + 0.5
  }

  /** The window around line k: two lines before it and two after, as far as there are any. */
  predicate Touches(text: Text, x: Source, terms: seq<Term>, k: nat) {
    && k < |x.lines|
    && Mentions(text, text.clip(x.lines[Max(0, k - 2)..Min(|x.lines|, k + 3)]), terms)
  }

  function Worth(text: Text, x: Source, terms: seq<Term>, k: nat): int
    requires k < |x.lines|
  {
    100 * Weight(text.fold(text.clip(x.lines[Max(0, k - 2)..Min(|x.lines|, k + 3)])), text.fold(x.title), terms, 5, 20)
  }

  /** No touched window is worth more than that of line i, and none before it as much. */
  ghost predicate BestLine(text: Text, x: Source, terms: seq<Term>, i: nat) {
    && Touches(text, x, terms, i)
    && forall k: nat :: Touches(text, x, terms, k) ==>
         if k < i then Worth(text, x, terms, k) < Worth(text, x, terms, i)
         else Worth(text, x, terms, k) <= Worth(text, x, terms, i)
  }

  ghost predicate LineHit(text: Text, x: Source, terms: seq<Term>, i: nat, h: Hit) {
    && QuotesLines(text, x, Max(0, i - 2) + 1, Min(|x.lines|, i + 3), h) && !h.semantic
    && i < |x.lines| && h.score == Worth(text, x, terms, i)
  }

  /** A passage of the source that mentions a term gives the hit. */
  ghost predicate FromPassage(text: Text, jobs: seq<Enrichment>, x: Source, terms: seq<Term>, p: Passage, h: Hit) {
    && Holding(jobs, x, p) && Mentions(text, p.summary + " " + Join(p.aliases), terms)
    && PassageHit(text, x, terms, p, h)
  }

  ghost predicate FromLine(text: Text, x: Source, terms: seq<Term>, i: nat, h: Hit) {
    BestLine(text, x, terms, i) && LineHit(text, x, terms, i, h)
  }

  ghost predicate AnswerOf(text: Text, jobs: seq<Enrichment>, x: Source, terms: seq<Term>, h: Hit) {
    || (exists p :: FromPassage(text, jobs, x, terms, p, h))
    || (exists i: nat :: FromLine(text, x, terms, i, h))
  }

  ghost predicate Answer(text: Text, s: State, workspace: int, ids: set<int>, terms: seq<Term>, h: Hit) {
    exists x :: x in s.sources && Asked(x, workspace, ids) && AnswerOf(text, s.jobs, x, terms, h)
  }

  /** Its lines are among the results with no lower score, or the results are full of hits that it does not outrank. */
  ghost predicate Listed(results: seq<Hit>, limit: int, h: Hit) {
    || (exists r :: r in results && r.source == h.source && r.lineStart == h.lineStart && r.lineEnd == h.lineEnd
                    && h.score <= r.score)
    || (|results| == limit
        && forall r :: r in results ==> h.score < r.score || (h.score == r.score && r.source <= h.source))
  }

  /** Different lines each, best score first, ties by source. */
  ghost predicate Ranked(results: seq<Hit>) {
    forall i, j :: 0 <= i < j < |results| ==>
      && (results[j].score < results[i].score
          || (results[j].score == results[i].score && results[i].source <= results[j].source))
      && (results[i].source != results[j].source || results[i].lineStart != results[j].lineStart
          || results[i].lineEnd != results[j].lineEnd)
  }

  /** All that a search finds and nothing else: what is missing is outranked by a full list. */
  ghost predicate Answers(text: Text, s: State, workspace: int, ids: set<int>, terms: seq<Term>, limit: int,
                          results: seq<Hit>)
  {
    && |results| <= limit && Ranked(results)
    && (forall r :: r in results ==> Answer(text, s, workspace, ids, terms, r))
    && (forall h :: Answer(text, s, workspace, ids, terms, h) ==> Listed(results, limit, h))
  }

  // ------------------------------------------------------- an answer for what is there

  /** Every alias and the summary are part of the text in which terms are looked for. */
  lemma {:induction false} JoinHolds(words: seq<string>, k: nat)
    requires k < |words|
    ensures Contains(Join(words), words[k])
  {
    if |words| == 1 {
      assert StartsAt(words[0], words[0], 0);
    } else if k == 0 {
      assert StartsAt(Join(words), words[0], 0);
    } else {
      JoinHolds(words[1..], k - 1);
      var rest := Join(words[1..]);
      var i :| 0 <= i <= |rest| && StartsAt(rest, words[k], i);
      var n := |words[0]| + 1;
      assert Join(words) == words[0] + " " + rest;
      assert Join(words)[n + i..n + i + |words[k]|] == rest[i..i + |words[k]|];
      assert StartsAt(Join(words), words[k], n + i);
    }
  }

  /** The weight of terms is the sum of the weights of each. */
  lemma {:induction false} WeightAdds(body: string, title: string, a: seq<Term>, b: seq<Term>, bonus: int, extra: int)
    ensures Weight(body, title, a + b, bonus, extra) ==
            Weight(body, title, a, bonus, extra) + Weight(body, title, b, bonus, extra)
  {
    if b == [] {
      assert a + b == a;
    } else {
      var n := |b| - 1;
      assert (a + b)[..|a + b| - 1] == a + b[..n];
      WeightAdds(body, title, a, b[..n], bonus, extra);
    }
  }

  /** A term that occurs counts its weight and the bonus, and the extra if the title has it too; another nothing. */
  lemma WeightOfOne(body: string, title: string, t: Term, bonus: int, extra: int)
    ensures Contains(body, t.value) ==>
              && (Contains(title, t.value) ==> Weight(body, title, [t], bonus, extra) == t.weight + bonus + extra)
              && (!Contains(title, t.value) ==> Weight(body, title, [t], bonus, extra) == t.weight + bonus)
    ensures !Contains(body, t.value) ==> Weight(body, title, [t], bonus, extra) == 0
  {
    assert Weight(body, title, [], bonus, extra) == 0;
    assert [t][..0] == [];
  }

  /** A published passage that mentions a term is an answer. */
  lemma PassageAnswers(text: Text, s: State, workspace: int, ids: set<int>, terms: seq<Term>, x: Source, p: Passage)
    returns (h: Hit)
    requires KInv(text, s) && x in s.sources && Asked(x, workspace, ids)
    requires Holding(s.jobs, x, p) && Mentions(text, p.summary + " " + Join(p.aliases), terms)
    ensures PassageHit(text, x, terms, p, h) && Answer(text, s, workspace, ids, terms, h)
  {
    PublishedQuotes(text, s, x, p);
    h := SemanticHit(text, x, terms, p);
    SemanticIsPassageHit(text, x, terms, p);
    assert FromPassage(text, s.jobs, x, terms, p, h);
  }

  /** A source with a matching window has an answer from its lines. */
  lemma LineAnswers(text: Text, s: State, workspace: int, ids: set<int>, terms: seq<Term>, x: Source, k: nat)
    returns (i: nat, h: Hit)
    requires x in s.sources && Asked(x, workspace, ids) && Touches(text, x, terms, k)
    ensures BestLine(text, x, terms, i) && LineHit(text, x, terms, i, h) && Answer(text, s, workspace, ids, terms, h)
  {
    WindowsAgree(text, x, terms);
    assert WindowMatches(text, x, terms, k);
    i := BestUpTo(text, x, terms, |x.lines|).value;
    h := WindowHit(text, x, terms, i);
    BestAgrees(text, x, terms, i);
    assert FromLine(text, x, terms, i, h);
  }

  // ----------------------------------------------------------- the list of all hits

  lemma WindowsAgree(text: Text, x: Source, terms: seq<Term>)
    ensures forall k: nat :: k < |x.lines| ==>
              && (WindowMatches(text, x, terms, k) <==> Touches(text, x, terms, k))
              && WindowScore(text, x, terms, k) == Worth(text, x, terms, k)
  {
  }

  lemma BestAgrees(text: Text, x: Source, terms: seq<Term>, i: nat)
    ensures FirstBest(text, x, terms, i, |x.lines|) <==> BestLine(text, x, terms, i)
    ensures i < |x.lines| ==> LineHit(text, x, terms, i, WindowHit(text, x, terms, i))
  {
    WindowsAgree(text, x, terms);
  }

  lemma LexicalIsFromLine(text: Text, x: Source, terms: seq<Term>, h: Hit)
    ensures LexicalHit(text, x, terms) == Some(h) <==> exists i: nat :: FromLine(text, x, terms, i, h)
  {
    var b := BestUpTo(text, x, terms, |x.lines|);
    if b.Some? {
      BestAgrees(text, x, terms, b.value);
      assert FromLine(text, x, terms, b.value, WindowHit(text, x, terms, b.value));
    }
    if i: nat :| FromLine(text, x, terms, i, h) {
      BestAgrees(text, x, terms, i);
      assert b.Some? && b.value == i;
    }
  }

  lemma PublishedQuotes(text: Text, s: State, x: Source, p: Passage)
    requires KInv(text, s) && x in s.sources
    ensures Holding(s.jobs, x, p) <==>
            Publication(s.jobs, x).Some? && p in Publication(s.jobs, x).value.payload.passages
    ensures Holding(s.jobs, x, p) ==> Quotable(text, x, p) && Quotes(text, x.lines, p)
  {
    if Holding(s.jobs, x, p) {
      var j :| j in s.jobs && j.status == Completed && p in j.payload.passages && PublishedFor(j, x);
      PublicationUnique(text, s, x, j);
      CheckNeverDrops(text, s, x, p);
    }
  }

  lemma SemanticIsPassageHit(text: Text, x: Source, terms: seq<Term>, p: Passage)
    requires Quotes(text, x.lines, p)
    ensures forall h :: PassageHit(text, x, terms, p, h) <==> h == SemanticHit(text, x, terms, p)
  {
    SliceInRange(x.lines, p.lineStart, p.lineEnd);
  }

  lemma {:induction false} SemanticExact(text: Text, x: Source, terms: seq<Term>, passages: seq<Passage>, h: Hit)
    ensures h in SemanticHits(text, x, terms, passages) <==>
            exists p :: p in passages && Matched(SemanticBody(text, p), terms) && Quotable(text, x, p)
                        && h == SemanticHit(text, x, terms, p)
  {
    if passages != [] {
      var n := |passages| - 1;
      assert passages == passages[..n] + [passages[n]];
      SemanticExact(text, x, terms, passages[..n], h);
    }
  }

  lemma SemanticIsFromPassage(text: Text, s: State, x: Source, terms: seq<Term>, h: Hit)
    requires KInv(text, s) && x in s.sources
    ensures h in PublishedHits(text, s.jobs, x, terms) <==> exists p :: FromPassage(text, s.jobs, x, terms, p, h)
  {
    var j := Publication(s.jobs, x);
    if j.Some? {
      SemanticExact(text, x, terms, j.value.payload.passages, h);
    }
    if h in PublishedHits(text, s.jobs, x, terms) {
      var p :| p in j.value.payload.passages && Matched(SemanticBody(text, p), terms) && Quotable(text, x, p)
               && h == SemanticHit(text, x, terms, p);
      PublishedQuotes(text, s, x, p);
      SemanticIsPassageHit(text, x, terms, p);
      assert FromPassage(text, s.jobs, x, terms, p, h);
    }
    if p :| FromPassage(text, s.jobs, x, terms, p, h) {
      PublishedQuotes(text, s, x, p);
      SemanticIsPassageHit(text, x, terms, p);
    }
  }

  lemma {:induction false} LexicalExact(text: Text, sources: seq<Source>, terms: seq<Term>, h: Hit)
    ensures h in LexicalHits(text, sources, terms) <==>
            exists x :: x in sources && LexicalHit(text, x, terms) == Some(h)
  {
    if sources != [] {
      var n := |sources| - 1;
      assert sources == sources[..n] + [sources[n]];
      LexicalExact(text, sources[..n], terms, h);
    }
  }

  lemma {:induction false} PublishedExact(text: Text, jobs: seq<Enrichment>, sources: seq<Source>, terms: seq<Term>,
                                          h: Hit)
    ensures h in AllPublished(text, jobs, sources, terms) <==>
            exists x :: x in sources && h in PublishedHits(text, jobs, x, terms)
  {
    if sources != [] {
      var n := |sources| - 1;
      assert sources == sources[..n] + [sources[n]];
      PublishedExact(text, jobs, sources[..n], terms, h);
    }
  }

  /** The hits gathered by a search are exactly the answers. */
  lemma GatheredExact(text: Text, s: State, workspace: int, ids: set<int>, terms: seq<Term>, h: Hit)
    requires KInv(text, s)
    ensures h in RawHits(text, s, workspace, ids, terms) <==> Answer(text, s, workspace, ids, terms, h)
  {
    var sources := Searched(s.sources, workspace, ids);
    LexicalExact(text, sources, terms, h);
    PublishedExact(text, s.jobs, sources, terms, h);
    forall x | x in sources
      ensures LexicalHit(text, x, terms) == Some(h) || h in PublishedHits(text, s.jobs, x, terms) <==>
              AnswerOf(text, s.jobs, x, terms, h)
    {
      LexicalIsFromLine(text, x, terms, h);
      SemanticIsFromPassage(text, s, x, terms, h);
    }
  }

  // --------------------------------------------------------------------- the search

  lemma AccountedIsListed(hits: seq<Hit>, limit: int, results: seq<Hit>, h: Hit)
    requires TopHits(hits, limit, results) && h in hits
    ensures Listed(results, limit, h)
  {
    var i :| 0 <= i < |hits| && hits[i] == h;
    assert Accounted(results, limit, hits[i]);
    if Covers(results, h) {
      var k := FindPlace(results, h);
      assert FirstBestHit(hits, results[k]);
      var u: nat :| FirstBestAt(hits, u) && hits[u] == results[k];
      BestOfPlace(hits, i, u);
      assert results[k] in results;
    }
  }

  /** Whatever lists the top of the gathered hits answers the query. */
  lemma TopAnswers(text: Text, s: State, workspace: int, ids: set<int>, terms: seq<Term>, limit: int, results: seq<Hit>)
    requires KInv(text, s) && TopHits(RawHits(text, s, workspace, ids, terms), limit, results)
    ensures Answers(text, s, workspace, ids, terms, limit, results)
  {
    var hits := RawHits(text, s, workspace, ids, terms);
    forall r | r in results
      ensures Answer(text, s, workspace, ids, terms, r)
    {
      var k :| 0 <= k < |results| && results[k] == r;
      assert FirstBestHit(hits, results[k]);
      assert r in hits;
      GatheredExact(text, s, workspace, ids, terms, r);
    }
    forall h | Answer(text, s, workspace, ids, terms, h)
      ensures Listed(results, limit, h)
    {
      GatheredExact(text, s, workspace, ids, terms, h);
      AccountedIsListed(hits, limit, results, h);
    }
  }

  /** The lexical scan of every source, then the published passages of every source. */
  method GatherHits(text: Text, s: State, workspace: int, ids: set<int>, terms: seq<Term>) returns (hits: seq<Hit>)
    ensures hits == RawHits(text, s, workspace, ids, terms)
    ensures KInv(text, s) ==> forall h :: h in hits <==> Answer(text, s, workspace, ids, terms, h)
  {
    var sources := Searched(s.sources, workspace, ids);
    hits := ScanSources(text, sources, terms);
    var published := QuoteSources(text, s.jobs, sources, terms);
    hits := hits + published;
    if KInv(text, s) {
      forall h
        ensures h in hits <==> Answer(text, s, workspace, ids, terms, h)
      {
        GatheredExact(text, s, workspace, ids, terms, h);
      }
    }
  }

  /** The search. `terms` is never empty here: without terms nothing is read. */
  method SearchSources(text: Text, s: State, workspace: int, ids: set<int>, terms: seq<Term>, limit: Option<int>)
    returns (results: seq<Hit>)
    ensures terms == [] ==> results == []
    ensures terms != [] ==> TopHits(RawHits(text, s, workspace, ids, terms), SearchLimit(limit), results)
    ensures terms != [] && KInv(text, s) ==>
              Answers(text, s, workspace, ids, terms, Clamp(limit, 8, 1, 20), results)
  {
    if terms == [] {
      return [];
    }
    var hits := GatherHits(text, s, workspace, ids, terms);
    var unique, at := OneHitPerPlace(hits);
    TopIsTop(hits, unique, at, SearchLimit(limit));
    results := TopOf(unique, SearchLimit(limit));
    if KInv(text, s) {
      TopAnswers(text, s, workspace, ids, terms, SearchLimit(limit), results);
    }
  }

  /** A search on the store after any run of calls. */
  method SearchStore(store: KnowledgeStore, ghost calls: seq<Call>, workspace: int, ids: set<int>, terms: seq<Term>,
                     limit: Option<int>)
    returns (results: seq<Hit>)
    requires ValidCalls(calls) && store.Contents() == StoreRun(store.text, calls)
    ensures terms == [] ==> results == []
    ensures terms != [] ==>
              Answers(store.text, store.Contents(), workspace, ids, terms, Clamp(limit, 8, 1, 20), results)
  {
    ReachableInv(store.text, calls);
    results := SearchSources(store.text, store.Contents(), workspace, ids, terms, limit);
  }
}
