/** Search and the published index agree with the current text, in every reachable state. */
module SearchAgrees {
  import opened Wrappers
  import opened Lease
  import opened Knowledge
  import opened KnowledgeRuns
  import opened Search

  /** The hit quotes, word for word, lines of an enabled source as they now stand. */
  ghost predicate QuotesCurrent(text: Text, s: Source, h: Hit) {
    && s.enabled && h.source == s.id && h.revision == s.revision && h.hash == s.hash == Digest(s.lines)
    && InRange(s.lines, h.lineStart, h.lineEnd)
    && h.excerpt == Excerpt(text, s.lines, h.lineStart, h.lineEnd)
  }

  ghost predicate FromOneOf(text: Text, sources: seq<Source>, h: Hit) {
    exists s :: s in sources && QuotesCurrent(text, s, h)
  }

  lemma SliceInRange(lines: seq<string>, lineStart: int, lineEnd: int)
    requires InRange(lines, lineStart, lineEnd)
    ensures Slice(lines, lineStart, lineEnd) == lines[lineStart - 1..lineEnd]
  {
  }

  /**
    The hash check before quoting never drops a passage: everything published
    for the current revision can be quoted from its lines.
   */
  lemma CheckNeverDrops(text: Text, s: State, source: Source, p: Passage)
    requires KInv(text, s) && source in s.sources
    requires Publication(s.jobs, source).Some? && p in Publication(s.jobs, source).value.payload.passages
    ensures Quotable(text, source, p) && Quotes(text, source.lines, p)
  {
  }

  /** At most one enrichment is published for the current revision of a source. */
  lemma PublicationUnique(text: Text, s: State, source: Source, j: Enrichment)
    requires KInv(text, s) && source in s.sources
    requires j in s.jobs && PublishedFor(j, source)
    ensures Publication(s.jobs, source) == Some(j)
  {
  }

  lemma {:induction false} SemanticQuotes(text: Text, s: State, source: Source, terms: seq<Term>,
                                          passages: seq<Passage>)
    requires KInv(text, s) && source in s.sources && source.enabled
    requires Publication(s.jobs, source).Some?
    requires forall p :: p in passages ==> p in Publication(s.jobs, source).value.payload.passages
    ensures forall h :: h in SemanticHits(text, source, terms, passages) ==> QuotesCurrent(text, source, h)
  {
    if passages != [] {
      var n := |passages| - 1;
      SemanticQuotes(text, s, source, terms, passages[..n]);
      CheckNeverDrops(text, s, source, passages[n]);
      SliceInRange(source.lines, passages[n].lineStart, passages[n].lineEnd);
    }
  }

  lemma LexicalQuotes(text: Text, source: Source, terms: seq<Term>)
    requires source.enabled && source.hash == Digest(source.lines)
    ensures LexicalHit(text, source, terms).Some? ==> QuotesCurrent(text, source, LexicalHit(text, source, terms).value)
  {
  }

  lemma {:induction false} LexicalHitsQuote(text: Text, sources: seq<Source>, terms: seq<Term>)
    requires forall s :: s in sources ==> s.enabled && s.hash == Digest(s.lines)
    ensures forall h :: h in LexicalHits(text, sources, terms) ==> FromOneOf(text, sources, h)
  {
    if sources != [] {
      var n := |sources| - 1;
      LexicalHitsQuote(text, sources[..n], terms);
      LexicalQuotes(text, sources[n], terms);
      forall h | h in LexicalHits(text, sources, terms) ensures FromOneOf(text, sources, h) {
        if h in LexicalHits(text, sources[..n], terms) {
          var s :| s in sources[..n] && QuotesCurrent(text, s, h);
          assert s in sources;
        } else {
          assert sources[n] in sources;
        }
      }
    }
  }

  lemma {:induction false} PublishedQuote(text: Text, s: State, sources: seq<Source>, terms: seq<Term>)
    requires KInv(text, s) && forall x :: x in sources ==> x in s.sources && x.enabled
    ensures forall h :: h in AllPublished(text, s.jobs, sources, terms) ==> FromOneOf(text, sources, h)
  {
    if sources != [] {
      var n := |sources| - 1;
      PublishedQuote(text, s, sources[..n], terms);
      if Publication(s.jobs, sources[n]).Some? {
        SemanticQuotes(text, s, sources[n], terms, Publication(s.jobs, sources[n]).value.payload.passages);
      }
      forall h | h in AllPublished(text, s.jobs, sources, terms) ensures FromOneOf(text, sources, h) {
        if h in AllPublished(text, s.jobs, sources[..n], terms) {
          var x :| x in sources[..n] && QuotesCurrent(text, x, h);
          assert x in sources;
        } else {
          assert sources[n] in sources;
        }
      }
    }
  }

  /**
    After any run of the store, every hit a search can return quotes the current
    revision's own lines of an enabled source of that workspace that was asked for.
   */
  lemma HitsQuoteCurrentText(text: Text, calls: seq<Call>, workspace: int, ids: set<int>, terms: seq<Term>, h: Hit)
    requires ValidCalls(calls)
    requires h in RawHits(text, StoreRun(text, calls), workspace, ids, terms)
    ensures exists x :: x in StoreRun(text, calls).sources && x.workspace == workspace && x.id in ids
                        && QuotesCurrent(text, x, h)
  {
    var s := StoreRun(text, calls);
    ReachableInv(text, calls);
    var sources := Searched(s.sources, workspace, ids);
    assert forall x :: x in sources ==> x in s.sources && x.enabled;
    LexicalHitsQuote(text, sources, terms);
    PublishedQuote(text, s, sources, terms);
    assert FromOneOf(text, sources, h);
    var x :| x in sources && QuotesCurrent(text, x, h);
    assert x in s.sources && x.workspace == workspace && x.id in ids;
  }

  // ------------------------------------------------------- superseded enrichments

  /** The ledger without the jobs whose source has moved on. */
  function WithoutSuperseded(s: State, jobs: seq<Enrichment>): seq<Enrichment> {
    if jobs == [] then []
    else
      WithoutSuperseded(s, jobs[..|jobs| - 1]) + (if UpToDate(s, jobs[|jobs| - 1]) then [jobs[|jobs| - 1]] else [])
  }

  lemma PublicationOfMore(jobs: seq<Enrichment>, j: Enrichment, source: Source)
    ensures Publication(jobs + [j], source) ==
      var best := Publication(jobs, source);
      if PublishedFor(j, source) && (best.None? || j.updatedAt > best.value.updatedAt) then Some(j) else best
  {
  }

  lemma {:induction false} PublicationIgnoresSuperseded(text: Text, s: State, jobs: seq<Enrichment>, source: Source)
    requires SourcesOk(s.sources) && source in s.sources
    ensures Publication(WithoutSuperseded(s, jobs), source) == Publication(jobs, source)
  {
    if jobs != [] {
      var n := |jobs| - 1;
      PublicationIgnoresSuperseded(text, s, jobs[..n], source);
      CurrentOfMember(s.sources, source);
      if UpToDate(s, jobs[n]) {
        PublicationOfMore(WithoutSuperseded(s, jobs[..n]), jobs[n], source);
      } else {
        assert WithoutSuperseded(s, jobs) == WithoutSuperseded(s, jobs[..n]);
        assert !PublishedFor(jobs[n], source);
      }
    }
  }

  lemma {:induction false} PublishedIgnoresSuperseded(text: Text, s: State, sources: seq<Source>, terms: seq<Term>)
    requires SourcesOk(s.sources) && forall x :: x in sources ==> x in s.sources
    ensures AllPublished(text, WithoutSuperseded(s, s.jobs), sources, terms)
         == AllPublished(text, s.jobs, sources, terms)
  {
    if sources != [] {
      var n := |sources| - 1;
      PublishedIgnoresSuperseded(text, s, sources[..n], terms);
      PublicationIgnoresSuperseded(text, s, s.jobs, sources[n]);
    }
  }

  /** A superseded enrichment contributes nothing: deleting every one of them changes no search. */
  lemma SupersededContributesNothing(text: Text, calls: seq<Call>, workspace: int, ids: set<int>, terms: seq<Term>)
    requires ValidCalls(calls)
    ensures var s := StoreRun(text, calls);
            RawHits(text, State(s.sources, WithoutSuperseded(s, s.jobs)), workspace, ids, terms)
            == RawHits(text, s, workspace, ids, terms)
  {
    var s := StoreRun(text, calls);
    ReachableInv(text, calls);
    PublishedIgnoresSuperseded(text, s, Searched(s.sources, workspace, ids), terms);
  }
}
