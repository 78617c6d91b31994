/** Knowledge sources, their revisions, and the enrichment ledger beside them. */
module Knowledge {
  import opened Wrappers
  import opened Lease
  import opened LeaseTrim
  import opened LeaseRuns
  import opened ClaimPasses

  /**
    The text functions the store is built on. `clip` joins lines, trims and cuts
    to 1,500 characters; `fold` normalises for matching; `secret` detects
    credentials.
   */
  datatype Text = Text(clip: seq<string> -> string, fold: string -> string, secret: (string, seq<string>) -> bool)

  datatype Source = Source(
    workspace: int, id: int, title: string, isUrl: bool, uri: Option<int>,
    lines: seq<string>, hash: Digest<seq<string>>,
    enabled: bool, revision: nat, createdAt: int, updatedAt: int, interval: Option<int>)

  datatype Passage = Passage(
    lineStart: int, lineEnd: int, summary: string, aliases: seq<string>, confidence: real, excerptHash: Digest<string>)

  /** A passage proposed by an enrichment worker, whitespace already tidied. */
  datatype Candidate = Candidate(lineStart: int, lineEnd: int, summary: string, aliases: seq<string>,
                                 confidence: Option<real>)

  datatype Payload = Payload(
    workspace: int, source: int, revision: nat, hash: Digest<seq<string>>, dedupe: Option<int>, passages: seq<Passage>)

  type Enrichment = Job<Payload>

  datatype State = State(sources: seq<Source>, jobs: seq<Enrichment>)

  // ------------------------------------------------------------------ lookups

  function FindSource(sources: seq<Source>, workspace: int, id: int): (k: nat)
    ensures k <= |sources|
    ensures k < |sources| ==> sources[k].workspace == workspace && sources[k].id == id
    ensures forall i :: 0 <= i < k ==> !(sources[i].workspace == workspace && sources[i].id == id)
  {
    if sources == [] then 0
    else if sources[0].workspace == workspace && sources[0].id == id then 0
    else
      var k := FindSource(sources[1..], workspace, id);
      assert forall i :: 0 < i < k + 1 ==> sources[i] == sources[1..][i - 1];
      k + 1
  }

  function Current(sources: seq<Source>, workspace: int, id: int): (r: Option<Source>)
    ensures r.Some? ==> r.value in sources && r.value.workspace == workspace && r.value.id == id
    ensures r.None? <==> forall s :: s in sources ==> !(s.workspace == workspace && s.id == id)
  {
    var k := FindSource(sources, workspace, id);
    if k < |sources| then Some(sources[k]) else None
  }

  function RevisionOf(current: Option<Source>): nat { if current.Some? then current.value.revision else 0 }

  function PutSource(sources: seq<Source>, s: Source): seq<Source> {
    var k := FindSource(sources, s.workspace, s.id);
    if k < |sources| then sources[k := s] else sources + [s]
  }

  function FindDedupe(jobs: seq<Enrichment>, workspace: int, dedupe: Option<int>): (k: nat)
    ensures k <= |jobs|
    ensures k < |jobs| ==> dedupe.Some? && jobs[k].payload.workspace == workspace && jobs[k].payload.dedupe == dedupe
    ensures k == |jobs| && dedupe.Some? ==>
      forall j :: j in jobs ==> !(j.payload.workspace == workspace && j.payload.dedupe == dedupe)
  {
    if jobs == [] then 0
    else if dedupe.Some? && jobs[0].payload.workspace == workspace && jobs[0].payload.dedupe == dedupe then 0
    else
      assert jobs == [jobs[0]] + jobs[1..];
      FindDedupe(jobs[1..], workspace, dedupe) + 1
  }

  // ------------------------------------------------------------------ passages

  predicate InRange(lines: seq<string>, lineStart: int, lineEnd: int) { 1 <= lineStart <= lineEnd <= |lines| }

  function Excerpt(text: Text, lines: seq<string>, lineStart: int, lineEnd: int): string
    requires InRange(lines, lineStart, lineEnd)
  {
    text.clip(lines[lineStart - 1..lineEnd])
  }

  function Confidence(c: Candidate): real {
    var wanted := if c.confidence.Some? then c.confidence.value else 0.7;
    if wanted < 0.0 then 0.0 else if wanted > 1.0 then 1.0 else wanted
  }

  predicate Acceptable(text: Text, lines: seq<string>, c: Candidate) {
    && InRange(lines, c.lineStart, c.lineEnd)
    && c.summary != "" && |c.aliases| >= 2
    && Excerpt(text, lines, c.lineStart, c.lineEnd) != ""
    && Confidence(c) >= 0.5
    && !text.secret(c.summary, c.aliases)
  }

  function PassageFor(text: Text, lines: seq<string>, c: Candidate): Passage
    requires Acceptable(text, lines, c)
  {
    Passage(c.lineStart, c.lineEnd, c.summary, c.aliases, Confidence(c),
            Digest(Excerpt(text, lines, c.lineStart, c.lineEnd)))
  }

  predicate SameRange(a: Passage, b: Passage) { a.lineStart == b.lineStart && a.lineEnd == b.lineEnd }

  /** `Map.set` keyed by line range: a later passage replaces an earlier one in place. */
  function PutPassage(passages: seq<Passage>, p: Passage): (r: seq<Passage>)
    ensures forall q :: q in r ==> q == p || q in passages
    ensures p in r
  {
    if passages == [] then [p]
    else if SameRange(passages[0], p) then [p] + passages[1..]
    else
      assert passages == [passages[0]] + passages[1..];
      [passages[0]] + PutPassage(passages[1..], p)
  }

  ghost predicate DistinctRanges(passages: seq<Passage>) {
    forall i, j :: 0 <= i < j < |passages| ==> !SameRange(passages[i], passages[j])
  }

  lemma {:induction false} PutKeepsDistinct(passages: seq<Passage>, p: Passage)
    requires DistinctRanges(passages)
    ensures DistinctRanges(PutPassage(passages, p))
  {
    if passages != [] && !SameRange(passages[0], p) {
      assert passages == [passages[0]] + passages[1..];
      var rest := PutPassage(passages[1..], p);
      PutKeepsDistinct(passages[1..], p);
      forall j | 0 <= j < |rest| ensures !SameRange(passages[0], rest[j]) {
        assert rest[j] in rest;
        assert rest[j] in passages[1..] || rest[j] == p;
      }
    }
  }

  /** A passage that can be quoted from these lines. */
  ghost predicate Quotes(text: Text, lines: seq<string>, p: Passage) {
    && InRange(lines, p.lineStart, p.lineEnd)
    && Excerpt(text, lines, p.lineStart, p.lineEnd) != ""
    && p.excerptHash == Digest(Excerpt(text, lines, p.lineStart, p.lineEnd))
    && 0.5 <= p.confidence <= 1.0
  }

  ghost predicate AllQuote(text: Text, lines: seq<string>, passages: seq<Passage>) {
    DistinctRanges(passages) && forall p :: p in passages ==> Quotes(text, lines, p)
  }

  function PassagesOf(text: Text, lines: seq<string>, candidates: seq<Candidate>): seq<Passage> {
    if candidates == [] then []
    else
      var n := |candidates| - 1;
      var before := PassagesOf(text, lines, candidates[..n]);
      if !Acceptable(text, lines, candidates[n]) then before
      else PutPassage(before, PassageFor(text, lines, candidates[n]))
  }

  lemma {:induction false} PassagesQuote(text: Text, lines: seq<string>, candidates: seq<Candidate>)
    ensures AllQuote(text, lines, PassagesOf(text, lines, candidates))
  {
    if candidates != [] {
      var n := |candidates| - 1;
      PassagesQuote(text, lines, candidates[..n]);
      if Acceptable(text, lines, candidates[n]) {
        PutKeepsDistinct(PassagesOf(text, lines, candidates[..n]), PassageFor(text, lines, candidates[n]));
      }
    }
  }

  // --------------------------------------- the published passages, in terms of fields

  /** Inside the text, quotable, named twice at least, confident enough, and without a credential. */
  predicate Worthy(text: Text, lines: seq<string>, c: Candidate) {
    && 1 <= c.lineStart <= c.lineEnd <= |lines|
    && text.clip(lines[c.lineStart - 1..c.lineEnd]) != ""
    && c.summary != "" && |c.aliases| >= 2 && !text.secret(c.summary, c.aliases)
    && (c.confidence.Some? ==> c.confidence.value >= 0.5)
  }

  /** The passage says what the candidate says and carries the hash of its excerpt. */
  ghost predicate Shows(text: Text, lines: seq<string>, c: Candidate, p: Passage) {
    && 1 <= c.lineStart <= c.lineEnd <= |lines|
    && p.lineStart == c.lineStart && p.lineEnd == c.lineEnd && p.summary == c.summary && p.aliases == c.aliases
    && p.excerptHash == Digest(text.clip(lines[c.lineStart - 1..c.lineEnd]))
    && (c.confidence.None? ==> p.confidence == 0.7)
    && (c.confidence.Some? ==> p.confidence == if c.confidence.value > 1.0 then 1.0 else c.confidence.value)
  }

  /** The n-th candidate is worthy and no later worthy one is for the same lines. */
  ghost predicate LastFor(text: Text, lines: seq<string>, candidates: seq<Candidate>, n: nat) {
    && n < |candidates| && Worthy(text, lines, candidates[n])
    && forall m :: n < m < |candidates| && Worthy(text, lines, candidates[m]) ==>
         candidates[m].lineStart != candidates[n].lineStart || candidates[m].lineEnd != candidates[n].lineEnd
  }

  ghost predicate NoneLost(text: Text, lines: seq<string>, candidates: seq<Candidate>, passages: seq<Passage>) {
    forall n: nat :: LastFor(text, lines, candidates, n) ==>
      exists p :: p in passages && Shows(text, lines, candidates[n], p)
  }

  ghost predicate NoneElse(text: Text, lines: seq<string>, candidates: seq<Candidate>, passages: seq<Passage>) {
    forall p :: p in passages ==>
      exists n: nat :: LastFor(text, lines, candidates, n) && Shows(text, lines, candidates[n], p)
  }

  /** The passages are those of the last worthy candidate for each range of lines, and no others. */
  ghost predicate Indexes(text: Text, lines: seq<string>, candidates: seq<Candidate>, passages: seq<Passage>) {
    NoneLost(text, lines, candidates, passages) && NoneElse(text, lines, candidates, passages)
  }

  lemma {:induction false} PutMembers(passages: seq<Passage>, p: Passage)
    requires DistinctRanges(passages)
    ensures forall q :: q in PutPassage(passages, p) <==> q == p || (q in passages && !SameRange(q, p))
  {
    if passages != [] {
      assert passages == [passages[0]] + passages[1..];
      if !SameRange(passages[0], p) {
        PutMembers(passages[1..], p);
      }
    }
  }

  lemma LastForMore(text: Text, lines: seq<string>, candidates: seq<Candidate>, c: Candidate, n: nat)
    ensures LastFor(text, lines, candidates + [c], n) <==>
            if n == |candidates| then Worthy(text, lines, c)
            else LastFor(text, lines, candidates, n)
                 && !(Worthy(text, lines, c) && c.lineStart == candidates[n].lineStart
                      && c.lineEnd == candidates[n].lineEnd)
  {
    var more := candidates + [c];
    assert more[|candidates|] == c;
    assert forall m :: 0 <= m < |candidates| ==> more[m] == candidates[m];
  }

  lemma StillShown(text: Text, lines: seq<string>, candidates: seq<Candidate>, c: Candidate, before: seq<Passage>,
                   n: nat)
    returns (q: Passage)
    requires NoneLost(text, lines, candidates, before) && DistinctRanges(before) && Acceptable(text, lines, c)
    requires LastFor(text, lines, candidates + [c], n)
    ensures q in PutPassage(before, PassageFor(text, lines, c)) && Shows(text, lines, (candidates + [c])[n], q)
  {
    PutMembers(before, PassageFor(text, lines, c));
    LastForMore(text, lines, candidates, c, n);
    if n < |candidates| {
      q :| q in before && Shows(text, lines, candidates[n], q);
    } else {
      q := PassageFor(text, lines, c);
    }
  }

  lemma StillBacked(text: Text, lines: seq<string>, candidates: seq<Candidate>, c: Candidate, before: seq<Passage>,
                    q: Passage)
    returns (n: nat)
    requires NoneElse(text, lines, candidates, before) && DistinctRanges(before) && Acceptable(text, lines, c)
    requires q in PutPassage(before, PassageFor(text, lines, c))
    ensures LastFor(text, lines, candidates + [c], n) && Shows(text, lines, (candidates + [c])[n], q)
  {
    var p := PassageFor(text, lines, c);
    PutMembers(before, p);
    if q == p {
      n := |candidates|;
    } else {
      n :| LastFor(text, lines, candidates, n) && Shows(text, lines, candidates[n], q);
    }
    LastForMore(text, lines, candidates, c, n);
  }

  lemma OneMoreIndexed(text: Text, lines: seq<string>, candidates: seq<Candidate>, c: Candidate, before: seq<Passage>)
    requires NoneLost(text, lines, candidates, before) && NoneElse(text, lines, candidates, before)
    requires DistinctRanges(before) && Acceptable(text, lines, c)
    ensures NoneLost(text, lines, candidates + [c], PutPassage(before, PassageFor(text, lines, c)))
    ensures NoneElse(text, lines, candidates + [c], PutPassage(before, PassageFor(text, lines, c)))
  {
    var more, after := candidates + [c], PutPassage(before, PassageFor(text, lines, c));
    forall n: nat | LastFor(text, lines, more, n)
      ensures exists q :: q in after && Shows(text, lines, more[n], q)
    {
      var q := StillShown(text, lines, candidates, c, before, n);
    }
    forall q | q in after
      ensures exists n: nat :: LastFor(text, lines, more, n) && Shows(text, lines, more[n], q)
    {
      var n := StillBacked(text, lines, candidates, c, before, q);
    }
  }

  lemma OneMoreUnworthy(text: Text, lines: seq<string>, candidates: seq<Candidate>, c: Candidate,
                        passages: seq<Passage>)
    requires NoneLost(text, lines, candidates, passages) && !Acceptable(text, lines, c)
    ensures NoneLost(text, lines, candidates + [c], passages)
  {
    forall n: nat | LastFor(text, lines, candidates + [c], n)
      ensures exists p :: p in passages && Shows(text, lines, (candidates + [c])[n], p)
    {
      LastForMore(text, lines, candidates, c, n);
      var p :| p in passages && Shows(text, lines, candidates[n], p);
    }
  }

  lemma OneMoreUnbacked(text: Text, lines: seq<string>, candidates: seq<Candidate>, c: Candidate,
                        passages: seq<Passage>)
    requires NoneElse(text, lines, candidates, passages) && !Acceptable(text, lines, c)
    ensures NoneElse(text, lines, candidates + [c], passages)
  {
    forall p | p in passages
      ensures exists n: nat :: LastFor(text, lines, candidates + [c], n) && Shows(text, lines, (candidates + [c])[n], p)
    {
      var n: nat :| LastFor(text, lines, candidates, n) && Shows(text, lines, candidates[n], p);
      LastForMore(text, lines, candidates, c, n);
    }
  }

  /** Nothing worthy is lost and nothing else is published. */
  lemma {:induction false} PassagesExact(text: Text, lines: seq<string>, candidates: seq<Candidate>)
    ensures Indexes(text, lines, candidates, PassagesOf(text, lines, candidates))
  {
    if candidates != [] {
      var n := |candidates| - 1;
      var before := PassagesOf(text, lines, candidates[..n]);
      assert candidates == candidates[..n] + [candidates[n]];
      PassagesExact(text, lines, candidates[..n]);
      PassagesQuote(text, lines, candidates[..n]);
      if Acceptable(text, lines, candidates[n]) {
        OneMoreIndexed(text, lines, candidates[..n], candidates[n], before);
      } else {
        OneMoreUnworthy(text, lines, candidates[..n], candidates[n], before);
        OneMoreUnbacked(text, lines, candidates[..n], candidates[n], before);
      }
    }
  }

  const CANDIDATE_LIMIT := 48

  function Considered(candidates: seq<Candidate>): seq<Candidate> { candidates[..Min(CANDIDATE_LIMIT, |candidates|)] }

  // ---------------------------------------------------------------- operations

  const HOUR := 3_600_000

  /** The stored interval, or None when the requested one is not allowed. */
  function NewInterval(requested: Option<int>, isUrl: bool, current: Option<int>): Option<Option<int>> {
    if !isUrl then
      if requested.Some? && requested.value != 0 then None else Some(None)
    else if requested.None? then Some(current)
    else if requested.value == 0 then Some(None)
    else if requested.value in {HOUR, 6 * HOUR, 24 * HOUR, 7 * 24 * HOUR} then Some(requested)
    else None
  }

  datatype Draft = Draft(workspace: int, id: int, title: string, isUrl: bool, uri: Option<int>, lines: seq<string>)

  datatype Call =
    | Upsert(draft: Draft, interval: Option<int>, expected: Option<int>, jobId: int, at: int)
    | Ingest(draft: Draft, dedupe: Option<int>, jobId: int, at: int)
    | SetEnabled(workspace: int, id: int, enabled: bool, expected: Option<int>, jobId: int, at: int)
    | ApplyRemote(workspace: int, id: int, expectedRevision: int, expectedUri: int, lines: seq<string>,
                  jobId: int, at: int)
    | Claim(worker: string, at: int, leaseMs: Option<int>, limit: Option<int>)
    | Complete(jobId: int, worker: string, at: int, candidates: seq<Candidate>)
    | GiveBack(jobId: int, worker: string, at: int, delayMs: Option<int>, reason: string)

  function Published(current: Option<Source>, d: Draft, interval: Option<int>, at: int): Source {
    Source(d.workspace, d.id, d.title, d.isUrl, d.uri, d.lines, Digest(d.lines),
           if current.Some? then current.value.enabled else true,
           RevisionOf(current) + 1,
           if current.Some? then current.value.createdAt else at, at, interval)
  }

  function StoredInterval(current: Option<Source>): Option<int> {
    if current.Some? then current.value.interval else None
  }

  /** The source record a call writes, if it writes one. */
  function SourceAfter(s: State, call: Call): Option<Source> {
    match call
    case Upsert(d, interval, expected, _, at) =>
      var current := Current(s.sources, d.workspace, d.id);
      var stored := NewInterval(interval, d.isUrl, StoredInterval(current));
      if expected.Some? && expected.value != RevisionOf(current) then None
      else if stored.None? then None
      else Some(Published(current, d, stored.value, at))
    case Ingest(d, dedupe, _, at) =>
      var current := Current(s.sources, d.workspace, d.id);
      if FindDedupe(s.jobs, d.workspace, dedupe) < |s.jobs| then None
      else Some(Published(current, d, if d.isUrl then StoredInterval(current) else None, at))
    case SetEnabled(workspace, id, enabled, expected, _, at) =>
      var current := Current(s.sources, workspace, id);
      if current.None? || (expected.Some? && expected.value != current.value.revision) then None
      else Some(current.value.(enabled := enabled, revision := current.value.revision + 1, updatedAt := at))
    case ApplyRemote(workspace, id, expectedRevision, expectedUri, lines, _, at) =>
      var current := Current(s.sources, workspace, id);
      if current.None? || !current.value.isUrl || current.value.uri != Some(expectedUri)
         || current.value.revision != expectedRevision || !current.value.enabled then None
      else if Digest(lines) == current.value.hash then Some(current.value.(updatedAt := at))
      else
        var revision := current.value.revision + 1;
        Some(current.value.(lines := lines, hash := Digest(lines), revision := revision, updatedAt := at))
    case _ => None
  }

  function JobFor(s: Source, dedupe: Option<int>, jobId: int, at: int): Enrichment {
    NewJob(ENRICHMENT_RULE, jobId, Payload(s.workspace, s.id, s.revision, s.hash, dedupe, []), at)
  }

  /** Whether the written source is a new revision to be enriched. */
  predicate Announces(s: State, call: Call) {
    && SourceAfter(s, call).Some?
    && RevisionOf(Current(s.sources, SourceAfter(s, call).value.workspace, SourceAfter(s, call).value.id))
       < SourceAfter(s, call).value.revision
    && (call.SetEnabled? ==> call.enabled)
  }

  /** The published source has not moved on since the job was queued. */
  predicate UpToDate(s: State, j: Enrichment) {
    var current := Current(s.sources, j.payload.workspace, j.payload.source);
    current.Some? && current.value.revision == j.payload.revision && current.value.hash == j.payload.hash
  }

  const SOURCE_CHANGED := "knowledge_enrichment_source_changed"

  // ------------------------------------------- what a call writes, in terms of fields

  /** Every other source is as it was. */
  ghost predicate OthersKept(before: seq<Source>, after: seq<Source>, workspace: int, id: int) {
    forall w, i :: w != workspace || i != id ==> Current(after, w, i) == Current(before, w, i)
  }

  /** The source now stored is the draft's at the next revision; what the draft does not say is kept. */
  ghost predicate Wrote(before: seq<Source>, after: seq<Source>, d: Draft, at: int) {
    var was, now := Current(before, d.workspace, d.id), Current(after, d.workspace, d.id);
    && now.Some?
    && now.value.lines == d.lines && now.value.hash == Digest(d.lines) && now.value.title == d.title
    && now.value.isUrl == d.isUrl && now.value.uri == d.uri && now.value.updatedAt == at
    && (was.Some? ==> now.value.revision == was.value.revision + 1 && now.value.enabled == was.value.enabled
                      && now.value.createdAt == was.value.createdAt)
    && (was.None? ==> now.value.revision == 1 && now.value.enabled && now.value.createdAt == at)
    && OthersKept(before, after, d.workspace, d.id)
  }

  /** The caller expects no revision, or the stored one; a source that is not there has revision 0. */
  predicate AsExpected(was: Option<Source>, expected: Option<int>) {
    match (was, expected)
    case (_, None) => true
    case (None, Some(revision)) => revision == 0
    case (Some(s), Some(revision)) => revision == s.revision
  }

  function IntervalOf(was: Option<Source>): Option<int> {
    match was
    case None => None
    case Some(s) => s.interval
  }

  /** An interval is asked for that a source of this kind cannot have. */
  predicate Unscheduled(requested: Option<int>, isUrl: bool) {
    && requested.Some? && requested.value != 0
    && (!isUrl || requested.value !in {3_600_000, 21_600_000, 86_400_000, 604_800_000})
  }

  lemma NewIntervalExact(requested: Option<int>, isUrl: bool, was: Option<Source>)
    ensures var stored := NewInterval(requested, isUrl, StoredInterval(was));
            && (stored.None? <==> Unscheduled(requested, isUrl))
            && (stored.Some? ==> stored.value == if !isUrl || requested == Some(0) then None
                                                 else if requested.Some? then requested else IntervalOf(was))
  {
  }

  /** A live job to enrich the source as it now stands comes after the jobs that were live. */
  ghost predicate Queues(before: seq<Enrichment>, after: seq<Enrichment>, s: Source, dedupe: Option<int>,
                         id: int, at: int)
  {
    exists j :: LiveJobs(after) == LiveJobs(before) + [j]
      && j.id == id && j.status == Pending && j.attempts == 0 && j.maxAttempts == 5
      && j.createdAt == j.availableAt == at
      && j.payload.workspace == s.workspace && j.payload.source == s.id && j.payload.revision == s.revision
      && j.payload.hash == s.hash && j.payload.dedupe == dedupe && j.payload.passages == []
  }

  lemma AddQueues(jobs: seq<Enrichment>, s: Source, dedupe: Option<int>, id: int, at: int)
    ensures Queues(jobs, Trim(jobs + [JobFor(s, dedupe, id, at)]), s, dedupe, id, at)
  {
    var j := JobFor(s, dedupe, id, at);
    LiveOfConcat(jobs, [j]);
    TrimExact(jobs + [j]);
    AllLive([j]);
  }

  lemma PutCurrent(sources: seq<Source>, s: Source, workspace: int, id: int)
    ensures Current(PutSource(sources, s), workspace, id) ==
            if workspace == s.workspace && id == s.id then Some(s) else Current(sources, workspace, id)
  {
    var after := PutSource(sources, s);
    var k := FindSource(sources, s.workspace, s.id);
    var i, i' := FindSource(sources, workspace, id), FindSource(after, workspace, id);
    assert forall n :: 0 <= n < |sources| && n != k ==> after[n] == sources[n];
    if workspace == s.workspace && id == s.id {
      assert after[k] == s;
      assert i' == k;
    } else {
      assert i < |sources| ==> after[i] == sources[i];
      assert i' == i || (i == |sources| && i' == |after|);
    }
  }

  lemma PutIsAlone(sources: seq<Source>, s: Source)
    ensures Current(PutSource(sources, s), s.workspace, s.id) == Some(s)
    ensures OthersKept(sources, PutSource(sources, s), s.workspace, s.id)
  {
    PutCurrent(sources, s, s.workspace, s.id);
    forall w, i | w != s.workspace || i != s.id
      ensures Current(PutSource(sources, s), w, i) == Current(sources, w, i)
    {
      PutCurrent(sources, s, w, i);
    }
  }

  function Lower(text: Text, s: State, call: Call): Option<Op<Payload>> {
    match call
    case Claim(worker, at, leaseMs, limit) => Some(ClaimPass(worker, at, leaseMs, limit))
    case Complete(jobId, worker, at, candidates) =>
      if !Present(s.jobs, jobId) then None
      else
        var j := s.jobs[Find(s.jobs, jobId)];
        if UpToDate(s, j) then
          var source := Current(s.sources, j.payload.workspace, j.payload.source).value;
          var passages := PassagesOf(text, source.lines, Considered(candidates));
          Some(Finish(jobId, worker, at, false, j.payload.(passages := passages), None))
        else Some(Finish(jobId, worker, at, true, j.payload.(passages := []), Some(SOURCE_CHANGED)))
    case GiveBack(jobId, worker, at, delayMs, reason) =>
      Some(Retry(jobId, worker, at, at + RetryDelay(delayMs), reason))
    case _ =>
      if Announces(s, call) then
        Some(Add([JobFor(SourceAfter(s, call).value, if call.Ingest? then call.dedupe else None, call.jobId, call.at)]))
      else None
  }

  function After(text: Text, s: State, call: Call): State {
    State(if SourceAfter(s, call).Some? then PutSource(s.sources, SourceAfter(s, call).value) else s.sources,
          if Lower(text, s, call).Some? then Apply(ENRICHMENT_RULE, s.jobs, Lower(text, s, call).value) else s.jobs)
  }

  lemma PublishedWrites(sources: seq<Source>, d: Draft, interval: Option<int>, at: int)
    ensures var source := Published(Current(sources, d.workspace, d.id), d, interval, at);
            && Wrote(sources, PutSource(sources, source), d, at)
            && Current(PutSource(sources, source), d.workspace, d.id) == Some(source)
  {
    PutIsAlone(sources, Published(Current(sources, d.workspace, d.id), d, interval, at));
  }

  datatype Error = NotFound | ClaimLost | RevisionConflict(current: int) | Disabled | IntervalInvalid

  class KnowledgeStore {
    const text: Text
    var sources: seq<Source>
    var enrichments: seq<Enrichment>

    constructor (text: Text)
      ensures this.text == text && sources == [] && enrichments == []
    {
      this.text := text;
      sources, enrichments := [], [];
    }

    function Contents(): State
      reads this
    {
      State(sources, enrichments)
    }

    method PushEnrichment(s: Source, dedupe: Option<int>, jobId: int, at: int) returns (job: Enrichment)
      modifies this`enrichments
      ensures job == JobFor(s, dedupe, jobId, at)
      ensures enrichments == Apply(ENRICHMENT_RULE, old(enrichments), Add([job]))
      ensures Queues(old(enrichments), enrichments, s, dedupe, jobId, at)
    {
      AddQueues(enrichments, s, dedupe, jobId, at);
      job := JobFor(s, dedupe, jobId, at);
      enrichments := enrichments + [job];
      if |enrichments| > LEDGER_LIMIT {
        var active := LiveJobs(enrichments);
        var terminal := SliceFromEnd(EndedJobs(enrichments), Max(0, LEDGER_LIMIT - |active|));
        enrichments := terminal + active;
      }
    }

    method UpsertSource(d: Draft, interval: Option<int>, expected: Option<int>, jobId: int, at: int)
      returns (r: Result<Source, Error>)
      modifies this
      ensures Contents() == After(text, old(Contents()), Upsert(d, interval, expected, jobId, at))
      ensures if r.Ok? then Some(r.value) == SourceAfter(old(Contents()), Upsert(d, interval, expected, jobId, at))
              else SourceAfter(old(Contents()), Upsert(d, interval, expected, jobId, at)).None?
      ensures r.Err? ==> Contents() == old(Contents())
      ensures r.Ok? ==>
                && Wrote(old(sources), sources, d, at) && Current(sources, d.workspace, d.id) == Some(r.value)
                && Queues(old(enrichments), enrichments, r.value, None, jobId, at)
                && r.value.interval == (if !d.isUrl || interval == Some(0) then None
                                        else if interval.Some? then interval
                                        else IntervalOf(old(Current(sources, d.workspace, d.id))))
      ensures var was := old(Current(sources, d.workspace, d.id));
              if !AsExpected(was, expected) then r.Err? && r.error.RevisionConflict?
              else if Unscheduled(interval, d.isUrl) then r == Err(IntervalInvalid)
              else r.Ok?
    {
      ghost var before := Contents();
      ghost var call := Upsert(d, interval, expected, jobId, at);
      var current := Current(sources, d.workspace, d.id);
      if expected.Some? && expected.value != RevisionOf(current) {
        return Err(RevisionConflict(RevisionOf(current)));
      }
      var stored := NewInterval(interval, d.isUrl, StoredInterval(current));
      NewIntervalExact(interval, d.isUrl, current);
      if stored.None? {
        return Err(IntervalInvalid);
      }
      var source := Published(current, d, stored.value, at);
      assert SourceAfter(before, call) == Some(source) && Announces(before, call);
      PublishedWrites(sources, d, stored.value, at);
      sources := PutSource(sources, source);
      var job := PushEnrichment(source, None, jobId, at);
      return Ok(source);
    }

    method IngestSource(d: Draft, dedupe: Option<int>, jobId: int, at: int)
      returns (r: Result<(Source, Enrichment, bool), Error>)
      modifies this
      ensures Contents() == After(text, old(Contents()), Ingest(d, dedupe, jobId, at))
      ensures r.Ok? && r.value.2 ==>
        && Contents() == old(Contents())
        && r.value.1 in old(enrichments) && r.value.1.payload.dedupe == dedupe != None
      ensures r.Ok? && !r.value.2 ==>
                r.value.1.payload.dedupe == dedupe && r.value.1.payload.revision == r.value.0.revision
      ensures r.Ok? && !r.value.2 ==>
                && Wrote(old(sources), sources, d, at) && Current(sources, d.workspace, d.id) == Some(r.value.0)
                && Queues(old(enrichments), enrichments, r.value.0, dedupe, jobId, at)
                && r.value.0.interval ==
                   (if d.isUrl then IntervalOf(old(Current(sources, d.workspace, d.id))) else None)
      ensures r.Ok? && !r.value.2 <==>
              dedupe.None? || forall j :: j in old(enrichments) ==>
                                j.payload.workspace != d.workspace || j.payload.dedupe != dedupe
    {
      var duplicate := FindDedupe(enrichments, d.workspace, dedupe);
      if duplicate < |enrichments| {
        var owner := Current(sources, d.workspace, enrichments[duplicate].payload.source);
        if owner.None? {
          return Err(NotFound);
        }
        return Ok((owner.value, enrichments[duplicate], true));
      }
      var current := Current(sources, d.workspace, d.id);
      var source := Published(current, d, if d.isUrl then StoredInterval(current) else None, at);
      PublishedWrites(sources, d, source.interval, at);
      sources := PutSource(sources, source);
      var job := PushEnrichment(source, dedupe, jobId, at);
      return Ok((source, job, false));
    }

    method SetSourceEnabled(workspace: int, id: int, enabled: bool, expected: Option<int>, jobId: int, at: int)
      returns (r: Result<Source, Error>)
      modifies this
      ensures Contents() == After(text, old(Contents()), SetEnabled(workspace, id, enabled, expected, jobId, at))
      ensures var call := SetEnabled(workspace, id, enabled, expected, jobId, at);
              if r.Ok? then Some(r.value) == SourceAfter(old(Contents()), call)
              else SourceAfter(old(Contents()), call).None?
      ensures r.Err? ==> Contents() == old(Contents())
      ensures var was := old(Current(sources, workspace, id));
              && (r == Err(NotFound) <==> was.None?)
              && (r.Ok? <==> was.Some? && (expected.Some? ==> expected.value == was.value.revision))
              && (r.Ok? ==>
                    && r.value == was.value.(enabled := enabled, revision := was.value.revision + 1, updatedAt := at)
                    && Current(sources, workspace, id) == Some(r.value)
                    && OthersKept(old(sources), sources, workspace, id)
                    && if enabled then Queues(old(enrichments), enrichments, r.value, None, jobId, at)
                       else enrichments == old(enrichments))
    {
      ghost var before := Contents();
      ghost var call := SetEnabled(workspace, id, enabled, expected, jobId, at);
      var current := Current(sources, workspace, id);
      if current.None? {
        return Err(NotFound);
      }
      if expected.Some? && expected.value != current.value.revision {
        return Err(RevisionConflict(current.value.revision));
      }
      var source := current.value.(enabled := enabled, revision := current.value.revision + 1, updatedAt := at);
      assert SourceAfter(before, call) == Some(source) && (Announces(before, call) <==> enabled);
      PutIsAlone(sources, source);
      sources := PutSource(sources, source);
      if enabled {
        var job := PushEnrichment(source, None, jobId, at);
      }
      return Ok(source);
    }

    method ApplyRemoteRefresh(workspace: int, id: int, expectedRevision: int, expectedUri: int,
                              lines: seq<string>, jobId: int, at: int)
      returns (r: Result<(Source, bool), Error>)
      modifies this
      ensures var call := ApplyRemote(workspace, id, expectedRevision, expectedUri, lines, jobId, at);
              && Contents() == After(text, old(Contents()), call)
              && if r.Ok? then Some(r.value.0) == SourceAfter(old(Contents()), call)
                 else SourceAfter(old(Contents()), call).None?
      ensures r.Err? ==> Contents() == old(Contents())
      ensures r.Ok? ==>
        && old(Current(sources, workspace, id)).Some?
        && (r.value.1 <==> Digest(lines) != old(Current(sources, workspace, id)).value.hash)
      ensures var was := old(Current(sources, workspace, id));
              && (r == Err(NotFound) <==> was.None?)
              && (r == Err(Disabled) <==> was.Some? && was.value.isUrl && was.value.uri == Some(expectedUri)
                                          && was.value.revision == expectedRevision && !was.value.enabled)
              && (r.Ok? <==> was.Some? && was.value.isUrl && was.value.uri == Some(expectedUri)
                             && was.value.revision == expectedRevision && was.value.enabled)
              && (r.Ok? ==>
                    && Current(sources, workspace, id) == Some(r.value.0)
                    && OthersKept(old(sources), sources, workspace, id)
                    && if !r.value.1 then
                         r.value.0 == was.value.(updatedAt := at) && enrichments == old(enrichments)
                       else
                         && r.value.0 == was.value.(lines := lines, hash := Digest(lines), updatedAt := at,
                                                    revision := was.value.revision + 1)
                         && Queues(old(enrichments), enrichments, r.value.0, None, jobId, at))
    {
      ghost var before := Contents();
      ghost var call := ApplyRemote(workspace, id, expectedRevision, expectedUri, lines, jobId, at);
      var current := Current(sources, workspace, id);
      if current.None? {
        return Err(NotFound);
      }
      var c := current.value;
      if !c.isUrl || c.uri != Some(expectedUri) || c.revision != expectedRevision {
        return Err(RevisionConflict(c.revision));
      }
      if !c.enabled {
        return Err(Disabled);
      }
      if Digest(lines) == c.hash {
        PutIsAlone(sources, c.(updatedAt := at));
        sources := PutSource(sources, c.(updatedAt := at));
        assert SourceAfter(before, call) == Some(c.(updatedAt := at)) && !Announces(before, call);
        return Ok((c.(updatedAt := at), false));
      }
      var source := c.(lines := lines, hash := Digest(lines), revision := c.revision + 1, updatedAt := at);
      assert SourceAfter(before, call) == Some(source) && Announces(before, call);
      PutIsAlone(sources, source);
      sources := PutSource(sources, source);
      var job := PushEnrichment(source, None, jobId, at);
      return Ok((source, true));
    }

    /**
      `seen` is the ledger read without the lock, perhaps before others wrote. When
      it shows nothing to claim the locked pass is skipped, and then that pass could
      only have changed records that are not in `seen`.
     */
    method ClaimEnrichments(seen: seq<Enrichment>, worker: string, at: int, leaseMs: Option<int>, limit: Option<int>)
      returns (taken: seq<Enrichment>)
      modifies this
      ensures WorthLocking(ENRICHMENT_RULE, seen, at, LeaseMs(leaseMs)) || seen == old(enrichments) ==>
                && Contents() == After(text, old(Contents()), Claim(worker, at, leaseMs, limit))
                && InTurn(ENRICHMENT_RULE, old(enrichments), worker, at, leaseMs, limit, taken)
      ensures WorthLocking(ENRICHMENT_RULE, seen, at, LeaseMs(leaseMs)) ==>
                FairPass(true, false, old(enrichments), enrichments, taken, worker, at,
                         Clamp(leaseMs, 120_000, 1_000, 900_000), Clamp(limit, 4, 1, 20))
      ensures !WorthLocking(ENRICHMENT_RULE, seen, at, LeaseMs(leaseMs)) ==>
                && Contents() == old(Contents()) && taken == []
                && OnlyNewsMissed(seen, enrichments, After(text, Contents(), Claim(worker, at, leaseMs, limit)).jobs)
    {
      if !WorthLocking(ENRICHMENT_RULE, seen, at, LeaseMs(leaseMs)) {
        NothingInTurn(ENRICHMENT_RULE, seen, worker, at, leaseMs, limit);
        MissesOnlyNews(ENRICHMENT_RULE, seen, enrichments, worker, at, leaseMs, limit);
        return [];
      }
      enrichments, taken := RunPass(ENRICHMENT_RULE, enrichments, worker, at, leaseMs, limit);
    }

    method CompleteEnrichment(jobId: int, worker: string, at: int, candidates: seq<Candidate>)
      returns (r: Result<Enrichment, Error>)
      modifies this
      ensures Contents() == After(text, old(Contents()), Complete(jobId, worker, at, candidates))
      ensures r.Ok? <==> Holds(old(enrichments), jobId, worker)
      ensures r.Ok? ==> r.value in enrichments && r.value.id == jobId
      ensures r == Err(NotFound) <==> !Present(old(enrichments), jobId)
      ensures r.Ok? ==> (r.value.status.Completed? <==> UpToDate(old(Contents()), r.value))
      ensures r.Ok? ==>
                var was := old(enrichments)[Find(old(enrichments), jobId)];
                var source := Current(old(sources), was.payload.workspace, was.payload.source);
                && sources == old(sources)
                && enrichments == old(enrichments)[Find(old(enrichments), jobId) := r.value]
                && r.value.payload == was.payload.(passages := r.value.payload.passages)
                && if source.Some? && source.value.revision == was.payload.revision
                      && source.value.hash == was.payload.hash
                   then
                     && EndedAs(was, r.value, Completed, at, None)
                     && DistinctRanges(r.value.payload.passages)
                     && Indexes(text, source.value.lines, candidates[..Min(48, |candidates|)], r.value.payload.passages)
                   else
                     && EndedAs(was, r.value, Stale, at, Some("knowledge_enrichment_source_changed"))
                     && r.value.payload.passages == []
      ensures r.Err? ==> Contents() == old(Contents())
    {
      ghost var before := Contents();
      ghost var call := Complete(jobId, worker, at, candidates);
      assert SourceAfter(before, call).None?;
      var k := Find(enrichments, jobId);
      if k == |enrichments| {
        return Err(NotFound);
      }
      var job := enrichments[k];
      if !job.status.Claimed? || job.claimedBy != Some(worker) {
        return Err(ClaimLost);
      }
      var current := Current(sources, job.payload.workspace, job.payload.source);
      if current.None? || current.value.revision != job.payload.revision || current.value.hash != job.payload.hash {
        job := job.(status := Stale, updatedAt := at, completedAt := Some(at), error := Some(SOURCE_CHANGED),
                    payload := job.payload.(passages := []));
      } else {
        var lines := current.value.lines;
        var considered := Considered(candidates);
        var passages: seq<Passage> := [];
        for i := 0 to |considered|
          invariant passages == PassagesOf(text, lines, considered[..i])
          invariant sources == old(sources) && enrichments == old(enrichments)
        {
          assert considered[..i + 1][..i] == considered[..i];
          if Acceptable(text, lines, considered[i]) {
            passages := PutPassage(passages, PassageFor(text, lines, considered[i]));
          }
        }
        assert considered[..|considered|] == considered;
        PassagesExact(text, lines, considered);
        PassagesQuote(text, lines, considered);
        job := job.(status := Completed, updatedAt := at, completedAt := Some(at), error := None,
                    payload := job.payload.(passages := passages));
      }
      enrichments := enrichments[k := job];
      assert enrichments[k] == job;
      return Ok(job);
    }

    method RetryEnrichment(jobId: int, worker: string, at: int, delayMs: Option<int>, reason: string)
      returns (r: Result<Enrichment, Error>)
      modifies this
      ensures Contents() == After(text, old(Contents()), GiveBack(jobId, worker, at, delayMs, reason))
      ensures r.Ok? <==> Holds(old(enrichments), jobId, worker)
      ensures r.Ok? ==> r.value in enrichments && r.value.id == jobId
      ensures r == Err(NotFound) <==> !Present(old(enrichments), jobId)
      ensures r.Ok? ==>
                && GivenBack(old(enrichments)[Find(old(enrichments), jobId)], r.value, at,
                             at + Clamp(delayMs, 5_000, 1_000, 900_000), reason)
                && enrichments == old(enrichments)[Find(old(enrichments), jobId) := r.value]
      ensures r.Err? ==> Contents() == old(Contents())
    {
      ghost var before := Contents();
      ghost var call := GiveBack(jobId, worker, at, delayMs, reason);
      assert SourceAfter(before, call).None?;
      assert Lower(text, before, call) == Some(Retry(jobId, worker, at, at + RetryDelay(delayMs), reason));
      var k := Find(enrichments, jobId);
      if k == |enrichments| {
        return Err(NotFound);
      }
      var job := enrichments[k];
      if !job.status.Claimed? || job.claimedBy != Some(worker) {
        return Err(ClaimLost);
      }
      var terminal := job.attempts >= job.maxAttempts;
      job := job.(status := if terminal then Failed else Pending, error := Some(reason), updatedAt := at,
                  claimedAt := None, claimedBy := None);
      if terminal {
        job := job.(completedAt := Some(at));
      } else {
        job := job.(availableAt := at + RetryDelay(delayMs));
      }
      enrichments := enrichments[k := job];
      assert enrichments[k] == job;
      return Ok(job);
    }
  }
}
