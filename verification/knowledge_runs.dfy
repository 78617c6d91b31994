/** What every reachable state of the knowledge store satisfies. */
module KnowledgeRuns {
  import opened Wrappers
  import opened Lease
  import opened LeaseTrim
  import opened LeaseRuns
  import opened Knowledge

  ghost predicate SourcesOk(sources: seq<Source>) {
    && (forall i, j :: 0 <= i < j < |sources| ==>
          !(sources[i].workspace == sources[j].workspace && sources[i].id == sources[j].id))
    && (forall s :: s in sources ==> s.revision >= 1 && s.hash == Digest(s.lines))
  }

  /** A job names a revision its source has reached; at the current one it carries the current hash. */
  ghost predicate Fits(sources: seq<Source>, j: Enrichment) {
    var current := Current(sources, j.payload.workspace, j.payload.source);
    && current.Some?
    && j.payload.revision <= current.value.revision
    && (j.payload.revision == current.value.revision ==> j.payload.hash == current.value.hash)
  }

  predicate SameRevision(a: Enrichment, b: Enrichment) {
    && a.payload.workspace == b.payload.workspace && a.payload.source == b.payload.source
    && a.payload.revision == b.payload.revision
  }

  ghost predicate PassagesFit(text: Text, j: Enrichment) {
    if j.status.Completed? then AllQuote(text, j.payload.hash.preimage, j.payload.passages)
    else j.payload.passages == []
  }

  ghost predicate JobsOk(text: Text, sources: seq<Source>, jobs: seq<Enrichment>) {
    && (forall j :: j in jobs ==> Fits(sources, j) && PassagesFit(text, j))
    && (forall a, b :: a in jobs && b in jobs && SameRevision(a, b) ==> a.id == b.id)
  }

  /** The store's invariant. */
  ghost predicate KInv(text: Text, s: State) {
    SourcesOk(s.sources) && Inv(ENRICHMENT_RULE, s.jobs) && JobsOk(text, s.sources, s.jobs)
  }

  // ---------------------------------------------------------------- sources

  /** Later states keep every source, never lower its revision, and keep the text of a revision. */
  ghost predicate Follows(before: seq<Source>, after: seq<Source>) {
    forall workspace, id :: Current(before, workspace, id).Some? ==>
      && Current(after, workspace, id).Some?
      && Current(before, workspace, id).value.revision <= Current(after, workspace, id).value.revision
      && (Current(before, workspace, id).value.revision == Current(after, workspace, id).value.revision ==>
            && Current(before, workspace, id).value.lines == Current(after, workspace, id).value.lines
            && Current(before, workspace, id).value.hash == Current(after, workspace, id).value.hash)
  }

  lemma CurrentOfMember(sources: seq<Source>, s: Source)
    requires SourcesOk(sources) && s in sources
    ensures Current(sources, s.workspace, s.id) == Some(s)
  {
  }

  /** A call either leaves a source's text alone or moves it to the next revision. */
  lemma SourceAfterRevision(s: State, call: Call)
    requires SourcesOk(s.sources) && SourceAfter(s, call).Some?
    ensures var src := SourceAfter(s, call).value;
      var current := Current(s.sources, src.workspace, src.id);
      && src.hash == Digest(src.lines)
      && (src.revision == RevisionOf(current) + 1
          || (current.Some? && src.revision == current.value.revision
              && src.hash == current.value.hash && src.lines == current.value.lines))
  {
  }

  lemma AfterKeepsSources(text: Text, s: State, call: Call)
    requires SourcesOk(s.sources)
    ensures SourcesOk(After(text, s, call).sources)
    ensures Follows(s.sources, After(text, s, call).sources)
  {
    if SourceAfter(s, call).Some? {
      var src := SourceAfter(s, call).value;
      SourceAfterRevision(s, call);
      PutKeepsSources(s.sources, src);
      forall workspace, id ensures Current(PutSource(s.sources, src), workspace, id) ==
            if workspace == src.workspace && id == src.id then Some(src) else Current(s.sources, workspace, id) {
        PutCurrent(s.sources, src, workspace, id);
      }
    }
  }

  lemma PutKeepsSources(sources: seq<Source>, s: Source)
    requires SourcesOk(sources) && s.revision >= 1 && s.hash == Digest(s.lines)
    ensures SourcesOk(PutSource(sources, s))
  {
  }

  lemma FollowsTransitive(a: seq<Source>, b: seq<Source>, c: seq<Source>)
    requires Follows(a, b) && Follows(b, c)
    ensures Follows(a, c)
  {
  }

  // -------------------------------------------------------------------- jobs

  lemma FitsFollows(before: seq<Source>, after: seq<Source>, j: Enrichment)
    requires Follows(before, after) && Fits(before, j)
    ensures Fits(after, j)
  {
  }

  lemma JobsFollow(text: Text, before: seq<Source>, after: seq<Source>, jobs: seq<Enrichment>)
    requires JobsOk(text, before, jobs) && Follows(before, after)
    ensures JobsOk(text, after, jobs)
  {
    forall j | j in jobs
      ensures Fits(after, j)
    {
      FitsFollows(before, after, j);
    }
  }

  /** A new job is for a revision later than any other job of its source. */
  lemma AddKeepsJobs(text: Text, before: seq<Source>, after: seq<Source>, jobs: seq<Enrichment>, j: Enrichment)
    requires JobsOk(text, before, jobs) && Follows(before, after) && Fits(after, j)
    requires j.payload.revision > RevisionOf(Current(before, j.payload.workspace, j.payload.source))
    requires j.status.Pending? && j.payload.passages == []
    requires UniqueIds(jobs + [j])
    ensures JobsOk(text, after, Trim(jobs + [j]))
  {
    TrimUnique(jobs + [j]);
    forall x | x in Trim(jobs + [j]) ensures Fits(after, x) && PassagesFit(text, x) {
      assert x in jobs || x == j;
      if x in jobs {
        FitsFollows(before, after, x);
      }
    }
    forall a, b | a in Trim(jobs + [j]) && b in Trim(jobs + [j]) && SameRevision(a, b) ensures a.id == b.id {
      assert (a in jobs || a == j) && (b in jobs || b == j);
      assert a in jobs ==> Fits(before, a);
      assert b in jobs ==> Fits(before, b);
    }
  }

  /** An operation that adds nothing keeps each job's place, source, revision and hash. */
  lemma StepKeepsJob(text: Text, s: State, call: Call, k: nat)
    requires KInv(text, s) && k < |s.jobs|
    requires Lower(text, s, call).Some? && !Lower(text, s, call).value.Add?
    ensures var j := JobAfter(ENRICHMENT_RULE, s.jobs, Lower(text, s, call).value, k);
      && j.id == s.jobs[k].id && SameRevision(j, s.jobs[k]) && j.payload.hash == s.jobs[k].payload.hash
      && PassagesFit(text, j)
  {
    assert s.jobs[k] in s.jobs;
    FindUnique(s.jobs, k);
    if call.Complete? {
      var current := Current(s.sources, s.jobs[k].payload.workspace, s.jobs[k].payload.source);
      PassagesQuote(text, current.value.lines, Considered(call.candidates));
    }
  }

  /** The same jobs with other statuses still name at most one job per revision. */
  lemma PointwiseKeepsJobs(text: Text, sources: seq<Source>, jobs: seq<Enrichment>, after: seq<Enrichment>)
    requires JobsOk(text, sources, jobs) && |after| == |jobs|
    requires forall k :: 0 <= k < |jobs| ==> after[k].id == jobs[k].id && SameRevision(after[k], jobs[k])
    requires forall k :: 0 <= k < |jobs| ==>
               after[k].payload.hash == jobs[k].payload.hash && PassagesFit(text, after[k])
    ensures JobsOk(text, sources, after)
  {
    forall k | 0 <= k < |jobs| ensures Fits(sources, after[k]) {
      assert jobs[k] in jobs;
    }
    forall a, b | a in after && b in after && SameRevision(a, b) ensures a.id == b.id {
      var i :| 0 <= i < |after| && after[i] == a;
      var k :| 0 <= k < |after| && after[k] == b;
      assert jobs[i] in jobs && jobs[k] in jobs;
    }
  }

  lemma StepKeepsJobs(text: Text, s: State, call: Call)
    requires KInv(text, s)
    requires Lower(text, s, call).Some? && !Lower(text, s, call).value.Add?
    ensures JobsOk(text, s.sources, After(text, s, call).jobs)
  {
    var op := Lower(text, s, call).value;
    var after := After(text, s, call).jobs;
    ApplyPointwise(ENRICHMENT_RULE, s.jobs, op);
    forall k | 0 <= k < |s.jobs|
      ensures after[k].id == s.jobs[k].id && SameRevision(after[k], s.jobs[k])
      ensures after[k].payload.hash == s.jobs[k].payload.hash && PassagesFit(text, after[k])
    {
      StepKeepsJob(text, s, call, k);
    }
    PointwiseKeepsJobs(text, s.sources, s.jobs, after);
  }

  ghost predicate FreshCall(call: Call, issued: set<int>) {
    call.Upsert? || call.Ingest? || call.SetEnabled? || call.ApplyRemote? ==> call.jobId !in issued
  }

  /** A call that touches no job. */
  lemma SourcesOnlyKeepsInv(text: Text, s: State, call: Call)
    requires KInv(text, s) && Lower(text, s, call).None?
    ensures KInv(text, After(text, s, call)) && After(text, s, call).jobs == s.jobs
  {
    AfterKeepsSources(text, s, call);
    JobsFollow(text, s.sources, After(text, s, call).sources, s.jobs);
  }

  /** A call that queues an enrichment. */
  lemma QueueingKeepsInv(text: Text, s: State, call: Call, issued: set<int>)
    requires KInv(text, s) && FreshCall(call, issued)
    requires forall j :: j in s.jobs ==> j.id in issued
    requires Lower(text, s, call).Some? && Lower(text, s, call).value.Add?
    ensures KInv(text, After(text, s, call))
  {
    AfterKeepsSources(text, s, call);
    LoweredFresh(text, s, call, issued, issued);
    ApplyKeepsInv(ENRICHMENT_RULE, s.jobs, Lower(text, s, call).value, issued);
    AddedFits(text, s, call, issued);
  }

  /** A call that claims, completes or returns. */
  lemma SteppingKeepsInv(text: Text, s: State, call: Call, issued: set<int>)
    requires KInv(text, s) && forall j :: j in s.jobs ==> j.id in issued
    requires Lower(text, s, call).Some? && !Lower(text, s, call).value.Add?
    ensures KInv(text, After(text, s, call))
  {
    AfterKeepsSources(text, s, call);
    ApplyKeepsInv(ENRICHMENT_RULE, s.jobs, Lower(text, s, call).value, issued);
    StepKeepsJobs(text, s, call);
  }

  lemma AfterIds(text: Text, s: State, call: Call, issued: set<int>)
    requires KInv(text, s) && FreshCall(call, issued) && Lower(text, s, call).Some?
    requires forall j :: j in s.jobs ==> j.id in issued
    ensures forall j :: j in After(text, s, call).jobs ==> j.id in issued + AddedIds(Lower(text, s, call).value)
  {
    LoweredFresh(text, s, call, issued, issued);
    ApplyKeepsInv(ENRICHMENT_RULE, s.jobs, Lower(text, s, call).value, issued);
  }

  /** Every call keeps the invariant. */
  lemma AfterKeepsInv(text: Text, s: State, call: Call, issued: set<int>)
    requires KInv(text, s) && FreshCall(call, issued)
    requires forall j :: j in s.jobs ==> j.id in issued
    ensures KInv(text, After(text, s, call))
    ensures Lower(text, s, call).Some? ==>
              forall j :: j in After(text, s, call).jobs ==> j.id in issued + AddedIds(Lower(text, s, call).value)
  {
    var op := Lower(text, s, call);
    if op.None? {
      SourcesOnlyKeepsInv(text, s, call);
    } else {
      AfterIds(text, s, call, issued);
      if op.value.Add? {
        QueueingKeepsInv(text, s, call, issued);
      } else {
        SteppingKeepsInv(text, s, call, issued);
      }
    }
  }

  lemma UniqueMore(jobs: seq<Enrichment>, j: Enrichment, issued: set<int>)
    requires UniqueIds(jobs) && j.id !in issued && forall x :: x in jobs ==> x.id in issued
    ensures UniqueIds(jobs + [j])
  {
    forall i | 0 <= i < |jobs|
      ensures jobs[i].id != j.id
    {
      assert jobs[i] in jobs;
    }
  }

  lemma AddedFits(text: Text, s: State, call: Call, issued: set<int>)
    requires KInv(text, s) && FreshCall(call, issued)
    requires forall j :: j in s.jobs ==> j.id in issued
    requires Lower(text, s, call).Some? && Lower(text, s, call).value.Add?
    ensures JobsOk(text, After(text, s, call).sources, After(text, s, call).jobs)
  {
    var src := SourceAfter(s, call).value;
    var j := Lower(text, s, call).value.batch[0];
    assert Lower(text, s, call).value.batch == [j];
    AfterKeepsSources(text, s, call);
    PutCurrent(s.sources, src, src.workspace, src.id);
    SourceAfterRevision(s, call);
    UniqueMore(s.jobs, j, issued);
    AddKeepsJobs(text, s.sources, After(text, s, call).sources, s.jobs, j);
  }

  // --------------------------------------------------------------------- runs

  function StoreRun(text: Text, calls: seq<Call>): State {
    if calls == [] then State([], []) else After(text, StoreRun(text, calls[..|calls| - 1]), calls[|calls| - 1])
  }

  ghost function IssuedBy(calls: seq<Call>): set<int> {
    set c | c in calls && (c.Upsert? || c.Ingest? || c.SetEnabled? || c.ApplyRemote?) :: c.jobId
  }

  /** Job ids are random UUIDs: no call brings one that an earlier call brought. */
  ghost predicate ValidCalls(calls: seq<Call>) {
    forall n :: 0 <= n < |calls| ==> FreshCall(calls[n], IssuedBy(calls[..n]))
  }

  /** One more call of a run. */
  lemma OneMoreCall(text: Text, before: seq<Call>, call: Call)
    requires KInv(text, StoreRun(text, before)) && FreshCall(call, IssuedBy(before))
    requires forall j :: j in StoreRun(text, before).jobs ==> j.id in IssuedBy(before)
    ensures KInv(text, After(text, StoreRun(text, before), call))
    ensures forall j :: j in After(text, StoreRun(text, before), call).jobs ==> j.id in IssuedBy(before + [call])
  {
    var s := StoreRun(text, before);
    AfterKeepsInv(text, s, call, IssuedBy(before));
    IssuedByMore(before, call);
    if Lower(text, s, call).Some? && Lower(text, s, call).value.Add? {
      assert forall j :: j in Lower(text, s, call).value.batch ==> j.id == call.jobId;
    }
  }

  lemma {:induction false} ReachableInv(text: Text, calls: seq<Call>)
    requires ValidCalls(calls)
    ensures KInv(text, StoreRun(text, calls))
    ensures forall j :: j in StoreRun(text, calls).jobs ==> j.id in IssuedBy(calls)
  {
    if calls != [] {
      var n := |calls| - 1;
      PrefixValid(calls, n);
      ReachableInv(text, calls[..n]);
      OneMoreCall(text, calls[..n], calls[n]);
      assert calls == calls[..n] + [calls[n]];
    }
  }

  lemma FollowsStep(text: Text, first: seq<Source>, s: State, call: Call)
    requires Follows(first, s.sources) && SourcesOk(s.sources)
    ensures Follows(first, After(text, s, call).sources)
  {
    AfterKeepsSources(text, s, call);
    FollowsTransitive(first, s.sources, After(text, s, call).sources);
  }

  lemma SourcesReachable(text: Text, calls: seq<Call>)
    requires ValidCalls(calls)
    ensures SourcesOk(StoreRun(text, calls).sources)
  {
    ReachableInv(text, calls);
  }

  /**
    In every run, a (workspace, source, revision) names one text for ever:
    wherever the same revision is current at two moments its lines are the
    same, and revisions never go back.
   */
  lemma {:induction false} RevisionFixesText(text: Text, calls: seq<Call>, n: nat)
    requires ValidCalls(calls) && n <= |calls|
    ensures Follows(StoreRun(text, calls[..n]).sources, StoreRun(text, calls).sources)
  {
    if n == |calls| {
      assert calls[..n] == calls;
    } else {
      var m := |calls| - 1;
      PrefixValid(calls, m);
      assert calls[..m][..n] == calls[..n];
      RevisionFixesText(text, calls[..m], n);
      SourcesReachable(text, calls[..m]);
      FollowsStep(text, StoreRun(text, calls[..n]).sources, StoreRun(text, calls[..m]), calls[m]);
    }
  }

  /** What a call that queues an enrichment leaves as the current revision. */
  lemma QueuedForCurrent(text: Text, s: State, call: Call, j: Enrichment)
    requires SourcesOk(s.sources) && Lower(text, s, call) == Some(Add([j]))
    ensures RevisionOf(Current(s.sources, j.payload.workspace, j.payload.source)) < j.payload.revision
    ensures var now := Current(After(text, s, call).sources, j.payload.workspace, j.payload.source);
            now.Some? && now.value.revision == j.payload.revision
  {
    var src := SourceAfter(s, call).value;
    assert [j] == [JobFor(src, if call.Ingest? then call.dedupe else None, call.jobId, call.at)];
    PutCurrent(s.sources, src, src.workspace, src.id);
  }

  lemma LaterRevision(text: Text, s: State, call: Call, late: State, lateCall: Call, a: Enrichment, b: Enrichment)
    requires SourcesOk(s.sources) && SourcesOk(late.sources) && Follows(After(text, s, call).sources, late.sources)
    requires Lower(text, s, call) == Some(Add([a])) && Lower(text, late, lateCall) == Some(Add([b]))
    ensures !SameRevision(a, b)
  {
    QueuedForCurrent(text, s, call, a);
    QueuedForCurrent(text, late, lateCall, b);
  }

  /** Over a whole run, trimmed jobs included, a revision of a source is given at most one enrichment job. */
  lemma OneJobPerRevision(text: Text, calls: seq<Call>, m: nat, n: nat, a: Enrichment, b: Enrichment)
    requires ValidCalls(calls) && m < n < |calls|
    requires Lower(text, StoreRun(text, calls[..m]), calls[m]) == Some(Add([a]))
    requires Lower(text, StoreRun(text, calls[..n]), calls[n]) == Some(Add([b]))
    ensures !SameRevision(a, b)
  {
    PrefixValid(calls, n);
    PrefixValid(calls, m);
    ReachableInv(text, calls[..m]);
    ReachableInv(text, calls[..n]);
    assert calls[..m + 1][..m] == calls[..m] && calls[..n][..m + 1] == calls[..m + 1];
    RevisionFixesText(text, calls[..n], m + 1);
    LaterRevision(text, StoreRun(text, calls[..m]), calls[m], StoreRun(text, calls[..n]), calls[n], a, b);
  }

  lemma PrefixValid(calls: seq<Call>, n: nat)
    requires ValidCalls(calls) && n <= |calls|
    ensures ValidCalls(calls[..n])
  {
  }

  /** Ingesting twice under one dedupe key changes nothing the second time. */
  lemma IngestOnce(text: Text, s: State, d: Draft, dedupe: int, jobId: int, at: int,
                   d': Draft, jobId': int, at': int, issued: set<int>)
    requires KInv(text, s) && d'.workspace == d.workspace
    requires jobId !in issued && forall j :: j in s.jobs ==> j.id in issued
    ensures var once := After(text, s, Ingest(d, Some(dedupe), jobId, at));
      After(text, once, Ingest(d', Some(dedupe), jobId', at')) == once
  {
    var call := Ingest(d, Some(dedupe), jobId, at);
    var once := After(text, s, call);
    if FindDedupe(s.jobs, d.workspace, Some(dedupe)) == |s.jobs| {
      var j := JobFor(SourceAfter(s, call).value, Some(dedupe), jobId, at);
      forall i | 0 <= i < |s.jobs| ensures s.jobs[i].id != jobId {
        assert s.jobs[i] in s.jobs;
      }
      TrimUnique(s.jobs + [j]);
      assert j in s.jobs + [j];
      assert j in once.jobs;
    }
  }

  // --------------------------------------------------- the enrichment ledger

  function Lowered(text: Text, calls: seq<Call>): seq<Op<Payload>> {
    if calls == [] then []
    else
      var before := calls[..|calls| - 1];
      var op := Lower(text, StoreRun(text, before), calls[|calls| - 1]);
      Lowered(text, before) + (if op.Some? then [op.value] else [])
  }

  lemma IssuedByMore(calls: seq<Call>, call: Call)
    ensures IssuedBy(calls) <= IssuedBy(calls + [call])
    ensures call.Upsert? || call.Ingest? || call.SetEnabled? || call.ApplyRemote? ==>
              call.jobId in IssuedBy(calls + [call])
  {
  }

  lemma {:induction false} LedgerOfRun(text: Text, calls: seq<Call>)
    requires ValidCalls(calls)
    ensures ValidRun(ENRICHMENT_RULE, Lowered(text, calls))
    ensures Run(ENRICHMENT_RULE, Lowered(text, calls)) == StoreRun(text, calls).jobs
    ensures Issued(Lowered(text, calls)) <= IssuedBy(calls)
  {
    if calls != [] {
      var n := |calls| - 1;
      PrefixValid(calls, n);
      LedgerOfRun(text, calls[..n]);
      IssuedByLast(calls);
      LedgerStep(text, StoreRun(text, calls[..n]), calls[n], Lowered(text, calls[..n]), IssuedBy(calls[..n]),
                 IssuedBy(calls));
    }
  }

  /** What a call adds to the ledger carries the id the call brought. */
  lemma LoweredFresh(text: Text, s: State, call: Call, issued: set<int>, brought: set<int>)
    requires FreshCall(call, brought) && issued <= brought && Lower(text, s, call).Some?
    ensures Fresh(ENRICHMENT_RULE, Lower(text, s, call).value, issued)
    ensures AddedIds(Lower(text, s, call).value) <= (if Lower(text, s, call).value.Add? then {call.jobId} else {})
  {
    var op := Lower(text, s, call).value;
    if op.Add? {
      assert forall j :: j in op.batch ==> j.id == call.jobId;
    }
  }

  lemma IssuedByLast(calls: seq<Call>)
    requires calls != []
    ensures var n := |calls| - 1;
            && IssuedBy(calls[..n]) <= IssuedBy(calls)
            && (calls[n].Upsert? || calls[n].Ingest? || calls[n].SetEnabled? || calls[n].ApplyRemote? ==>
                  calls[n].jobId in IssuedBy(calls))
  {
  }

  /** One more call takes the ledger one operation further, or none. */
  lemma LedgerStep(text: Text, s: State, call: Call, ops: seq<Op<Payload>>, brought: set<int>, now: set<int>)
    requires FreshCall(call, brought) && ValidRun(ENRICHMENT_RULE, ops) && Run(ENRICHMENT_RULE, ops) == s.jobs
    requires Issued(ops) <= brought <= now
    requires call.Upsert? || call.Ingest? || call.SetEnabled? || call.ApplyRemote? ==> call.jobId in now
    ensures var op := Lower(text, s, call);
            var more := ops + (if op.Some? then [op.value] else []);
            && ValidRun(ENRICHMENT_RULE, more) && Run(ENRICHMENT_RULE, more) == After(text, s, call).jobs
            && Issued(more) <= now
  {
    var op := Lower(text, s, call);
    if op.Some? {
      LoweredFresh(text, s, call, Issued(ops), brought);
      OneMoreValid(ENRICHMENT_RULE, ops, op.value);
    } else {
      assert ops + [] == ops;
    }
  }

  /** Enrichment jobs obey the protocol: legal histories, an exact fence, one outcome each. */
  lemma EnrichmentProtocol(text: Text, calls: seq<Call>, id: int, worker: string)
    requires ValidCalls(calls)
    ensures var h := History(ENRICHMENT_RULE, Lowered(text, calls), id);
      && Legal(h) && |h| <= 2 * ENRICHMENT_RULE.maxAttempts
      && (Holds(StoreRun(text, calls).jobs, id, worker) <==> Holder(h) == Some(worker))
  {
    LedgerOfRun(text, calls);
    HistoryLegal(ENRICHMENT_RULE, Lowered(text, calls), id);
    FenceExact(ENRICHMENT_RULE, Lowered(text, calls), id, worker);
  }
}
