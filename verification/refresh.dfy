/** The ledger of knowledge source refresh jobs. */
module Refresh {
  import opened Wrappers
  import opened Ordering
  import opened Lease
  import opened LeaseTrim
  import opened LeaseRuns
  import opened ClaimPasses

  datatype Key = Key(workspace: int, source: int, revision: int, uri: int)

  datatype Outcome = Updated | Unchanged | NotModified

  /** `etag` stands for both HTTP validators. */
  datatype Payload = Payload(key: Key, outcome: Option<Outcome>, resultRevision: Option<int>, etag: Option<string>)

  type RefreshJob = Job<Payload>

  datatype Source = Source(
    workspace: int, id: int, isUrl: bool, uri: Option<int>, enabled: bool,
    revision: int, updatedAt: int, interval: Option<int>)

  predicate HasLive(jobs: seq<RefreshJob>, key: Key) {
    exists j :: j in jobs && j.Live() && j.payload.key == key
  }

  /** At most one live job per (workspace, source, revision, uri). */
  ghost predicate LiveUnique(jobs: seq<RefreshJob>) {
    forall a, b :: a in jobs && b in jobs && a.Live() && b.Live() && a.payload.key == b.payload.key ==> a.id == b.id
  }

  // ------------------------------------------------------------- enqueueing

  function FindLive(jobs: seq<RefreshJob>, key: Key): (k: nat)
    ensures k <= |jobs|
    ensures k < |jobs| ==> jobs[k].Live() && jobs[k].payload.key == key
    ensures forall i :: 0 <= i < k ==> !(jobs[i].Live() && jobs[i].payload.key == key)
    ensures k < |jobs| <==> HasLive(jobs, key)
  {
    if jobs == [] then 0
    else if jobs[0].Live() && jobs[0].payload.key == key then
      assert jobs[0] in jobs;
      0
    else
      var k := FindLive(jobs[1..], key);
      assert jobs == [jobs[0]] + jobs[1..];
      assert forall i :: 0 < i < k + 1 ==> jobs[i] == jobs[1..][i - 1];
      k + 1
  }

  predicate ResultedIn(j: RefreshJob, key: Key) {
    && j.payload.key.workspace == key.workspace && j.payload.key.source == key.source
    && j.payload.key.uri == key.uri
    && j.payload.resultRevision == Some(key.revision) && j.status.Completed?
  }

  /** The first of the latest completed jobs that produced this revision. */
  function Previous(jobs: seq<RefreshJob>, key: Key): (r: Option<RefreshJob>)
    ensures r.None? <==> forall j :: j in jobs ==> !ResultedIn(j, key)
    ensures r.Some? ==> r.value in jobs && ResultedIn(r.value, key)
    ensures r.Some? ==> forall j :: j in jobs && ResultedIn(j, key) ==> Completion(j) <= Completion(r.value)
  {
    if jobs == [] then None
    else
      var n := |jobs| - 1;
      assert jobs == jobs[..n] + [jobs[n]];
      var best := Previous(jobs[..n], key);
      if ResultedIn(jobs[n], key) && (best.None? || Completion(jobs[n]) > Completion(best.value)) then Some(jobs[n])
      else best
  }

  function Completion(j: RefreshJob): int { if j.completedAt.Some? then j.completedAt.value else 0 }

  function JobFor(jobs: seq<RefreshJob>, key: Key, id: int, at: int): RefreshJob {
    var previous := Previous(jobs, key);
    NewJob(REFRESH_RULE, id, Payload(key, None, None, if previous.Some? then previous.value.payload.etag else None), at)
  }

  // ------------------------------------------------------------- scheduling

  predicate Schedulable(s: Source) {
    s.enabled && s.isUrl && s.uri.Some? && s.interval.Some? && s.interval.value > 0
  }

  function KeyOf(s: Source): Key
    requires s.uri.Some?
  {
    Key(s.workspace, s.id, s.revision, s.uri.value)
  }

  /** Activity of this source at this revision: asked for it, or produced it. */
  predicate Matches(j: RefreshJob, s: Source) {
    && j.payload.key.workspace == s.workspace && j.payload.key.source == s.id
    && Some(j.payload.key.uri) == s.uri
    && (j.payload.key.revision == s.revision || j.payload.resultRevision == Some(s.revision))
  }

  function Latest(jobs: seq<RefreshJob>, s: Source): (r: Option<int>)
    ensures r.None? <==> forall j :: j in jobs ==> !Matches(j, s)
    ensures r.Some? ==> exists j :: j in jobs && Matches(j, s) && j.updatedAt == r.value
    ensures r.Some? ==> forall j :: j in jobs && Matches(j, s) ==> j.updatedAt <= r.value
  {
    if jobs == [] then None
    else
      var n := |jobs| - 1;
      assert jobs == jobs[..n] + [jobs[n]];
      var best := Latest(jobs[..n], s);
      if Matches(jobs[n], s) then
        Some(if best.Some? then Max(best.value, jobs[n].updatedAt) else jobs[n].updatedAt)
      else best
  }

  function Baseline(jobs: seq<RefreshJob>, s: Source): int {
    var latest := Latest(jobs, s);
    if latest.Some? then latest.value else s.updatedAt
  }

  function NextRefreshAt(jobs: seq<RefreshJob>, s: Source): Option<int> {
    if Schedulable(s) then Some(Baseline(jobs, s) + s.interval.value) else None
  }

  predicate Due(jobs: seq<RefreshJob>, s: Source, now: int) {
    Schedulable(s) && NextRefreshAt(jobs, s).value <= now
  }

  /** A job that asked for the source's current revision, or produced it, from the same place. */
  predicate Concerns(j: RefreshJob, s: Source) {
    && j.payload.key.workspace == s.workspace && j.payload.key.source == s.id && s.uri == Some(j.payload.key.uri)
    && (j.payload.key.revision == s.revision || j.payload.resultRevision == Some(s.revision))
  }

  /** The source was last active at t: the latest such job was updated then, or without one the source itself. */
  ghost predicate LastActive(jobs: seq<RefreshJob>, s: Source, t: int) {
    && (forall j :: j in jobs && Concerns(j, s) ==> j.updatedAt <= t)
    && ((exists j :: j in jobs && Concerns(j, s) && j.updatedAt == t)
        || ((forall j :: j in jobs ==> !Concerns(j, s)) && s.updatedAt == t))
  }

  /** An enabled url source with an interval, all of whose activity is at least that interval old. */
  ghost predicate Rested(jobs: seq<RefreshJob>, s: Source, now: int) {
    && s.enabled && s.isUrl && s.uri.Some? && s.interval.Some? && s.interval.value > 0
    && (forall j :: j in jobs && Concerns(j, s) ==> j.updatedAt <= now - s.interval.value)
    && ((forall j :: j in jobs ==> !Concerns(j, s)) ==> s.updatedAt <= now - s.interval.value)
  }

  lemma BaselineIsLastActive(jobs: seq<RefreshJob>, s: Source)
    ensures LastActive(jobs, s, Baseline(jobs, s))
    ensures forall t :: LastActive(jobs, s, t) ==> t == Baseline(jobs, s)
  {
    assert forall j :: Concerns(j, s) <==> Matches(j, s);
  }

  /** A source is due exactly when it has rested for its interval. */
  lemma DueIsRested(jobs: seq<RefreshJob>, s: Source, now: int)
    ensures Due(jobs, s, now) <==> Rested(jobs, s, now)
  {
    assert forall j :: Concerns(j, s) <==> Matches(j, s);
  }

  /** The announced time of the next refresh is the first moment at which the source has rested. */
  lemma NextRefreshExact(jobs: seq<RefreshJob>, s: Source, t: int)
    ensures Rested(jobs, s, t) <==> NextRefreshAt(jobs, s).Some? && NextRefreshAt(jobs, s).value <= t
  {
    DueIsRested(jobs, s, t);
  }

  /** Longest waiting first, ties by workspace and then by id. */
  ghost predicate WaitsLonger(jobs: seq<RefreshJob>, a: Source, b: Source) {
    exists s, t :: LastActive(jobs, a, s) && LastActive(jobs, b, t)
      && (s < t || (s == t && (a.workspace < b.workspace || (a.workspace == b.workspace && a.id <= b.id))))
  }

  function DueUpTo(jobs: seq<RefreshJob>, sources: seq<Source>, now: int, n: nat): (r: seq<Slot>)
    requires n <= |sources|
    ensures forall x :: x in r <==>
      x.index < n && Due(jobs, sources[x.index], now)
      && x == Slot(Baseline(jobs, sources[x.index]), sources[x.index].workspace, sources[x.index].id, x.index)
    ensures DistinctIndices(r)
  {
    if n == 0 then []
    else
      var s := sources[n - 1];
      DueUpTo(jobs, sources, now, n - 1) +
      (if Due(jobs, s, now) then [Slot(Baseline(jobs, s), s.workspace, s.id, n - 1)] else [])
  }

  /** The due sources, longest waiting first. */
  function DueOrder(jobs: seq<RefreshJob>, sources: seq<Source>, now: int): (r: seq<Slot>)
    ensures Addressable(sources, r)
    ensures forall x :: x in r ==> x.index < |sources| && Due(jobs, sources[x.index], now)
    ensures forall i :: 0 <= i < |sources| && Due(jobs, sources[i], now) ==> exists p :: 0 <= p < |r| && r[p].index == i
    ensures Ascending(r)
  {
    var slots := DueUpTo(jobs, sources, now, |sources|);
    SortedAscending(slots);
    assert forall i :: 0 <= i < |sources| && Due(jobs, sources[i], now) ==>
      Slot(Baseline(jobs, sources[i]), sources[i].workspace, sources[i].id, i) in Sorted(slots);
    Sorted(slots)
  }

  /** The due list holds exactly the rested sources, each once, longest waiting first. */
  lemma DueExact(jobs: seq<RefreshJob>, sources: seq<Source>, now: int)
    ensures var r := DueOrder(jobs, sources, now);
            && (forall i: nat :: i < |sources| ==>
                  (Rested(jobs, sources[i], now) <==> exists p :: 0 <= p < |r| && r[p].index == i))
            && forall p, q :: 0 <= p < q < |r| ==>
                 && r[p].index != r[q].index && r[p].index < |sources| && r[q].index < |sources|
                 && WaitsLonger(jobs, sources[r[p].index], sources[r[q].index])
  {
    var slots := DueUpTo(jobs, sources, now, |sources|);
    var r := DueOrder(jobs, sources, now);
    SortedAscending(slots);
    forall i: nat | i < |sources|
      ensures Rested(jobs, sources[i], now) <==> exists p :: 0 <= p < |r| && r[p].index == i
    {
      DueIsRested(jobs, sources[i], now);
      if p :| 0 <= p < |r| && r[p].index == i {
        assert r[p] in r;
      }
    }
    forall p, q | 0 <= p < q < |r|
      ensures r[p].index != r[q].index && r[p].index < |sources| && r[q].index < |sources|
      ensures WaitsLonger(jobs, sources[r[p].index], sources[r[q].index])
    {
      assert r[p] in slots && r[q] in slots && Precedes(r[p], r[q]);
      BaselineIsLastActive(jobs, sources[r[p].index]);
      BaselineIsLastActive(jobs, sources[r[q].index]);
    }
  }

  predicate Addressable(sources: seq<Source>, due: seq<Slot>) {
    forall x :: x in due ==> x.index < |sources| && sources[x.index].uri.Some?
  }

  /** The jobs queued by the first p due sources. */
  function Queued(jobs: seq<RefreshJob>, sources: seq<Source>, due: seq<Slot>, ids: seq<int>,
                  now: int, limit: int, p: nat)
    : (batch: seq<RefreshJob>)
    requires p <= |due| <= |ids|
    requires Addressable(sources, due)
    ensures |batch| <= p && |batch| <= Max(0, limit)
  {
    if p == 0 then []
    else
      var batch := Queued(jobs, sources, due, ids, now, limit, p - 1);
      assert due[p - 1] in due;
      var key := KeyOf(sources[due[p - 1].index]);
      if HasLive(jobs + batch, key) || |batch| >= limit then batch
      else batch + [JobFor(jobs + batch, key, ids[|batch|], now)]
  }

  predicate EnoughIds(sources: seq<Source>, ids: seq<int>) { |sources| <= |ids| }

  lemma DueNoLonger(jobs: seq<RefreshJob>, sources: seq<Source>, now: int)
    ensures |DueOrder(jobs, sources, now)| <= |sources|
  {
    DueUpToShort(jobs, sources, now, |sources|);
    SortedAscending(DueUpTo(jobs, sources, now, |sources|));
  }

  lemma {:induction false} DueUpToShort(jobs: seq<RefreshJob>, sources: seq<Source>, now: int, n: nat)
    requires n <= |sources|
    ensures |DueUpTo(jobs, sources, now, n)| <= n
  {
    if n > 0 {
      DueUpToShort(jobs, sources, now, n - 1);
    }
  }

  /** What one scheduling pass queues. */
  function Schedule(jobs: seq<RefreshJob>, sources: seq<Source>, ids: seq<int>, now: int, limit: int): seq<RefreshJob>
    requires EnoughIds(sources, ids)
  {
    DueNoLonger(jobs, sources, now);
    var due := DueOrder(jobs, sources, now);
    Queued(jobs, sources, due, ids, now, limit, |due|)
  }

  function ScheduleLimit(requested: Option<int>): int { Clamp(requested, 100, 1, 500) }

  // ------------------------------------------------------ one scheduling pass

  ghost predicate QueuedFor(jobs: seq<RefreshJob>, sources: seq<Source>, now: int, j: RefreshJob) {
    && IsNew(REFRESH_RULE, j) && j.updatedAt == now && j.payload.resultRevision == None
    && exists i :: 0 <= i < |sources| && Due(jobs, sources[i], now) && j.payload.key == KeyOf(sources[i])
  }

  ghost predicate AllDue(jobs: seq<RefreshJob>, sources: seq<Source>, due: seq<Slot>, now: int) {
    Addressable(sources, due) && forall x :: x in due ==> Due(jobs, sources[x.index], now)
  }

  lemma {:induction false} QueuedForDue(jobs: seq<RefreshJob>, sources: seq<Source>, due: seq<Slot>, ids: seq<int>,
                                        now: int, limit: int, p: nat)
    requires p <= |due| <= |ids| && AllDue(jobs, sources, due, now)
    ensures forall j :: j in Queued(jobs, sources, due, ids, now, limit, p) ==> QueuedFor(jobs, sources, now, j)
  {
    if p > 0 {
      QueuedForDue(jobs, sources, due, ids, now, limit, p - 1);
      assert due[p - 1] in due;
    }
  }

  /** One due source after another: it has a live job after its turn, or the limit is reached. */
  lemma TurnTaken(jobs: seq<RefreshJob>, sources: seq<Source>, due: seq<Slot>, ids: seq<int>,
                  now: int, limit: int, p: nat)
    requires p < |due| <= |ids| && Addressable(sources, due) && due[p] in due
    ensures var before := Queued(jobs, sources, due, ids, now, limit, p);
            var batch := Queued(jobs, sources, due, ids, now, limit, p + 1);
      && before <= batch
      && (HasLive(jobs + batch, KeyOf(sources[due[p].index])) || (batch == before && |batch| >= limit))
  {
  }

  lemma {:induction false} QueuedGrows(jobs: seq<RefreshJob>, sources: seq<Source>, due: seq<Slot>, ids: seq<int>,
                                       now: int, limit: int, q: nat, p: nat)
    requires q <= p <= |due| <= |ids| && Addressable(sources, due)
    ensures Queued(jobs, sources, due, ids, now, limit, q) <= Queued(jobs, sources, due, ids, now, limit, p)
  {
    if q < p {
      QueuedGrows(jobs, sources, due, ids, now, limit, q, p - 1);
      QueuedStep(jobs, sources, due, ids, now, limit, p - 1);
      PrefixOfPrefix(Queued(jobs, sources, due, ids, now, limit, q), Queued(jobs, sources, due, ids, now, limit, p - 1),
                     Queued(jobs, sources, due, ids, now, limit, p));
    }
  }

  lemma QueuedStep(jobs: seq<RefreshJob>, sources: seq<Source>, due: seq<Slot>, ids: seq<int>,
                   now: int, limit: int, p: nat)
    requires p < |due| <= |ids| && Addressable(sources, due)
    ensures Queued(jobs, sources, due, ids, now, limit, p) <= Queued(jobs, sources, due, ids, now, limit, p + 1)
  {
  }

  lemma PrefixOfPrefix(a: seq<RefreshJob>, b: seq<RefreshJob>, c: seq<RefreshJob>)
    requires a <= b && b <= c
    ensures a <= c
  {
  }

  /** A source's turn, seen from the end of the pass. */
  lemma TurnSeen(jobs: seq<RefreshJob>, before: seq<RefreshJob>, turn: seq<RefreshJob>, all: seq<RefreshJob>,
                 key: Key, limit: int)
    requires before <= turn <= all && |all| <= limit
    requires HasLive(jobs + turn, key) || (turn == before && |turn| >= limit)
    ensures |all| < limit ==> HasLive(jobs + all, key)
    ensures HasLive(jobs + all, key) || all == before
  {
  }

  lemma TurnOutcome(jobs: seq<RefreshJob>, sources: seq<Source>, due: seq<Slot>, ids: seq<int>,
                    now: int, limit: int, q: nat, all: seq<RefreshJob>, key: Key)
    requires q < |due| <= |ids| && limit >= 0 && Addressable(sources, due) && due[q] in due
    requires all == Queued(jobs, sources, due, ids, now, limit, |due|) && key == KeyOf(sources[due[q].index])
    ensures |all| < limit ==> HasLive(jobs + all, key)
    ensures HasLive(jobs + all, key) || all == Queued(jobs, sources, due, ids, now, limit, q)
  {
    TurnTaken(jobs, sources, due, ids, now, limit, q);
    QueuedGrows(jobs, sources, due, ids, now, limit, q + 1, |due|);
    TurnSeen(jobs, Queued(jobs, sources, due, ids, now, limit, q), Queued(jobs, sources, due, ids, now, limit, q + 1),
             all, key, limit);
  }

  /** Every due source has a live job after the pass, unless the limit was reached. */
  lemma QueuedCovers(jobs: seq<RefreshJob>, sources: seq<Source>, due: seq<Slot>, ids: seq<int>,
                     now: int, limit: int, q: nat)
    requires q < |due| <= |ids| && Addressable(sources, due) && due[q] in due
    requires |Queued(jobs, sources, due, ids, now, limit, |due|)| < limit
    ensures HasLive(jobs + Queued(jobs, sources, due, ids, now, limit, |due|), KeyOf(sources[due[q].index]))
  {
    TurnOutcome(jobs, sources, due, ids, now, limit, q, Queued(jobs, sources, due, ids, now, limit, |due|),
                KeyOf(sources[due[q].index]));
  }

  /**
    When the limit is reached the sources left without a job are the ones that
    waited least: all that was queued was queued before the first of them.
   */
  lemma OldestFirst(jobs: seq<RefreshJob>, sources: seq<Source>, due: seq<Slot>, ids: seq<int>,
                    now: int, limit: int, q: nat)
    requires q < |due| <= |ids| && limit >= 1 && Addressable(sources, due) && due[q] in due
    requires !HasLive(jobs + Queued(jobs, sources, due, ids, now, limit, |due|), KeyOf(sources[due[q].index]))
    ensures Queued(jobs, sources, due, ids, now, limit, |due|) == Queued(jobs, sources, due, ids, now, limit, q)
  {
    TurnOutcome(jobs, sources, due, ids, now, limit, q, Queued(jobs, sources, due, ids, now, limit, |due|),
                KeyOf(sources[due[q].index]));
  }

  lemma TrimKeepsLive(jobs: seq<RefreshJob>, key: Key)
    requires HasLive(jobs, key)
    ensures HasLive(Trim(jobs), key)
  {
    if |jobs| > LEDGER_LIMIT {
      TrimMembers(jobs);
    }
    var j :| j in jobs && j.Live() && j.payload.key == key;
    assert j in Trim(jobs);
  }

  ghost predicate RestedAnInterval(jobs: seq<RefreshJob>, sources: seq<Source>, now: int, j: RefreshJob) {
    exists i :: 0 <= i < |sources| && Rested(jobs, sources[i], now) && sources[i].uri == Some(j.payload.key.uri)
                && j.payload.key.workspace == sources[i].workspace && j.payload.key.source == sources[i].id
                && j.payload.key.revision == sources[i].revision
  }

  /** A live job asks for the source's current revision at its address. */
  ghost predicate Served(jobs: seq<RefreshJob>, s: Source) {
    exists j :: j in jobs && j.status in {Pending, Claimed} && s.uri == Some(j.payload.key.uri)
                && j.payload.key.workspace == s.workspace && j.payload.key.source == s.id
                && j.payload.key.revision == s.revision
  }

  lemma LiveKeyServes(jobs: seq<RefreshJob>, s: Source)
    requires s.uri.Some?
    ensures HasLive(jobs, KeyOf(s)) <==> Served(jobs, s)
  {
    if HasLive(jobs, KeyOf(s)) {
      var j :| j in jobs && j.Live() && j.payload.key == KeyOf(s);
      assert j.status in {Pending, Claimed};
    }
    if j :| j in jobs && j.status in {Pending, Claimed} && s.uri == Some(j.payload.key.uri)
            && j.payload.key.workspace == s.workspace && j.payload.key.source == s.id
            && j.payload.key.revision == s.revision {
      assert j.Live() && j.payload.key == KeyOf(s);
    }
  }

  /**
    After a scheduling pass that stays under its limit every source that has rested
    for its interval has a live job, trimmed or not. Every job it queues is for a
    source all of whose earlier activity at this revision, or last change if there
    was none, is at least one interval old.
   */
  lemma ScheduleComplete(jobs: seq<RefreshJob>, sources: seq<Source>, ids: seq<int>, now: int, limit: int)
    requires EnoughIds(sources, ids)
    ensures var batch := Schedule(jobs, sources, ids, now, limit);
      |batch| < limit ==>
        forall i :: 0 <= i < |sources| && Rested(jobs, sources[i], now) ==> Served(Trim(jobs + batch), sources[i])
    ensures forall j :: j in Schedule(jobs, sources, ids, now, limit) ==> RestedAnInterval(jobs, sources, now, j)
  {
    var due := DueOrder(jobs, sources, now);
    var batch := Schedule(jobs, sources, ids, now, limit);
    DueNoLonger(jobs, sources, now);
    QueuedForDue(jobs, sources, due, ids, now, limit, |due|);
    if |batch| < limit {
      forall i | 0 <= i < |sources| && Rested(jobs, sources[i], now)
        ensures Served(Trim(jobs + batch), sources[i])
      {
        DueIsRested(jobs, sources[i], now);
        var p :| 0 <= p < |due| && due[p].index == i;
        QueuedCovers(jobs, sources, due, ids, now, limit, p);
        TrimKeepsLive(jobs + batch, KeyOf(sources[i]));
        LiveKeyServes(Trim(jobs + batch), sources[i]);
      }
    }
    forall j | j in batch ensures RestedAnInterval(jobs, sources, now, j) {
      assert QueuedFor(jobs, sources, now, j);
      var i :| 0 <= i < |sources| && Due(jobs, sources[i], now) && j.payload.key == KeyOf(sources[i]);
      DueIsRested(jobs, sources[i], now);
    }
  }

  // --------------------------------------------------------- store operations

  datatype Call =
    | Enqueue(key: Key, jobId: int, at: int)
    | EnqueueDue(sources: seq<Source>, ids: seq<int>, at: int, limit: Option<int>)
    | Claim(worker: string, at: int, leaseMs: Option<int>, quota: Option<int>)
    | Complete(jobId: int, worker: string, at: int, outcome: Outcome, revision: int, etag: Option<string>)
    | MarkStale(jobId: int, worker: string, at: int, reason: string)
    | GiveBack(jobId: int, worker: string, at: int, delayMs: Option<int>, reason: string)

  /** The protocol operation a call comes down to, if any. A scheduling pass must bring an id for every source. */
  function Lower(jobs: seq<RefreshJob>, call: Call): (r: Option<Op<Payload>>)
  {
    match call
    case Enqueue(key, id, at) =>
      if key.revision < 1 || FindLive(jobs, key) < |jobs| then None
      else Some(Add([JobFor(jobs, key, id, at)]))
    case EnqueueDue(sources, ids, at, limit) =>
      if EnoughIds(sources, ids) then Some(Add(Schedule(jobs, sources, ids, at, ScheduleLimit(limit)))) else None
    case Claim(worker, at, leaseMs, quota) => Some(ClaimPass(worker, at, leaseMs, quota))
    case Complete(id, worker, at, outcome, revision, etag) =>
      if !Present(jobs, id) then None
      else Some(Finish(id, worker, at, false, jobs[Find(jobs, id)].payload
                  .(outcome := Some(outcome), resultRevision := Some(revision), etag := etag), None))
    case MarkStale(id, worker, at, reason) =>
      if !Present(jobs, id) then None
      else Some(Finish(id, worker, at, true, jobs[Find(jobs, id)].payload, Some(reason)))
    case GiveBack(id, worker, at, delayMs, reason) => Some(Retry(id, worker, at, at + RetryDelay(delayMs), reason))
  }

  function After(jobs: seq<RefreshJob>, call: Call): seq<RefreshJob>
  {
    var op := Lower(jobs, call);
    if op.Some? then Apply(REFRESH_RULE, jobs, op.value) else jobs
  }

  datatype Error = NotFound | ClaimLost | RevisionInvalid

  /** The loop over the due sources, pushing onto the ledger as it goes. */
  method QueueDue(jobs: seq<RefreshJob>, sources: seq<Source>, order: seq<Slot>, ids: seq<int>, now: int, cap: int)
    returns (after: seq<RefreshJob>, queued: seq<RefreshJob>, active: nat)
    requires |order| <= |ids| && cap >= 0
    requires Addressable(sources, order)
    ensures queued == Queued(jobs, sources, order, ids, now, cap, |order|)
    ensures after == jobs + queued
    ensures active + |queued| <= |order|
    ensures |queued| < cap ==> active + |queued| == |order|
  {
    after, queued, active := jobs, [], 0;
    for p := 0 to |order|
      invariant queued == Queued(jobs, sources, order, ids, now, cap, p)
      invariant after == jobs + queued
      invariant active + |queued| <= p
      invariant |queued| < cap ==> active + |queued| == p
    {
      assert order[p] in order;
      var key := KeyOf(sources[order[p].index]);
      if FindLive(after, key) < |after| {
        active := active + 1;
      } else if |queued| < cap {
        var job := JobFor(after, key, ids[|queued|], now);
        after := after + [job];
        queued := queued + [job];
      }
    }
  }

  class RefreshStore {
    var jobs: seq<RefreshJob>

    constructor ()
      ensures jobs == []
    {
      jobs := [];
    }

    method EnqueueOne(key: Key, id: int, at: int) returns (r: Result<(RefreshJob, bool), Error>)
      modifies this
      ensures jobs == After(old(jobs), Enqueue(key, id, at))
      ensures key.revision < 1 <==> r.Err?
      ensures r.Ok? ==> r.value.0.payload.key == key && (r.value.1 <==> HasLive(old(jobs), key))
      ensures r.Ok? && r.value.1 ==> r.value.0 in old(jobs) && r.value.0.Live() && jobs == old(jobs)
      ensures r.Ok? && !r.value.1 ==>
                && r.value.0.id == id && r.value.0.status == Pending && r.value.0.attempts == 0
                && r.value.0.maxAttempts == 5 && r.value.0.createdAt == r.value.0.availableAt == at
                && r.value.0.payload.outcome.None? && r.value.0.payload.resultRevision.None?
                && (r.value.0.payload.etag.Some? ==> Previous(old(jobs), key).Some?)
                && (Previous(old(jobs), key).Some? ==>
                      r.value.0.payload.etag == Previous(old(jobs), key).value.payload.etag)
                && LiveJobs(jobs) == LiveJobs(old(jobs)) + [r.value.0]
    {
      if key.revision < 1 {
        return Err(RevisionInvalid);
      }
      var k := FindLive(jobs, key);
      if k < |jobs| {
        return Ok((jobs[k], true));
      }
      var job := JobFor(jobs, key, id, at);
      LiveOfConcat(jobs, [job]);
      TrimExact(jobs + [job]);
      AllLive([job]);
      jobs := Trim(jobs + [job]);
      return Ok((job, false));
    }

    /** One scheduling pass. `ids` supplies fresh job ids. */
    method ScheduleDue(sources: seq<Source>, ids: seq<int>, now: int, limit: Option<int>)
      returns (due: nat, queued: seq<RefreshJob>, active: nat)
      requires EnoughIds(sources, ids)
      modifies this
      ensures jobs == After(old(jobs), EnqueueDue(sources, ids, now, limit))
      ensures queued == Schedule(old(jobs), sources, ids, now, ScheduleLimit(limit))
      ensures due == |DueOrder(old(jobs), sources, now)|
      ensures active + |queued| <= due
      ensures |queued| <= Clamp(limit, 100, 1, 500)
      ensures |queued| < Clamp(limit, 100, 1, 500) ==>
                forall i :: 0 <= i < |sources| && Rested(old(jobs), sources[i], now) ==> Served(jobs, sources[i])
      ensures forall j :: j in queued ==> RestedAnInterval(old(jobs), sources, now, j)
      ensures |queued| < Clamp(limit, 100, 1, 500) ==> active + |queued| == due
    {
      var cap := ScheduleLimit(limit);
      ScheduleComplete(jobs, sources, ids, now, cap);
      DueNoLonger(jobs, sources, now);
      var order := DueOrder(jobs, sources, now);
      due := |order|;
      jobs, queued, active := QueueDue(jobs, sources, order, ids, now, cap);
      jobs := Trim(jobs);
    }

    /**
      `seen` is the ledger read without the lock, perhaps before others wrote. When
      it shows nothing to claim or sweep the locked pass is skipped, and then that
      pass could only have changed records that are not in `seen`.
     */
    method ClaimJobs(seen: seq<RefreshJob>, worker: string, at: int, leaseMs: Option<int>, limit: Option<int>)
      returns (taken: seq<RefreshJob>)
      modifies this
      ensures WorthLocking(REFRESH_RULE, seen, at, LeaseMs(leaseMs)) || seen == old(jobs) ==>
                && jobs == After(old(jobs), Claim(worker, at, leaseMs, limit))
                && InTurn(REFRESH_RULE, old(jobs), worker, at, leaseMs, limit, taken)
      ensures WorthLocking(REFRESH_RULE, seen, at, LeaseMs(leaseMs)) ==>
                FairPass(false, true, old(jobs), jobs, taken, worker, at,
                         Clamp(leaseMs, 120_000, 1_000, 900_000), Clamp(limit, 2, 1, 20))
      ensures !WorthLocking(REFRESH_RULE, seen, at, LeaseMs(leaseMs)) ==>
                && jobs == old(jobs) && taken == []
                && OnlyNewsMissed(seen, jobs, After(jobs, Claim(worker, at, leaseMs, limit)))
    {
      if !WorthLocking(REFRESH_RULE, seen, at, LeaseMs(leaseMs)) {
        NothingInTurn(REFRESH_RULE, seen, worker, at, leaseMs, limit);
        MissesOnlyNews(REFRESH_RULE, seen, jobs, worker, at, leaseMs, limit);
        return [];
      }
      jobs, taken := RunPass(REFRESH_RULE, jobs, worker, at, leaseMs, limit);
    }

    method CompleteJob(id: int, worker: string, at: int, outcome: Outcome, revision: int, etag: Option<string>)
      returns (r: Result<RefreshJob, Error>)
      modifies this
      ensures jobs == After(old(jobs), Complete(id, worker, at, outcome, revision, etag))
      ensures r.Ok? <==> Holds(old(jobs), id, worker)
      ensures r.Ok? ==> r.value in jobs && r.value.id == id
      ensures r == Err(NotFound) <==> !Present(old(jobs), id)
      ensures r.Ok? ==>
                && EndedAs(old(jobs)[Find(old(jobs), id)], r.value, Completed, at, None) && Free(r.value)
                && r.value.payload ==
                   Payload(old(jobs)[Find(old(jobs), id)].payload.key, Some(outcome), Some(revision), etag)
                && jobs == old(jobs)[Find(old(jobs), id) := r.value]
      ensures r.Err? ==> jobs == old(jobs)
    {
      var k := Find(jobs, id);
      if k == |jobs| {
        return Err(NotFound);
      }
      var job := jobs[k];
      if !job.status.Claimed? || job.claimedBy != Some(worker) {
        return Err(ClaimLost);
      }
      job := job.(status := Completed, updatedAt := at, completedAt := Some(at), claimedAt := None,
                  claimedBy := None, error := None,
                  payload := job.payload.(outcome := Some(outcome), resultRevision := Some(revision), etag := etag));
      jobs := jobs[k := job];
      assert jobs[k] == job;
      return Ok(job);
    }

    method StaleJob(id: int, worker: string, at: int, reason: string) returns (r: Result<RefreshJob, Error>)
      modifies this
      ensures jobs == After(old(jobs), MarkStale(id, worker, at, reason))
      ensures r.Ok? <==> Holds(old(jobs), id, worker)
      ensures r.Ok? ==> r.value in jobs && r.value.id == id
      ensures r == Err(NotFound) <==> !Present(old(jobs), id)
      ensures r.Ok? ==>
                && EndedAs(old(jobs)[Find(old(jobs), id)], r.value, Stale, at, Some(reason)) && Free(r.value)
                && r.value.payload == old(jobs)[Find(old(jobs), id)].payload
                && jobs == old(jobs)[Find(old(jobs), id) := r.value]
      ensures r.Err? ==> jobs == old(jobs)
    {
      var k := Find(jobs, id);
      if k == |jobs| {
        return Err(NotFound);
      }
      var job := jobs[k];
      if !job.status.Claimed? || job.claimedBy != Some(worker) {
        return Err(ClaimLost);
      }
      job := job.(status := Stale, error := Some(reason), updatedAt := at, completedAt := Some(at),
                  claimedAt := None, claimedBy := None);
      jobs := jobs[k := job];
      assert jobs[k] == job;
      return Ok(job);
    }

    method RetryJob(id: int, worker: string, at: int, delayMs: Option<int>, reason: string)
      returns (r: Result<RefreshJob, Error>)
      modifies this
      ensures jobs == After(old(jobs), GiveBack(id, worker, at, delayMs, reason))
      ensures r.Ok? <==> Holds(old(jobs), id, worker)
      ensures r.Ok? ==> r.value in jobs && r.value.id == id
      ensures r == Err(NotFound) <==> !Present(old(jobs), id)
      ensures r.Ok? ==>
                && GivenBack(old(jobs)[Find(old(jobs), id)], r.value, at,
                             at + Clamp(delayMs, 5_000, 1_000, 900_000), reason)
                && jobs == old(jobs)[Find(old(jobs), id) := r.value]
      ensures r.Err? ==> jobs == old(jobs)
    {
      var k := Find(jobs, id);
      if k == |jobs| {
        return Err(NotFound);
      }
      var job := jobs[k];
      if !job.status.Claimed? || job.claimedBy != Some(worker) {
        return Err(ClaimLost);
      }
      var terminal := job.attempts >= job.maxAttempts;
      job := job.(status := if terminal then Failed else Pending, error := Some(reason), updatedAt := at,
                  claimedAt := None, claimedBy := None);
      if terminal {
        job := job.(completedAt := Some(at));
      } else {
        job := job.(availableAt := at + RetryDelay(delayMs));
      }
      jobs := jobs[k := job];
      assert jobs[k] == job;
      return Ok(job);
    }
  }
}
