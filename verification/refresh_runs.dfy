/** What holds of the refresh ledger over whole runs, and of one scheduling pass. */
module RefreshRuns {
  import opened Wrappers
  import opened Ordering
  import opened Lease
  import opened LeaseTrim
  import opened LeaseRuns
  import opened Refresh

  // ----------------------------------------------------- repeating a pass

  /** New activity at time `now` only moves a source's baseline to `now` or later, or not at all. */
  lemma BaselineAfter(jobs: seq<RefreshJob>, batch: seq<RefreshJob>, s: Source, now: int)
    requires forall j :: j in batch ==> j.updatedAt == now
    ensures Baseline(jobs + batch, s) >= now || Baseline(jobs + batch, s) == Baseline(jobs, s)
    ensures (forall j :: j in batch ==> !Matches(j, s)) || Baseline(jobs + batch, s) >= now
  {
  }

  lemma NothingQueued(jobs: seq<RefreshJob>, sources: seq<Source>, due: seq<Slot>, ids: seq<int>,
                      now: int, limit: int, p: nat)
    requires p <= |due| <= |ids|
    requires Addressable(sources, due)
    requires forall x :: x in due ==> HasLive(jobs, KeyOf(sources[x.index]))
    ensures Queued(jobs, sources, due, ids, now, limit, p) == []
  {
  }

  /**
    Repeating a scheduling pass at once queues nothing, whatever its limit and
    ids, when the first pass stayed under its limit and nothing was trimmed.
   */
  lemma RepeatQueuesNothing(jobs: seq<RefreshJob>, sources: seq<Source>, ids: seq<int>, ids': seq<int>,
                            now: int, limit: int, limit': int)
    requires EnoughIds(sources, ids) && EnoughIds(sources, ids')
    requires |Schedule(jobs, sources, ids, now, limit)| < limit
    ensures Schedule(jobs + Schedule(jobs, sources, ids, now, limit), sources, ids', now, limit') == []
  {
    var batch := Schedule(jobs, sources, ids, now, limit);
    DueNoLonger(jobs, sources, now);
    var due := DueOrder(jobs, sources, now);
    QueuedForDue(jobs, sources, due, ids, now, limit, |due|);
    var after := jobs + batch;
    DueNoLonger(after, sources, now);
    var due' := DueOrder(after, sources, now);
    forall x | x in due'
      ensures x.index < |sources| && sources[x.index].uri.Some? && HasLive(after, KeyOf(sources[x.index]))
    {
      var s := sources[x.index];
      assert Due(after, s, now);
      forall j | j in batch ensures j.updatedAt == now {
        assert QueuedFor(jobs, sources, now, j);
      }
      BaselineAfter(jobs, batch, s, now);
      assert Due(jobs, s, now);
      var p :| 0 <= p < |due| && due[p].index == x.index;
      QueuedCovers(jobs, sources, due, ids, now, limit, p);
    }
    NothingQueued(after, sources, due', ids', now, limit', |due'|);
  }

  // ---------------------------------------------------------------- the store

  function StoreRun(calls: seq<Call>): seq<RefreshJob>
  {
    if calls == [] then [] else After(StoreRun(calls[..|calls| - 1]), calls[|calls| - 1])
  }

  /** The protocol operations behind a run of store calls. */
  function Lowered(calls: seq<Call>): seq<Op<Payload>>
  {
    if calls == [] then []
    else
      var before := calls[..|calls| - 1];
      var op := Lower(StoreRun(before), calls[|calls| - 1]);
      Lowered(before) + (if op.Some? then [op.value] else [])
  }

  lemma {:induction false} StoreRunIsLedgerRun(calls: seq<Call>)
    ensures StoreRun(calls) == Run(REFRESH_RULE, Lowered(calls))
  {
    if calls != [] {
      var before := calls[..|calls| - 1];
      StoreRunIsLedgerRun(before);
      var op := Lower(StoreRun(before), calls[|calls| - 1]);
      if op.Some? {
        assert Lowered(calls)[..|Lowered(calls)| - 1] == Lowered(before);
      } else {
        assert Lowered(calls) == Lowered(before);
      }
    }
  }

  /** The operations behind a run begin with those behind its beginning. */
  lemma {:induction false} LoweredBegins(calls: seq<Call>, n: nat)
    requires n <= |calls|
    ensures Lowered(calls[..n]) <= Lowered(calls)
  {
    if n == |calls| {
      assert calls[..n] == calls;
    } else {
      assert calls[..|calls| - 1][..n] == calls[..n];
      LoweredBegins(calls[..|calls| - 1], n);
    }
  }

  lemma BeginningValid(calls: seq<Call>, n: nat)
    requires n <= |calls| && ValidRun(REFRESH_RULE, Lowered(calls))
    ensures ValidRun(REFRESH_RULE, Lowered(calls[..n]))
  {
    LoweredBegins(calls, n);
    PrefixValid(REFRESH_RULE, Lowered(calls), |Lowered(calls[..n])|);
    assert Lowered(calls)[..|Lowered(calls[..n])|] == Lowered(calls[..n]);
  }

  lemma {:induction false} QueuedUnique(jobs: seq<RefreshJob>, sources: seq<Source>, due: seq<Slot>, ids: seq<int>,
                                        now: int, limit: int, p: nat)
    requires p <= |due| <= |ids|
    requires Addressable(sources, due)
    requires LiveUnique(jobs)
    ensures LiveUnique(jobs + Queued(jobs, sources, due, ids, now, limit, p))
  {
    var batch := Queued(jobs, sources, due, ids, now, limit, p);
    if p == 0 {
      assert jobs + batch == jobs;
    } else {
      var before := Queued(jobs, sources, due, ids, now, limit, p - 1);
      QueuedUnique(jobs, sources, due, ids, now, limit, p - 1);
      if batch != before {
        PushUnique(jobs + before, batch[|before|]);
        assert jobs + batch == jobs + before + [batch[|before|]];
      }
    }
  }

  lemma PushUnique(jobs: seq<RefreshJob>, j: RefreshJob)
    requires LiveUnique(jobs) && !HasLive(jobs, j.payload.key)
    ensures LiveUnique(jobs + [j])
  {
  }

  /** Every call keeps at most one live job per key. */
  lemma AfterKeepsUnique(jobs: seq<RefreshJob>, call: Call)
    requires UniqueIds(jobs) && LiveUnique(jobs)
    requires var op := Lower(jobs, call); op.Some? && op.value.Add? ==> UniqueIds(jobs + op.value.batch)
    ensures LiveUnique(After(jobs, call))
  {
    var op := Lower(jobs, call);
    match op
    case None =>
    case Some(Add(batch)) =>
      if call.EnqueueDue? {
        DueNoLonger(jobs, call.sources, call.at);
        var due := DueOrder(jobs, call.sources, call.at);
        QueuedUnique(jobs, call.sources, due, call.ids, call.at, ScheduleLimit(call.limit), |due|);
      } else {
        PushUnique(jobs, batch[0]);
        assert batch == [batch[0]];
      }
      TrimUnique(jobs + batch);
    case Some(o) =>
      ApplyPointwise(REFRESH_RULE, jobs, o);
      KeysStay(jobs, call);
  }

  lemma KeysStay(jobs: seq<RefreshJob>, call: Call)
    requires UniqueIds(jobs) && LiveUnique(jobs)
    requires Lower(jobs, call).Some? && !Lower(jobs, call).value.Add?
    ensures LiveUnique(After(jobs, call))
  {
    var after := After(jobs, call);
    ApplyPointwise(REFRESH_RULE, jobs, Lower(jobs, call).value);
    forall k | 0 <= k < |jobs|
      ensures KeyKept(jobs[k], after[k])
    {
      KeyStays(jobs, call, k);
    }
    KeptUnique(jobs, after);
  }

  predicate KeyKept(before: RefreshJob, now: RefreshJob) {
    now.id == before.id && now.payload.key == before.payload.key && (now.Live() ==> before.Live())
  }

  lemma KeyStays(jobs: seq<RefreshJob>, call: Call, k: nat)
    requires UniqueIds(jobs) && k < |jobs|
    requires Lower(jobs, call).Some? && !Lower(jobs, call).value.Add?
    ensures KeyKept(jobs[k], JobAfter(REFRESH_RULE, jobs, Lower(jobs, call).value, k))
  {
    FindUnique(jobs, k);
  }

  lemma KeptUnique(jobs: seq<RefreshJob>, after: seq<RefreshJob>)
    requires LiveUnique(jobs) && |after| == |jobs|
    requires forall k :: 0 <= k < |jobs| ==> KeyKept(jobs[k], after[k])
    ensures LiveUnique(after)
  {
    forall a, b | a in after && b in after && a.Live() && b.Live() && a.payload.key == b.payload.key
      ensures a.id == b.id
    {
      var i :| 0 <= i < |after| && after[i] == a;
      var k :| 0 <= k < |after| && after[k] == b;
      assert jobs[i] in jobs && jobs[k] in jobs;
    }
  }

  /**
    In every state the store can reach there is at most one live job per
    (workspace, source, revision, uri), and each job's history is legal.
   */
  lemma {:induction false} ReachableUnique(calls: seq<Call>)
    requires ValidRun(REFRESH_RULE, Lowered(calls))
    ensures LiveUnique(StoreRun(calls))
    ensures Inv(REFRESH_RULE, StoreRun(calls))
    ensures forall id :: Legal(History(REFRESH_RULE, Lowered(calls), id))
  {
    StoreRunIsLedgerRun(calls);
    RunInv(REFRESH_RULE, Lowered(calls));
    forall id ensures Legal(History(REFRESH_RULE, Lowered(calls), id)) {
      HistoryLegal(REFRESH_RULE, Lowered(calls), id);
    }
    if calls != [] {
      var before := calls[..|calls| - 1];
      var jobs := StoreRun(before);
      var op := Lower(jobs, calls[|calls| - 1]);
      assert Lowered(before) == Lowered(calls)[..|Lowered(before)|];
      PrefixValid(REFRESH_RULE, Lowered(calls), |Lowered(before)|);
      ReachableUnique(before);
      if op.Some? && op.value.Add? {
        StoreRunIsLedgerRun(before);
        RunInv(REFRESH_RULE, Lowered(before));
        assert Fresh(REFRESH_RULE, Lowered(calls)[|Lowered(before)|], Issued(Lowered(before)));
        AllDistinct(jobs, op.value.batch, Issued(Lowered(before)));
      }
      AfterKeepsUnique(jobs, calls[|calls| - 1]);
    }
  }

  lemma AllDistinct(jobs: seq<RefreshJob>, batch: seq<RefreshJob>, issued: set<int>)
    requires UniqueIds(jobs) && UniqueIds(batch)
    requires forall j :: j in jobs ==> j.id in issued
    requires forall j :: j in batch ==> j.id !in issued
    ensures UniqueIds(jobs + batch)
  {
  }
}
