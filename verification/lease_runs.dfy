/**
  Runs of a ledger: any sequence of operations by any workers, in any order and
  with any timestamps (a claim reads the clock before it waits for the lock, so
  timestamps need not be ordered).
 */
module LeaseRuns {
  import opened Wrappers
  import opened Ordering
  import opened Lease
  import opened LeaseTrim

  ghost predicate Healthy<P>(rule: Rule, j: Job<P>) {
    && j.attempts <= j.maxAttempts == rule.maxAttempts
    && (j.status.Pending? ==> j.attempts < j.maxAttempts && j.claimedBy.None?)
    && (j.status.Claimed? ==> j.claimedAt.Some? && j.claimedBy.Some? && j.attempts >= 1)
  }

  ghost predicate Inv<P>(rule: Rule, s: seq<Job<P>>) {
    UniqueIds(s) && forall j :: j in s ==> Healthy(rule, j)
  }

  ghost function BatchIds<P>(batch: seq<Job<P>>): set<int> {
    set j | j in batch :: j.id
  }

  ghost function AddedIds<P>(op: Op<P>): set<int> {
    match op
    case Add(batch) => BatchIds(batch)
    case _ => {}
  }

  ghost function Issued<P>(ops: seq<Op<P>>): set<int> {
    if ops == [] then {} else Issued(ops[..|ops| - 1]) + AddedIds(ops[|ops| - 1])
  }

  /** Jobs are born pending with ids never used before: ids are random UUIDs. */
  ghost predicate Fresh<P>(rule: Rule, op: Op<P>, issued: set<int>) {
    op.Add? ==>
      && UniqueIds(op.batch)
      && (forall j :: j in op.batch ==> IsNew(rule, j) && j.id !in issued)
  }

  ghost predicate ValidRun<P>(rule: Rule, ops: seq<Op<P>>) {
    forall n :: 0 <= n < |ops| ==> Fresh(rule, ops[n], Issued(ops[..n]))
  }

  function Run<P>(rule: Rule, ops: seq<Op<P>>): seq<Job<P>> {
    if ops == [] then [] else Apply(rule, Run(rule, ops[..|ops| - 1]), ops[|ops| - 1])
  }

  // ------------------------------------------------------- one job's history

  datatype Cause = ByWorker(worker: string) | BySweep(lease: int) | ByCancel

  /** What the workers observe happening to one job. */
  datatype Event =
    | Took(worker: string, at: int, leaseMs: int)
    | Returned(worker: string)
    | Ended(cause: Cause, endedAt: int)

  function EventOf<P>(rule: Rule, s: seq<Job<P>>, op: Op<P>, id: int): seq<Event> {
    if !Present(s, id) then []
    else
      var j := s[Find(s, id)];
      match op
      case Add(_) => []
      case ClaimPass(worker, at, leaseMs, limit) =>
        if Chosen(rule, s, at, LeaseMs(leaseMs), Quota(rule, limit), Find(s, id)) then
          [Took(worker, at, LeaseMs(leaseMs))]
        else if Swept(rule, j, at, LeaseMs(leaseMs)) then [Ended(BySweep(LeaseMs(leaseMs)), at)]
        else []
      case Finish(target, worker, at, _, _, _) =>
        if target == id && Holds(s, id, worker) then [Ended(ByWorker(worker), at)] else []
      case Retry(target, worker, at, _, _) =>
        if target == id && Holds(s, id, worker) then
          if j.attempts >= j.maxAttempts then [Ended(ByWorker(worker), at)] else [Returned(worker)]
        else []
      case Cancel(target, at) =>
        if target == id && j.Live() then [Ended(ByCancel, at)] else []
      case Annotate(_, _, _) => []
  }

  function History<P>(rule: Rule, ops: seq<Op<P>>, id: int): seq<Event> {
    if ops == [] then []
    else
      var before := ops[..|ops| - 1];
      History(rule, before, id) + EventOf(rule, Run(rule, before), ops[|ops| - 1], id)
  }

  /** The worker whose claim is open: the last thing that happened is that it took the job. */
  function Holder(h: seq<Event>): Option<string> {
    if h != [] && h[|h| - 1].Took? then Some(h[|h| - 1].worker) else None
  }

  /** Event k is allowed after the events before it. */
  predicate Allowed(h: seq<Event>, k: nat)
    requires k < |h|
  {
    && (k > 0 ==> !h[k - 1].Ended?)
    && match h[k]
       case Took(_, at, leaseMs) =>
         leaseMs >= 1_000 && (k > 0 && h[k - 1].Took? ==> h[k - 1].at + leaseMs <= at)
       case Returned(worker) => k > 0 && h[k - 1].Took? && h[k - 1].worker == worker
       case Ended(ByWorker(worker), _) => k > 0 && h[k - 1].Took? && h[k - 1].worker == worker
       case Ended(BySweep(leaseMs), at) =>
         leaseMs >= 1_000 && k > 0 && h[k - 1].Took? && h[k - 1].at + leaseMs <= at
       case Ended(ByCancel, _) => true
  }

  predicate Legal(h: seq<Event>) {
    forall k :: 0 <= k < |h| ==> Allowed(h, k)
  }

  function Takes(h: seq<Event>): nat {
    if h == [] then 0 else Takes(h[..|h| - 1]) + (if h[|h| - 1].Took? then 1 else 0)
  }

  /** What is left to a job: falls with every event. */
  function Fuel<P>(j: Job<P>): nat {
    if j.attempts > j.maxAttempts then 0
    else if j.status.Claimed? then 2 * (j.maxAttempts - j.attempts) + 1
    else if j.status.Pending? then 2 * (j.maxAttempts - j.attempts)
    else 0
  }

  /** A job's record is what its history says it is. */
  ghost predicate RecordAgrees<P>(rule: Rule, j: Job<P>, h: seq<Event>) {
    && j.attempts == Takes(h)
    && |h| + Fuel(j) <= 2 * rule.maxAttempts
    && (j.status.Claimed? <==> Holder(h).Some?)
    && (j.status.Claimed? ==> j.claimedBy == Holder(h) && j.claimedAt == Some(h[|h| - 1].at))
    && (!j.Live() <==> h != [] && h[|h| - 1].Ended?)
  }

  /** The ledger agrees with the history of job `id`; a job that is gone had ended. */
  ghost predicate Agrees<P>(rule: Rule, s: seq<Job<P>>, id: int, issued: bool, h: seq<Event>) {
    && (!issued ==> !Present(s, id) && h == [])
    && (issued && !Present(s, id) ==> h != [] && h[|h| - 1].Ended?)
    && |h| <= 2 * rule.maxAttempts
    && (Present(s, id) ==> RecordAgrees(rule, s[Find(s, id)], h))
  }

  // ------------------------------------------------------------------ proofs

  lemma SameIds<P>(a: seq<Job<P>>, b: seq<Job<P>>, id: int)
    requires |a| == |b| && forall i :: 0 <= i < |a| ==> a[i].id == b[i].id
    ensures Find(a, id) == Find(b, id)
  {
  }

  /** The record of job k after an operation that adds nothing. */
  function JobAfter<P>(rule: Rule, s: seq<Job<P>>, op: Op<P>, k: nat): Job<P>
    requires k < |s| && !op.Add?
  {
    var j := s[k];
    match op
    case ClaimPass(worker, at, leaseMs, limit) =>
      ClaimedAt(rule, s, worker, at, LeaseMs(leaseMs), Quota(rule, limit), k)
    case Finish(id, worker, at, stale, payload, error) =>
      if id == j.id && Holds(s, id, worker) then Finished(rule, j, at, stale, payload, error) else j
    case Retry(id, worker, at, retryAt, reason) =>
      if id == j.id && Holds(s, id, worker) then Retried(j, at, retryAt, reason) else j
    case Cancel(id, at) =>
      if id == j.id && j.Live() then j.(status := Cancelled, updatedAt := at) else j
    case Annotate(id, at, payload) =>
      if id == j.id && !j.Live() && !j.status.Cancelled? then j.(payload := payload, updatedAt := at) else j
  }

  lemma ApplyPointwise<P>(rule: Rule, s: seq<Job<P>>, op: Op<P>)
    requires UniqueIds(s) && !op.Add?
    ensures |Apply(rule, s, op)| == |s|
    ensures forall k :: 0 <= k < |s| ==> Apply(rule, s, op)[k] == JobAfter(rule, s, op, k)
  {
  }

  lemma JobAfterHealthy<P>(rule: Rule, s: seq<Job<P>>, op: Op<P>, k: nat)
    requires UniqueIds(s) && !op.Add? && k < |s| && Healthy(rule, s[k])
    ensures Healthy(rule, JobAfter(rule, s, op, k))
    ensures JobAfter(rule, s, op, k).id == s[k].id
  {
  }

  /** Every operation keeps the ledger healthy. */
  lemma ApplyKeepsInv<P>(rule: Rule, s: seq<Job<P>>, op: Op<P>, issued: set<int>)
    requires rule.maxAttempts >= 1
    requires Inv(rule, s) && Fresh(rule, op, issued)
    requires forall j :: j in s ==> j.id in issued
    ensures Inv(rule, Apply(rule, s, op))
    ensures forall j :: j in Apply(rule, s, op) ==> j.id in issued + AddedIds(op)
  {
    var after := Apply(rule, s, op);
    if op.Add? {
      var all := s + op.batch;
      forall i, j | 0 <= i < j < |all| ensures all[i].id != all[j].id {
        if i < |s| <= j {
          assert all[i] in s && all[j] in op.batch;
        }
      }
      assert forall j :: j in all ==> j in s || j in op.batch;
      TrimUnique(all);
    } else {
      ApplyPointwise(rule, s, op);
      forall k | 0 <= k < |s| ensures Healthy(rule, after[k]) && after[k].id == s[k].id {
        assert s[k] in s;
        JobAfterHealthy(rule, s, op, k);
      }
      forall j | j in after ensures Healthy(rule, j) && j.id in issued {
        var k :| 0 <= k < |s| && after[k] == j;
        assert s[k] in s;
      }
    }
  }

  lemma {:induction false} RunInv<P>(rule: Rule, ops: seq<Op<P>>)
    requires rule.maxAttempts >= 1 && ValidRun(rule, ops)
    ensures Inv(rule, Run(rule, ops))
    ensures forall j :: j in Run(rule, ops) ==> j.id in Issued(ops)
  {
    if ops != [] {
      var n := |ops| - 1;
      assert forall m :: 0 <= m < n ==> ops[..n][..m] == ops[..m];
      RunInv(rule, ops[..n]);
      ApplyKeepsInv(rule, Run(rule, ops[..n]), ops[n], Issued(ops[..n]));
    }
  }

  lemma LegalStep(h: seq<Event>, e: seq<Event>)
    requires Legal(h) && |e| <= 1
    requires e != [] ==> Allowed(h + e, |h|)
    ensures Legal(h + e)
  {
    forall k | 0 <= k < |h + e| ensures Allowed(h + e, k) {
      if k < |h| {
        assert Allowed(h, k);
      }
    }
  }

  lemma TookAgrees<P>(rule: Rule, j: Job<P>, h: seq<Event>, worker: string, at: int, lease: int)
    requires RecordAgrees(rule, j, h) && Healthy(rule, j) && Eligible(j, at, lease) && lease >= 1_000
    ensures RecordAgrees(rule, Taken(j, worker, at), h + [Took(worker, at, lease)])
    ensures Allowed(h + [Took(worker, at, lease)], |h|)
  {
  }

  lemma ReturnedAgrees<P>(rule: Rule, j: Job<P>, h: seq<Event>, worker: string, j': Job<P>)
    requires RecordAgrees(rule, j, h) && Healthy(rule, j) && j.status.Claimed? && j.claimedBy == Some(worker)
    requires j'.status.Pending? && j'.attempts == j.attempts && j'.maxAttempts == j.maxAttempts
    ensures RecordAgrees(rule, j', h + [Returned(worker)])
    ensures Allowed(h + [Returned(worker)], |h|)
  {
  }

  /** The cause may end this job. */
  predicate MayEnd<P>(j: Job<P>, cause: Cause, at: int) {
    match cause
    case ByWorker(worker) => j.status.Claimed? && j.claimedBy == Some(worker)
    case BySweep(lease) => lease >= 1_000 && Lost(j, at, lease)
    case ByCancel => j.Live()
  }

  lemma EndedAgrees<P>(rule: Rule, j: Job<P>, h: seq<Event>, cause: Cause, at: int, j': Job<P>)
    requires RecordAgrees(rule, j, h) && Healthy(rule, j) && MayEnd(j, cause, at)
    requires !j'.Live() && j'.attempts == j.attempts && j'.maxAttempts == j.maxAttempts
    ensures RecordAgrees(rule, j', h + [Ended(cause, at)])
    ensures Allowed(h + [Ended(cause, at)], |h|)
  {
  }

  /** The events say how the record changed. */
  ghost predicate Explains<P>(j: Job<P>, j': Job<P>, e: seq<Event>) {
    && |e| <= 1
    && j'.attempts == j.attempts + (if e != [] && e[0].Took? then 1 else 0) && j'.maxAttempts == j.maxAttempts
    && if e == [] then j'.status == j.status && j'.claimedBy == j.claimedBy && j'.claimedAt == j.claimedAt
       else match e[0]
            case Took(worker, at, lease) => lease >= 1_000 && Eligible(j, at, lease) && j' == Taken(j, worker, at)
            case Returned(worker) => j.status.Claimed? && j.claimedBy == Some(worker) && j'.status.Pending?
            case Ended(cause, at) => MayEnd(j, cause, at) && !j'.Live()
  }

  lemma OperationExplained<P>(rule: Rule, s: seq<Job<P>>, op: Op<P>, id: int)
    requires Present(s, id) && !op.Add? && Healthy(rule, s[Find(s, id)])
    ensures Explains(s[Find(s, id)], JobAfter(rule, s, op, Find(s, id)), EventOf(rule, s, op, id))
  {
  }

  lemma RecordFollows<P>(rule: Rule, j: Job<P>, j': Job<P>, e: seq<Event>, h: seq<Event>)
    requires Healthy(rule, j) && RecordAgrees(rule, j, h) && Explains(j, j', e)
    ensures RecordAgrees(rule, j', h + e) && (e != [] ==> Allowed(h + e, |h|))
  {
    if e == [] {
      assert h + e == h;
    } else {
      assert e == [e[0]];
      match e[0]
      case Took(worker, at, lease) => TookAgrees(rule, j, h, worker, at, lease);
      case Returned(worker) => ReturnedAgrees(rule, j, h, worker, j');
      case Ended(cause, at) => EndedAgrees(rule, j, h, cause, at, j');
    }
  }

  /** One record through one operation that adds nothing. */
  lemma RecordStep<P>(rule: Rule, s: seq<Job<P>>, op: Op<P>, id: int, h: seq<Event>)
    requires Present(s, id) && !op.Add?
    requires Healthy(rule, s[Find(s, id)]) && RecordAgrees(rule, s[Find(s, id)], h)
    ensures var e := EventOf(rule, s, op, id);
            && RecordAgrees(rule, JobAfter(rule, s, op, Find(s, id)), h + e)
            && (e != [] ==> Allowed(h + e, |h|))
  {
    OperationExplained(rule, s, op, id);
    RecordFollows(rule, s[Find(s, id)], JobAfter(rule, s, op, Find(s, id)), EventOf(rule, s, op, id), h);
  }

  /**
    Nothing happens to a job without an event, except that a task is annotated;
    and every event uses up some of what is left to the job.
   */
  lemma FuelFalls<P>(rule: Rule, s: seq<Job<P>>, op: Op<P>, id: int)
    requires Present(s, id) && !op.Add? && Healthy(rule, s[Find(s, id)])
    ensures var j, j' := s[Find(s, id)], JobAfter(rule, s, op, Find(s, id));
            && (EventOf(rule, s, op, id) == [] ==>
                  j' == if op.Annotate? then j.(payload := j'.payload, updatedAt := j'.updatedAt) else j)
            && (EventOf(rule, s, op, id) != [] ==> Fuel(j') < Fuel(j))
  {
  }

  lemma StepAgrees<P>(rule: Rule, s: seq<Job<P>>, op: Op<P>, id: int, h: seq<Event>)
    requires Inv(rule, s) && !op.Add? && Present(s, id)
    requires Agrees(rule, s, id, true, h) && Legal(h)
    ensures var e := EventOf(rule, s, op, id);
            && Agrees(rule, Apply(rule, s, op), id, true, h + e)
            && Legal(h + e)
  {
    var k := Find(s, id);
    var e := EventOf(rule, s, op, id);
    assert s[k] in s;
    RecordStep(rule, s, op, id, h);
    LegalStep(h, e);
    SamePositions(rule, s, op, id);
  }

  /** An operation that adds nothing moves no job. */
  lemma SamePositions<P>(rule: Rule, s: seq<Job<P>>, op: Op<P>, id: int)
    requires Inv(rule, s) && !op.Add?
    ensures Find(Apply(rule, s, op), id) == Find(s, id)
    ensures Present(s, id) ==> Apply(rule, s, op)[Find(s, id)] == JobAfter(rule, s, op, Find(s, id))
  {
    var after := Apply(rule, s, op);
    ApplyPointwise(rule, s, op);
    forall i | 0 <= i < |s| ensures after[i].id == s[i].id {
      assert s[i] in s;
      JobAfterHealthy(rule, s, op, i);
    }
    SameIds(s, after, id);
  }

  /** One job through the addition of new jobs, which may drop it if it has ended. */
  lemma AddAgrees<P>(rule: Rule, s: seq<Job<P>>, op: Op<P>, id: int, issued: set<int>, h: seq<Event>)
    requires Inv(rule, s) && op.Add? && Fresh(rule, op, issued)
    requires forall j :: j in s ==> j.id in issued
    requires Agrees(rule, s, id, id in issued, h)
    ensures Agrees(rule, Apply(rule, s, op), id, id in issued + AddedIds(op), h)
  {
    var all := s + op.batch;
    forall i, j | 0 <= i < j < |all| ensures all[i].id != all[j].id {
      if i < |s| <= j {
        assert all[i] in s && all[j] in op.batch;
      }
    }
    TrimFind(all, id);
    if Present(s, id) {
      assert all[Find(s, id)] == s[Find(s, id)];
      FindUnique(all, Find(s, id));
    } else if id in AddedIds(op) {
      var j :| j in op.batch && j.id == id;
      FindMember(all, j);
    } else {
      forall k | 0 <= k < |all| ensures all[k].id != id {
        assert k >= |s| ==> all[k] in op.batch;
      }
    }
  }

  /** One job through any operation. */
  lemma AnyStepAgrees<P>(rule: Rule, s: seq<Job<P>>, op: Op<P>, id: int, issued: set<int>, h: seq<Event>)
    requires Inv(rule, s) && Fresh(rule, op, issued)
    requires forall j :: j in s ==> j.id in issued
    requires Agrees(rule, s, id, id in issued, h) && Legal(h)
    ensures var h' := h + EventOf(rule, s, op, id);
            Agrees(rule, Apply(rule, s, op), id, id in issued + AddedIds(op), h') && Legal(h')
  {
    if op.Add? {
      AddAgrees(rule, s, op, id, issued, h);
      assert h + EventOf(rule, s, op, id) == h;
    } else if Present(s, id) {
      StepAgrees(rule, s, op, id, h);
    } else {
      SamePositions(rule, s, op, id);
      assert h + EventOf(rule, s, op, id) == h;
    }
  }

  /**
    The protocol theorem. In every run, whatever the interleaving, each job's
    history is legal: whoever finishes or returns a job is the worker of its
    most recent claim; a claim is taken over only after its lease ran out;
    nothing happens to a job after it has ended; a job sees at most
    2 * maxAttempts events. The ledger agrees with that history, and a job that
    is no longer in the ledger had ended.
   */
  lemma {:induction false} HistoryLegal<P>(rule: Rule, ops: seq<Op<P>>, id: int)
    requires rule.maxAttempts >= 1 && ValidRun(rule, ops)
    ensures Legal(History(rule, ops, id))
    ensures Agrees(rule, Run(rule, ops), id, id in Issued(ops), History(rule, ops, id))
  {
    if ops != [] {
      var n := |ops| - 1;
      var before := ops[..n];
      assert forall m :: 0 <= m < n ==> before[..m] == ops[..m];
      HistoryLegal(rule, before, id);
      RunInv(rule, before);
      AnyStepAgrees(rule, Run(rule, before), ops[n], id, Issued(before), History(rule, before, id));
    }
  }

  // ------------------------------------------------------------- corollaries

  /**
    The owner fence is exact: worker w can finish or return a job exactly when
    the last thing that happened to the job is that w took it.
   */
  lemma FenceExact<P>(rule: Rule, ops: seq<Op<P>>, id: int, worker: string)
    requires rule.maxAttempts >= 1 && ValidRun(rule, ops)
    ensures Holds(Run(rule, ops), id, worker) <==> Holder(History(rule, ops, id)) == Some(worker)
  {
    HistoryLegal(rule, ops, id);
  }

  lemma PrefixValid<P>(rule: Rule, ops: seq<Op<P>>, n: nat)
    requires ValidRun(rule, ops) && n <= |ops|
    ensures ValidRun(rule, ops[..n])
  {
    assert forall m :: 0 <= m < n ==> ops[..n][..m] == ops[..m];
  }

  lemma OneMoreValid<P>(rule: Rule, ops: seq<Op<P>>, op: Op<P>)
    requires ValidRun(rule, ops) && Fresh(rule, op, Issued(ops))
    ensures ValidRun(rule, ops + [op])
    ensures Issued(ops + [op]) == Issued(ops) + AddedIds(op)
    ensures Run(rule, ops + [op]) == Apply(rule, Run(rule, ops), op)
  {
    assert (ops + [op])[..|ops|] == ops;
    assert forall m :: 0 <= m <= |ops| ==> (ops + [op])[..m] == ops[..m];
    assert ops[..|ops|] == ops;
  }

  predicate Over(h: seq<Event>) { h != [] && h[|h| - 1].Ended? }

  function StatusOf<P>(s: seq<Job<P>>, id: int): Option<Status> {
    if Present(s, id) then Some(s[Find(s, id)].status) else None
  }

  /**
    Outcomes are absorbing: once a job has ended, no later operation of any
    worker adds to its history or changes its status, and a job that was
    dropped from the ledger never comes back.
   */
  lemma {:induction false} OutcomeAbsorbing<P>(rule: Rule, ops: seq<Op<P>>, n: nat, id: int)
    requires rule.maxAttempts >= 1 && ValidRun(rule, ops) && n <= |ops|
    requires Over(History(rule, ops[..n], id))
    ensures History(rule, ops, id) == History(rule, ops[..n], id)
    ensures StatusOf(Run(rule, ops), id) in {None, StatusOf(Run(rule, ops[..n]), id)}
  {
    if n == |ops| {
      assert ops[..n] == ops;
    } else {
      var before := ops[..|ops| - 1];
      assert before[..n] == ops[..n];
      PrefixValid(rule, ops, |ops| - 1);
      OutcomeAbsorbing(rule, before, n, id);
      OneMoreOp(rule, ops, id);
    }
  }

  lemma OneMoreOp<P>(rule: Rule, ops: seq<Op<P>>, id: int)
    requires rule.maxAttempts >= 1 && ValidRun(rule, ops) && ops != []
    requires Over(History(rule, ops[..|ops| - 1], id))
    ensures History(rule, ops, id) == History(rule, ops[..|ops| - 1], id)
    ensures StatusOf(Run(rule, ops), id) in {None, StatusOf(Run(rule, ops[..|ops| - 1]), id)}
  {
    var before := ops[..|ops| - 1];
    PrefixValid(rule, ops, |ops| - 1);
    HistoryLegal(rule, before, id);
    RunInv(rule, before);
    EndedStays(rule, Run(rule, before), ops[|ops| - 1], id, Issued(before));
    assert History(rule, before, id) + [] == History(rule, before, id);
  }

  /** One more operation on a job that has ended. */
  lemma EndedStays<P>(rule: Rule, s: seq<Job<P>>, op: Op<P>, id: int, issued: set<int>)
    requires Inv(rule, s) && Fresh(rule, op, issued) && id in issued
    requires forall j :: j in s ==> j.id in issued
    requires Present(s, id) ==> !s[Find(s, id)].Live()
    ensures EventOf(rule, s, op, id) == []
    ensures var t := Apply(rule, s, op);
      Present(t, id) ==> Present(s, id) && t[Find(t, id)].status == s[Find(s, id)].status
  {
    if op.Add? {
      AddFind(rule, s, op, id, issued);
    } else {
      SamePositions(rule, s, op, id);
    }
  }

  /** Adding new jobs does not touch an issued one, except that an ended job may be dropped. */
  lemma AddFind<P>(rule: Rule, s: seq<Job<P>>, op: Op<P>, id: int, issued: set<int>)
    requires Inv(rule, s) && op.Add? && Fresh(rule, op, issued) && id in issued
    requires forall j :: j in s ==> j.id in issued
    ensures var t := Apply(rule, s, op);
      Present(t, id) ==> Present(s, id) && t[Find(t, id)] == s[Find(s, id)]
  {
    var all := s + op.batch;
    forall i, j | 0 <= i < j < |all| ensures all[i].id != all[j].id {
      if i < |s| <= j {
        assert all[i] in s && all[j] in op.batch;
      }
    }
    TrimFind(all, id);
    if Present(all, id) {
      forall k | |s| <= k < |all| ensures all[k].id != id {
        assert all[k] in op.batch;
      }
      var k := Find(all, id);
      assert all[k] == s[k];
      FindUnique(s, k);
    }
  }
}
