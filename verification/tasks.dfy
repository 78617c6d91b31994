/** The ledger of delegated-agent tasks. */
module Tasks {
  import opened Wrappers
  import opened Lease
  import opened LeaseTrim
  import opened LeaseRuns
  import opened ClaimPasses

  /** `continuation` is the run scheduled to report the task's outcome to its thread. */
  datatype Payload = Payload(parentRun: string, continuation: Option<string>, scheduledAt: Option<int>)

  type Task = Job<Payload>

  datatype Call =
    | Create(taskId: int, parentRun: string, at: int)
    | Claim(worker: string, at: int, leaseMs: Option<int>, limit: Option<int>)
    | Complete(taskId: int, worker: string, at: int, stale: bool, error: Option<string>)
    | GiveBack(taskId: int, worker: string, at: int, delayMs: Option<int>, reason: string)
    | CancelTask(taskId: int, at: int)
    | MarkContinuation(taskId: int, run: string, at: int)

  function NewTask(id: int, parentRun: string, at: int): Task {
    NewJob(TASK_RULE, id, Payload(parentRun, None, None), at)
  }

  predicate Continuable(s: seq<Task>, id: int, run: string) {
    && Present(s, id)
    && var t := s[Find(s, id)];
       t.status in {Completed, Failed, Stale} && t.payload.continuation in {None, Some(run)}
  }

  function Marked(p: Payload, run: string, at: int): Payload {
    p.(continuation := Some(run), scheduledAt := if p.scheduledAt.Some? then p.scheduledAt else Some(at))
  }

  function Lower(s: seq<Task>, call: Call): Option<Op<Payload>> {
    match call
    case Create(id, parentRun, at) => Some(Add([NewTask(id, parentRun, at)]))
    case Claim(worker, at, leaseMs, limit) => Some(ClaimPass(worker, at, leaseMs, limit))
    case Complete(id, worker, at, stale, error) =>
      if Present(s, id) then Some(Finish(id, worker, at, stale, s[Find(s, id)].payload, error)) else None
    case GiveBack(id, worker, at, delayMs, reason) => Some(Retry(id, worker, at, at + RetryDelay(delayMs), reason))
    case CancelTask(id, at) => Some(Cancel(id, at))
    case MarkContinuation(id, run, at) =>
      if Continuable(s, id, run) then Some(Annotate(id, at, Marked(s[Find(s, id)].payload, run, at))) else None
  }

  function After(s: seq<Task>, call: Call): seq<Task> {
    var op := Lower(s, call);
    if op.Some? then Apply(TASK_RULE, s, op.value) else s
  }

  datatype Error = NotFound | ClaimLost | Terminal | NotTerminal | ContinuationConflict

  class TaskStore {
    var tasks: seq<Task>

    constructor ()
      ensures tasks == []
    {
      tasks := [];
    }

    method CreateTask(id: int, parentRun: string, at: int) returns (task: Task)
      modifies this
      ensures tasks == After(old(tasks), Create(id, parentRun, at))
      ensures LiveJobs(tasks) == LiveJobs(old(tasks)) + [task]
      ensures task.id == id && task.payload == Payload(parentRun, None, None) && task.status == Pending
      ensures task.attempts == 0 && task.maxAttempts == 3 && task.createdAt == task.availableAt == at && Free(task)
    {
      task := NewTask(id, parentRun, at);
      LiveOfConcat(tasks, [task]);
      TrimExact(tasks + [task]);
      AllLive([task]);
      tasks := tasks + [task];
      if |tasks| > LEDGER_LIMIT {
        var active := LiveJobs(tasks);
        var terminal := SliceFromEnd(EndedJobs(tasks), Max(0, LEDGER_LIMIT - |active|));
        tasks := terminal + active;
      }
    }

    method ClaimTasks(worker: string, at: int, leaseMs: Option<int>, limit: Option<int>) returns (taken: seq<Task>)
      modifies this
      ensures tasks == After(old(tasks), Claim(worker, at, leaseMs, limit))
      ensures InTurn(TASK_RULE, old(tasks), worker, at, leaseMs, limit, taken)
      ensures FairPass(true, false, old(tasks), tasks, taken, worker, at,
                       Clamp(leaseMs, 120_000, 1_000, 900_000), Clamp(limit, 2, 1, 20))
    {
      tasks, taken := RunPass(TASK_RULE, tasks, worker, at, leaseMs, limit);
    }

    method CompleteTask(id: int, worker: string, at: int, stale: bool, error: Option<string>)
      returns (r: Result<Task, Error>)
      modifies this
      ensures tasks == After(old(tasks), Complete(id, worker, at, stale, error))
      ensures r.Ok? <==> Holds(old(tasks), id, worker)
      ensures r.Ok? ==> r.value in tasks && r.value.id == id
      ensures r == Err(NotFound) <==> !Present(old(tasks), id)
      ensures r.Ok? ==>
                && EndedAs(old(tasks)[Find(old(tasks), id)], r.value, if stale then Stale else Completed, at, error)
                && r.value.payload == old(tasks)[Find(old(tasks), id)].payload
                && tasks == old(tasks)[Find(old(tasks), id) := r.value]
      ensures r.Err? ==> tasks == old(tasks)
    {
      var k := Find(tasks, id);
      if k == |tasks| {
        return Err(NotFound);
      }
      var task := tasks[k];
      if !task.status.Claimed? || task.claimedBy != Some(worker) {
        return Err(ClaimLost);
      }
      task := task.(status := if stale then Stale else Completed, error := error,
                    completedAt := Some(at), updatedAt := at);
      tasks := tasks[k := task];
      assert tasks[k] == task;
      return Ok(task);
    }

    method RetryTask(id: int, worker: string, at: int, delayMs: Option<int>, reason: string)
      returns (r: Result<Task, Error>)
      modifies this
      ensures tasks == After(old(tasks), GiveBack(id, worker, at, delayMs, reason))
      ensures r.Ok? <==> Holds(old(tasks), id, worker)
      ensures r.Ok? ==> r.value in tasks && r.value.id == id
      ensures r == Err(NotFound) <==> !Present(old(tasks), id)
      ensures r.Ok? ==>
                && GivenBack(old(tasks)[Find(old(tasks), id)], r.value, at,
                             at + Clamp(delayMs, 5_000, 1_000, 900_000), reason)
                && tasks == old(tasks)[Find(old(tasks), id) := r.value]
      ensures r.Err? ==> tasks == old(tasks)
    {
      var k := Find(tasks, id);
      if k == |tasks| {
        return Err(NotFound);
      }
      var task := tasks[k];
      if !task.status.Claimed? || task.claimedBy != Some(worker) {
        return Err(ClaimLost);
      }
      var terminal := task.attempts >= task.maxAttempts;
      task := task.(status := if terminal then Failed else Pending, error := Some(reason), updatedAt := at,
                    claimedAt := None, claimedBy := None);
      if terminal {
        task := task.(completedAt := Some(at));
      } else {
        task := task.(availableAt := at + RetryDelay(delayMs));
      }
      tasks := tasks[k := task];
      assert tasks[k] == task;
      return Ok(task);
    }

    method CancelOne(id: int, at: int) returns (r: Result<Task, Error>)
      modifies this
      ensures tasks == After(old(tasks), CancelTask(id, at))
      ensures r.Ok? <==> Present(old(tasks), id) && old(tasks)[Find(old(tasks), id)].Live()
      ensures r.Ok? ==> r.value in tasks && r.value.id == id && r.value.status.Cancelled?
      ensures r == Err(NotFound) <==> !Present(old(tasks), id)
      ensures r.Ok? ==> tasks == old(tasks)[Find(old(tasks), id) := r.value]
      ensures r.Err? ==> tasks == old(tasks)
    {
      var k := Find(tasks, id);
      if k == |tasks| {
        return Err(NotFound);
      }
      if tasks[k].status in {Completed, Failed, Cancelled, Stale} {
        return Err(Terminal);
      }
      var task := tasks[k].(status := Cancelled, updatedAt := at);
      tasks := tasks[k := task];
      assert tasks[k] == task;
      return Ok(task);
    }

    method Continue(id: int, run: string, at: int) returns (r: Result<Task, Error>)
      modifies this
      ensures tasks == After(old(tasks), MarkContinuation(id, run, at))
      ensures r.Ok? <==> Continuable(old(tasks), id, run)
      ensures r.Ok? ==> r.value in tasks && r.value.id == id && r.value.payload.continuation == Some(run)
      ensures r == Err(NotFound) <==> !Present(old(tasks), id)
      ensures r.Ok? ==>
                && r.value.status == old(tasks)[Find(old(tasks), id)].status
                && r.value.payload.parentRun == old(tasks)[Find(old(tasks), id)].payload.parentRun
                && r.value.payload.scheduledAt ==
                   (if old(tasks)[Find(old(tasks), id)].payload.scheduledAt.Some?
                    then old(tasks)[Find(old(tasks), id)].payload.scheduledAt else Some(at))
                && tasks == old(tasks)[Find(old(tasks), id) := r.value]
      ensures r.Err? ==> tasks == old(tasks)
    {
      var k := Find(tasks, id);
      if k == |tasks| {
        return Err(NotFound);
      }
      var task := tasks[k];
      if task.status !in {Completed, Failed, Stale} {
        return Err(NotTerminal);
      }
      if task.payload.continuation.Some? && task.payload.continuation.value != run {
        return Err(ContinuationConflict);
      }
      task := task.(payload := Marked(task.payload, run, at), updatedAt := at);
      tasks := tasks[k := task];
      assert tasks[k] == task;
      return Ok(task);
    }
  }

  // --------------------------------------------------------------------- runs

  function StoreRun(calls: seq<Call>): seq<Task> {
    if calls == [] then [] else After(StoreRun(calls[..|calls| - 1]), calls[|calls| - 1])
  }

  function Lowered(calls: seq<Call>): seq<Op<Payload>> {
    if calls == [] then []
    else
      var before := calls[..|calls| - 1];
      var op := Lower(StoreRun(before), calls[|calls| - 1]);
      Lowered(before) + (if op.Some? then [op.value] else [])
  }

  lemma {:induction false} StoreRunIsLedgerRun(calls: seq<Call>)
    ensures StoreRun(calls) == Run(TASK_RULE, Lowered(calls))
  {
    if calls != [] {
      var before := calls[..|calls| - 1];
      StoreRunIsLedgerRun(before);
      var op := Lower(StoreRun(before), calls[|calls| - 1]);
      if op.Some? {
        assert Lowered(calls)[..|Lowered(calls)| - 1] == Lowered(before);
      } else {
        assert Lowered(calls) == Lowered(before);
      }
    }
  }

  /** The operations behind a run begin with those behind its beginning. */
  lemma {:induction false} LoweredBegins(calls: seq<Call>, n: nat)
    requires n <= |calls|
    ensures Lowered(calls[..n]) <= Lowered(calls)
  {
    if n == |calls| {
      assert calls[..n] == calls;
    } else {
      assert calls[..|calls| - 1][..n] == calls[..n];
      LoweredBegins(calls[..|calls| - 1], n);
    }
  }

  lemma BeginningValid(calls: seq<Call>, n: nat)
    requires n <= |calls| && ValidRun(TASK_RULE, Lowered(calls))
    ensures ValidRun(TASK_RULE, Lowered(calls[..n]))
  {
    LoweredBegins(calls, n);
    PrefixValid(TASK_RULE, Lowered(calls), |Lowered(calls[..n])|);
    assert Lowered(calls)[..|Lowered(calls[..n])|] == Lowered(calls[..n]);
  }

  /** Only tasks that ended by themselves have a continuation; a cancelled one never has. */
  ghost predicate ContinuationsLate(s: seq<Task>) {
    forall t :: t in s && t.payload.continuation.Some? ==> t.status in {Completed, Failed, Stale}
  }

  lemma LateStays(s: seq<Task>, call: Call, k: nat)
    requires UniqueIds(s) && ContinuationsLate(s) && k < |s|
    requires Lower(s, call).Some? && !call.Create?
    ensures var t := JobAfter(TASK_RULE, s, Lower(s, call).value, k);
            t.payload.continuation.Some? ==> t.status in {Completed, Failed, Stale}
  {
    FindUnique(s, k);
    assert s[k] in s;
  }

  lemma AfterKeepsLate(s: seq<Task>, call: Call)
    requires UniqueIds(s) && ContinuationsLate(s)
    requires call.Create? ==> UniqueIds(s + [NewTask(call.taskId, call.parentRun, call.at)])
    ensures ContinuationsLate(After(s, call))
  {
    var op := Lower(s, call);
    if call.Create? {
      TrimUnique(s + op.value.batch);
    } else if op.Some? {
      ApplyPointwise(TASK_RULE, s, op.value);
      forall t | t in After(s, call) && t.payload.continuation.Some? ensures t.status in {Completed, Failed, Stale} {
        var k :| 0 <= k < |s| && After(s, call)[k] == t;
        LateStays(s, call, k);
      }
    }
  }

  function ContinuationOf(s: seq<Task>, id: int): Option<string> {
    if Present(s, id) then s[Find(s, id)].payload.continuation else None
  }

  /** One more call leaves a scheduled continuation as it is, or has dropped the task. */
  lemma AfterKeepsContinuation(s: seq<Task>, call: Call, id: int, issued: set<int>)
    requires Inv(TASK_RULE, s) && ContinuationsLate(s) && id in issued
    requires forall t :: t in s ==> t.id in issued
    requires call.Create? ==> call.taskId !in issued
    requires ContinuationOf(s, id).Some?
    ensures Present(After(s, call), id) ==> ContinuationOf(After(s, call), id) == ContinuationOf(s, id)
  {
    var op := Lower(s, call);
    assert s[Find(s, id)] in s;
    if call.Create? {
      AddFind(TASK_RULE, s, op.value, id, issued);
    } else if op.Some? {
      SamePositions(TASK_RULE, s, op.value, id);
    }
  }

  lemma {:induction false} ReachableLate(calls: seq<Call>)
    requires ValidRun(TASK_RULE, Lowered(calls))
    ensures ContinuationsLate(StoreRun(calls))
    ensures Inv(TASK_RULE, StoreRun(calls))
    ensures forall t :: t in StoreRun(calls) ==> t.id in Issued(Lowered(calls))
  {
    StoreRunIsLedgerRun(calls);
    RunInv(TASK_RULE, Lowered(calls));
    if calls != [] {
      var before := calls[..|calls| - 1];
      LoweredPrefix(calls);
      ReachableLate(before);
      var call, s := calls[|calls| - 1], StoreRun(before);
      if call.Create? {
        CreatedIsFresh(calls);
        var t := NewTask(call.taskId, call.parentRun, call.at);
        forall i | 0 <= i < |s| ensures s[i].id != t.id {
          assert s[i] in s;
        }
      }
      AfterKeepsLate(s, call);
    }
  }

  lemma CreatedIsFresh(calls: seq<Call>)
    requires calls != [] && calls[|calls| - 1].Create? && ValidRun(TASK_RULE, Lowered(calls))
    ensures calls[|calls| - 1].taskId !in Issued(Lowered(calls[..|calls| - 1]))
  {
    var before, call := calls[..|calls| - 1], calls[|calls| - 1];
    var batch := [NewTask(call.taskId, call.parentRun, call.at)];
    var n := |Lowered(before)|;
    assert Lowered(calls)[n] == Add(batch) && Lowered(calls)[..n] == Lowered(before);
    assert Fresh(TASK_RULE, Lowered(calls)[n], Issued(Lowered(calls)[..n]));
    assert batch[0] in batch;
  }

  /**
    A task gets at most one continuation run and a cancelled task gets none:
    in every run, once a continuation is recorded it stays the same for as
    long as the task is in the ledger, and only completed, failed and stale
    tasks have one.
   */
  lemma {:induction false} OneContinuation(calls: seq<Call>, n: nat, id: int)
    requires ValidRun(TASK_RULE, Lowered(calls)) && n <= |calls|
    requires ContinuationOf(StoreRun(calls[..n]), id).Some?
    ensures id in Issued(Lowered(calls))
    ensures Present(StoreRun(calls), id) ==>
      && ContinuationOf(StoreRun(calls), id) == ContinuationOf(StoreRun(calls[..n]), id)
      && StatusOf(StoreRun(calls), id) != Some(Cancelled)
  {
    if n == |calls| {
      assert calls[..n] == calls;
      PresentIsIssued(calls, id);
    } else {
      var before := calls[..|calls| - 1];
      assert before[..n] == calls[..n];
      LoweredPrefix(calls);
      OneContinuation(before, n, id);
      IssuedStep(calls);
      ReachableLate(before);
      if calls[|calls| - 1].Create? {
        CreatedIsFresh(calls);
      }
      StaysGone(StoreRun(before), calls[|calls| - 1], id, Issued(Lowered(before)));
      if Present(StoreRun(before), id) {
        AfterKeepsContinuation(StoreRun(before), calls[|calls| - 1], id, Issued(Lowered(before)));
      }
    }
    NotCancelled(calls, id);
  }

  lemma NotCancelled(calls: seq<Call>, id: int)
    requires ValidRun(TASK_RULE, Lowered(calls))
    ensures ContinuationOf(StoreRun(calls), id).Some? ==> StatusOf(StoreRun(calls), id) != Some(Cancelled)
  {
    ReachableLate(calls);
    var s := StoreRun(calls);
    if Present(s, id) {
      assert s[Find(s, id)] in s;
    }
  }

  lemma LoweredPrefix(calls: seq<Call>)
    requires calls != [] && ValidRun(TASK_RULE, Lowered(calls))
    ensures ValidRun(TASK_RULE, Lowered(calls[..|calls| - 1]))
  {
    var before := calls[..|calls| - 1];
    assert Lowered(before) == Lowered(calls)[..|Lowered(before)|];
    PrefixValid(TASK_RULE, Lowered(calls), |Lowered(before)|);
  }

  lemma StaysGone(s: seq<Task>, call: Call, id: int, issued: set<int>)
    requires Inv(TASK_RULE, s) && id in issued
    requires forall t :: t in s ==> t.id in issued
    requires call.Create? ==> call.taskId !in issued
    ensures Present(After(s, call), id) ==> Present(s, id)
  {
    var op := Lower(s, call);
    if op.Some? {
      if op.value.Add? {
        AddFind(TASK_RULE, s, op.value, id, issued);
      } else {
        SamePositions(TASK_RULE, s, op.value, id);
      }
    }
  }

  lemma PresentIsIssued(calls: seq<Call>, id: int)
    requires ValidRun(TASK_RULE, Lowered(calls)) && Present(StoreRun(calls), id)
    ensures id in Issued(Lowered(calls))
  {
    ReachableLate(calls);
    var s := StoreRun(calls);
    assert s[Find(s, id)] in s;
  }

  lemma IssuedStep(calls: seq<Call>)
    requires calls != []
    ensures Issued(Lowered(calls[..|calls| - 1])) <= Issued(Lowered(calls))
  {
    var before := calls[..|calls| - 1];
    if Lowered(calls) != Lowered(before) {
      assert Lowered(calls)[..|Lowered(calls)| - 1] == Lowered(before);
    }
  }
}
