/**
  The four stores behind their lock files: any interleaving of the locking steps,
  holders dying included, in which no takeover deletes the lock of a live agent in
  its section. Readers take no lock.
 */
module StoresUnderLock {
  import opened Wrappers
  import opened LockFile
  import ClaimPasses
  import Knowledge
  import KnowledgeRuns
  import Lease
  import LeaseRuns
  import Operators
  import Refresh
  import RefreshRuns
  import Search
  import SearchAgrees
  import Tasks

  /** A mutation saves what the call made of the state; a call that changes nothing has nothing to save. */
  function Saving<S(==), Op>(after: (S, Op) -> S): (S, Op) -> Option<S> {
    (s: S, op: Op) => if after(s, op) == s then None else Some(after(s, op))
  }

  // ------------------------------------------------------------ refresh ledger

  function RefreshMutation(): (seq<Refresh.RefreshJob>, Refresh.Call) -> Option<seq<Refresh.RefreshJob>> {
    Saving((jobs: seq<Refresh.RefreshJob>, call: Refresh.Call) => Refresh.After(jobs, call))
  }

  lemma {:induction false} RefreshFold(log: seq<Refresh.Call>)
    requires Fold(RefreshMutation(), [], log).Some?
    ensures Fold(RefreshMutation(), [], log) == Some(RefreshRuns.StoreRun(log))
  {
    if log != [] {
      RefreshFold(log[..|log| - 1]);
    }
  }

  /** Every ledger a process can read, at any moment n, is a run of the store over a prefix of the committed calls. */
  lemma RefreshSeen(steps: seq<Step<Refresh.Call>>, n: nat)
    requires n <= |steps| && Exec(RefreshMutation(), [], steps).Some? && Undisturbed(RefreshMutation(), [], steps)
    ensures Exec(RefreshMutation(), [], steps[..n]).Some?
    ensures var seen := Exec(RefreshMutation(), [], steps[..n]).value;
            && seen.log <= Exec(RefreshMutation(), [], steps).value.log
            && seen.file == RefreshRuns.StoreRun(seen.log)
  {
    ReaderSeesPrefix(RefreshMutation(), [], steps, n);
    var seen, late := Exec(RefreshMutation(), [], steps[..n]).value, Exec(RefreshMutation(), [], steps).value;
    assert late.log[..|seen.log|] == seen.log;
    RefreshFold(seen.log);
  }

  /**
    Batches and payloads are computed from the ledger loaded under the lock. At
    every moment of every interleaving at most one live job exists per source,
    revision and uri, every job's history is legal, and the fence is exact.
   */
  lemma RefreshEverywhere(steps: seq<Step<Refresh.Call>>, n: nat, id: int, worker: string)
    requires n <= |steps| && Exec(RefreshMutation(), [], steps).Some? && Undisturbed(RefreshMutation(), [], steps)
    requires LeaseRuns.ValidRun(Lease.REFRESH_RULE, RefreshRuns.Lowered(Exec(RefreshMutation(), [], steps).value.log))
    ensures Exec(RefreshMutation(), [], steps[..n]).Some?
    ensures var seen := Exec(RefreshMutation(), [], steps[..n]).value;
            var history := LeaseRuns.History(Lease.REFRESH_RULE, RefreshRuns.Lowered(seen.log), id);
            && Refresh.LiveUnique(seen.file)
            && LeaseRuns.Legal(history)
            && (Lease.Holds(seen.file, id, worker) <==> LeaseRuns.Holder(history) == Some(worker))
  {
    RefreshSeen(steps, n);
    var seen, late := Exec(RefreshMutation(), [], steps[..n]).value, Exec(RefreshMutation(), [], steps).value;
    assert late.log[..|seen.log|] == seen.log;
    RefreshRuns.BeginningValid(late.log, |seen.log|);
    RefreshRuns.ReachableUnique(seen.log);
    RefreshRuns.StoreRunIsLedgerRun(seen.log);
    LeaseRuns.FenceExact(Lease.REFRESH_RULE, RefreshRuns.Lowered(seen.log), id, worker);
  }

  lemma PassSkipped(seen: seq<Refresh.RefreshJob>, now: seq<Refresh.RefreshJob>, worker: string, at: int,
                    leaseMs: Option<int>, limit: Option<int>)
    requires !ClaimPasses.WorthLocking(Lease.REFRESH_RULE, seen, at, Lease.LeaseMs(leaseMs))
    ensures var claim := Refresh.Claim(worker, at, leaseMs, limit);
            Refresh.After(seen, claim) == seen && ClaimPasses.OnlyNewsMissed(seen, now, Refresh.After(now, claim))
  {
    ClaimPasses.NothingInTurn(Lease.REFRESH_RULE, seen, worker, at, leaseMs, limit);
    ClaimPasses.MissesOnlyNews(Lease.REFRESH_RULE, seen, now, worker, at, leaseMs, limit);
  }

  /** Two moments of one run. */
  lemma RefreshSeenTwice(steps: seq<Step<Refresh.Call>>, m: nat, n: nat)
    requires m <= n <= |steps| && Exec(RefreshMutation(), [], steps).Some? && Undisturbed(RefreshMutation(), [], steps)
    ensures Exec(RefreshMutation(), [], steps[..m]).Some? && Exec(RefreshMutation(), [], steps[..n]).Some?
    ensures var seen := Exec(RefreshMutation(), [], steps[..m]).value;
            var now := Exec(RefreshMutation(), [], steps[..n]).value;
            && seen.file == RefreshRuns.StoreRun(seen.log) && now.file == RefreshRuns.StoreRun(now.log)
            && seen.log <= now.log
  {
    TwoMoments(RefreshMutation(), [], steps, m, n);
    RefreshSeen(steps, m);
    RefreshSeen(steps, n);
  }

  /**
    The early return of a claim, in any interleaving: the ledger read without the
    lock at moment m was the store after a prefix of the committed calls, a pass on
    it would have changed nothing, and a pass at a later moment n could only have
    changed jobs that calls committed in between had added or changed.
   */
  lemma SkippedPass(steps: seq<Step<Refresh.Call>>, m: nat, n: nat, worker: string, at: int, leaseMs: Option<int>,
                    limit: Option<int>)
    requires m <= n <= |steps| && Exec(RefreshMutation(), [], steps).Some? && Undisturbed(RefreshMutation(), [], steps)
    requires Exec(RefreshMutation(), [], steps[..m]).Some?
    requires !ClaimPasses.WorthLocking(Lease.REFRESH_RULE, Exec(RefreshMutation(), [], steps[..m]).value.file, at,
                                       Lease.LeaseMs(leaseMs))
    ensures Exec(RefreshMutation(), [], steps[..n]).Some?
    ensures var seen := Exec(RefreshMutation(), [], steps[..m]).value;
            var now := Exec(RefreshMutation(), [], steps[..n]).value;
            var claim := Refresh.Claim(worker, at, leaseMs, limit);
            && seen.file == RefreshRuns.StoreRun(seen.log) && seen.log <= now.log
            && Refresh.After(seen.file, claim) == seen.file
            && ClaimPasses.OnlyNewsMissed(seen.file, now.file, Refresh.After(now.file, claim))
            && (now.log == seen.log ==> Refresh.After(now.file, claim) == now.file)
  {
    RefreshSeenTwice(steps, m, n);
    var seen, now := Exec(RefreshMutation(), [], steps[..m]).value, Exec(RefreshMutation(), [], steps[..n]).value;
    PassSkipped(seen.file, now.file, worker, at, leaseMs, limit);
  }

  // --------------------------------------------------------------- task ledger

  function TaskMutation(): (seq<Tasks.Task>, Tasks.Call) -> Option<seq<Tasks.Task>> {
    Saving((tasks: seq<Tasks.Task>, call: Tasks.Call) => Tasks.After(tasks, call))
  }

  lemma {:induction false} TaskFold(log: seq<Tasks.Call>)
    requires Fold(TaskMutation(), [], log).Some?
    ensures Fold(TaskMutation(), [], log) == Some(Tasks.StoreRun(log))
  {
    if log != [] {
      TaskFold(log[..|log| - 1]);
    }
  }

  lemma TasksSeen(steps: seq<Step<Tasks.Call>>, n: nat)
    requires n <= |steps| && Exec(TaskMutation(), [], steps).Some? && Undisturbed(TaskMutation(), [], steps)
    ensures Exec(TaskMutation(), [], steps[..n]).Some?
    ensures var seen := Exec(TaskMutation(), [], steps[..n]).value;
            && seen.log <= Exec(TaskMutation(), [], steps).value.log
            && seen.file == Tasks.StoreRun(seen.log)
  {
    ReaderSeesPrefix(TaskMutation(), [], steps, n);
    var seen, late := Exec(TaskMutation(), [], steps[..n]).value, Exec(TaskMutation(), [], steps).value;
    assert late.log[..|seen.log|] == seen.log;
    TaskFold(seen.log);
  }

  /** At every moment of every interleaving every task's history is legal and the fence is exact. */
  lemma TasksEverywhere(steps: seq<Step<Tasks.Call>>, n: nat, id: int, worker: string)
    requires n <= |steps| && Exec(TaskMutation(), [], steps).Some? && Undisturbed(TaskMutation(), [], steps)
    requires LeaseRuns.ValidRun(Lease.TASK_RULE, Tasks.Lowered(Exec(TaskMutation(), [], steps).value.log))
    ensures Exec(TaskMutation(), [], steps[..n]).Some?
    ensures var seen := Exec(TaskMutation(), [], steps[..n]).value;
            var history := LeaseRuns.History(Lease.TASK_RULE, Tasks.Lowered(seen.log), id);
            && LeaseRuns.Legal(history)
            && (Lease.Holds(seen.file, id, worker) <==> LeaseRuns.Holder(history) == Some(worker))
            && Tasks.ContinuationsLate(seen.file)
  {
    TasksSeen(steps, n);
    var seen, late := Exec(TaskMutation(), [], steps[..n]).value, Exec(TaskMutation(), [], steps).value;
    assert late.log[..|seen.log|] == seen.log;
    Tasks.BeginningValid(late.log, |seen.log|);
    Tasks.StoreRunIsLedgerRun(seen.log);
    Tasks.ReachableLate(seen.log);
    LeaseRuns.HistoryLegal(Lease.TASK_RULE, Tasks.Lowered(seen.log), id);
    LeaseRuns.FenceExact(Lease.TASK_RULE, Tasks.Lowered(seen.log), id, worker);
  }

  /** A continuation that some process saw recorded at moment m is the task's only one at every later moment. */
  lemma OneContinuationEverywhere(steps: seq<Step<Tasks.Call>>, m: nat, n: nat, id: int)
    requires m <= n <= |steps| && Exec(TaskMutation(), [], steps).Some? && Undisturbed(TaskMutation(), [], steps)
    requires LeaseRuns.ValidRun(Lease.TASK_RULE, Tasks.Lowered(Exec(TaskMutation(), [], steps).value.log))
    requires Exec(TaskMutation(), [], steps[..m]).Some?
    requires Tasks.ContinuationOf(Exec(TaskMutation(), [], steps[..m]).value.file, id).Some?
    ensures Exec(TaskMutation(), [], steps[..n]).Some?
    ensures var then_ := Exec(TaskMutation(), [], steps[..m]).value.file;
            var now := Exec(TaskMutation(), [], steps[..n]).value.file;
            Lease.Present(now, id) ==>
              && Tasks.ContinuationOf(now, id) == Tasks.ContinuationOf(then_, id)
              && LeaseRuns.StatusOf(now, id) != Some(Lease.Cancelled)
  {
    TwoMoments(TaskMutation(), [], steps, m, n);
    TasksSeen(steps, m);
    TasksSeen(steps, n);
    var seen, now := Exec(TaskMutation(), [], steps[..m]).value, Exec(TaskMutation(), [], steps[..n]).value;
    var late := Exec(TaskMutation(), [], steps).value;
    assert late.log[..|now.log|] == now.log && now.log[..|seen.log|] == seen.log;
    Tasks.BeginningValid(late.log, |now.log|);
    Tasks.OneContinuation(now.log, |seen.log|, id);
  }

  // ----------------------------------------------------------- knowledge store

  function KnowledgeMutation(text: Knowledge.Text): (Knowledge.State, Knowledge.Call) -> Option<Knowledge.State> {
    Saving((s: Knowledge.State, call: Knowledge.Call) => Knowledge.After(text, s, call))
  }

  lemma {:induction false} KnowledgeFold(text: Knowledge.Text, log: seq<Knowledge.Call>)
    requires Fold(KnowledgeMutation(text), Knowledge.State([], []), log).Some?
    ensures Fold(KnowledgeMutation(text), Knowledge.State([], []), log) == Some(KnowledgeRuns.StoreRun(text, log))
  {
    if log != [] {
      KnowledgeFold(text, log[..|log| - 1]);
    }
  }

  /**
    A search reads the file without the lock. However writers interleave it sees
    the store as some prefix of the committed calls left it, and every hit quotes
    lines that were current in that state.
   */
  lemma SearchSeesOneState(text: Knowledge.Text, steps: seq<Step<Knowledge.Call>>, n: nat,
                           workspace: int, ids: set<int>, terms: seq<Search.Term>, h: Search.Hit)
    requires n <= |steps|
    requires Exec(KnowledgeMutation(text), Knowledge.State([], []), steps).Some?
    requires Undisturbed(KnowledgeMutation(text), Knowledge.State([], []), steps)
    requires KnowledgeRuns.ValidCalls(Exec(KnowledgeMutation(text), Knowledge.State([], []), steps).value.log)
    ensures Exec(KnowledgeMutation(text), Knowledge.State([], []), steps[..n]).Some?
    ensures var seen := Exec(KnowledgeMutation(text), Knowledge.State([], []), steps[..n]).value;
            && seen.log <= Exec(KnowledgeMutation(text), Knowledge.State([], []), steps).value.log
            && seen.file == KnowledgeRuns.StoreRun(text, seen.log)
            && (h in Search.RawHits(text, seen.file, workspace, ids, terms) ==>
                  exists x :: x in seen.file.sources && x.workspace == workspace && x.id in ids
                              && SearchAgrees.QuotesCurrent(text, x, h))
  {
    var file := Knowledge.State([], []);
    ReaderSeesPrefix(KnowledgeMutation(text), file, steps, n);
    var seen := Exec(KnowledgeMutation(text), file, steps[..n]).value;
    var late := Exec(KnowledgeMutation(text), file, steps).value;
    assert late.log[..|seen.log|] == seen.log;
    KnowledgeFold(text, seen.log);
    KnowledgeRuns.PrefixValid(late.log, |seen.log|);
    if h in Search.RawHits(text, seen.file, workspace, ids, terms) {
      SearchAgrees.HitsQuoteCurrentText(text, seen.log, workspace, ids, terms, h);
    }
  }

  // ------------------------------------------------------------ operator store

  function OperatorMutation(): (seq<Operators.Credential>, Operators.Call) -> Option<seq<Operators.Credential>> {
    Saving((s: seq<Operators.Credential>, call: Operators.Call) => Operators.After(s, call))
  }

  lemma {:induction false} OperatorFold(log: seq<Operators.Call>)
    requires Fold(OperatorMutation(), [], log).Some?
    ensures Fold(OperatorMutation(), [], log) == Some(Operators.StoreRun(log))
  {
    if log != [] {
      OperatorFold(log[..|log| - 1]);
    }
  }

  /**
    Authentication reads the credentials without the lock, at moment n; the token
    was accepted at an earlier moment m. It resolves exactly when no rotation or
    revocation of its credential was committed in between.
   */
  lemma ResolvesUntilCommitted(steps: seq<Step<Operators.Call>>, m: nat, n: nat, token: Operators.Token)
    requires m <= n <= |steps|
    requires Exec(OperatorMutation(), [], steps).Some? && Undisturbed(OperatorMutation(), [], steps)
    requires Exec(OperatorMutation(), [], steps[..m]).Some?
    requires Operators.AuthenticateToken(Exec(OperatorMutation(), [], steps[..m]).value.file, token).Some?
    ensures Exec(OperatorMutation(), [], steps[..n]).Some?
    ensures var then_ := Exec(OperatorMutation(), [], steps[..m]).value;
            var now := Exec(OperatorMutation(), [], steps[..n]).value;
            var (principal, revision) := Operators.AuthenticateToken(then_.file, token).value;
            && then_.log <= now.log
            && Operators.ResolveActive(now.file, principal.id, revision) ==
               if Operators.Touched(now.log, |then_.log|, principal.id) then None else Some(principal)
  {
    UndisturbedPrefix(OperatorMutation(), [], steps, n);
    assert steps[..n][..m] == steps[..m];
    ReaderSeesPrefix(OperatorMutation(), [], steps[..n], m);
    NothingLost(OperatorMutation(), [], steps[..n]);
    var then_ := Exec(OperatorMutation(), [], steps[..m]).value;
    var now := Exec(OperatorMutation(), [], steps[..n]).value;
    assert now.log[..|then_.log|] == then_.log && now.log[..|now.log|] == now.log;
    OperatorFold(now.log);
    OperatorFold(then_.log);
    Operators.ResolvesUntouched(now.log, |then_.log|, token);
  }
}
