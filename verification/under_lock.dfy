/** The job ledgers behind the lock file: any interleaving is a run of the ledger. */
module LedgerUnderLock {
  import opened Wrappers
  import opened Lease
  import opened LeaseRuns
  import opened LockFile

  /** The operations that throw, so that nothing is saved. */
  predicate Throws<P>(s: seq<Job<P>>, op: Op<P>) {
    match op
    case Add(_) => false
    case ClaimPass(_, _, _, _) => false
    case Finish(id, worker, _, _, _, _) => !Holds(s, id, worker)
    case Retry(id, worker, _, _, _) => !Holds(s, id, worker)
    case Cancel(id, _) => !(Present(s, id) && s[Find(s, id)].Live())
    case Annotate(id, _, _) => !(Present(s, id) && !s[Find(s, id)].Live() && !s[Find(s, id)].status.Cancelled?)
  }

  function Mutation<P>(rule: Rule): (seq<Job<P>>, Op<P>) -> Option<seq<Job<P>>> {
    (s: seq<Job<P>>, op: Op<P>) => if Throws(s, op) then None else Some(Apply(rule, s, op))
  }

  lemma {:induction false} FoldIsRun<P>(rule: Rule, log: seq<Op<P>>)
    requires Fold(Mutation<P>(rule), [], log).Some?
    ensures Fold(Mutation<P>(rule), [], log) == Some(Run(rule, log))
  {
    if log != [] {
      FoldIsRun(rule, log[..|log| - 1]);
    }
  }

  /**
    However processes interleave the steps of locking, loading, operating and
    saving, and whoever dies, as long as no takeover intrudes the file is a run of
    the ledger over the committed operations, so every job's history is legal and
    the fence exact; and a lock-free read at any earlier moment saw a run over a
    prefix.
   */
  lemma InterleavingsAreRuns<P>(rule: Rule, steps: seq<Step<Op<P>>>, n: nat, id: int, worker: string)
    requires rule.maxAttempts >= 1 && n <= |steps|
    requires Exec(Mutation<P>(rule), [], steps).Some? && Undisturbed(Mutation<P>(rule), [], steps)
    requires ValidRun(rule, Exec(Mutation<P>(rule), [], steps).value.log)
    ensures Exec(Mutation<P>(rule), [], steps[..n]).Some?
    ensures var early, late := Exec(Mutation<P>(rule), [], steps[..n]).value, Exec(Mutation<P>(rule), [], steps).value;
      && late.file == Run(rule, late.log)
      && early.log <= late.log && early.file == Run(rule, early.log)
      && Legal(History(rule, late.log, id))
      && (Holds(late.file, id, worker) <==> Holder(History(rule, late.log, id)) == Some(worker))
  {
    NothingLost(Mutation<P>(rule), [], steps);
    ReaderSeesPrefix(Mutation<P>(rule), [], steps, n);
    var early, late := Exec(Mutation<P>(rule), [], steps[..n]).value, Exec(Mutation<P>(rule), [], steps).value;
    assert late.log[..|early.log|] == early.log;
    FoldIsRun(rule, late.log);
    FoldIsRun(rule, early.log);
    HistoryLegal(rule, late.log, id);
    FenceExact(rule, late.log, id, worker);
  }
}
