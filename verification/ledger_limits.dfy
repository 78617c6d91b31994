/** Runs of the task store that reach the limits of trimming and of leases. */
module LedgerLimits {
  import opened Wrappers
  import opened Ordering
  import opened Lease
  import opened LeaseTrim
  import opened LeaseRuns
  import opened ClaimPasses
  import opened Tasks

  // ------------------------------------------------ a ledger that outgrows its limit

  lemma CreateAppends(s: seq<Task>, id: int)
    requires OnlyLive(s)
    ensures After(s, Create(id, "parent", 0)) == s + [NewTask(id, "parent", 0)]
  {
    LiveUntrimmed(s + [NewTask(id, "parent", 0)]);
  }

  /** One more call of a run. */
  lemma OneMore(calls: seq<Call>, call: Call)
    ensures StoreRun(calls + [call]) == After(StoreRun(calls), call)
    ensures var op := Lower(StoreRun(calls), call);
            Lowered(calls + [call]) == Lowered(calls) + (if op.Some? then [op.value] else [])
  {
    assert (calls + [call])[..|calls|] == calls;
  }

  lemma IssuedMore(ops: seq<Op<Payload>>, t: Task)
    requires ValidRun(TASK_RULE, ops) && IsNew(TASK_RULE, t) && t.id !in Issued(ops)
    ensures ValidRun(TASK_RULE, ops + [Add([t])])
    ensures Issued(ops + [Add([t])]) == Issued(ops) + {t.id}
  {
    assert forall j :: j in [t] ==> j == t;
    assert BatchIds([t]) == {t.id} by { assert t in [t]; }
    OneMoreValid(TASK_RULE, ops, Add([t]));
  }

  /** A legal run after which the ledger holds n tasks, none of which has ended. */
  ghost predicate Holding(calls: seq<Call>, n: nat) {
    && ValidRun(TASK_RULE, Lowered(calls)) && (forall id :: id in Issued(Lowered(calls)) ==> id < n)
    && |StoreRun(calls)| == n && OnlyLive(StoreRun(calls))
  }

  lemma OneMoreHeld(calls: seq<Call>, n: nat)
    requires Holding(calls, n)
    ensures Holding(calls + [Create(n, "parent", 0)], n + 1)
  {
    OneMore(calls, Create(n, "parent", 0));
    CreateAppends(StoreRun(calls), n);
    IssuedMore(Lowered(calls), NewTask(n, "parent", 0));
  }

  /** There is one for every n, so also for n > 2,000: trimming bounds nothing while all tasks are live. */
  lemma {:induction false} LedgerOutgrowsLimit(n: nat) returns (calls: seq<Call>)
    ensures Holding(calls, n)
  {
    if n == 0 {
      calls := [];
    } else {
      var before := LedgerOutgrowsLimit(n - 1);
      OneMoreHeld(before, n - 1);
      calls := before + [Create(n - 1, "parent", 0)];
    }
  }

  // ------------------------------------------------------- a claim that nobody ends

  /** A claim pass over a ledger of one task. */
  lemma LoneClaim(t: Task, worker: string, at: int, leaseMs: Option<int>, limit: Option<int>)
    ensures After([t], Claim(worker, at, leaseMs, limit)) ==
            [if Eligible(t, at, LeaseMs(leaseMs)) then Taken(t, worker, at) else t]
  {
    assert Ahead(TASK_RULE, [t], at, LeaseMs(leaseMs), 0) == {};
    assert After([t], Claim(worker, at, leaseMs, limit)) ==
           [ClaimedAt(TASK_RULE, [t], worker, at, LeaseMs(leaseMs), Quota(TASK_RULE, limit), 0)];
  }

  lemma OneMoreClaim(calls: seq<Call>, t: Task, worker: string, at: int)
    requires StoreRun(calls) == [t] && Eligible(t, at, LeaseMs(None))
    ensures StoreRun(calls + [Claim(worker, at, None, None)]) == [Taken(t, worker, at)]
  {
    OneMore(calls, Claim(worker, at, None, None));
    LoneClaim(t, worker, at, None, None);
  }

  /** Worker "c" takes the task for the third time and is not heard of again. */
  const LOST_TASK := Taken(Taken(Taken(NewTask(7, "parent", 0), "a", 0), "b", 120_000), "c", 240_000)

  const LOSING: seq<Call> :=
    [Create(7, "parent", 0)] + [Claim("a", 0, None, None)] + [Claim("b", 120_000, None, None)] +
    [Claim("c", 240_000, None, None)]

  lemma ThreeClaims()
    ensures StoreRun(LOSING) == [LOST_TASK]
  {
    var t, created := NewTask(7, "parent", 0), [Create(7, "parent", 0)];
    CreateAppends([], 7);
    assert created[..0] == [] && StoreRun(created) == [t];
    OneMoreClaim(created, t, "a", 0);
    var once := created + [Claim("a", 0, None, None)];
    OneMoreClaim(once, Taken(t, "a", 0), "b", 120_000);
    OneMoreClaim(once + [Claim("b", 120_000, None, None)], Taken(Taken(t, "a", 0), "b", 120_000), "c", 240_000);
  }

  /** Claim passes of any workers, leases and times, one after another. */
  predicate OnlyClaims(calls: seq<Call>) { forall c :: c in calls ==> c.Claim? }

  /**
    No number of claim passes ever touches the lost task again: its lease has run
    out, its attempts are spent, and it stays claimed.
   */
  lemma {:induction false} LostForGood(later: seq<Call>)
    requires OnlyClaims(later)
    ensures StoreRun(LOSING + later) == [LOST_TASK]
    ensures SpentClaimLeft(StoreRun(LOSING + later), 360_000, LeaseMs(None))
  {
    if later == [] {
      ThreeClaims();
      assert LOSING + later == LOSING;
    } else {
      var n := |later| - 1;
      LostForGood(later[..n]);
      assert LOSING + later == LOSING + later[..n] + [later[n]];
      OneMore(LOSING + later[..n], later[n]);
      assert later[n] in later;
      LoneClaim(LOST_TASK, later[n].worker, later[n].at, later[n].leaseMs, later[n].limit);
    }
    assert StoreRun(LOSING + later)[0] == LOST_TASK;
  }
}
