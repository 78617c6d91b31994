/** The claim pass as the stores run it: sweep, filter, stable sort, slice, mark. */
module ClaimPasses {
  import opened Wrappers
  import opened Ordering
  import opened Lease

  function EligibleSlots<P>(rule: Rule, s: seq<Job<P>>, at: int, lease: int): (r: seq<Slot>)
    ensures forall x :: x in r <==> x.index < |s| && Eligible(s[x.index], at, lease) && x == SlotOf(rule, s, x.index)
    ensures DistinctIndices(r)
  {
    EligibleUpTo(rule, s, at, lease, |s|)
  }

  function EligibleUpTo<P>(rule: Rule, s: seq<Job<P>>, at: int, lease: int, n: nat): (r: seq<Slot>)
    requires n <= |s|
    ensures forall x :: x in r <==> x.index < n && Eligible(s[x.index], at, lease) && x == SlotOf(rule, s, x.index)
    ensures DistinctIndices(r)
  {
    if n == 0 then []
    else
      EligibleUpTo(rule, s, at, lease, n - 1) +
      (if Eligible(s[n - 1], at, lease) then [SlotOf(rule, s, n - 1)] else [])
  }

  /** In the sorted list of eligible jobs, position is the number of jobs ahead. */
  lemma SortedRank<P>(rule: Rule, s: seq<Job<P>>, at: int, lease: int, p: nat)
    requires p < |Sorted(EligibleSlots(rule, s, at, lease))|
    ensures var x := Sorted(EligibleSlots(rule, s, at, lease))[p];
            && x.index < |s| && Eligible(s[x.index], at, lease)
            && |Ahead(rule, s, at, lease, x.index)| == p
  {
    var slots := EligibleSlots(rule, s, at, lease);
    var r := Sorted(slots);
    SortedAscending(slots);
    RankIsPosition(r, p);
    assert r[p] in slots;
    var ahead := Ahead(rule, s, at, lease, r[p].index);
    var before := set x | x in r && Precedes(x, r[p]) :: x.index;
    forall k: nat ensures k in ahead <==> k in before {
      if k in ahead {
        assert SlotOf(rule, s, k) in slots;
      }
    }
    assert ahead == before;
  }

  lemma ChosenHasPosition<P>(rule: Rule, s: seq<Job<P>>, at: int, lease: int, quota: nat, i: nat) returns (p: nat)
    requires i < |s| && Chosen(rule, s, at, lease, quota, i)
    ensures var r := Sorted(EligibleSlots(rule, s, at, lease)); p < Min(quota, |r|) && r[p].index == i
  {
    var slots := EligibleSlots(rule, s, at, lease);
    var r := Sorted(slots);
    SortedAscending(slots);
    assert SlotOf(rule, s, i) in slots;
    p :| 0 <= p < |r| && r[p] == SlotOf(rule, s, i);
    SortedRank(rule, s, at, lease, p);
  }

  /** A job is chosen exactly when it sits in the slice kept by the pass. */
  lemma ChosenIsPrefix<P>(rule: Rule, s: seq<Job<P>>, at: int, lease: int, quota: nat, i: nat)
    requires i < |s|
    ensures var r := Sorted(EligibleSlots(rule, s, at, lease));
            Chosen(rule, s, at, lease, quota, i) <==> exists p :: 0 <= p < Min(quota, |r|) && r[p].index == i
  {
    var r := Sorted(EligibleSlots(rule, s, at, lease));
    if Chosen(rule, s, at, lease, quota, i) {
      var p := ChosenHasPosition(rule, s, at, lease, quota, i);
      assert r[p].index == i;
    } else if p :| 0 <= p < Min(quota, |r|) && r[p].index == i {
      SortedRank(rule, s, at, lease, p);
    }
  }

  function SweptAt<P>(rule: Rule, j: Job<P>, at: int, lease: int): Job<P> {
    if Swept(rule, j, at, lease) then Expired(j, at) else j
  }

  /** The first loop of the refresh ledger's pass. */
  method Sweep<P>(rule: Rule, jobs: seq<Job<P>>, at: int, lease: int) returns (after: seq<Job<P>>)
    ensures |after| == |jobs|
    ensures forall k :: 0 <= k < |jobs| ==> after[k] == SweptAt(rule, jobs[k], at, lease)
  {
    after := jobs;
    if rule.sweeps {
      for i := 0 to |jobs|
        invariant |after| == |jobs|
        invariant forall k :: 0 <= k < i ==> after[k] == SweptAt(rule, jobs[k], at, lease)
        invariant forall k :: i <= k < |jobs| ==> after[k] == jobs[k]
      {
        if Lost(after[i], at, lease) && after[i].attempts >= after[i].maxAttempts {
          after := after[i := Expired(after[i], at)];
        }
      }
    }
  }

  /** The final `map`: mark every picked job as claimed, in pick order. */
  method Mark<P>(jobs: seq<Job<P>>, picked: seq<Slot>, worker: string, at: int)
    returns (after: seq<Job<P>>, taken: seq<Job<P>>)
    requires DistinctIndices(picked)
    requires forall q :: 0 <= q < |picked| ==> picked[q].index < |jobs|
    ensures |after| == |jobs| && |taken| == |picked|
    ensures forall q :: 0 <= q < |picked| ==>
              after[picked[q].index] == taken[q] == Taken(jobs[picked[q].index], worker, at)
    ensures forall i: nat :: i < |jobs| && (forall q :: 0 <= q < |picked| ==> picked[q].index != i) ==>
              after[i] == jobs[i]
  {
    after, taken := jobs, [];
    for p := 0 to |picked|
      invariant |after| == |jobs| && |taken| == p
      invariant forall q :: 0 <= q < p ==>
                  after[picked[q].index] == taken[q] == Taken(jobs[picked[q].index], worker, at)
      invariant forall i: nat :: i < |jobs| && (forall q :: 0 <= q < p ==> picked[q].index != i) ==> after[i] == jobs[i]
    {
      var i := picked[p].index;
      assert after[i] == jobs[i];
      after := after[i := Taken(after[i], worker, at)];
      taken := taken + [after[i]];
    }
  }

  /** `j` is what the pass made of a job with exactly `ahead` eligible jobs before it. */
  ghost predicate TakenInTurn<P>(rule: Rule, jobs: seq<Job<P>>, worker: string, at: int, lease: int,
                                 ahead: nat, j: Job<P>)
  {
    exists i: nat :: i < |jobs| && j == Taken(jobs[i], worker, at)
                  && Eligible(jobs[i], at, lease) && |Ahead(rule, jobs, at, lease, i)| == ahead
  }

  /** `filter`, stable `sort` and `slice`: the slots of the jobs to claim, in claim order. */
  method Pick<P>(rule: Rule, jobs: seq<Job<P>>, swept: seq<Job<P>>, at: int, lease: int, quota: nat)
    returns (picked: seq<Slot>)
    requires |swept| == |jobs|
    requires forall k :: 0 <= k < |jobs| ==> swept[k] == SweptAt(rule, jobs[k], at, lease)
    ensures var r := Sorted(EligibleSlots(rule, jobs, at, lease));
            picked == r[..Min(quota, |r|)]
  {
    picked := [];
    for i := 0 to |jobs|
      invariant picked == EligibleUpTo(rule, jobs, at, lease, i)
    {
      if Eligible(swept[i], at, lease) {
        picked := picked + [SlotOf(rule, swept, i)];
      }
    }
    picked := Sorted(picked);
    picked := picked[..Min(quota, |picked|)];
  }

  /** The slots picked are distinct, in range, and each has its position many jobs ahead. */
  lemma PickedInTurn<P>(rule: Rule, jobs: seq<Job<P>>, worker: string, at: int, lease: int,
                        quota: nat, picked: seq<Slot>)
    requires var r := Sorted(EligibleSlots(rule, jobs, at, lease)); picked == r[..Min(quota, |r|)]
    ensures DistinctIndices(picked)
    ensures |picked| == Min(quota, |EligibleSlots(rule, jobs, at, lease)|)
    ensures forall p :: 0 <= p < |picked| ==>
      && picked[p].index < |jobs| && Eligible(jobs[picked[p].index], at, lease)
      && TakenInTurn(rule, jobs, worker, at, lease, p, Taken(jobs[picked[p].index], worker, at))
  {
    var slots := EligibleSlots(rule, jobs, at, lease);
    SortedAscending(slots);
    forall p | 0 <= p < |picked|
      ensures picked[p].index < |jobs| && Eligible(jobs[picked[p].index], at, lease)
      ensures TakenInTurn(rule, jobs, worker, at, lease, p, Taken(jobs[picked[p].index], worker, at))
    {
      assert picked[p] == Sorted(slots)[p];
      SortedRank(rule, jobs, at, lease, p);
    }
  }

  /** The jobs claimed by a pass, as returned: the first ones in availability order, as many as the quota allows. */
  ghost predicate InTurn<P>(rule: Rule, jobs: seq<Job<P>>, worker: string, at: int,
                            leaseMs: Option<int>, limit: Option<int>, taken: seq<Job<P>>)
  {
    && |taken| == Min(Quota(rule, limit), |EligibleSlots(rule, jobs, at, LeaseMs(leaseMs))|)
    && forall p :: 0 <= p < |taken| ==> TakenInTurn(rule, jobs, worker, at, LeaseMs(leaseMs), p, taken[p])
  }

  // ------------------------------------------------- the pass in terms of fields

  /** Attempts are left, and the job waits and is available or its lease has run out. */
  predicate Ready<P>(j: Job<P>, at: int, lease: int) {
    && j.attempts < j.maxAttempts
    && (|| (j.status == Pending && j.availableAt <= at)
        || (j.status == Claimed && j.claimedAt.Some? && j.claimedAt.value + lease <= at))
  }

  /** Available earlier; on a tie created earlier, in ledgers that look at it; on a full tie listed earlier. */
  predicate GoesFirst<P>(byCreation: bool, s: seq<Job<P>>, i: nat, k: nat)
    requires i < |s| && k < |s|
  {
    || s[i].availableAt < s[k].availableAt
    || (s[i].availableAt == s[k].availableAt && byCreation && s[i].createdAt < s[k].createdAt)
    || (s[i].availableAt == s[k].availableAt && (byCreation ==> s[i].createdAt == s[k].createdAt) && i < k)
  }

  /** `now` is `was` claimed once more, by this worker at this time. */
  ghost predicate ClaimedNow<P>(was: Job<P>, now: Job<P>, worker: string, at: int) {
    && now.id == was.id && now.payload == was.payload && now.maxAttempts == was.maxAttempts
    && now.createdAt == was.createdAt && now.availableAt == was.availableAt && now.completedAt == was.completedAt
    && now.status == Claimed && now.claimedBy == Some(worker) && now.claimedAt == Some(at)
    && now.updatedAt == at && now.attempts == was.attempts + 1 && now.error == None
  }

  /** A job that is not claimed stays, except that a sweep fails one whose lease and attempts have run out. */
  ghost predicate PassedOver<P>(sweeps: bool, was: Job<P>, now: Job<P>, at: int, lease: int) {
    if sweeps && was.status == Claimed && was.claimedAt.Some? && was.claimedAt.value + lease <= at
       && was.attempts >= was.maxAttempts
    then
      EndedAs(was, now, Failed, at, Some("knowledge_refresh_lease_expired_after_max_attempts"))
      && Free(now) && now.payload == was.payload
    else now == was
  }

  /** The jobs at `picks` were ready and are claimed; `taken` lists them. */
  ghost predicate PicksClaimed<P>(before: seq<Job<P>>, after: seq<Job<P>>, taken: seq<Job<P>>, worker: string,
                                  at: int, lease: int, picks: seq<nat>)
  {
    && |after| == |before| && |taken| == |picks|
    && forall p :: 0 <= p < |picks| ==>
         && picks[p] < |before| && Ready(before[picks[p]], at, lease)
         && after[picks[p]] == taken[p] && ClaimedNow(before[picks[p]], taken[p], worker, at)
  }

  ghost predicate PicksOrdered<P>(byCreation: bool, before: seq<Job<P>>, picks: seq<nat>) {
    && (forall p :: 0 <= p < |picks| ==> picks[p] < |before|)
    && forall p, q :: 0 <= p < q < |picks| ==> GoesFirst(byCreation, before, picks[p], picks[q])
  }

  /** Job k was not claimed though it was ready: the quota is used up by jobs that go first. */
  ghost predicate OutOfTurn<P>(byCreation: bool, before: seq<Job<P>>, quota: int, picks: seq<nat>, k: nat)
    requires k < |before|
  {
    |picks| == quota
    && forall p :: 0 <= p < |picks| ==> picks[p] < |before| && GoesFirst(byCreation, before, picks[p], k)
  }

  ghost predicate RestStays<P>(byCreation: bool, sweeps: bool, before: seq<Job<P>>, after: seq<Job<P>>,
                               at: int, lease: int, quota: int, picks: seq<nat>)
    requires |after| == |before|
  {
    forall k: nat :: k < |before| && k !in picks ==>
      && PassedOver(sweeps, before[k], after[k], at, lease)
      && (Ready(before[k], at, lease) ==> OutOfTurn(byCreation, before, quota, picks, k))
  }

  /**
    What a pass does to a ledger, by the fields of its jobs. `picks` are the
    positions of the claimed jobs in the order in which they are returned.
   */
  ghost predicate PassAt<P>(byCreation: bool, sweeps: bool, before: seq<Job<P>>, after: seq<Job<P>>, taken: seq<Job<P>>,
                            worker: string, at: int, lease: int, quota: int, picks: seq<nat>)
  {
    && |after| == |before| && |picks| <= quota
    && PicksClaimed(before, after, taken, worker, at, lease, picks) && PicksOrdered(byCreation, before, picks)
    && RestStays(byCreation, sweeps, before, after, at, lease, quota, picks)
  }

  /** Jobs are returned in the order in which they became available. */
  ghost predicate ByAvailability<P>(taken: seq<Job<P>>) {
    forall p, q :: 0 <= p < q < |taken| ==> taken[p].availableAt <= taken[q].availableAt
  }

  /** A pass claims the jobs that go first among those that are ready, as many as its quota allows. */
  ghost predicate FairPass<P>(byCreation: bool, sweeps: bool, before: seq<Job<P>>, after: seq<Job<P>>,
                              taken: seq<Job<P>>, worker: string, at: int, lease: int, quota: int)
  {
    && ByAvailability(taken)
    && exists picks: seq<nat> :: PassAt(byCreation, sweeps, before, after, taken, worker, at, lease, quota, picks)
  }

  function IndicesOf(picked: seq<Slot>): (picks: seq<nat>)
    ensures |picks| == |picked| && forall p :: 0 <= p < |picks| ==> picks[p] == picked[p].index
  {
    seq(|picked|, p requires 0 <= p < |picked| => picked[p].index)
  }

  lemma ReadyIsEligible<P>(j: Job<P>, at: int, lease: int)
    ensures Ready(j, at, lease) <==> Eligible(j, at, lease)
  {
  }

  /** The sorted list goes in the order of the jobs' fields. */
  lemma SortedByFields<P>(rule: Rule, s: seq<Job<P>>, at: int, lease: int, p: nat, q: nat)
    requires p < q < |Sorted(EligibleSlots(rule, s, at, lease))|
    ensures var r := Sorted(EligibleSlots(rule, s, at, lease));
            && r[p].index < |s| && r[q].index < |s|
            && GoesFirst(rule.tieOnCreation, s, r[p].index, r[q].index)
  {
    var slots := EligibleSlots(rule, s, at, lease);
    var r := Sorted(slots);
    SortedAscending(slots);
    assert r[p] in slots && r[q] in slots && Precedes(r[p], r[q]);
  }

  lemma ReadyHasPosition<P>(rule: Rule, s: seq<Job<P>>, at: int, lease: int, k: nat) returns (q: nat)
    requires k < |s| && Ready(s[k], at, lease)
    ensures var r := Sorted(EligibleSlots(rule, s, at, lease)); q < |r| && r[q].index == k
  {
    var slots := EligibleSlots(rule, s, at, lease);
    SortedAscending(slots);
    ReadyIsEligible(s[k], at, lease);
    assert SlotOf(rule, s, k) in Sorted(slots);
    q :| 0 <= q < |Sorted(slots)| && Sorted(slots)[q] == SlotOf(rule, s, k);
  }

  /** A ready job that was not picked comes after all that were, and the quota is used up. */
  lemma LeftOver<P>(rule: Rule, s: seq<Job<P>>, at: int, lease: int, quota: nat, picked: seq<Slot>, k: nat)
    requires var r := Sorted(EligibleSlots(rule, s, at, lease)); picked == r[..Min(quota, |r|)]
    requires k < |s| && Ready(s[k], at, lease) && k !in IndicesOf(picked)
    ensures OutOfTurn(rule.tieOnCreation, s, quota, IndicesOf(picked), k)
  {
    var r := Sorted(EligibleSlots(rule, s, at, lease));
    var q := ReadyHasPosition(rule, s, at, lease, k);
    var picks := IndicesOf(picked);
    assert forall p :: 0 <= p < |picked| ==> r[p].index == picks[p] && picks[p] in picks;
    assert q >= |picked|;
    forall p | 0 <= p < |picks|
      ensures picks[p] < |s| && GoesFirst(rule.tieOnCreation, s, picks[p], k)
    {
      SortedByFields(rule, s, at, lease, p, q);
    }
  }

  lemma PickedReady<P>(rule: Rule, s: seq<Job<P>>, at: int, lease: int, quota: nat, picked: seq<Slot>, p: nat)
    requires var r := Sorted(EligibleSlots(rule, s, at, lease)); picked == r[..Min(quota, |r|)]
    requires p < |picked|
    ensures picked[p].index < |s| && Ready(s[picked[p].index], at, lease)
  {
    var slots := EligibleSlots(rule, s, at, lease);
    SortedAscending(slots);
    assert picked[p] == Sorted(slots)[p] && picked[p] in slots;
    ReadyIsEligible(s[picked[p].index], at, lease);
  }

  lemma TakenInOrder<P>(byCreation: bool, before: seq<Job<P>>, after: seq<Job<P>>, taken: seq<Job<P>>, worker: string,
                        at: int, lease: int, picks: seq<nat>, p: nat, q: nat)
    requires PicksClaimed(before, after, taken, worker, at, lease, picks) && PicksOrdered(byCreation, before, picks)
    requires p < q < |taken|
    ensures taken[p].availableAt <= taken[q].availableAt
  {
    assert GoesFirst(byCreation, before, picks[p], picks[q]);
  }

  lemma MarkedIsFair<P>(rule: Rule, jobs: seq<Job<P>>, worker: string, at: int, lease: int, quota: nat,
                        swept: seq<Job<P>>, picked: seq<Slot>, after: seq<Job<P>>, taken: seq<Job<P>>)
    requires |swept| == |jobs| == |after| && |taken| == |picked|
    requires forall k :: 0 <= k < |jobs| ==> swept[k] == SweptAt(rule, jobs[k], at, lease)
    requires var r := Sorted(EligibleSlots(rule, jobs, at, lease)); picked == r[..Min(quota, |r|)]
    requires forall q :: 0 <= q < |picked| ==>
      picked[q].index < |jobs| && after[picked[q].index] == taken[q] == Taken(swept[picked[q].index], worker, at)
    requires forall i: nat :: i < |jobs| && (forall q :: 0 <= q < |picked| ==> picked[q].index != i) ==>
               after[i] == swept[i]
    ensures FairPass(rule.tieOnCreation, rule.sweeps, jobs, after, taken, worker, at, lease, quota)
  {
    var picks := IndicesOf(picked);
    forall p | 0 <= p < |picks|
      ensures picks[p] < |jobs| && Ready(jobs[picks[p]], at, lease)
      ensures after[picks[p]] == taken[p] && ClaimedNow(jobs[picks[p]], taken[p], worker, at)
    {
      PickedReady(rule, jobs, at, lease, quota, picked, p);
    }
    forall p, q | 0 <= p < q < |picks|
      ensures GoesFirst(rule.tieOnCreation, jobs, picks[p], picks[q])
    {
      SortedByFields(rule, jobs, at, lease, p, q);
    }
    forall k: nat | k < |jobs| && k !in picks
      ensures PassedOver(rule.sweeps, jobs[k], after[k], at, lease)
      ensures Ready(jobs[k], at, lease) ==> OutOfTurn(rule.tieOnCreation, jobs, quota, picks, k)
    {
      assert forall q :: 0 <= q < |picked| ==> picks[q] == picked[q].index != k;
      if Ready(jobs[k], at, lease) {
        LeftOver(rule, jobs, at, lease, quota, picked, k);
      }
    }
    assert PassAt(rule.tieOnCreation, rule.sweeps, jobs, after, taken, worker, at, lease, quota, picks);
    forall p, q | 0 <= p < q < |taken|
      ensures taken[p].availableAt <= taken[q].availableAt
    {
      TakenInOrder(rule.tieOnCreation, jobs, after, taken, worker, at, lease, picks, p, q);
    }
  }

  /**
    The pass over a ledger. `taken` lists the claimed jobs as returned to the
    worker: the p-th one had exactly p eligible jobs ahead of it.
   */
  method RunPass<P>(rule: Rule, jobs: seq<Job<P>>, worker: string, at: int, leaseMs: Option<int>, limit: Option<int>)
    returns (after: seq<Job<P>>, taken: seq<Job<P>>)
    ensures after == Apply(rule, jobs, ClaimPass(worker, at, leaseMs, limit))
    ensures InTurn(rule, jobs, worker, at, leaseMs, limit, taken)
    ensures FairPass(rule.tieOnCreation, rule.sweeps, jobs, after, taken, worker, at,
                     Clamp(leaseMs, 120_000, 1_000, 900_000), Clamp(limit, rule.passLimit, 1, 20))
  {
    var lease, quota := LeaseMs(leaseMs), Quota(rule, limit);
    var swept := Sweep(rule, jobs, at, lease);
    var picked := Pick(rule, jobs, swept, at, lease, quota);
    PickedInTurn(rule, jobs, worker, at, lease, quota, picked);
    after, taken := Mark(swept, picked, worker, at);
    MarkedIsClaimed(rule, jobs, worker, at, lease, quota, swept, picked, after);
    MarkedIsFair(rule, jobs, worker, at, lease, quota, swept, picked, after, taken);
  }

  /** Of two ready jobs, one claimed and one not, the claimed one goes first. */
  lemma ClaimedGoesFirst<P>(byCreation: bool, sweeps: bool, before: seq<Job<P>>, after: seq<Job<P>>,
                            taken: seq<Job<P>>, worker: string, at: int, lease: int, quota: int, i: nat, k: nat)
    requires FairPass(byCreation, sweeps, before, after, taken, worker, at, lease, quota)
    requires i < |before| && k < |before| && |after| == |before|
    requires after[i].attempts > before[i].attempts
    requires Ready(before[k], at, lease) && after[k].attempts == before[k].attempts
    ensures GoesFirst(byCreation, before, i, k)
  {
    var picks: seq<nat> :| PassAt(byCreation, sweeps, before, after, taken, worker, at, lease, quota, picks);
    assert i in picks;
    assert k !in picks;
  }

  lemma MarkedIsClaimed<P>(rule: Rule, jobs: seq<Job<P>>, worker: string, at: int, lease: int, quota: nat,
                           swept: seq<Job<P>>, picked: seq<Slot>, after: seq<Job<P>>)
    requires |swept| == |jobs| == |after|
    requires forall k :: 0 <= k < |jobs| ==> swept[k] == SweptAt(rule, jobs[k], at, lease)
    requires var r := Sorted(EligibleSlots(rule, jobs, at, lease)); picked == r[..Min(quota, |r|)]
    requires forall q :: 0 <= q < |picked| ==>
      picked[q].index < |jobs| && after[picked[q].index] == Taken(swept[picked[q].index], worker, at)
    requires forall i: nat :: i < |jobs| && (forall q :: 0 <= q < |picked| ==> picked[q].index != i) ==>
               after[i] == swept[i]
    ensures after == AfterClaim(rule, jobs, worker, at, lease, quota)
  {
    forall i: nat | i < |jobs| ensures after[i] == ClaimedAt(rule, jobs, worker, at, lease, quota, i) {
      ChosenIsPrefix(rule, jobs, at, lease, quota, i);
      var r := Sorted(EligibleSlots(rule, jobs, at, lease));
      if Chosen(rule, jobs, at, lease, quota, i) {
        var p :| 0 <= p < Min(quota, |r|) && r[p].index == i;
        assert picked[p] == r[p];
      } else {
        forall q | 0 <= q < |picked| ensures picked[q].index != i {
          assert picked[q] == r[q];
        }
      }
    }
  }

  /** The lock-free look at the ledger that decides whether a pass is worth taking the lock. */
  predicate WorthLocking<P>(rule: Rule, jobs: seq<Job<P>>, at: int, lease: int) {
    exists i :: 0 <= i < |jobs| && (Eligible(jobs[i], at, lease) || (rule.sweeps && Lost(jobs[i], at, lease)))
  }

  lemma {:induction false} NothingEligible<P>(rule: Rule, jobs: seq<Job<P>>, at: int, lease: int, n: nat)
    requires n <= |jobs| && !WorthLocking(rule, jobs, at, lease)
    ensures EligibleUpTo(rule, jobs, at, lease, n) == []
  {
    if n > 0 {
      NothingEligible(rule, jobs, at, lease, n - 1);
    }
  }

  /** If any job is eligible, the first in availability order is claimed. */
  lemma SomeoneIsChosen<P>(rule: Rule, s: seq<Job<P>>, at: int, lease: int, quota: int, i: nat) returns (first: nat)
    requires i < |s| && Eligible(s[i], at, lease) && quota >= 1
    ensures first < |s| && Chosen(rule, s, at, lease, quota, first)
  {
    var slots := EligibleSlots(rule, s, at, lease);
    assert SlotOf(rule, s, i) in slots;
    SortedAscending(slots);
    SortedRank(rule, s, at, lease, 0);
    first := Sorted(slots)[0].index;
  }

  /** The precheck skips the lock exactly when the locked pass would change no job. */
  lemma PrecheckExact<P>(rule: Rule, jobs: seq<Job<P>>, worker: string, at: int,
                         leaseMs: Option<int>, limit: Option<int>)
    ensures !WorthLocking(rule, jobs, at, LeaseMs(leaseMs)) <==>
            Apply(rule, jobs, ClaimPass(worker, at, leaseMs, limit)) == jobs
  {
    var lease, quota := LeaseMs(leaseMs), Quota(rule, limit);
    var after := AfterClaim(rule, jobs, worker, at, lease, quota);
    if WorthLocking(rule, jobs, at, lease) {
      var i :| 0 <= i < |jobs| && (Eligible(jobs[i], at, lease) || (rule.sweeps && Lost(jobs[i], at, lease)));
      if Eligible(jobs[i], at, lease) {
        var first := SomeoneIsChosen(rule, jobs, at, lease, quota, i);
        assert after[first].attempts == jobs[first].attempts + 1;
      } else {
        assert after[i].status == Failed;
      }
    } else {
      assert forall i :: 0 <= i < |jobs| ==> after[i] == jobs[i];
    }
  }

  /** Where a ledger seen without the lock shows nothing to do, a pass on it changes nothing and claims nothing. */
  lemma NothingInTurn<P>(rule: Rule, seen: seq<Job<P>>, worker: string, at: int,
                         leaseMs: Option<int>, limit: Option<int>)
    requires !WorthLocking(rule, seen, at, LeaseMs(leaseMs))
    ensures Apply(rule, seen, ClaimPass(worker, at, leaseMs, limit)) == seen
    ensures InTurn(rule, seen, worker, at, leaseMs, limit, [])
  {
    PrecheckExact(rule, seen, worker, at, leaseMs, limit);
    NothingEligible(rule, seen, at, LeaseMs(leaseMs), |seen|);
  }

  /** Whatever `after` changed in `jobs` was not there, or not like that, in `seen`. */
  ghost predicate OnlyNewsMissed<P>(seen: seq<Job<P>>, jobs: seq<Job<P>>, after: seq<Job<P>>) {
    |after| == |jobs| && forall i :: 0 <= i < |jobs| && after[i] != jobs[i] ==> jobs[i] !in seen
  }

  /** A pass skipped on what was seen earlier could only have changed jobs that were added or changed since. */
  lemma MissesOnlyNews<P>(rule: Rule, seen: seq<Job<P>>, jobs: seq<Job<P>>, worker: string, at: int,
                          leaseMs: Option<int>, limit: Option<int>)
    requires !WorthLocking(rule, seen, at, LeaseMs(leaseMs))
    ensures OnlyNewsMissed(seen, jobs, Apply(rule, jobs, ClaimPass(worker, at, leaseMs, limit)))
  {
  }

  ghost predicate SpentClaimLeft<P>(jobs: seq<Job<P>>, at: int, lease: int) {
    exists i :: 0 <= i < |jobs| && Lost(jobs[i], at, lease) && jobs[i].attempts >= jobs[i].maxAttempts
  }

  /**
    A claim pass leaves a job claimed with an expired lease and spent attempts
    exactly when its ledger does not sweep and such a job was there before.
   */
  lemma SpentClaims<P>(rule: Rule, jobs: seq<Job<P>>, worker: string, at: int, leaseMs: Option<int>, limit: Option<int>)
    ensures SpentClaimLeft(Apply(rule, jobs, ClaimPass(worker, at, leaseMs, limit)), at, LeaseMs(leaseMs)) <==>
            !rule.sweeps && SpentClaimLeft(jobs, at, LeaseMs(leaseMs))
  {
    var lease := LeaseMs(leaseMs);
    var after := Apply(rule, jobs, ClaimPass(worker, at, leaseMs, limit));
    if !rule.sweeps && SpentClaimLeft(jobs, at, lease) {
      var i :| 0 <= i < |jobs| && Lost(jobs[i], at, lease) && jobs[i].attempts >= jobs[i].maxAttempts;
      assert after[i] == jobs[i];
    }
  }
}
