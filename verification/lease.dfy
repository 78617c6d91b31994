/**
  The leased-job protocol shared by the refresh ledger, the enrichment ledger
  and the delegated-agent ledger. A ledger is a list of jobs; every mutation is
  one `Op`, and `Apply` is the list the mutation saves. A mutation that throws
  saves nothing, so `Apply` leaves the list unchanged for it.
 */
module Lease {
  import opened Wrappers
  import opened Ordering

  const LEDGER_LIMIT := 2000

  datatype Status = Pending | Claimed | Completed | Failed | Stale | Cancelled

  /** What differs between the three ledgers. */
  datatype Rule = Rule(
    sweeps: bool,            // claim passes fail expired claims whose attempts are spent
    tieOnCreation: bool,     // availability ties are broken by creation time
    releasesOnFinish: bool,  // finishing a job clears who claimed it
    maxAttempts: nat,
    passLimit: nat)          // jobs per claim pass when the caller names no limit

  const REFRESH_RULE := Rule(true, false, true, 5, 2)
  const ENRICHMENT_RULE := Rule(false, true, false, 5, 4)
  const TASK_RULE := Rule(false, true, false, 3, 2)

  /** `payload` holds the fields that belong to one ledger only. */
  datatype Job<+P> = Job(
    id: int,
    payload: P,
    status: Status,
    attempts: nat,
    maxAttempts: nat,
    createdAt: int,
    updatedAt: int,
    availableAt: int,
    claimedAt: Option<int>,
    claimedBy: Option<string>,
    completedAt: Option<int>,
    error: Option<string>)
  {
    predicate Live() { status.Pending? || status.Claimed? }
  }

  function NewJob<P>(rule: Rule, id: int, payload: P, at: int): Job<P> {
    Job(id, payload, Pending, 0, rule.maxAttempts, at, at, at, None, None, None, None)
  }

  predicate IsNew<P>(rule: Rule, j: Job<P>) {
    && j.status.Pending? && j.attempts == 0 && j.maxAttempts == rule.maxAttempts
    && j.claimedAt.None? && j.claimedBy.None?
  }

  function LeaseMs(requested: Option<int>): (ms: int)
    ensures 1_000 <= ms <= 900_000
  {
    Clamp(requested, 120_000, 1_000, 900_000)
  }

  function RetryDelay(requested: Option<int>): (ms: int)
    ensures 1_000 <= ms <= 900_000
  {
    Clamp(requested, 5_000, 1_000, 900_000)
  }

  function Quota(rule: Rule, requested: Option<int>): (n: int)
    ensures 1 <= n <= 20
  {
    Clamp(requested, rule.passLimit, 1, 20)
  }

  // ---------------------------------------------------------------- claiming

  predicate Lost<P>(j: Job<P>, at: int, lease: int) {
    j.status.Claimed? && j.claimedAt.Some? && j.claimedAt.value + lease <= at
  }

  predicate Eligible<P>(j: Job<P>, at: int, lease: int) {
    && j.attempts < j.maxAttempts
    && (if j.status.Pending? then j.availableAt <= at else Lost(j, at, lease))
  }

  function SlotOf<P>(rule: Rule, s: seq<Job<P>>, i: nat): Slot
    requires i < |s|
  {
    Slot(s[i].availableAt, if rule.tieOnCreation then s[i].createdAt else 0, 0, i)
  }

  /** The eligible jobs that come before job i in stable availability order. */
  function Ahead<P>(rule: Rule, s: seq<Job<P>>, at: int, lease: int, i: nat): set<nat>
    requires i < |s|
  {
    set k: nat | k < |s| && Eligible(s[k], at, lease) && Precedes(SlotOf(rule, s, k), SlotOf(rule, s, i))
  }

  predicate Chosen<P>(rule: Rule, s: seq<Job<P>>, at: int, lease: int, quota: int, i: nat)
    requires i < |s|
  {
    Eligible(s[i], at, lease) && |Ahead(rule, s, at, lease, i)| < quota
  }

  predicate Swept<P>(rule: Rule, j: Job<P>, at: int, lease: int) {
    rule.sweeps && Lost(j, at, lease) && j.attempts >= j.maxAttempts
  }

  function Taken<P>(j: Job<P>, worker: string, at: int): Job<P> {
    j.(status := Claimed, claimedAt := Some(at), claimedBy := Some(worker), updatedAt := at,
       attempts := j.attempts + 1, error := None)
  }

  function Expired<P>(j: Job<P>, at: int): Job<P> {
    j.(status := Failed, error := Some("knowledge_refresh_lease_expired_after_max_attempts"), updatedAt := at,
       completedAt := Some(at), claimedAt := None, claimedBy := None)
  }

  function ClaimedAt<P>(rule: Rule, s: seq<Job<P>>, worker: string, at: int, lease: int, quota: int, i: nat): Job<P>
    requires i < |s|
  {
    if Chosen(rule, s, at, lease, quota, i) then Taken(s[i], worker, at)
    else if Swept(rule, s[i], at, lease) then Expired(s[i], at)
    else s[i]
  }

  function AfterClaim<P>(rule: Rule, s: seq<Job<P>>, worker: string, at: int, lease: int, quota: int): (r: seq<Job<P>>)
    ensures |r| == |s|
  {
    seq(|s|, i requires 0 <= i < |s| => ClaimedAt(rule, s, worker, at, lease, quota, i))
  }

  // ------------------------------------------------------ finishing and retry

  function Find<P>(s: seq<Job<P>>, id: int): (k: nat)
    ensures k <= |s|
    ensures k < |s| ==> s[k].id == id
    ensures forall i :: 0 <= i < k ==> s[i].id != id
  {
    if s == [] then 0
    else if s[0].id == id then 0
    else
      var k := Find(s[1..], id);
      assert forall i :: 0 < i < k + 1 ==> s[i] == s[1..][i - 1];
      k + 1
  }

  predicate Present<P>(s: seq<Job<P>>, id: int) { Find(s, id) < |s| }

  /** The owner fence: the job is claimed, and by this worker. */
  predicate Holds<P>(s: seq<Job<P>>, id: int, worker: string) {
    && Present(s, id)
    && s[Find(s, id)].status.Claimed?
    && s[Find(s, id)].claimedBy == Some(worker)
  }

  function Finished<P>(rule: Rule, j: Job<P>, at: int, stale: bool, payload: P, error: Option<string>): Job<P> {
    var closed := j.(status := if stale then Stale else Completed, payload := payload, error := error,
                     updatedAt := at, completedAt := Some(at));
    if rule.releasesOnFinish then closed.(claimedAt := None, claimedBy := None) else closed
  }

  function Retried<P>(j: Job<P>, at: int, retryAt: int, error: string): Job<P> {
    var released := j.(error := Some(error), updatedAt := at, claimedAt := None, claimedBy := None);
    if j.attempts >= j.maxAttempts then released.(status := Failed, completedAt := Some(at))
    else released.(status := Pending, availableAt := retryAt)
  }

  /** `now` is `was` ended as `status` at time `at`: who and what it is and how often it was claimed stay. */
  ghost predicate EndedAs<P>(was: Job<P>, now: Job<P>, status: Status, at: int, error: Option<string>) {
    && now.id == was.id && now.attempts == was.attempts && now.maxAttempts == was.maxAttempts
    && now.createdAt == was.createdAt && now.availableAt == was.availableAt
    && now.status == status && now.error == error && now.updatedAt == at && now.completedAt == Some(at)
  }

  /** Nobody holds the job any more. */
  ghost predicate Free<P>(j: Job<P>) { j.claimedAt.None? && j.claimedBy.None? }

  /** `now` is `was` given back: failed when its attempts are spent, otherwise waiting until `retryAt`. */
  ghost predicate GivenBack<P>(was: Job<P>, now: Job<P>, at: int, retryAt: int, reason: string) {
    && now.id == was.id && now.payload == was.payload && now.createdAt == was.createdAt
    && now.attempts == was.attempts && now.maxAttempts == was.maxAttempts
    && now.error == Some(reason) && now.updatedAt == at && Free(now)
    && (was.attempts < was.maxAttempts ==>
          now.status == Pending && now.availableAt == retryAt && now.completedAt == was.completedAt)
    && (was.attempts >= was.maxAttempts ==>
          now.status == Failed && now.availableAt == was.availableAt && now.completedAt == Some(at))
  }

  // ---------------------------------------------------------------- trimming

  function LiveJobs<P>(s: seq<Job<P>>): seq<Job<P>> {
    if s == [] then []
    else LiveJobs(s[..|s| - 1]) + (if s[|s| - 1].Live() then [s[|s| - 1]] else [])
  }

  function EndedJobs<P>(s: seq<Job<P>>): seq<Job<P>> {
    if s == [] then []
    else EndedJobs(s[..|s| - 1]) + (if s[|s| - 1].Live() then [] else [s[|s| - 1]])
  }

  /** `s.slice(-n)`; note that `slice(-0)` is the whole list. */
  function SliceFromEnd<T>(s: seq<T>, n: nat): seq<T> {
    if n == 0 || n >= |s| then s else s[|s| - n..]
  }

  function Trim<P>(s: seq<Job<P>>): seq<Job<P>> {
    if |s| <= LEDGER_LIMIT then s
    else SliceFromEnd(EndedJobs(s), Max(0, LEDGER_LIMIT - |LiveJobs(s)|)) + LiveJobs(s)
  }

  // -------------------------------------------------------------- operations

  datatype Op<+P> =
    | Add(batch: seq<Job<P>>)
    | ClaimPass(worker: string, at: int, leaseMs: Option<int>, limit: Option<int>)
    | Finish(id: int, worker: string, at: int, stale: bool, payload: P, error: Option<string>)
    | Retry(id: int, worker: string, at: int, retryAt: int, reason: string)
    | Cancel(id: int, at: int)
    | Annotate(id: int, at: int, payload: P)

  function Replace<P>(s: seq<Job<P>>, j: Job<P>): (r: seq<Job<P>>)
    requires Present(s, j.id)
    ensures |r| == |s|
  {
    s[Find(s, j.id) := j]
  }

  function Apply<P>(rule: Rule, s: seq<Job<P>>, op: Op<P>): seq<Job<P>> {
    match op
    case Add(batch) => Trim(s + batch)
    case ClaimPass(worker, at, leaseMs, limit) =>
      AfterClaim(rule, s, worker, at, LeaseMs(leaseMs), Quota(rule, limit))
    case Finish(id, worker, at, stale, payload, error) =>
      if Holds(s, id, worker) then Replace(s, Finished(rule, s[Find(s, id)], at, stale, payload, error)) else s
    case Retry(id, worker, at, retryAt, reason) =>
      if Holds(s, id, worker) then Replace(s, Retried(s[Find(s, id)], at, retryAt, reason)) else s
    case Cancel(id, at) =>
      if Present(s, id) && s[Find(s, id)].Live() then
        Replace(s, s[Find(s, id)].(status := Cancelled, updatedAt := at))
      else s
    case Annotate(id, at, payload) =>
      if Present(s, id) && !s[Find(s, id)].Live() && !s[Find(s, id)].status.Cancelled? then
        Replace(s, s[Find(s, id)].(payload := payload, updatedAt := at))
      else s
  }
}
