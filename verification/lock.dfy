/**
  The cross-process lock file around load, operate and save. Any number of
  agents (one per call of `mutate`) interleave the individual steps. Creating
  the lock file and writing its owner is one step.
 */
module LockFile {
  import opened Wrappers

  datatype Phase<+S, +Op> =
    | Idle
    | Contending(op: Op)                 // in the acquire loop
    | SawStale(op: Op, holder: int)      // judged this holder dead, about to delete the lock file
    | Holding(op: Op)
    | Loaded(op: Op, seen: S)
    | Computed(op: Op, next: S)
    | Leaving                            // saved, or the operation threw

  datatype Sys<S, Op> = Sys(
    lock: Option<int>,
    file: S,
    phase: map<int, Phase<S, Op>>,
    dead: set<int>,
    log: seq<Op>)                        // operations in the order their saves committed
  {
    function At(p: int): Phase<S, Op> { if p in phase then phase[p] else Idle }

    /** Between taking the lock and giving it back. */
    predicate InSection(p: int) { !At(p).Idle? && !At(p).Contending? && !At(p).SawStale? }
  }

  datatype Step<+Op> =
    | Request(agent: int, op: Op)
    | Create(agent: int)
    | TimeOut(agent: int)
    | JudgeStale(agent: int)
    | Unlink(agent: int)
    | Load(agent: int)
    | Operate(agent: int)
    | Save(agent: int)
    | Fail(agent: int)                   // reading or writing the state file threw
    | Release(agent: int)
    | Die(agent: int)

  function Start<S, Op>(file: S): Sys<S, Op> { Sys(None, file, map[], {}, []) }

  /** The state after a step, or None when the step is not possible. */
  function Next<S, Op>(apply: (S, Op) -> Option<S>, s: Sys<S, Op>, step: Step<Op>): Option<Sys<S, Op>> {
    var p := step.agent;
    if p in s.dead then None
    else
      match (step, s.At(p))
      case (Request(_, op), Idle) => Some(s.(phase := s.phase[p := Contending(op)]))
      case (Create(_), Contending(op)) =>
        if s.lock.None? then Some(s.(lock := Some(p), phase := s.phase[p := Holding(op)])) else None
      case (TimeOut(_), Contending(_)) =>
        if s.lock.Some? then Some(s.(phase := s.phase[p := Idle])) else None
      case (JudgeStale(_), Contending(op)) =>
        if s.lock.Some? && s.lock.value in s.dead then
          Some(s.(phase := s.phase[p := SawStale(op, s.lock.value)]))
        else None
      case (Unlink(_), SawStale(op, _)) => Some(s.(lock := None, phase := s.phase[p := Contending(op)]))
      case (Load(_), Holding(op)) => Some(s.(phase := s.phase[p := Loaded(op, s.file)]))
      case (Operate(_), Loaded(op, seen)) =>
        (match apply(seen, op)
         case Some(next) => Some(s.(phase := s.phase[p := Computed(op, next)]))
         case None => Some(s.(phase := s.phase[p := Leaving])))
      case (Save(_), Computed(op, next)) =>
        Some(s.(file := next, phase := s.phase[p := Leaving], log := s.log + [op]))
      case (Fail(_), Holding(_)) => Some(s.(phase := s.phase[p := Leaving]))
      case (Fail(_), Computed(_, _)) => Some(s.(phase := s.phase[p := Leaving]))
      case (Release(_), Leaving) =>
        Some(s.(lock := if s.lock == Some(p) then None else s.lock, phase := s.phase[p := Idle]))
      case (Die(_), _) => Some(s.(dead := s.dead + {p}))
      case (_, _) => None
  }

  function Exec<S, Op>(apply: (S, Op) -> Option<S>, file: S, steps: seq<Step<Op>>): Option<Sys<S, Op>> {
    if steps == [] then Some(Start(file))
    else
      match Exec(apply, file, steps[..|steps| - 1])
      case None => None
      case Some(s) => Next(apply, s, steps[|steps| - 1])
  }

  /** The operations one after another, each on what the previous one left. */
  function Fold<S, Op>(apply: (S, Op) -> Option<S>, file: S, log: seq<Op>): Option<S> {
    if log == [] then Some(file)
    else
      match Fold(apply, file, log[..|log| - 1])
      case None => None
      case Some(s) => apply(s, log[|log| - 1])
  }

  /** No agent dies between taking the lock and giving it back. */
  predicate Calm<S, Op>(apply: (S, Op) -> Option<S>, file: S, steps: seq<Step<Op>>) {
    forall n :: 0 <= n < |steps| && steps[n].Die? ==>
      match Exec(apply, file, steps[..n])
      case None => true
      case Some(s) => !s.InSection(steps[n].agent)
  }

  ghost predicate Exclusive<S, Op>(s: Sys<S, Op>) {
    forall p :: s.InSection(p) && p !in s.dead ==> s.lock == Some(p)
  }

  ghost predicate Orderly<S, Op>(apply: (S, Op) -> Option<S>, file: S, s: Sys<S, Op>) {
    && (forall p :: s.InSection(p) <==> s.lock == Some(p))
    && (forall p :: s.InSection(p) ==> p !in s.dead)
    && (forall p :: !s.At(p).SawStale?)
    && Fold(apply, file, s.log) == Some(s.file)
    && (forall p :: s.At(p).Loaded? ==> s.At(p).seen == s.file)
    && (forall p :: s.At(p).Computed? ==> apply(s.file, s.At(p).op) == Some(s.At(p).next))
  }

  lemma SaveOrderly<S, Op>(apply: (S, Op) -> Option<S>, file: S, s: Sys<S, Op>, p: int)
    requires Orderly(apply, file, s) && Next(apply, s, Save(p)).Some?
    ensures Orderly(apply, file, Next(apply, s, Save(p)).value)
  {
    var t := Next(apply, s, Save(p)).value;
    assert s.InSection(p);
    assert forall q :: q != p ==> t.At(q) == s.At(q);
    assert forall q :: s.At(q).Loaded? || s.At(q).Computed? ==> s.InSection(q);
    assert t.log[..|t.log| - 1] == s.log;
  }

  lemma StepOrderly<S, Op>(apply: (S, Op) -> Option<S>, file: S, s: Sys<S, Op>, step: Step<Op>)
    requires Orderly(apply, file, s) && Next(apply, s, step).Some?
    requires step.Die? ==> !s.InSection(step.agent)
    ensures Orderly(apply, file, Next(apply, s, step).value)
  {
    var t := Next(apply, s, step).value;
    if step.Save? {
      SaveOrderly(apply, file, s, step.agent);
    } else {
      assert forall q :: q != step.agent ==> t.At(q) == s.At(q);
      assert t.file == s.file && t.log == s.log;
    }
  }

  /**
    In every run in which no holder dies, at every moment: at most one agent is
    in its critical section, nobody deletes another's lock, and the file is the
    result of the committed operations one after another, none lost.
   */
  lemma {:induction false} Serializable<S, Op>(apply: (S, Op) -> Option<S>, file: S, steps: seq<Step<Op>>)
    requires Exec(apply, file, steps).Some? && Calm(apply, file, steps)
    ensures Orderly(apply, file, Exec(apply, file, steps).value)
    ensures var sys := Exec(apply, file, steps).value;
            forall p, q :: sys.InSection(p) && sys.InSection(q) ==> p == q
  {
    if steps != [] {
      var n := |steps| - 1;
      assert forall m :: 0 <= m < n ==> steps[..n][..m] == steps[..m];
      Serializable(apply, file, steps[..n]);
      StepOrderly(apply, file, Exec(apply, file, steps[..n]).value, steps[n]);
    }
  }

  /** Committed operations stay committed. */
  lemma {:induction false} LogGrows<S, Op>(apply: (S, Op) -> Option<S>, file: S, steps: seq<Step<Op>>, n: nat)
    requires n <= |steps| && Exec(apply, file, steps).Some?
    ensures Exec(apply, file, steps[..n]).Some?
    ensures Exec(apply, file, steps[..n]).value.log <= Exec(apply, file, steps).value.log
  {
    if n == |steps| {
      assert steps[..n] == steps;
    } else {
      var m := |steps| - 1;
      assert steps[..m][..n] == steps[..n];
      LogGrows(apply, file, steps[..m], n);
    }
  }

  // ------------------------------------------------- taking over a dead holder

  /** The step deletes the lock of a live agent that is in its section. */
  predicate Intrudes<S, Op>(s: Sys<S, Op>, step: Step<Op>) {
    step.Unlink? && s.lock.Some? && s.lock.value !in s.dead && s.InSection(s.lock.value)
  }

  /** Any step, deaths included, keeps live agents in their sections named by the lock unless it intrudes. */
  lemma StepExclusiveExactly<S, Op>(apply: (S, Op) -> Option<S>, s: Sys<S, Op>, step: Step<Op>)
    requires Exclusive(s) && Next(apply, s, step).Some?
    ensures Exclusive(Next(apply, s, step).value) <==> !Intrudes(s, step)
  {
    var t := Next(apply, s, step).value;
    assert forall q :: q != step.agent ==> t.At(q) == s.At(q);
    if Intrudes(s, step) {
      assert t.InSection(s.lock.value);
    }
  }

  /** After an intrusion the intruder itself can take the lock while the other agent is still inside. */
  lemma IntrusionOverlaps<S, Op>(apply: (S, Op) -> Option<S>, s: Sys<S, Op>, step: Step<Op>)
    requires Next(apply, s, step).Some? && Intrudes(s, step)
    ensures var next := Next(apply, Next(apply, s, step).value, Create(step.agent));
            next.Some? && !Apart(next.value)
  {
    var t := Next(apply, s, step).value;
    var next := Next(apply, t, Create(step.agent)).value;
    assert next.InSection(step.agent) && next.InSection(s.lock.value) && step.agent != s.lock.value;
  }

  /** No two live agents are in their sections together. */
  ghost predicate Apart<S, Op>(s: Sys<S, Op>) {
    forall p, q :: s.InSection(p) && s.InSection(q) && p !in s.dead && q !in s.dead ==> p == q
  }

  /** The state after n steps of a run. */
  function Moment<S, Op>(apply: (S, Op) -> Option<S>, file: S, steps: seq<Step<Op>>, n: nat): Sys<S, Op>
    requires n <= |steps| && Exec(apply, file, steps).Some?
  {
    ExecPrefix(apply, file, steps, n);
    Exec(apply, file, steps[..n]).value
  }

  lemma {:induction false} ExecPrefix<S, Op>(apply: (S, Op) -> Option<S>, file: S, steps: seq<Step<Op>>, n: nat)
    requires n <= |steps| && Exec(apply, file, steps).Some?
    ensures Exec(apply, file, steps[..n]).Some?
  {
    if n == |steps| {
      assert steps[..n] == steps;
    } else {
      assert steps[..|steps| - 1][..n] == steps[..n];
      ExecPrefix(apply, file, steps[..|steps| - 1], n);
    }
  }

  lemma MomentStep<S, Op>(apply: (S, Op) -> Option<S>, file: S, steps: seq<Step<Op>>, n: nat)
    requires n < |steps| && Exec(apply, file, steps).Some?
    ensures Next(apply, Moment(apply, file, steps, n), steps[n]) == Some(Moment(apply, file, steps, n + 1))
  {
    ExecPrefix(apply, file, steps, n + 1);
    assert steps[..n + 1][..n] == steps[..n];
  }

  /** No step of the run deletes the lock of a live agent in its section. */
  ghost predicate NoIntrusion<S, Op>(apply: (S, Op) -> Option<S>, file: S, steps: seq<Step<Op>>, n: nat)
    requires n <= |steps| && Exec(apply, file, steps).Some?
  {
    forall k :: 0 <= k < n ==> !Intrudes(Moment(apply, file, steps, k), steps[k])
  }

  /** At moment k the sections are apart, and whoever takes the lock next is alone with it. */
  ghost predicate SafeAt<S, Op>(apply: (S, Op) -> Option<S>, s: Sys<S, Op>) {
    Apart(s) && forall c :: Next(apply, s, Create(c)).Some? ==> Apart(Next(apply, s, Create(c)).value)
  }

  ghost predicate SafeThroughout<S, Op>(apply: (S, Op) -> Option<S>, file: S, steps: seq<Step<Op>>)
    requires Exec(apply, file, steps).Some?
  {
    forall k :: 0 <= k <= |steps| ==> SafeAt(apply, Moment(apply, file, steps, k))
  }

  lemma ExclusiveIsSafe<S, Op>(apply: (S, Op) -> Option<S>, s: Sys<S, Op>)
    requires Exclusive(s)
    ensures SafeAt(apply, s)
  {
    forall c | Next(apply, s, Create(c)).Some?
      ensures Apart(Next(apply, s, Create(c)).value)
    {
      StepExclusiveExactly(apply, s, Create(c));
    }
  }

  lemma {:induction false} StillExclusive<S, Op>(apply: (S, Op) -> Option<S>, file: S, steps: seq<Step<Op>>, n: nat)
    requires n <= |steps| && Exec(apply, file, steps).Some? && NoIntrusion(apply, file, steps, n)
    ensures Exclusive(Moment(apply, file, steps, n))
  {
    if n > 0 {
      StillExclusive(apply, file, steps, n - 1);
      MomentStep(apply, file, steps, n - 1);
      StepExclusiveExactly(apply, Moment(apply, file, steps, n - 1), steps[n - 1]);
    }
  }

  ghost predicate ExclusiveUpTo<S, Op>(apply: (S, Op) -> Option<S>, file: S, steps: seq<Step<Op>>, n: nat)
    requires n <= |steps| && Exec(apply, file, steps).Some?
  {
    forall k :: 0 <= k <= n ==> Exclusive(Moment(apply, file, steps, k))
  }

  /** Live agents in their sections are named by the lock after every step exactly when no step so far intrudes. */
  lemma ExclusiveExactly<S, Op>(apply: (S, Op) -> Option<S>, file: S, steps: seq<Step<Op>>, n: nat)
    requires n <= |steps| && Exec(apply, file, steps).Some?
    ensures ExclusiveUpTo(apply, file, steps, n) <==> NoIntrusion(apply, file, steps, n)
  {
    if NoIntrusion(apply, file, steps, n) {
      forall k | 0 <= k <= n
        ensures Exclusive(Moment(apply, file, steps, k))
      {
        StillExclusive(apply, file, steps, k);
      }
    }
    if ExclusiveUpTo(apply, file, steps, n) {
      forall k | 0 <= k < n
        ensures !Intrudes(Moment(apply, file, steps, k), steps[k])
      {
        MomentStep(apply, file, steps, k);
        StepExclusiveExactly(apply, Moment(apply, file, steps, k), steps[k]);
      }
    }
  }

  /** A run that is safe up to a moment had no intrusion before it. */
  lemma SafeHadNone<S, Op>(apply: (S, Op) -> Option<S>, file: S, steps: seq<Step<Op>>, k: nat)
    requires k < |steps| && Exec(apply, file, steps).Some? && SafeThroughout(apply, file, steps)
    ensures !Intrudes(Moment(apply, file, steps, k), steps[k])
  {
    var s := Moment(apply, file, steps, k);
    MomentStep(apply, file, steps, k);
    assert SafeAt(apply, Moment(apply, file, steps, k + 1));
    if Intrudes(s, steps[k]) {
      IntrusionOverlaps(apply, s, steps[k]);
    }
  }

  /**
    The exact condition for mutual exclusion in runs in which holders may die: at
    every moment no two live agents are in their sections, and none can join by
    taking the lock next, if and only if no step of the run deletes the lock of a
    live agent that is in its section.
   */
  lemma TakeoverSafeExactly<S, Op>(apply: (S, Op) -> Option<S>, file: S, steps: seq<Step<Op>>)
    requires Exec(apply, file, steps).Some?
    ensures SafeThroughout(apply, file, steps) <==> NoIntrusion(apply, file, steps, |steps|)
  {
    if NoIntrusion(apply, file, steps, |steps|) {
      ExclusiveExactly(apply, file, steps, |steps|);
      forall k | 0 <= k <= |steps|
        ensures SafeAt(apply, Moment(apply, file, steps, k))
      {
        ExclusiveIsSafe(apply, Moment(apply, file, steps, k));
      }
    }
    if SafeThroughout(apply, file, steps) {
      forall k | 0 <= k < |steps|
        ensures !Intrudes(Moment(apply, file, steps, k), steps[k])
      {
        SafeHadNone(apply, file, steps, k);
      }
    }
  }

  // -------------------------------------------------- no lost update, holders may die

  /** What a live agent in its section has read is still the file, and the file is the committed operations in order. */
  ghost predicate Current<S, Op>(apply: (S, Op) -> Option<S>, file: S, s: Sys<S, Op>) {
    && Exclusive(s)
    && Fold(apply, file, s.log) == Some(s.file)
    && (forall p :: p !in s.dead && s.At(p).Loaded? ==> s.At(p).seen == s.file)
    && (forall p :: p !in s.dead && s.At(p).Computed? ==> apply(s.file, s.At(p).op) == Some(s.At(p).next))
  }

  lemma SaveCurrent<S, Op>(apply: (S, Op) -> Option<S>, file: S, s: Sys<S, Op>, p: int)
    requires Current(apply, file, s) && Next(apply, s, Save(p)).Some?
    ensures Current(apply, file, Next(apply, s, Save(p)).value)
  {
    var t := Next(apply, s, Save(p)).value;
    assert s.InSection(p);
    assert forall q :: q != p ==> t.At(q) == s.At(q);
    assert forall q :: s.At(q).Loaded? || s.At(q).Computed? ==> s.InSection(q);
    assert t.log[..|t.log| - 1] == s.log;
  }

  lemma StepCurrent<S, Op>(apply: (S, Op) -> Option<S>, file: S, s: Sys<S, Op>, step: Step<Op>)
    requires Current(apply, file, s) && Next(apply, s, step).Some? && !Intrudes(s, step)
    ensures Current(apply, file, Next(apply, s, step).value)
  {
    var t := Next(apply, s, step).value;
    StepExclusiveExactly(apply, s, step);
    if step.Save? {
      SaveCurrent(apply, file, s, step.agent);
    } else {
      assert forall q :: q != step.agent ==> t.At(q) == s.At(q);
      assert t.file == s.file && t.log == s.log;
    }
  }

  /** No step of the run deletes the lock of a live agent in its section; agents may die anywhere. */
  ghost predicate Undisturbed<S, Op>(apply: (S, Op) -> Option<S>, file: S, steps: seq<Step<Op>>)
    requires Exec(apply, file, steps).Some?
  {
    NoIntrusion(apply, file, steps, |steps|)
  }

  lemma UndisturbedPrefix<S, Op>(apply: (S, Op) -> Option<S>, file: S, steps: seq<Step<Op>>, n: nat)
    requires n <= |steps| && Exec(apply, file, steps).Some? && Undisturbed(apply, file, steps)
    ensures Exec(apply, file, steps[..n]).Some? && Undisturbed(apply, file, steps[..n])
  {
    ExecPrefix(apply, file, steps, n);
    forall k | 0 <= k < n
      ensures !Intrudes(Moment(apply, file, steps[..n], k), steps[..n][k])
    {
      assert steps[..n][..k] == steps[..k];
      assert !Intrudes(Moment(apply, file, steps, k), steps[k]);
    }
  }

  lemma CalmPrefix<S, Op>(apply: (S, Op) -> Option<S>, file: S, steps: seq<Step<Op>>, n: nat)
    requires n <= |steps| && Calm(apply, file, steps)
    ensures Calm(apply, file, steps[..n])
  {
    assert forall k :: 0 <= k < n ==> steps[..n][..k] == steps[..k];
  }

  /**
    In every run whose takeovers do not intrude, whoever dies and wherever: at most
    one live agent is in its section, and the file is the committed operations one
    after another, none lost.
   */
  lemma {:induction false} NothingLost<S, Op>(apply: (S, Op) -> Option<S>, file: S, steps: seq<Step<Op>>)
    requires Exec(apply, file, steps).Some? && Undisturbed(apply, file, steps)
    ensures Current(apply, file, Exec(apply, file, steps).value) && Apart(Exec(apply, file, steps).value)
  {
    if steps != [] {
      var n := |steps| - 1;
      UndisturbedPrefix(apply, file, steps, n);
      NothingLost(apply, file, steps[..n]);
      assert !Intrudes(Moment(apply, file, steps, n), steps[n]);
      StepCurrent(apply, file, Exec(apply, file, steps[..n]).value, steps[n]);
    }
  }

  lemma OrderlyIntrudesNever<S, Op>(apply: (S, Op) -> Option<S>, file: S, s: Sys<S, Op>, step: Step<Op>)
    requires Orderly(apply, file, s) && Next(apply, s, step).Some?
    ensures !Intrudes(s, step)
  {
  }

  lemma CalmMoment<S, Op>(apply: (S, Op) -> Option<S>, file: S, steps: seq<Step<Op>>, k: nat)
    requires k <= |steps| && Exec(apply, file, steps).Some? && Calm(apply, file, steps)
    ensures Orderly(apply, file, Moment(apply, file, steps, k))
  {
    ExecPrefix(apply, file, steps, k);
    CalmPrefix(apply, file, steps, k);
    Serializable(apply, file, steps[..k]);
  }

  /** A run in which no holder dies is such a run. */
  lemma CalmIsUndisturbed<S, Op>(apply: (S, Op) -> Option<S>, file: S, steps: seq<Step<Op>>)
    requires Exec(apply, file, steps).Some? && Calm(apply, file, steps)
    ensures Undisturbed(apply, file, steps)
  {
    forall k | 0 <= k < |steps|
      ensures !Intrudes(Moment(apply, file, steps, k), steps[k])
    {
      CalmMoment(apply, file, steps, k);
      MomentStep(apply, file, steps, k);
      OrderlyIntrudesNever(apply, file, Moment(apply, file, steps, k), steps[k]);
    }
  }

  /**
    A reader that takes no lock sees, at any moment n of a run, the result of a
    prefix of the order in which the operations commit.
   */
  lemma ReaderSeesPrefix<S, Op>(apply: (S, Op) -> Option<S>, file: S, steps: seq<Step<Op>>, n: nat)
    requires n <= |steps| && Exec(apply, file, steps).Some? && Undisturbed(apply, file, steps)
    ensures Exec(apply, file, steps[..n]).Some?
    ensures var early, late := Exec(apply, file, steps[..n]).value, Exec(apply, file, steps).value;
            early.log <= late.log && Fold(apply, file, late.log[..|early.log|]) == Some(early.file)
  {
    LogGrows(apply, file, steps, n);
    UndisturbedPrefix(apply, file, steps, n);
    NothingLost(apply, file, steps[..n]);
    var early, late := Exec(apply, file, steps[..n]).value, Exec(apply, file, steps).value;
    assert late.log[..|early.log|] == early.log;
  }

  /** Of two moments of a run the earlier has committed a beginning of what the later has. */
  lemma TwoMoments<S, Op>(apply: (S, Op) -> Option<S>, file: S, steps: seq<Step<Op>>, m: nat, n: nat)
    requires m <= n <= |steps| && Exec(apply, file, steps).Some?
    ensures Exec(apply, file, steps[..m]).Some? && Exec(apply, file, steps[..n]).Some?
    ensures Exec(apply, file, steps[..m]).value.log <= Exec(apply, file, steps[..n]).value.log
  {
    ExecPrefix(apply, file, steps, n);
    assert steps[..n][..m] == steps[..m];
    LogGrows(apply, file, steps[..n], m);
  }

  // ------------------------------------------------------------- an overlapping run

  /** One more step of a run. */
  lemma Then<S, Op>(apply: (S, Op) -> Option<S>, file: S, steps: seq<Step<Op>>, s: Sys<S, Op>, step: Step<Op>)
    returns (more: seq<Step<Op>>, t: Sys<S, Op>)
    requires Exec(apply, file, steps) == Some(s) && Next(apply, s, step).Some?
    ensures more == steps + [step] && Exec(apply, file, more) == Some(t) == Next(apply, s, step)
  {
    more, t := steps + [step], Next(apply, s, step).value;
    assert more[..|steps|] == steps;
  }

  /** Agent 1 dies inside its section. */
  lemma DiesInside<S, Op>(apply: (S, Op) -> Option<S>, file: S, op: Op) returns (steps: seq<Step<Op>>, s: Sys<S, Op>)
    ensures Exec(apply, file, steps) == Some(s)
    ensures s.lock == Some(1) && s.dead == {1} && s.At(2) == Idle && s.At(3) == Idle
  {
    steps, s := [], Start(file);
    steps, s := Then(apply, file, steps, s, Request(1, op));
    steps, s := Then(apply, file, steps, s, Create(1));
    steps, s := Then(apply, file, steps, s, Die(1));
  }

  /** Then agents 2 and 3 both judge its lock stale. */
  lemma BothSawStale<S, Op>(apply: (S, Op) -> Option<S>, file: S, op: Op) returns (steps: seq<Step<Op>>, s: Sys<S, Op>)
    ensures Exec(apply, file, steps) == Some(s)
    ensures s.lock == Some(1) && s.dead == {1} && s.At(2) == SawStale(op, 1) && s.At(3) == SawStale(op, 1)
  {
    steps, s := DiesInside(apply, file, op);
    steps, s := Then(apply, file, steps, s, Request(2, op));
    steps, s := Then(apply, file, steps, s, Request(3, op));
    steps, s := Then(apply, file, steps, s, JudgeStale(2));
    steps, s := Then(apply, file, steps, s, JudgeStale(3));
  }

  /**
    The check and the deletion are separate steps, so two agents that both saw
    the same dead holder can end up in their critical sections together: agent 2
    takes the lock over, and agent 3 then deletes the lock of agent 2.
   */
  lemma TakeoverBreaksExclusion<S, Op>(apply: (S, Op) -> Option<S>, file: S, op: Op) returns (steps: seq<Step<Op>>)
    ensures Exec(apply, file, steps).Some? && !Apart(Exec(apply, file, steps).value)
  {
    var s;
    steps, s := BothSawStale(apply, file, op);
    steps, s := Then(apply, file, steps, s, Unlink(2));
    steps, s := Then(apply, file, steps, s, Create(2));
    IntrusionOverlaps(apply, s, Unlink(3));
    steps, s := Then(apply, file, steps, s, Unlink(3));
    steps, s := Then(apply, file, steps, s, Create(3));
  }
}
