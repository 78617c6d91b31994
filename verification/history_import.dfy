/** The windowed history import: one pass over a job, and runs of passes. */
module HistoryImport {
  import opened Wrappers

  const DAY := 86_400_000
  const ANALYSIS_WINDOW := 7 * DAY

  datatype Config = Config(windowMs: int, windowsPerPass: nat)

  function Configure(interval: Option<int>, perPass: Option<int>): (c: Config)
    ensures Sound(c)
    ensures interval.None? ==> c.windowMs == 86_400_000
    ensures interval.Some? ==> c.windowMs == if interval.value >= 60_000 then interval.value else 60_000
    ensures perPass.None? ==> c.windowsPerPass == 7
    ensures perPass.Some? && 1 <= perPass.value <= 31 ==> c.windowsPerPass == perPass.value
    ensures perPass.Some? && perPass.value < 1 ==> c.windowsPerPass == 1
    ensures perPass.Some? && perPass.value > 31 ==> c.windowsPerPass == 31
  {
    Config(Max(60_000, if interval.Some? then interval.value else DAY), Clamp(perPass, 7, 1, 31))
  }

  predicate Sound(c: Config) { c.windowMs >= 60_000 && 1 <= c.windowsPerPass <= 31 }

  datatype Window = Window(from: int, to: int)

  /** `done` records the windows whose backfill was reported complete, in order. */
  datatype Job = Job(since: int, until: int, cursor: int, analysisSince: int, analyze: bool,
                     completed: bool, done: seq<Window>)

  datatype Analysis = Drained | Undrained | Threw

  /**
    What a pass meets: whether the backfill of the window at a cursor is
    complete, whether memory analysis is on, whether analysis is behind, how
    analysing at a cursor ends, and before which slots a shutdown is seen.
   */
  datatype Env = Env(
    complete: int -> bool, memoryOn: bool, backlog: int -> bool, analysis: int -> Analysis, stops: nat -> bool)

  datatype Outcome = Completed | Released | Failed

  datatype Turn = Turn(job: Job, ends: Option<Outcome>)

  function Analysing(env: Env, job: Job): bool { job.analyze && env.memoryOn }

  /** The slot when the whole range has been walked. */
  function FinalTurn(env: Env, job: Job): Turn {
    if Analysing(env, job) && job.analysisSince < job.until then
      match env.analysis(job.cursor)
      case Threw => Turn(job, Some(Failed))
      case Undrained => Turn(job, Some(Released))
      case Drained => Turn(job.(analysisSince := job.until), Some(Completed))
    else Turn(job, Some(Completed))
  }

  /** One window: backfill, checkpoint, analyse if due, checkpoint. */
  function WindowTurn(c: Config, env: Env, job: Job): Turn {
    var to := Min(job.until, job.cursor + c.windowMs);
    if !env.complete(job.cursor) then Turn(job, Some(Failed))
    else
      var archived := job.(cursor := to, done := job.done + [Window(job.cursor, to)]);
      var reached := to >= job.until || to - job.analysisSince >= ANALYSIS_WINDOW;
      var due := reached || (Analysing(env, job) && env.backlog(to));
      if Analysing(env, job) && due then
        match env.analysis(to)
        case Threw => Turn(archived, Some(Failed))
        case Undrained => Turn(archived, None)
        case Drained => Turn(archived.(analysisSince := to), None)
      else Turn(if due then archived.(analysisSince := to) else archived, None)
  }

  function Slot(c: Config, env: Env, job: Job): Turn {
    if job.cursor >= job.until then FinalTurn(env, job) else WindowTurn(c, env, job)
  }

  function Close(job: Job): (Job, Outcome) {
    if job.cursor >= job.until then (job.(completed := true), Completed) else (job, Released)
  }

  /** A pass from slot `index` on. */
  function Pass(c: Config, env: Env, job: Job, index: nat): (Job, Outcome)
    decreases c.windowsPerPass - index
  {
    if index >= c.windowsPerPass || env.stops(index) then Close(job)
    else
      var turn := Slot(c, env, job);
      match turn.ends
      case Some(Completed) => (turn.job.(completed := true), Completed)
      case Some(outcome) => (turn.job, outcome)
      case None => Pass(c, env, turn.job, index + 1)
  }

  /** The loop of a pass. */
  method ProcessJob(c: Config, env: Env, original: Job) returns (job: Job, outcome: Outcome)
    ensures (job, outcome) == Pass(c, env, original, 0)
  {
    job := original;
    var index := 0;
    while index < c.windowsPerPass && !env.stops(index)
      invariant index <= c.windowsPerPass
      invariant Pass(c, env, job, index) == Pass(c, env, original, 0)
    {
      if job.cursor >= job.until {
        if Analysing(env, job) && job.analysisSince < job.until {
          var analysed := env.analysis(job.cursor);
          if analysed.Threw? {
            return job, Failed;
          }
          if analysed.Undrained? {
            return job, Released;
          }
          job := job.(analysisSince := job.until);
        }
        return job.(completed := true), Completed;
      }
      var to := Min(job.until, job.cursor + c.windowMs);
      if !env.complete(job.cursor) {
        return job, Failed;
      }
      var due := to >= job.until || to - job.analysisSince >= ANALYSIS_WINDOW;
      var drained := true;
      job := job.(cursor := to, done := job.done + [Window(job.cursor, to)]);
      if Analysing(env, job) && !due {
        due := env.backlog(to);
      }
      if Analysing(env, job) && due {
        var analysed := env.analysis(to);
        if analysed.Threw? {
          return job, Failed;
        }
        drained := analysed.Drained?;
      }
      if due && drained {
        job := job.(analysisSince := to);
      }
      index := index + 1;
    }
    if job.cursor >= job.until {
      return job.(completed := true), Completed;
    }
    return job, Released;
  }

  // ------------------------------------------------------------------- tiling

  /** The windows follow each other without gap from `from` to `to`. */
  ghost predicate Tiles(c: Config, done: seq<Window>, from: int, to: int) {
    && (if done == [] then from == to else done[0].from == from && done[|done| - 1].to == to)
    && (forall i :: 0 <= i < |done| ==> done[i].from < done[i].to <= done[i].from + c.windowMs)
    && (forall i :: 0 <= i < |done| - 1 ==> done[i].to == done[i + 1].from)
  }

  ghost predicate Sane(c: Config, job: Job) {
    && Tiles(c, job.done, job.since, job.cursor)
    && job.since <= job.cursor <= Max(job.since, job.until)
    && job.since <= job.analysisSince <= Max(job.cursor, job.until)
    && (job.cursor < job.until ==> job.analysisSince <= job.cursor)
    && (job.completed ==> job.cursor >= job.until)
  }

  /** `after` comes from `before` by finishing windows that were complete. */
  ghost predicate Advances(env: Env, before: Job, after: Job) {
    && after.since == before.since && after.until == before.until && after.analyze == before.analyze
    && before.cursor <= after.cursor && before.done <= after.done
    && forall i :: |before.done| <= i < |after.done| ==> env.complete(after.done[i].from)
  }

  /** The job after a complete window. */
  function Archived(c: Config, job: Job): Job {
    var to := Min(job.until, job.cursor + c.windowMs);
    job.(cursor := to, done := job.done + [Window(job.cursor, to)])
  }

  lemma ArchivedSane(c: Config, env: Env, job: Job)
    requires Sound(c) && Sane(c, job) && !job.completed && job.cursor < job.until && env.complete(job.cursor)
    ensures Sane(c, Archived(c, job)) && Advances(env, job, Archived(c, job))
  {
  }

  /** Apart from the analysis cursor a window either changes nothing or archives. */
  lemma WindowTurnJob(c: Config, env: Env, job: Job)
    requires Sound(c) && job.cursor < job.until
    ensures var turn := WindowTurn(c, env, job);
      && turn.ends in {None, Some(Failed)}
      && (turn.job == job
          || (env.complete(job.cursor)
              && turn.job in {Archived(c, job), Archived(c, job).(analysisSince := Archived(c, job).cursor)}))
      && (turn.job == job ==> turn.ends == Some(Failed))
  {
  }

  lemma SlotSane(c: Config, env: Env, job: Job)
    requires Sound(c) && Sane(c, job) && !job.completed
    ensures var turn := Slot(c, env, job);
      && Sane(c, turn.job) && !turn.job.completed && Advances(env, job, turn.job)
      && (turn.ends == Some(Completed) ==> turn.job.cursor >= turn.job.until)
  {
    if job.cursor < job.until {
      WindowTurnJob(c, env, job);
      if env.complete(job.cursor) {
        ArchivedSane(c, env, job);
      }
    }
  }

  /** What a pass, however it ends, makes of a job. */
  ghost predicate Progress(c: Config, env: Env, before: Job, after: Job, outcome: Outcome) {
    Sane(c, after) && Advances(env, before, after) && (outcome == Completed <==> after.completed)
  }

  lemma ProgressFrom(c: Config, env: Env, before: Job, next: Job, after: Job, outcome: Outcome)
    requires Advances(env, before, next) && Progress(c, env, next, after, outcome)
    ensures Progress(c, env, before, after, outcome)
  {
  }

  lemma ClosedProgress(c: Config, env: Env, job: Job)
    requires Sane(c, job) && !job.completed
    ensures Progress(c, env, job, Close(job).0, Close(job).1)
  {
  }

  /** A slot that ends the pass. */
  lemma LastSlotProgress(c: Config, env: Env, job: Job)
    requires Sound(c) && Sane(c, job) && !job.completed && Slot(c, env, job).ends.Some?
    ensures var turn := Slot(c, env, job);
            var next := if turn.ends.value.Completed? then turn.job.(completed := true) else turn.job;
            Progress(c, env, job, next, turn.ends.value)
  {
    SlotSane(c, env, job);
    Marked(c, env, job, Slot(c, env, job).job);
  }

  /**
    A pass, however it ends, keeps the finished windows a gapless tiling of
    [since, cursor]; the cursor never goes back nor past `until`; and a job is
    completed only once the whole range was covered by complete backfills.
   */
  lemma {:induction false} PassSane(c: Config, env: Env, job: Job, index: nat)
    requires Sound(c) && Sane(c, job) && !job.completed
    ensures var (after, outcome) := Pass(c, env, job, index); Progress(c, env, job, after, outcome)
    decreases c.windowsPerPass - index
  {
    if index >= c.windowsPerPass || env.stops(index) {
      ClosedProgress(c, env, job);
    } else if Slot(c, env, job).ends.Some? {
      LastSlotProgress(c, env, job);
    } else {
      SlotSane(c, env, job);
      var next := Slot(c, env, job).job;
      var (after, outcome) := Pass(c, env, next, index + 1);
      PassSane(c, env, next, index + 1);
      ProgressFrom(c, env, job, next, after, outcome);
    }
  }

  lemma Marked(c: Config, env: Env, before: Job, job: Job)
    requires Sane(c, job) && Advances(env, before, job)
    ensures job.cursor >= job.until ==> Sane(c, job.(completed := true))
    ensures Advances(env, before, job.(completed := true))
  {
  }

  function NewJob(since: int, until: int, analyze: bool): Job {
    Job(since, until, since, since, analyze, false, [])
  }

  /** Passes one after another; a completed job is not claimed again, a failed one keeps its cursor. */
  function RunPasses(c: Config, job: Job, envs: seq<Env>): Job {
    if envs == [] then job
    else
      var before := RunPasses(c, job, envs[..|envs| - 1]);
      if before.completed then before else Pass(c, envs[|envs| - 1], before, 0).0
  }

  lemma {:induction false} RunSane(c: Config, since: int, until: int, analyze: bool, envs: seq<Env>)
    requires Sound(c)
    ensures var job := RunPasses(c, NewJob(since, until, analyze), envs);
      Sane(c, job) && job.since == since && job.until == until
  {
    if envs != [] {
      RunSane(c, since, until, analyze, envs[..|envs| - 1]);
      var before := RunPasses(c, NewJob(since, until, analyze), envs[..|envs| - 1]);
      if !before.completed {
        PassSane(c, envs[|envs| - 1], before, 0);
      }
    }
  }

  /** The cursor never goes back over a run. */
  lemma {:induction false} CursorMonotone(c: Config, since: int, until: int, analyze: bool, envs: seq<Env>, n: nat)
    requires Sound(c) && n <= |envs|
    ensures RunPasses(c, NewJob(since, until, analyze), envs[..n]).cursor
         <= RunPasses(c, NewJob(since, until, analyze), envs).cursor
    ensures RunPasses(c, NewJob(since, until, analyze), envs[..n]).done
         <= RunPasses(c, NewJob(since, until, analyze), envs).done
  {
    if n == |envs| {
      assert envs[..n] == envs;
    } else {
      var front := envs[..|envs| - 1];
      assert front[..n] == envs[..n];
      CursorMonotone(c, since, until, analyze, front, n);
      RunSane(c, since, until, analyze, front);
      if !RunPasses(c, NewJob(since, until, analyze), front).completed {
        PassSane(c, envs[|envs| - 1], RunPasses(c, NewJob(since, until, analyze), front), 0);
      }
    }
  }

  lemma {:induction false} TileHolds(c: Config, done: seq<Window>, from: int, to: int, t: int) returns (i: nat)
    requires Tiles(c, done, from, to) && done != [] && from <= t <= to
    ensures i < |done| && done[i].from <= t <= done[i].to
  {
    if t <= done[0].to {
      i := 0;
    } else {
      assert |done| > 1;
      assert Tiles(c, done[1..], done[0].to, to) by {
        assert forall k :: 0 <= k < |done| - 1 ==> done[1..][k] == done[k + 1];
      }
      var k := TileHolds(c, done[1..], done[0].to, to, t);
      i := k + 1;
    }
  }

  /** Pass k of the run added the i-th finished window. */
  ghost predicate AddedBy(c: Config, start: Job, envs: seq<Env>, i: nat, k: nat) {
    && k < |envs|
    && |RunPasses(c, start, envs[..k]).done| <= i < |RunPasses(c, start, envs[..k + 1]).done|
  }

  /** The pass that added a window is the one that ran its backfill, and it was reported complete there. */
  ghost predicate FinishedBy(c: Config, start: Job, envs: seq<Env>, i: nat, k: nat)
    requires i < |RunPasses(c, start, envs).done|
  {
    AddedBy(c, start, envs, i, k) && envs[k].complete(RunPasses(c, start, envs).done[i].from)
  }

  lemma AddedByLonger(c: Config, start: Job, envs: seq<Env>, i: nat, k: nat)
    requires envs != [] && AddedBy(c, start, envs[..|envs| - 1], i, k)
    ensures AddedBy(c, start, envs, i, k)
  {
    var n := |envs| - 1;
    assert envs[..n][..k] == envs[..k] && envs[..n][..k + 1] == envs[..k + 1];
  }

  lemma LastPassAdds(c: Config, since: int, until: int, analyze: bool, envs: seq<Env>, i: nat)
    requires Sound(c) && envs != []
    requires |RunPasses(c, NewJob(since, until, analyze), envs[..|envs| - 1]).done| <= i
    requires i < |RunPasses(c, NewJob(since, until, analyze), envs).done|
    ensures FinishedBy(c, NewJob(since, until, analyze), envs, i, |envs| - 1)
  {
    var n := |envs| - 1;
    RunSane(c, since, until, analyze, envs[..n]);
    assert envs[..n + 1] == envs;
    PassSane(c, envs[n], RunPasses(c, NewJob(since, until, analyze), envs[..n]), 0);
  }

  /** Every finished window was finished by a pass. */
  lemma {:induction false} DoneWasComplete(c: Config, since: int, until: int, analyze: bool, envs: seq<Env>, i: nat)
    returns (k: nat)
    requires Sound(c) && i < |RunPasses(c, NewJob(since, until, analyze), envs).done|
    ensures FinishedBy(c, NewJob(since, until, analyze), envs, i, k)
  {
    var n := |envs| - 1;
    var start := NewJob(since, until, analyze);
    if i < |RunPasses(c, start, envs[..n]).done| {
      k := DoneWasComplete(c, since, until, analyze, envs[..n], i);
      CursorMonotone(c, since, until, analyze, envs, n);
      AddedByLonger(c, start, envs, i, k);
    } else {
      k := n;
      LastPassAdds(c, since, until, analyze, envs, i);
    }
  }

  /** And by one pass only. */
  lemma FinishedOnce(c: Config, since: int, until: int, analyze: bool, envs: seq<Env>, i: nat, k: nat, l: nat)
    requires Sound(c)
    requires AddedBy(c, NewJob(since, until, analyze), envs, i, k)
    requires AddedBy(c, NewJob(since, until, analyze), envs, i, l)
    ensures k == l
  {
    if k < l {
      assert envs[..l][..k + 1] == envs[..k + 1];
      CursorMonotone(c, since, until, analyze, envs[..l], k + 1);
    } else if l < k {
      assert envs[..k][..l + 1] == envs[..l + 1];
      CursorMonotone(c, since, until, analyze, envs[..k], l + 1);
    }
  }

  /**
    Whatever passes, failures and retries happened: when a job is completed,
    every moment of [since, until] lies in a window that some pass finished, and
    whose backfill was reported complete in that pass.
   */
  lemma CompletedMeansCovered(c: Config, since: int, until: int, analyze: bool, envs: seq<Env>, t: int)
    returns (i: nat, k: nat)
    requires Sound(c) && since < until && since <= t <= until
    requires RunPasses(c, NewJob(since, until, analyze), envs).completed
    ensures var done := RunPasses(c, NewJob(since, until, analyze), envs).done;
            && i < |done| && done[i].from <= t <= done[i].to <= done[i].from + c.windowMs
            && FinishedBy(c, NewJob(since, until, analyze), envs, i, k)
  {
    RunSane(c, since, until, analyze, envs);
    var job := RunPasses(c, NewJob(since, until, analyze), envs);
    i := TileHolds(c, job.done, since, job.cursor, t);
    k := DoneWasComplete(c, since, until, analyze, envs, i);
  }

  // ------------------------------------------------------------ analysis keeps up

  /**
    One window of a pass. An incomplete backfill fails the pass and changes nothing;
    a complete one moves the cursor. Analysis is due at the end of the range, seven
    days after it last caught up, and, where it is on, when it is behind; only a due
    analysis that catches up, or is off, moves its own cursor, and one that throws
    fails the pass.
   */
  lemma WindowExact(c: Config, env: Env, job: Job)
    requires Sound(c) && job.cursor < job.until
    ensures var turn := Slot(c, env, job);
            var to := Min(job.until, job.cursor + c.windowMs);
            var on := job.analyze && env.memoryOn;
            var due := to == job.until || to - job.analysisSince >= 604_800_000 || (on && env.backlog(to));
            if !env.complete(job.cursor) then turn.job == job && turn.ends == Some(Failed)
            else
              && turn.job.cursor == to && turn.job.done == job.done + [Window(job.cursor, to)]
              && (turn.job.analysisSince == to <==>
                    to == job.analysisSince || (due && (on ==> env.analysis(to) == Drained)))
              && turn.job.analysisSince in {to, job.analysisSince}
              && (turn.ends == Some(Failed) <==> on && due && env.analysis(to) == Threw)
              && turn.ends in {None, Some(Failed)}
  {
  }

  /** The slot after the last window: an analysis still owed decides how the pass ends. */
  lemma FinalSlotExact(c: Config, env: Env, job: Job)
    requires job.cursor >= job.until
    ensures var turn := Slot(c, env, job);
            var owed := job.analyze && env.memoryOn && job.analysisSince < job.until;
            && (turn.ends == Some(Completed) <==> (owed ==> env.analysis(job.cursor) == Drained))
            && (turn.ends == Some(Failed) <==> owed && env.analysis(job.cursor) == Threw)
            && (turn.ends == Some(Released) <==> owed && env.analysis(job.cursor) == Undrained)
            && turn.job.cursor == job.cursor && turn.job.done == job.done
            && (turn.ends == Some(Completed) && owed ==> turn.job.analysisSince == job.until)
  {
  }

  /** Every analysis that is started catches up. */
  ghost predicate Catching(env: Env) { forall cursor :: env.analysis(cursor) == Drained }

  /** Less than seven days are unanalysed, and nothing once the range has been walked. */
  predicate UpToDate(job: Job) {
    && job.cursor - job.analysisSince < 604_800_000
    && (job.cursor >= job.until && job.since < job.until ==> job.analysisSince >= job.until)
  }

  lemma {:induction false} PassKeepsUp(c: Config, env: Env, job: Job, index: nat)
    requires Sound(c) && Sane(c, job) && !job.completed && Catching(env) && UpToDate(job)
    ensures UpToDate(Pass(c, env, job, index).0)
    decreases c.windowsPerPass - index
  {
    if index < c.windowsPerPass && !env.stops(index) && Slot(c, env, job).ends.None? {
      SlotSane(c, env, job);
      PassKeepsUp(c, env, Slot(c, env, job).job, index + 1);
    }
  }

  /** While every analysis catches up, no more than seven days wait for it at the end of a pass. */
  lemma {:induction false} AnalysisKeepsUp(c: Config, since: int, until: int, analyze: bool, envs: seq<Env>)
    requires Sound(c) && forall env :: env in envs ==> Catching(env)
    ensures UpToDate(RunPasses(c, NewJob(since, until, analyze), envs))
  {
    if envs != [] {
      var n := |envs| - 1;
      AnalysisKeepsUp(c, since, until, analyze, envs[..n]);
      RunSane(c, since, until, analyze, envs[..n]);
      var before := RunPasses(c, NewJob(since, until, analyze), envs[..n]);
      if !before.completed {
        assert envs[n] in envs;
        PassKeepsUp(c, envs[n], before, 0);
      }
    }
  }

  // ----------------------------------------------------------------- counting

  /** How many windows are left from a cursor. */
  function WindowsLeft(cursor: int, until: int, windowMs: int): nat
    requires windowMs > 0
    decreases if until > cursor then until - cursor else 0
  {
    if cursor >= until then 0 else 1 + WindowsLeft(cursor + windowMs, until, windowMs)
  }

  /** It is the ceiling of (until - cursor) / windowMs. */
  lemma {:induction false} WindowsLeftIsCeiling(cursor: int, until: int, windowMs: int)
    requires windowMs > 0 && cursor < until
    ensures (WindowsLeft(cursor, until, windowMs) - 1) * windowMs < until - cursor
    ensures until - cursor <= WindowsLeft(cursor, until, windowMs) * windowMs
    decreases until - cursor
  {
    if cursor + windowMs < until {
      WindowsLeftIsCeiling(cursor + windowMs, until, windowMs);
      var n := WindowsLeft(cursor + windowMs, until, windowMs);
      assert (n + 1 - 1) * windowMs == (n - 1) * windowMs + windowMs;
      assert (n + 1) * windowMs == n * windowMs + windowMs;
    } else {
      assert WindowsLeft(cursor, until, windowMs) == 1;
    }
  }

  function PassesNeeded(windows: nat, perPass: nat): nat
    requires perPass > 0
  {
    if windows <= perPass then 1 else 1 + PassesNeeded(windows - perPass, perPass)
  }

  /** It is max(1, the ceiling of windows / perPass). */
  lemma {:induction false} PassesNeededIsCeiling(windows: nat, perPass: nat)
    requires perPass > 0
    ensures var n := PassesNeeded(windows, perPass);
      && n >= 1 && windows <= n * perPass && (n > 1 ==> (n - 1) * perPass < windows)
  {
    if windows > perPass {
      PassesNeededIsCeiling(windows - perPass, perPass);
      var n := PassesNeeded(windows - perPass, perPass);
      assert (n + 1) * perPass == n * perPass + perPass;
      assert n > 1 ==> (n - 1) * perPass + perPass == n * perPass;
    }
  }

  /** No failure, no shutdown, and no analysis to do. */
  ghost predicate Quiet(env: Env, analyze: bool) {
    (forall x :: env.complete(x)) && (forall n :: !env.stops(n)) && !(analyze && env.memoryOn)
  }

  lemma QuietSlot(c: Config, env: Env, job: Job)
    requires Sound(c) && Sane(c, job) && !job.completed && Quiet(env, job.analyze) && job.cursor < job.until
    ensures var turn := Slot(c, env, job);
            var left := WindowsLeft(job.cursor, job.until, c.windowMs);
            && turn.ends.None? && Sane(c, turn.job) && !turn.job.completed
            && turn.job.until == job.until && turn.job.analyze == job.analyze
            && |turn.job.done| == |job.done| + 1
            && WindowsLeft(turn.job.cursor, job.until, c.windowMs) == left - 1
  {
    SlotSane(c, env, job);
    LeftClipped(job.cursor, job.until, c.windowMs);
  }

  /** A quiet pass with k slots finishes min(k, windows left) windows, and completes the job iff that is all. */
  lemma {:induction false} QuietPass(c: Config, env: Env, job: Job, index: nat)
    requires Sound(c) && Sane(c, job) && !job.completed && Quiet(env, job.analyze) && index <= c.windowsPerPass
    ensures var (after, outcome) := Pass(c, env, job, index);
      var left, slots := WindowsLeft(job.cursor, job.until, c.windowMs), c.windowsPerPass - index;
      && |after.done| == |job.done| + Min(slots, left)
      && WindowsLeft(after.cursor, after.until, c.windowMs) == left - Min(slots, left)
      && (after.completed <==> left <= slots)
      && Sane(c, after) && after.until == job.until && after.analyze == job.analyze
    decreases c.windowsPerPass - index
  {
    PassSane(c, env, job, index);
    if index < c.windowsPerPass && job.cursor < job.until {
      QuietSlot(c, env, job);
      QuietPass(c, env, Slot(c, env, job).job, index + 1);
    }
  }

  lemma LeftClipped(cursor: int, until: int, windowMs: int)
    requires windowMs > 0 && cursor < until
    ensures WindowsLeft(Min(until, cursor + windowMs), until, windowMs) == WindowsLeft(cursor, until, windowMs) - 1
  {
  }

  /** The state of a quiet run after n passes. */
  ghost predicate QuietState(c: Config, job: Job, since: int, until: int, analyze: bool, n: nat)
    requires Sound(c)
  {
    var windows := WindowsLeft(since, until, c.windowMs);
    && (job.completed <==> n >= PassesNeeded(windows, c.windowsPerPass))
    && |job.done| == Min(n * c.windowsPerPass, windows)
    && WindowsLeft(job.cursor, until, c.windowMs) == windows - |job.done|
    && Sane(c, job) && job.until == until && job.analyze == analyze
  }

  lemma QuietStep(c: Config, env: Env, before: Job, since: int, until: int, analyze: bool, n: nat)
    requires Sound(c) && Quiet(env, analyze) && QuietState(c, before, since, until, analyze, n)
    ensures QuietState(c, if before.completed then before else Pass(c, env, before, 0).0, since, until, analyze, n + 1)
  {
    var windows := WindowsLeft(since, until, c.windowMs);
    var needed := PassesNeeded(windows, c.windowsPerPass);
    PassesNeededIsCeiling(windows, c.windowsPerPass);
    assert (n + 1) * c.windowsPerPass == n * c.windowsPerPass + c.windowsPerPass;
    if before.completed {
      Enough(n, needed, c.windowsPerPass, windows);
    } else {
      QuietPass(c, env, before, 0);
      PassCount(n, needed, c.windowsPerPass, windows);
    }
  }

  /**
    With analysis off and no failure or shutdown a job takes exactly
    ceil((until - since) / window) windows and exactly
    max(1, ceil(windows / windowsPerPass)) passes.
   */
  lemma {:induction false} QuietRun(c: Config, since: int, until: int, analyze: bool, envs: seq<Env>)
    requires Sound(c) && forall e :: e in envs ==> Quiet(e, analyze)
    ensures QuietState(c, RunPasses(c, NewJob(since, until, analyze), envs), since, until, analyze, |envs|)
  {
    if envs == [] {
      PassesNeededIsCeiling(WindowsLeft(since, until, c.windowMs), c.windowsPerPass);
    } else {
      var front := envs[..|envs| - 1];
      QuietRun(c, since, until, analyze, front);
      assert envs[|envs| - 1] in envs;
      var last := RunPasses(c, NewJob(since, until, analyze), front);
      QuietStep(c, envs[|envs| - 1], last, since, until, analyze, |front|);
    }
  }

  lemma PassCount(done: nat, needed: nat, perPass: nat, windows: nat)
    requires needed >= 1 && windows <= needed * perPass && (needed > 1 ==> (needed - 1) * perPass < windows)
    requires done < needed
    ensures done * perPass <= windows
    ensures windows - done * perPass <= perPass <==> done + 1 >= needed
  {
    if done + 1 < needed {
      assert (done + 1) * perPass <= (needed - 1) * perPass;
      assert (done + 1) * perPass == done * perPass + perPass;
    } else {
      assert needed * perPass == done * perPass + perPass;
      assert done == needed - 1;
    }
  }

  lemma Enough(done: nat, needed: nat, perPass: nat, windows: nat)
    requires windows <= needed * perPass && done >= needed
    ensures windows <= done * perPass
  {
  }

  // ------------------------------------------------- completing while undrained

  ghost predicate Settled(job: Job) { job.analysisSince >= job.until }

  /** The slot at which the loop is left: the first shutdown, or the end of the pass. */
  function ExitSlot(c: Config, stops: nat -> bool, index: nat): (e: nat)
    ensures index <= c.windowsPerPass ==> index <= e <= c.windowsPerPass
    decreases c.windowsPerPass - index
  {
    if index >= c.windowsPerPass then c.windowsPerPass
    else if stops(index) then index
    else ExitSlot(c, stops, index + 1)
  }

  /**
    When the number of windows left differs from the slot at which the pass
    leaves its loop, a completed import has nothing left to analyse.
   */
  lemma {:induction false} CompletesSettled(c: Config, env: Env, job: Job, index: nat)
    requires Sound(c) && Sane(c, job) && !job.completed && job.analyze && env.memoryOn && index <= c.windowsPerPass
    requires WindowsLeft(job.cursor, job.until, c.windowMs) != ExitSlot(c, env.stops, index) - index
    ensures Pass(c, env, job, index).1 == Completed ==> Settled(Pass(c, env, job, index).0)
    decreases c.windowsPerPass - index
  {
    if index < c.windowsPerPass && !env.stops(index) && job.cursor < job.until {
      SlotSane(c, env, job);
      LeftClipped(job.cursor, job.until, c.windowMs);
      if Slot(c, env, job).ends.None? {
        CompletesSettled(c, env, Slot(c, env, job).job, index + 1);
      }
    }
  }

  function NeverDrains(stops: nat -> bool): Env {
    Env(_ => true, true, _ => false, _ => Undrained, stops)
  }

  /**
    When they coincide, an import whose analysis never drains completes all the
    same and leaves entries unanalysed.
   */
  lemma {:induction false} CompletesUnsettled(c: Config, stops: nat -> bool, job: Job, index: nat)
    requires Sound(c) && Sane(c, job) && !job.completed && job.analyze && index <= c.windowsPerPass
    requires !Settled(job)
    requires WindowsLeft(job.cursor, job.until, c.windowMs) == ExitSlot(c, stops, index) - index
    ensures Pass(c, NeverDrains(stops), job, index).1 == Completed
    ensures !Settled(Pass(c, NeverDrains(stops), job, index).0)
    decreases c.windowsPerPass - index
  {
    var env := NeverDrains(stops);
    if index < c.windowsPerPass && !env.stops(index) {
      assert ExitSlot(c, stops, index) == ExitSlot(c, stops, index + 1);
      assert job.cursor < job.until;
      SlotSane(c, env, job);
      LeftClipped(job.cursor, job.until, c.windowMs);
      CompletesUnsettled(c, stops, Slot(c, env, job).job, index + 1);
    }
  }

  /** Completing this pass, under these shutdowns, always settles the analysis. */
  ghost predicate CompletionSettles(c: Config, stops: nat -> bool, job: Job) {
    forall env: Env :: env.stops == stops && env.memoryOn && Pass(c, env, job, 0).1 == Completed ==>
      Settled(Pass(c, env, job, 0).0)
  }

  /**
    A pass may complete an import with entries left to analyse exactly when the
    windows left run out just as the loop is left: at the end of the pass, or
    at a shutdown.
   */
  lemma CompletionSettlesExactly(c: Config, stops: nat -> bool, job: Job)
    requires Sound(c) && Sane(c, job) && !job.completed && job.analyze && !Settled(job)
    ensures CompletionSettles(c, stops, job) <==>
            WindowsLeft(job.cursor, job.until, c.windowMs) != ExitSlot(c, stops, 0)
  {
    if WindowsLeft(job.cursor, job.until, c.windowMs) != ExitSlot(c, stops, 0) {
      forall env: Env | env.stops == stops && env.memoryOn
        ensures Pass(c, env, job, 0).1 == Completed ==> Settled(Pass(c, env, job, 0).0)
      {
        CompletesSettled(c, env, job, 0);
      }
    } else {
      CompletesUnsettled(c, stops, job, 0);
      assert NeverDrains(stops).stops == stops && NeverDrains(stops).memoryOn;
    }
  }
}
