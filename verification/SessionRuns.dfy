/** The goroutines of one session (internal/processors/session.go): any number
    of StartSession and StopSession calls, processSessionFiles with its semaphore
    and wait group, and one goroutine a file, interleaved at every shared access.
    The files were added once, with distinct ids, before the first start. */
module SessionRuns {
  import opened Runs
  import opened Session
  import opened Collections

  datatype Outcome = Chunks(n: nat) | Error

  /** Where the goroutine of one file stands: before it is spawned, blocked on
      the semaphore, before each statement of processFile, before releasing the
      semaphore, before wg.Done, and gone. */
  datatype Pc =
    | NotSpawned | Blocked | SetProcessing | FindFile | RunPipeline
    | WriteStatus(r: Outcome) | CountResult(r: Outcome) | UpdateProgress | WriteProgress(ended: nat)
    | ReleaseSlot | WgDone | Gone

  /** Where processSessionFiles stands; `Claimed` is a StartSession call past the
      status check, before its database update. */
  datatype Main = Off | Claimed | Launched | Spawning(next: nat) | Waiting | Finished

  /** History: launches of processSessionFiles, files by how often they entered
      processFile, files whose lookup missed, chunks and order of counted files,
      and whether the last write of progress was lost. */
  datatype Past = Past(launches: nat, entered: multiset<nat>, missed: set<nat>,
                       results: map<nat, nat>, counted: seq<nat>, dropped: bool)

  /** `files` and `pcs` describe the job slice taken as a snapshot, and `row` the
      progress in the session row, as a number of ended jobs. */
  datatype State = State(max: int, ctx: Ctx, main: Main, files: seq<nat>, pcs: seq<Pc>, row: nat, past: Past)

  datatype Action =
    | Start | Stop | Launch(saved: bool) | Snapshot(order: seq<nat>) | Spawn | AwaitAll
    | Acquire(i: nat) | Advance(i: nat, ok: bool, r: Outcome)

  function Init(max: int, jobs: set<nat>): State {
    State(max, Ctx(SessionPending, |jobs|, 0, 0, 0, map f | f in jobs :: Pending), Off, [], [],
          0, Past(0, multiset{}, {}, map[], [], false))
  }

  /** How many goroutines hold a slot of the semaphore. */
  function Slot(pc: Pc): nat { if pc in {NotSpawned, Blocked, WgDone, Gone} then 0 else 1 }

  function OkGap(pc: Pc): nat { if pc.CountResult? && pc.r.Chunks? then 1 else 0 }

  function BadGap(pc: Pc): nat { if pc.CountResult? && pc.r.Error? then 1 else 0 }

  /** Statements left to a goroutine. */
  function Left(pc: Pc): nat {
    match pc
    case NotSpawned => 11 case Blocked => 10 case SetProcessing => 9 case FindFile => 8 case RunPipeline => 7
    case WriteStatus(_) => 6 case CountResult(_) => 5 case UpdateProgress => 4 case WriteProgress(_) => 3
    case ReleaseSlot => 2 case WgDone => 1 case Gone => 0
  }

  function Total(f: Pc -> nat, pcs: seq<Pc>): nat {
    if pcs == [] then 0 else f(pcs[0]) + Total(f, pcs[1..])
  }

  function SetJob(s: State, i: nat, status: JobStatus): Ctx
    requires i < |s.files|
  {
    s.ctx.(jobs := s.ctx.jobs[s.files[i] := status])
  }

  /** One statement of goroutine i past the semaphore; `ok` is what the database
      answers, where it is asked. */
  function GoroutineStep(s: State, i: nat, ok: bool, r: Outcome): State
    requires i < |s.pcs| == |s.files|
  {
    var f := s.files[i];
    match s.pcs[i]
    case SetProcessing => s.(pcs := s.pcs[i := FindFile], ctx := SetJob(s, i, Processing))
    case FindFile =>
      if ok then s.(pcs := s.pcs[i := RunPipeline])
      else s.(pcs := s.pcs[i := UpdateProgress], ctx := SetJob(s, i, Failed),
              past := s.past.(missed := s.past.missed + {f}))
    case RunPipeline => s.(pcs := s.pcs[i := WriteStatus(r)])
    case WriteStatus(out) =>
      s.(pcs := s.pcs[i := CountResult(out)], ctx := SetJob(s, i, if out.Chunks? then Completed else Failed),
         past := if out.Chunks? then s.past.(results := s.past.results[f := out.n]) else s.past)
    case CountResult(out) =>
      if out.Chunks? then
        s.(pcs := s.pcs[i := UpdateProgress], past := s.past.(counted := s.past.counted + [f]),
           ctx := s.ctx.(processedFiles := s.ctx.processedFiles + 1, totalChunks := s.ctx.totalChunks + out.n))
      else s.(pcs := s.pcs[i := UpdateProgress], ctx := s.ctx.(failedFiles := s.ctx.failedFiles + 1))
    case UpdateProgress => s.(pcs := s.pcs[i := WriteProgress(|Terminal(s.ctx.jobs)|)])
    case WriteProgress(ended) =>
      s.(pcs := s.pcs[i := ReleaseSlot], row := if ok then ended else s.row, past := s.past.(dropped := !ok))
    case ReleaseSlot => s.(pcs := s.pcs[i := WgDone])
    case WgDone => s.(pcs := s.pcs[i := Gone])
    case _ => s
  }

  function Step(s: State, act: Action): State {
    match act
    case Start =>
      if s.ctx.status != SessionPending then s else s.(ctx := Started(s.ctx), main := Claimed)
    case Stop => s.(ctx := Stopped(s.ctx))
    case Launch(saved) =>
      if s.main != Claimed then s else
      if saved then s.(main := Launched, past := s.past.(launches := s.past.launches + 1)) else s.(main := Off)
    case Snapshot(order) =>
      if s.main != Launched || s.max < 0 || ToSet(order) != s.ctx.jobs.Keys || |order| != |s.ctx.jobs| then s else
      s.(main := Spawning(0), files := order, pcs := seq(|order|, _ => NotSpawned))
    case Spawn =>
      if !s.main.Spawning? then s else
      if s.main.next >= |s.pcs| then s.(main := Waiting) else
      s.(main := Spawning(s.main.next + 1), pcs := s.pcs[s.main.next := Blocked])
    case AwaitAll =>
      if s.main != Waiting || (exists i :: 0 <= i < |s.pcs| && s.pcs[i] != Gone) then s else
      s.(main := Finished, ctx := s.ctx.(status := SessionCompleted))
    case Acquire(i) =>
      if i >= |s.pcs| || i >= |s.files| || s.pcs[i] != Blocked || Total(Slot, s.pcs) >= s.max then s else
      s.(pcs := s.pcs[i := SetProcessing],
         past := s.past.(entered := s.past.entered[s.files[i] := s.past.entered[s.files[i]] + 1]))
    case Advance(i, ok, r) =>
      if |s.pcs| != |s.files| || i >= |s.pcs| then s else GoroutineStep(s, i, ok, r)
  }

  lemma {:induction false} TotalUpdate(f: Pc -> nat, pcs: seq<Pc>, i: nat, pc: Pc)
    requires i < |pcs|
    ensures Total(f, pcs[i := pc]) + f(pcs[i]) == Total(f, pcs) + f(pc)
  {
    if i > 0 {
      TotalUpdate(f, pcs[1..], i - 1, pc);
      assert pcs[i := pc][1..] == pcs[1..][i - 1 := pc];
    }
  }

  function Where(f: Pc -> nat, pcs: seq<Pc>): (places: set<int>)
    ensures forall i :: i in places <==> 0 <= i < |pcs| && f(pcs[i]) == 1
  {
    set i | 0 <= i < |pcs| && f(pcs[i]) == 1
  }

  lemma {:induction false} TotalIsCount(f: Pc -> nat, pcs: seq<Pc>)
    requires forall i | 0 <= i < |pcs| :: f(pcs[i]) <= 1
    ensures Total(f, pcs) == |Where(f, pcs)|
  {
    if pcs != [] {
      var last := |pcs| - 1;
      TotalLast(f, pcs);
      TotalIsCount(f, pcs[..last]);
      assert Where(f, pcs) == Where(f, pcs[..last]) + if f(pcs[last]) == 1 then {last} else {};
    }
  }

  lemma {:induction false} TotalLast(f: Pc -> nat, pcs: seq<Pc>)
    requires pcs != []
    ensures Total(f, pcs) == Total(f, pcs[..|pcs| - 1]) + f(pcs[|pcs| - 1])
  {
    if |pcs| > 1 {
      TotalLast(f, pcs[1..]);
      assert pcs[1..][..|pcs| - 2] == pcs[..|pcs| - 1][1..];
    }
  }

  lemma {:induction false} TotalOfSame(f: Pc -> nat, pcs: seq<Pc>, n: nat)
    requires forall i | 0 <= i < |pcs| :: f(pcs[i]) == n
    ensures Total(f, pcs) == n * |pcs|
  {
    if pcs != [] { TotalOfSame(f, pcs[1..], n); }
  }

  // ----- the invariant -----

  predicate Fits(pc: Pc, status: JobStatus) {
    match pc
    case NotSpawned => status == Pending case Blocked => status == Pending case SetProcessing => status == Pending
    case FindFile => status == Processing case RunPipeline => status == Processing
    case WriteStatus(_) => status == Processing
    case CountResult(out) => status == if out.Chunks? then Completed else Failed
    case _ => status in {Completed, Failed}
  }

  /** The job of file i is as far as its goroutine. */
  ghost predicate JobsFit(s: State) {
    && |s.pcs| == |s.files| && NoRepeats(s.files)
    && forall i | 0 <= i < |s.files| :: s.files[i] in s.ctx.jobs && Fits(s.pcs[i], s.ctx.jobs[s.files[i]])
  }

  ghost predicate MainFits(s: State) {
    && (if s.main in {Off, Claimed, Launched} then s.files == [] && JobsWith(s.ctx.jobs, Pending) == s.ctx.jobs.Keys
        else ToSet(s.files) == s.ctx.jobs.Keys)
    && (s.main.Spawning? ==> s.main.next <= |s.pcs|)
    && (forall i | 0 <= i < |s.pcs| :: s.pcs[i] == NotSpawned <==> s.main.Spawning? && i >= s.main.next)
    && (s.main == Finished ==> forall i | 0 <= i < |s.pcs| :: s.pcs[i] == Gone)
  }

  ghost predicate StartedOnce(s: State) {
    && (s.ctx.status == SessionPending ==> s.main == Off && s.past.launches == 0)
    && (s.main == Claimed ==> s.past.launches == 0)
    && s.past.launches <= 1
    && (s.main !in {Off, Claimed} <==> s.past.launches == 1)
    && (s.main == Finished ==> s.ctx.status == SessionCompleted)
  }

  ghost predicate EnteredOnce(s: State) {
    && |s.pcs| == |s.files| && NoRepeats(s.files)
    && (forall f :: f in s.past.entered ==> f in s.files)
    && (forall i | 0 <= i < |s.files| ::
          s.past.entered[s.files[i]] == if s.pcs[i] in {NotSpawned, Blocked} then 0 else 1)
  }

  ghost predicate SlotsBounded(s: State) {
    && (s.max >= 0 ==> Total(Slot, s.pcs) <= s.max)
    && (s.max <= 0 ==> forall i | 0 <= i < |s.pcs| :: s.pcs[i] in {NotSpawned, Blocked})
    && (s.max < 0 ==> s.main in {Off, Claimed, Launched})
  }

  ghost predicate ProcessedAccounted(s: State) {
    s.ctx.processedFiles + Total(OkGap, s.pcs) == |JobsWith(s.ctx.jobs, Completed)|
  }

  ghost predicate FailedAccounted(s: State) {
    && s.ctx.failedFiles + Total(BadGap, s.pcs) + |s.past.missed| == |JobsWith(s.ctx.jobs, Failed)|
    && forall f | f in s.past.missed :: f in s.ctx.jobs && s.ctx.jobs[f] == Failed
  }

  function ChunksOf(results: map<nat, nat>, counted: seq<nat>): nat {
    if counted == [] then 0 else
    var f := counted[|counted| - 1];
    ChunksOf(results, counted[..|counted| - 1]) + if f in results then results[f] else 0
  }

  ghost predicate ChunksAccounted(s: State) {
    && |s.pcs| == |s.files| && (s.files == [] ==> s.past.counted == [])
    && s.ctx.totalChunks == ChunksOf(s.past.results, s.past.counted) && s.ctx.processedFiles == |s.past.counted|
    && NoRepeats(s.past.counted) && ToSet(s.past.counted) <= s.past.results.Keys
    && s.past.results.Keys <= ToSet(s.files)
    && forall i | 0 <= i < |s.files| :: ResultFits(s, i)
  }

  /** File i has a result from its status write on, and is counted one statement later. */
  ghost predicate ResultFits(s: State, i: nat)
    requires i < |s.files| == |s.pcs|
  {
    var f, pc := s.files[i], s.pcs[i];
    && (f in s.past.counted <==> f in s.past.results && !pc.CountResult?)
    && (f in s.past.results <==> f in s.ctx.jobs && s.ctx.jobs[f] == Completed)
    && (f in s.past.results && pc.CountResult? ==> pc.r == Chunks(s.past.results[f]))
  }

  // ----- every step keeps it -----

  /** Setting job f to `to` takes it from one count to the other. */
  ghost predicate JobCountsMove(jobs: map<nat, JobStatus>, f: nat, to: JobStatus)
    requires f in jobs
  {
    forall status: JobStatus ::
      (|JobsWith(jobs[f := to], status)| ==
        |JobsWith(jobs, status)| + (if status == to then 1 else 0) - (if status == jobs[f] then 1 else 0))
  }

  lemma JobCountMoves(jobs: map<nat, JobStatus>, f: nat, to: JobStatus, status: JobStatus)
    requires f in jobs && jobs[f] != to
    ensures |JobsWith(jobs[f := to], status)| ==
      |JobsWith(jobs, status)| + (if status == to then 1 else 0) - (if status == jobs[f] then 1 else 0)
  {
    var before, after := JobsWith(jobs, status), JobsWith(jobs[f := to], status);
    assert f in before <==> status == jobs[f];
    if status == to {
      assert after == before + {f};
    } else {
      assert after == before - {f};
    }
  }

  lemma JobMoves(jobs: map<nat, JobStatus>, f: nat, to: JobStatus)
    requires f in jobs && jobs[f] != to
    ensures JobCountsMove(jobs, f, to)
  {
    hide JobsWith;
    forall status: JobStatus
      ensures (|JobsWith(jobs[f := to], status)| ==
        |JobsWith(jobs, status)| + (if status == to then 1 else 0) - (if status == jobs[f] then 1 else 0))
    {
      JobCountMoves(jobs, f, to, status);
    }
  }

  /** What one statement of goroutine i leaves alone. */
  lemma GoroutineFrame(s: State, i: nat, ok: bool, r: Outcome)
    requires i < |s.pcs| == |s.files|
    ensures var t := GoroutineStep(s, i, ok, r);
      && t.files == s.files && t.main == s.main && t.max == s.max && t.past.entered == s.past.entered
      && t.past.launches == s.past.launches
      && t.pcs == s.pcs[i := t.pcs[i]]
      && t.ctx.status == s.ctx.status && t.ctx.totalFiles == s.ctx.totalFiles
      && (t.pcs[i] in {NotSpawned, Blocked} <==> s.pcs[i] in {NotSpawned, Blocked})
      && (t.pcs[i] == NotSpawned <==> s.pcs[i] == NotSpawned)
      && OneJobChanges(s.ctx.jobs, t.ctx.jobs, s.files[i])
  {
    hide OneJobChanges, Terminal;
    GoroutineChangesOneJob(s, i, ok, r);
    assert GoroutineStep(s, i, ok, r).pcs[i] == s.pcs[i] || s.pcs[i] !in {NotSpawned, Blocked, Gone};
  }

  ghost predicate OneJobChanges(before: map<nat, JobStatus>, after: map<nat, JobStatus>, f: nat) {
    after == before || (f in after && after == before[f := after[f]])
  }

  lemma GoroutineChangesOneJob(s: State, i: nat, ok: bool, r: Outcome)
    requires i < |s.pcs| == |s.files|
    ensures OneJobChanges(s.ctx.jobs, GoroutineStep(s, i, ok, r).ctx.jobs, s.files[i])
  {
  }

  lemma GoroutineFits(s: State, i: nat, ok: bool, r: Outcome)
    requires i < |s.pcs| == |s.files| && s.files[i] in s.ctx.jobs && Fits(s.pcs[i], s.ctx.jobs[s.files[i]])
    ensures var t := GoroutineStep(s, i, ok, r);
      s.files[i] in t.ctx.jobs && Fits(t.pcs[i], t.ctx.jobs[s.files[i]])
  {
  }

  lemma GoroutineKeepsJobs(s: State, i: nat, ok: bool, r: Outcome)
    requires JobsFit(s) && i < |s.pcs|
    ensures JobsFit(GoroutineStep(s, i, ok, r))
  {
    GoroutineFrame(s, i, ok, r);
    GoroutineFits(s, i, ok, r);
    hide GoroutineStep, Fits;
  }

  lemma GoroutineKeepsMain(s: State, i: nat, ok: bool, r: Outcome)
    requires MainFits(s) && |s.pcs| == |s.files| && i < |s.pcs| && s.files[i] in s.ctx.jobs
    ensures MainFits(GoroutineStep(s, i, ok, r))
  {
    GoroutineFrame(s, i, ok, r);
    if s.pcs[i] == Gone { assert GoroutineStep(s, i, ok, r) == s; }
    hide GoroutineStep;
    assert GoroutineStep(s, i, ok, r).ctx.jobs.Keys == s.ctx.jobs.Keys;
  }

  lemma GoroutineKeepsEntered(s: State, i: nat, ok: bool, r: Outcome)
    requires EnteredOnce(s) && i < |s.pcs|
    ensures EnteredOnce(GoroutineStep(s, i, ok, r))
  {
    hide GoroutineStep;
    GoroutineFrame(s, i, ok, r);
  }

  lemma GoroutineKeepsSlots(s: State, i: nat, ok: bool, r: Outcome)
    requires SlotsBounded(s) && i < |s.pcs| == |s.files|
    ensures SlotsBounded(GoroutineStep(s, i, ok, r))
  {
    SlotMoves(s, i, ok, r);
    GoroutineFrame(s, i, ok, r);
    hide GoroutineStep, Total, OneJobChanges;
    TotalUpdate(Slot, s.pcs, i, GoroutineStep(s, i, ok, r).pcs[i]);
  }

  lemma SlotMoves(s: State, i: nat, ok: bool, r: Outcome)
    requires i < |s.pcs| == |s.files|
    ensures Slot(GoroutineStep(s, i, ok, r).pcs[i]) <= Slot(s.pcs[i])
  {
  }

  lemma GoroutineAccountsProcessed(s: State, i: nat, ok: bool, r: Outcome)
    requires JobsFit(s) && ProcessedAccounted(s) && i < |s.pcs|
    ensures ProcessedAccounted(GoroutineStep(s, i, ok, r))
  {
    TotalUpdate(OkGap, s.pcs, i, GoroutineStep(s, i, ok, r).pcs[i]);
    MoveJob(s, i);
    hide JobsWith, Total;
  }

  lemma OneJobCounts(before: map<nat, JobStatus>, after: map<nat, JobStatus>, f: nat, status: JobStatus)
    requires f in before && OneJobChanges(before, after, f)
    ensures |JobsWith(after, status)| ==
      |JobsWith(before, status)| + (if after[f] == status then 1 else 0) - (if before[f] == status then 1 else 0)
  {
    hide JobsWith;
    if after != before && after[f] != before[f] { JobCountMoves(before, f, after[f], status); }
    assert before[f := before[f]] == before;
  }

  /** A job that fails is in the gap, counted, or missed. */
  lemma FailureIsCounted(s: State, i: nat, ok: bool, r: Outcome)
    requires i < |s.pcs| == |s.files| && s.files[i] in s.ctx.jobs && Fits(s.pcs[i], s.ctx.jobs[s.files[i]])
    ensures var t, f := GoroutineStep(s, i, ok, r), s.files[i]; var miss := s.pcs[i] == FindFile && !ok;
      && t.past.missed == s.past.missed + (if miss then {f} else {})
      && f in t.ctx.jobs && (s.ctx.jobs[f] == Failed ==> t.ctx.jobs[f] == Failed)
      && (miss ==> s.ctx.jobs[f] == Processing && t.ctx.jobs[f] == Failed)
      && t.ctx.failedFiles + BadGap(t.pcs[i]) + (if miss then 1 else 0) + (if s.ctx.jobs[f] == Failed then 1 else 0)
         == s.ctx.failedFiles + BadGap(s.pcs[i]) + (if t.ctx.jobs[f] == Failed then 1 else 0)
  {
    hide Terminal;
  }

  lemma GoroutineAccountsFailed(s: State, i: nat, ok: bool, r: Outcome)
    requires JobsFit(s) && FailedAccounted(s) && i < |s.pcs|
    ensures FailedAccounted(GoroutineStep(s, i, ok, r))
  {
    var t, f := GoroutineStep(s, i, ok, r), s.files[i];
    JobsHaveGoroutines(s, i);
    GoroutineFrame(s, i, ok, r);
    FailureIsCounted(s, i, ok, r);
    hide JobsWith, Total, JobsFit, GoroutineStep, Fits, Terminal, NoRepeats;
    TotalUpdate(BadGap, s.pcs, i, t.pcs[i]);
    OneJobCounts(s.ctx.jobs, t.ctx.jobs, f, Failed);
    hide BadGap;
  }

  /** How the writes goroutine i can do next change the counts of jobs. */
  lemma MoveJob(s: State, i: nat)
    requires JobsFit(s) && i < |s.pcs|
    ensures var f, jobs := s.files[i], s.ctx.jobs;
      && Fits(s.pcs[i], jobs[f])
      && (jobs[f] != Processing ==> JobCountsMove(jobs, f, Processing))
      && (jobs[f] != Completed ==> JobCountsMove(jobs, f, Completed))
      && (jobs[f] != Failed ==> JobCountsMove(jobs, f, Failed))
  {
    var f, jobs := s.files[i], s.ctx.jobs;
    if jobs[f] != Processing { JobMoves(jobs, f, Processing); }
    if jobs[f] != Completed { JobMoves(jobs, f, Completed); }
    if jobs[f] != Failed { JobMoves(jobs, f, Failed); }
  }

  lemma {:induction false} ChunksOfFrame(results: map<nat, nat>, more: map<nat, nat>, counted: seq<nat>)
    requires forall f | f in counted :: f in results && f in more && results[f] == more[f]
    ensures ChunksOf(results, counted) == ChunksOf(more, counted)
  {
    if counted != [] { ChunksOfFrame(results, more, counted[..|counted| - 1]); }
  }

  lemma CountResultAddsChunks(s: State, i: nat, ok: bool, r: Outcome)
    requires JobsFit(s) && ChunksAccounted(s) && i < |s.pcs| && s.pcs[i].CountResult? && s.pcs[i].r.Chunks?
    ensures ChunksAccounted(GoroutineStep(s, i, ok, r))
  {
    var t, f := GoroutineStep(s, i, ok, r), s.files[i];
    assert ResultFits(s, i);
    hide JobsFit;
    assert t.past.counted[..|t.past.counted| - 1] == s.past.counted;
    assert ToSet(t.past.counted) == ToSet(s.past.counted) + {f};
    forall k | 0 <= k < |t.files| ensures ResultFits(t, k) {
      assert ResultFits(s, k);
    }
  }

  lemma WriteStatusAddsResult(s: State, i: nat, ok: bool, r: Outcome)
    requires JobsFit(s) && ChunksAccounted(s) && i < |s.pcs| && s.pcs[i].WriteStatus?
    ensures ChunksAccounted(GoroutineStep(s, i, ok, r))
  {
    var t, f := GoroutineStep(s, i, ok, r), s.files[i];
    assert ResultFits(s, i) && Fits(s.pcs[i], s.ctx.jobs[f]);
    ChunksOfFrame(s.past.results, t.past.results, s.past.counted);
    assert f in ToSet(s.files);
    forall k | 0 <= k < |t.files| ensures ResultFits(t, k) {
      assert ResultFits(s, k);
    }
  }

  lemma GoroutineAccountsChunks(s: State, i: nat, ok: bool, r: Outcome)
    requires JobsFit(s) && ChunksAccounted(s) && i < |s.pcs|
    ensures ChunksAccounted(GoroutineStep(s, i, ok, r))
  {
    if s.pcs[i].CountResult? && s.pcs[i].r.Chunks? {
      CountResultAddsChunks(s, i, ok, r);
    } else if s.pcs[i].WriteStatus? {
      WriteStatusAddsResult(s, i, ok, r);
    } else {
      OtherStepLeavesChunks(s, i, ok, r);
    }
  }

  lemma OtherStepCompletesNone(s: State, i: nat, ok: bool, r: Outcome)
    requires i < |s.pcs| == |s.files| && s.files[i] in s.ctx.jobs && Fits(s.pcs[i], s.ctx.jobs[s.files[i]])
    requires !s.pcs[i].WriteStatus? && !(s.pcs[i].CountResult? && s.pcs[i].r.Chunks?)
    ensures var t, f := GoroutineStep(s, i, ok, r), s.files[i];
      && t.past.results == s.past.results && t.past.counted == s.past.counted
      && t.ctx.totalChunks == s.ctx.totalChunks && t.ctx.processedFiles == s.ctx.processedFiles
      && !t.pcs[i].CountResult? && (s.pcs[i].CountResult? ==> s.ctx.jobs[f] != Completed)
      && f in t.ctx.jobs && (t.ctx.jobs[f] == Completed <==> s.ctx.jobs[f] == Completed)
  {
    hide Terminal;
  }

  lemma OtherStepLeavesChunks(s: State, i: nat, ok: bool, r: Outcome)
    requires JobsFit(s) && ChunksAccounted(s) && i < |s.pcs|
    requires !s.pcs[i].WriteStatus? && !(s.pcs[i].CountResult? && s.pcs[i].r.Chunks?)
    ensures ChunksAccounted(GoroutineStep(s, i, ok, r))
  {
    var t := GoroutineStep(s, i, ok, r);
    OtherStepCompletesNone(s, i, ok, r);
    GoroutineFrame(s, i, ok, r);
    hide GoroutineStep, Fits, Terminal, ChunksOf;
    forall k | 0 <= k < |t.files| ensures ResultFits(t, k) {
      assert ResultFits(s, k);
    }
  }

  lemma AcquireKeeps(s: State, i: nat)
    requires JobsFit(s) && EnteredOnce(s) && SlotsBounded(s)
    ensures var t := Step(s, Acquire(i)); JobsFit(t) && EnteredOnce(t) && SlotsBounded(t)
  {
    if i < |s.pcs| { TotalUpdate(Slot, s.pcs, i, SetProcessing); }
  }

  lemma AcquireAccounts(s: State, i: nat)
    requires ProcessedAccounted(s) && FailedAccounted(s) && ChunksAccounted(s)
    ensures var t := Step(s, Acquire(i)); ProcessedAccounted(t) && FailedAccounted(t) && ChunksAccounted(t)
  {
    var t := Step(s, Acquire(i));
    if i < |s.pcs| {
      TotalUpdate(OkGap, s.pcs, i, SetProcessing);
      TotalUpdate(BadGap, s.pcs, i, SetProcessing);
    }
    forall k | 0 <= k < |t.files| ensures ResultFits(t, k) {
      assert ResultFits(s, k);
    }
  }

  lemma SpawnKeepsMain(s: State)
    requires MainFits(s)
    ensures MainFits(Step(s, Spawn))
  {
    hide JobsWith;
  }

  lemma SpawnKeepsJobs(s: State)
    requires JobsFit(s) && MainFits(s)
    ensures JobsFit(Step(s, Spawn))
  {
    hide JobsWith;
  }

  lemma SpawnKeepsSlots(s: State)
    requires SlotsBounded(s) && MainFits(s)
    ensures SlotsBounded(Step(s, Spawn))
  {
    if s.main.Spawning? && s.main.next < |s.pcs| { TotalUpdate(Slot, s.pcs, s.main.next, Blocked); }
    hide JobsWith, Total;
  }

  lemma SpawnKeepsEntered(s: State)
    requires EnteredOnce(s) && MainFits(s)
    ensures EnteredOnce(Step(s, Spawn))
  {
    hide JobsWith;
  }

  lemma SpawnKeeps(s: State)
    requires JobsFit(s) && EnteredOnce(s) && SlotsBounded(s) && MainFits(s)
    ensures var t := Step(s, Spawn); JobsFit(t) && EnteredOnce(t) && SlotsBounded(t) && MainFits(t)
  {
    hide *;
    SpawnKeepsJobs(s);
    SpawnKeepsEntered(s);
    SpawnKeepsSlots(s);
    SpawnKeepsMain(s);
  }

  lemma SpawnAccounts(s: State)
    requires MainFits(s) && ProcessedAccounted(s) && FailedAccounted(s) && ChunksAccounted(s)
    ensures var t := Step(s, Spawn); ProcessedAccounted(t) && FailedAccounted(t) && ChunksAccounted(t)
  {
    var t := Step(s, Spawn);
    if s.main.Spawning? && s.main.next < |s.pcs| {
      TotalUpdate(OkGap, s.pcs, s.main.next, Blocked);
      TotalUpdate(BadGap, s.pcs, s.main.next, Blocked);
    }
    forall k | 0 <= k < |t.files| ensures ResultFits(t, k) {
      assert ResultFits(s, k);
    }
  }

  /** All jobs in the snapshot are still pending, each once. */
  lemma SnapshotIsPending(s: State, order: seq<nat>)
    requires MainFits(s) && Step(s, Snapshot(order)) != s
    ensures NoRepeats(order)
    ensures forall k | 0 <= k < |order| :: order[k] in s.ctx.jobs && s.ctx.jobs[order[k]] == Pending
  {
    DistinctCount(order);
    assert |s.ctx.jobs| == |s.ctx.jobs.Keys|;
    forall k | 0 <= k < |order| ensures order[k] in s.ctx.jobs && s.ctx.jobs[order[k]] == Pending {
      assert order[k] in ToSet(order);
      assert order[k] in JobsWith(s.ctx.jobs, Pending);
    }
  }

  lemma SnapshotKeepsSlots(s: State, order: seq<nat>)
    requires MainFits(s) && SlotsBounded(s)
    ensures var t := Step(s, Snapshot(order)); MainFits(t) && SlotsBounded(t)
  {
    hide JobsWith;
    var t := Step(s, Snapshot(order));
    if t != s {
      TotalOfSame(Slot, t.pcs, 0);
      hide Total;
    }
  }

  lemma SnapshotKeeps(s: State, order: seq<nat>)
    requires JobsFit(s) && MainFits(s) && EnteredOnce(s)
    ensures var t := Step(s, Snapshot(order)); JobsFit(t) && EnteredOnce(t)
  {
    if Step(s, Snapshot(order)) != s {
      SnapshotIsPending(s, order);
      hide JobsWith, NoRepeats, MainFits;
    }
  }

  lemma SnapshotAccounts(s: State, order: seq<nat>)
    requires MainFits(s) && ProcessedAccounted(s) && FailedAccounted(s) && ChunksAccounted(s)
    ensures var t := Step(s, Snapshot(order)); ProcessedAccounted(t) && FailedAccounted(t) && ChunksAccounted(t)
  {
    var t := Step(s, Snapshot(order));
    if t != s {
      TotalOfSame(OkGap, t.pcs, 0);
      TotalOfSame(BadGap, t.pcs, 0);
      assert ToSet(s.files) == {} && s.past.results == map[];
      forall k | 0 <= k < |t.files| ensures ResultFits(t, k) {
        assert order[k] in ToSet(order);
        assert order[k] in JobsWith(s.ctx.jobs, Pending);
      }
    }
  }

  ghost predicate Inv(s: State) {
    && JobsFit(s) && MainFits(s) && StartedOnce(s) && EnteredOnce(s) && SlotsBounded(s)
    && ProcessedAccounted(s) && FailedAccounted(s) && ChunksAccounted(s)
    && s.ctx.totalFiles == |s.ctx.jobs|
  }

  lemma InitInv(max: int, jobs: set<nat>)
    ensures Inv(Init(max, jobs))
  {
    var s := Init(max, jobs);
    assert JobsWith(s.ctx.jobs, Pending) == jobs;
    assert JobsWith(s.ctx.jobs, Completed) == JobsWith(s.ctx.jobs, Failed) == {};
    assert |s.ctx.jobs| == |s.ctx.jobs.Keys|;
  }

  /** The total is fixed, the session is claimed once, and no job is forgotten. */
  lemma StepFrame(s: State, act: Action)
    requires JobsFit(s) && StartedOnce(s)
    ensures var t := Step(s, act);
      && t.max == s.max && t.ctx.totalFiles == s.ctx.totalFiles && t.ctx.jobs.Keys == s.ctx.jobs.Keys
      && StartedOnce(t)
  {
    if act.Advance? && act.i < |s.pcs| {
      GoroutineFrame(s, act.i, act.ok, act.r);
      hide GoroutineStep;
    }
  }

  lemma MainStepKeepsMain(s: State, act: Action)
    requires MainFits(s) && StartedOnce(s) && (act.Start? || act.Stop? || act.Launch? || act.AwaitAll?)
    ensures MainFits(Step(s, act))
  {
    hide JobsWith;
  }

  lemma MainStepKeeps(s: State, act: Action)
    requires JobsFit(s) && MainFits(s) && EnteredOnce(s) && SlotsBounded(s) && StartedOnce(s)
    requires act.Start? || act.Stop? || act.Launch? || act.AwaitAll?
    ensures var t := Step(s, act); JobsFit(t) && MainFits(t) && EnteredOnce(t) && SlotsBounded(t)
  {
    MainStepKeepsMain(s, act);
    MainStepFrame(s, act);
    hide Step, JobsWith, Total, NoRepeats, Fits, MainFits, StartedOnce;
  }

  lemma MainStepFrame(s: State, act: Action)
    requires act.Start? || act.Stop? || act.Launch? || act.AwaitAll?
    requires StartedOnce(s)
    ensures var t := Step(s, act);
      && t.pcs == s.pcs && t.files == s.files && t.ctx.jobs == s.ctx.jobs && t.past.entered == s.past.entered
      && t.max == s.max
      && (s.main in {Off, Claimed, Launched} ==> t.main in {Off, Claimed, Launched})
  {
  }

  lemma MainStepAccounts(s: State, act: Action)
    requires ProcessedAccounted(s) && FailedAccounted(s) && ChunksAccounted(s)
    requires act.Start? || act.Stop? || act.Launch? || act.AwaitAll?
    ensures var t := Step(s, act); ProcessedAccounted(t) && FailedAccounted(t) && ChunksAccounted(t)
  {
    hide JobsWith, Total, ChunksOf, NoRepeats;
    var t := Step(s, act);
    forall k | 0 <= k < |t.files| ensures ResultFits(t, k) {
      assert ResultFits(s, k);
    }
  }

  lemma StepKeepsInv(s: State, act: Action)
    requires Inv(s)
    ensures Inv(Step(s, act))
  {
    hide JobsFit, MainFits, StartedOnce, EnteredOnce, SlotsBounded, ProcessedAccounted, FailedAccounted;
    hide ChunksAccounted;
    hide GoroutineStep;
    StepFrame(s, act);
    assert |Step(s, act).ctx.jobs| == |s.ctx.jobs| by { SameSize(s.ctx.jobs, Step(s, act).ctx.jobs); }
    match act
    case Snapshot(order) => SnapshotKeeps(s, order); SnapshotKeepsSlots(s, order); SnapshotAccounts(s, order);
    case Spawn => SpawnKeeps(s); SpawnAccounts(s);
    case Acquire(i) => AcquireKeeps(s, i); AcquireKeepsMain(s, i); AcquireAccounts(s, i);
    case Advance(i, ok, r) =>
      JobsHaveGoroutines(s, i);
      if i < |s.pcs| {
        GoroutineKeepsJobs(s, i, ok, r);
        GoroutineKeepsMain(s, i, ok, r);
        GoroutineKeepsEntered(s, i, ok, r);
        GoroutineKeepsSlots(s, i, ok, r);
        GoroutineAccountsProcessed(s, i, ok, r);
        GoroutineAccountsFailed(s, i, ok, r);
        GoroutineAccountsChunks(s, i, ok, r);
      }
    case _ => MainStepKeeps(s, act); MainStepAccounts(s, act);
  }

  lemma JobsHaveGoroutines(s: State, i: nat)
    requires JobsFit(s)
    ensures |s.pcs| == |s.files| && (i < |s.pcs| ==> s.files[i] in s.ctx.jobs)
  {
  }

  lemma AcquireKeepsMain(s: State, i: nat)
    requires MainFits(s)
    ensures MainFits(Step(s, Acquire(i)))
  {
  }

  lemma RunKeepsInv(max: int, jobs: set<nat>, acts: seq<Action>)
    ensures Inv(Run(Step, Init(max, jobs), acts))
  {
    InitInv(max, jobs);
    hide Inv, Step;
    forall s, a | Inv(s) ensures Inv(Step(s, a)) {
      StepKeepsInv(s, a);
    }
    RunKeeps(Step, Inv, Init(max, jobs), acts);
  }

  // ----- execution -----

  lemma SlotsAreCounted(pcs: seq<Pc>)
    ensures Total(Slot, pcs) == |set i | 0 <= i < |pcs| && pcs[i] !in {NotSpawned, Blocked, WgDone, Gone}|
  {
    TotalIsCount(Slot, pcs);
    assert Where(Slot, pcs) == set i | 0 <= i < |pcs| && pcs[i] !in {NotSpawned, Blocked, WgDone, Gone};
  }

  /** Processing is launched at most once, the semaphore bounds the goroutines
      inside processFile, and each file enters it at most once; when the session
      completes, each file has entered exactly once and ended. */
  lemma SessionExecution(max: int, jobs: set<nat>, acts: seq<Action>)
    ensures var s := Run(Step, Init(max, jobs), acts);
      && s.past.launches <= 1
      && (max >= 0 ==> |set i | 0 <= i < |s.pcs| && s.pcs[i] !in {NotSpawned, Blocked, WgDone, Gone}| <= max)
      && (forall f :: s.past.entered[f] <= 1)
      && (s.main == Finished ==>
            forall f | f in s.ctx.jobs :: s.past.entered[f] == 1 && s.ctx.jobs[f] in {Completed, Failed})
  {
    hide Step, JobsWith, Total, Init;
    RunKeepsInv(max, jobs, acts);
    RunKeepsMax(max, jobs, acts);
    var s := Run(Step, Init(max, jobs), acts);
    SlotsAreCounted(s.pcs);
    forall f ensures s.past.entered[f] <= 1 {
      if f in s.past.entered { var i :| 0 <= i < |s.files| && s.files[i] == f; }
    }
    if s.main == Finished {
      forall f | f in s.ctx.jobs ensures s.past.entered[f] == 1 && s.ctx.jobs[f] in {Completed, Failed} {
        assert f in ToSet(s.files);
        var i :| 0 <= i < |s.files| && s.files[i] == f;
        assert s.pcs[i] == Gone;
      }
    }
  }

  /** completeSession has the last word: a session that has finished is completed,
      every file processed, whether or not a stop came while it ran, and no start,
      stop or other step changes it any more. */
  lemma StopIsOverwritten(max: int, jobs: set<nat>, acts: seq<Action>, next: Action)
    requires Run(Step, Init(max, jobs), acts).main == Finished
    ensures var s := Run(Step, Init(max, jobs), acts);
      && s.ctx.status == SessionCompleted && Step(s, next) == s
      && forall f | f in jobs :: f in s.ctx.jobs && s.ctx.jobs[f] in {Completed, Failed} && s.past.entered[f] == 1
  {
    SessionExecution(max, jobs, acts);
    RunKeepsMax(max, jobs, acts);
    RunKeepsInv(max, jobs, acts);
    FinishedIsStable(Run(Step, Init(max, jobs), acts), next);
  }

  /** A stop cancels a running session but stops nothing: whatever comes next does
      to the files and their goroutines what it would have done without. */
  lemma StopStopsNothing(s: State, next: Action)
    requires s.ctx.status == Running
    ensures Step(s, Stop) == s.(ctx := s.ctx.(status := Cancelled))
    ensures var t, u := Step(s, next), Step(Step(s, Stop), next);
      && u.pcs == t.pcs && u.main == t.main && u.row == t.row && u.past == t.past
      && u.ctx == t.ctx.(status := u.ctx.status)
  {
    assert Step(s, Stop) == s.(ctx := s.ctx.(status := Cancelled));
    if next.Advance? {
      if |s.pcs| == |s.files| && next.i < |s.pcs| { GoroutineIgnoresStatus(s, next.i, next.ok, next.r, Cancelled); }
      hide GoroutineStep;
    } else {
      hide Total, Terminal, GoroutineStep;
    }
  }

  lemma GoroutineIgnoresStatus(s: State, i: nat, ok: bool, r: Outcome, status: SessionStatus)
    requires i < |s.pcs| == |s.files|
    ensures var t, u := GoroutineStep(s, i, ok, r), GoroutineStep(s.(ctx := s.ctx.(status := status)), i, ok, r);
      u == t.(ctx := t.ctx.(status := status))
  {
    hide GoroutineStep;
    if s.pcs[i].SetProcessing? || s.pcs[i].FindFile? || s.pcs[i].WriteStatus? {
      JobWriteIgnoresStatus(s, i, ok, r, status);
    } else {
      CountIgnoresStatus(s, i, ok, r, status);
    }
  }

  lemma JobWriteIgnoresStatus(s: State, i: nat, ok: bool, r: Outcome, status: SessionStatus)
    requires i < |s.pcs| == |s.files| && (s.pcs[i].SetProcessing? || s.pcs[i].FindFile? || s.pcs[i].WriteStatus?)
    ensures var t, u := GoroutineStep(s, i, ok, r), GoroutineStep(s.(ctx := s.ctx.(status := status)), i, ok, r);
      u == t.(ctx := t.ctx.(status := status))
  {
  }

  lemma CountIgnoresStatus(s: State, i: nat, ok: bool, r: Outcome, status: SessionStatus)
    requires i < |s.pcs| == |s.files| && !s.pcs[i].SetProcessing? && !s.pcs[i].FindFile? && !s.pcs[i].WriteStatus?
    ensures var t, u := GoroutineStep(s, i, ok, r), GoroutineStep(s.(ctx := s.ctx.(status := status)), i, ok, r);
      u == t.(ctx := t.ctx.(status := status))
  {
    hide Terminal;
  }

  /** Processing starts only with a start whose status write went through. */
  lemma {:induction false} LaunchedIfSaved(s: State, acts: seq<Action>)
    requires Launch(true) !in acts
    ensures Run(Step, s, acts).past.launches == s.past.launches
    decreases |acts|
  {
    if acts != [] {
      LaunchStep(s, acts[0]);
      hide Step;
      assert acts[0] in acts;
      LaunchedIfSaved(Step(s, acts[0]), acts[1..]);
    }
  }

  lemma LaunchStep(s: State, act: Action)
    requires act != Launch(true)
    ensures Step(s, act).past.launches == s.past.launches
  {
    hide Total, Terminal;
  }

  lemma FinishedIsStable(s: State, next: Action)
    requires MainFits(s) && StartedOnce(s) && s.main == Finished
    ensures s.ctx.status == SessionCompleted && Step(s, next) == s
  {
    hide JobsWith, Total;
  }

  lemma RunKeepsMax(max: int, jobs: set<nat>, acts: seq<Action>)
    ensures var s := Run(Step, Init(max, jobs), acts);
      s.max == max && s.ctx.totalFiles == |jobs| && s.ctx.jobs.Keys == jobs
  {
    InitInv(max, jobs);
    var fixed := (s: State) => Inv(s) && s.max == max && s.ctx.totalFiles == |jobs| && s.ctx.jobs.Keys == jobs;
    forall s, a | fixed(s) ensures fixed(Step(s, a)) {
      hide JobsFit, MainFits, EnteredOnce, SlotsBounded, ProcessedAccounted, FailedAccounted, ChunksAccounted, Step;
      StepKeepsInv(s, a);
      StepFrame(s, a);
    }
    hide Inv, Step;
    RunKeeps(Step, fixed, Init(max, jobs), acts);
  }

  /** Steps left to the session. */
  function Rank(s: State): nat {
    match s.main
    case Off => if s.ctx.status == SessionPending then 11 * |s.ctx.jobs| + 5 else 0
    case Claimed => 11 * |s.ctx.jobs| + 4
    case Launched => 11 * |s.ctx.jobs| + 3
    case Spawning(_) => Total(Left, s.pcs) + 2
    case Waiting => Total(Left, s.pcs) + 1
    case Finished => 0
  }

  lemma GoroutineRuns(s: State, i: nat, ok: bool, r: Outcome)
    requires i < |s.pcs| == |s.files|
    ensures var t := GoroutineStep(s, i, ok, r); t == s || Left(t.pcs[i]) < Left(s.pcs[i])
  {
  }

  lemma AdvanceRunsOut(s: State, i: nat, ok: bool, r: Outcome)
    requires JobsFit(s) && MainFits(s) && i < |s.pcs|
    ensures var t := GoroutineStep(s, i, ok, r); t != s ==> Rank(t) < Rank(s)
  {
    var t := GoroutineStep(s, i, ok, r);
    GoroutineRuns(s, i, ok, r);
    GoroutineFrame(s, i, ok, r);
    TotalUpdate(Left, s.pcs, i, t.pcs[i]);
    if s.pcs[i] == Gone { assert t == s; }
    hide GoroutineStep, Fits, Total;
  }

  lemma SnapshotRunsOut(s: State, order: seq<nat>)
    requires MainFits(s)
    ensures Step(s, Snapshot(order)) != s ==> Rank(Step(s, Snapshot(order))) < Rank(s)
  {
    hide JobsWith;
    var t := Step(s, Snapshot(order));
    if t != s { TotalOfSame(Left, t.pcs, 11); }
  }

  lemma SlotsRunOut(s: State, act: Action)
    requires JobsFit(s) && MainFits(s) && (act.Spawn? || act.Acquire?)
    ensures Step(s, act) != s ==> Rank(Step(s, act)) < Rank(s)
  {
    hide JobsWith, Fits, NoRepeats;
    if act.Spawn? {
      if s.main.Spawning? && s.main.next < |s.pcs| { TotalUpdate(Left, s.pcs, s.main.next, Blocked); }
    } else {
      if act.i < |s.pcs| { TotalUpdate(Left, s.pcs, act.i, SetProcessing); }
    }
    hide Total;
  }

  /** Every effective step but a stop takes one of the steps left. */
  lemma StepsRunOut(s: State, act: Action)
    requires Inv(s)
    ensures act == Stop ==> Rank(Step(s, act)) == Rank(s)
    ensures act != Stop && Step(s, act) != s ==> Rank(Step(s, act)) < Rank(s)
  {
    hide JobsFit, MainFits, EnteredOnce, SlotsBounded, ProcessedAccounted, FailedAccounted, ChunksAccounted;
    hide GoroutineStep, Total;
    match act
    case Snapshot(order) => SnapshotRunsOut(s, order);
    case Spawn => SlotsRunOut(s, act);
    case Acquire(_) => SlotsRunOut(s, act);
    case Advance(i, ok, r) =>
      JobsHaveGoroutines(s, i);
      if i < |s.pcs| { AdvanceRunsOut(s, i, ok, r); }
    case _ =>
  }

  /** All steps but stops, which nothing waits for. */
  predicate NotStop(act: Action) { act != Stop }

  lemma EffectiveStepsBounded(s: State, acts: seq<Action>)
    requires Inv(s)
    ensures Effective(Step, NotStop, s, acts) + Rank(Run(Step, s, acts)) <= Rank(s)
  {
    hide Inv, Rank, Step;
    forall t, act | Inv(t)
      ensures Inv(Step(t, act)) && Rank(Step(t, act)) + (if NotStop(act) && Step(t, act) != t then 1 else 0) <= Rank(t)
    {
      StepKeepsInv(t, act);
      StepsRunOut(t, act);
    }
    EffectiveIsBounded(Step, NotStop, Inv, Rank, s, acts);
  }

  lemma {:induction false} SomeSlot(pcs: seq<Pc>)
    requires Total(Slot, pcs) > 0
    ensures exists i :: 0 <= i < |pcs| && Slot(pcs[i]) == 1
  {
    if Slot(pcs[0]) == 0 {
      SomeSlot(pcs[1..]);
      var i :| 0 <= i < |pcs[1..]| && Slot(pcs[1..][i]) == 1;
      assert pcs[i + 1] == pcs[1..][i];
    }
  }

  lemma {:induction false} OrderOf(files: set<nat>) returns (order: seq<nat>)
    ensures ToSet(order) == files && |order| == |files|
  {
    if files == {} {
      order := [];
    } else {
      HasElement(files);
      var f :| f in files;
      var rest := OrderOf(files - {f});
      order := rest + [f];
      assert ToSet(order) == ToSet(rest) + {f};
    }
  }

  /** The wait group is not empty, so some goroutine can take a step. */
  lemma SomeGoroutineCanStep(s: State, i: nat) returns (act: Action)
    requires JobsFit(s) && s.max >= 1 && i < |s.pcs| && s.pcs[i] != Gone && NotSpawned !in s.pcs
    ensures act != Stop && Step(s, act) != s
  {
    if s.pcs[i] == Blocked {
      if Total(Slot, s.pcs) < s.max {
        act := Acquire(i);
        assert Step(s, act).pcs[i] == SetProcessing;
      } else {
        SomeSlot(s.pcs);
        var k :| 0 <= k < |s.pcs| && Slot(s.pcs[k]) == 1;
        act := Advance(k, true, Error);
        assert Step(s, act).pcs[k] != s.pcs[k];
      }
    } else {
      act := Advance(i, true, Error);
      assert s.pcs[i] in s.pcs;
      assert Step(s, act).pcs[i] != s.pcs[i];
    }
  }

  /** While the session is being processed some step other than a stop is
      possible, as long as the semaphore has a slot. */
  lemma SomeStepIsPossible(s: State) returns (act: Action)
    requires Inv(s) && (s.max >= 1 || (s.max == 0 && s.ctx.jobs == map[])) && s.main !in {Off, Finished}
    ensures act != Stop && Step(s, act) != s
  {
    hide EnteredOnce, SlotsBounded, StartedOnce, ProcessedAccounted, FailedAccounted, ChunksAccounted;
    match s.main
    case Claimed => act := Launch(true);
    case Launched =>
      var order := OrderOf(s.ctx.jobs.Keys);
      act := Snapshot(order);
    case Spawning(_) => act := Spawn;
    case Waiting =>
      if i :| 0 <= i < |s.pcs| && s.pcs[i] != Gone {
        assert NotSpawned !in s.pcs;
        assert s.files[i] in s.ctx.jobs;
        act := SomeGoroutineCanStep(s, i);
      } else {
        act := AwaitAll;
      }
  }

  /** Whatever is interleaved, a launched session runs at most a bounded number
      of steps, and when no step but a stop changes anything any more it has
      reached completeSession, stopped or not, if and only if its semaphore has a
      slot, or has none and there is no file; a negative number of slots ends
      processSessionFiles before it has spawned anything. */
  lemma MaximalRunsComplete(max: int, jobs: set<nat>, acts: seq<Action>)
    ensures Effective(Step, NotStop, Init(max, jobs), acts) <= 11 * |jobs| + 5
    ensures var s := Run(Step, Init(max, jobs), acts);
      s.past.launches == 1 && (forall act | act != Stop :: Step(s, act) == s) ==>
        (s.main == Finished <==> max >= 1 || (max == 0 && jobs == {}))
  {
    var s := Run(Step, Init(max, jobs), acts);
    InitInv(max, jobs);
    assert |Init(max, jobs).ctx.jobs| == |jobs| by { assert |Init(max, jobs).ctx.jobs.Keys| == |jobs|; }
    EffectiveStepsBounded(Init(max, jobs), acts);
    RunKeepsInv(max, jobs, acts);
    RunKeepsMax(max, jobs, acts);
    if max <= 0 && jobs != {} && s.main !in {Off, Claimed, Launched} { SomeoneNeverLeaves(s); }
    if s.past.launches == 1 && s.main != Finished && (max >= 1 || (max == 0 && jobs == {})) {
      assert s.ctx.jobs == map[] || max >= 1;
      var act := SomeStepIsPossible(s);
      assert Step(s, act) != s;
    }
  }

  /** Without a slot nobody gets past the semaphore. */
  lemma SomeoneNeverLeaves(s: State)
    requires Inv(s) && s.max <= 0 && s.ctx.jobs.Keys != {} && s.main !in {Off, Claimed, Launched}
    ensures |s.pcs| > 0 && s.pcs[0] in {NotSpawned, Blocked}
  {
    DistinctCount(s.files);
    assert |s.ctx.jobs.Keys| > 0;
  }

  // ----- accounting -----

  lemma GapsAreCounted(s: State)
    ensures Total(OkGap, s.pcs) == |set i | 0 <= i < |s.pcs| && s.pcs[i].CountResult? && s.pcs[i].r.Chunks?|
    ensures Total(BadGap, s.pcs) == |set i | 0 <= i < |s.pcs| && s.pcs[i].CountResult? && s.pcs[i].r.Error?|
    ensures JobsWith(s.ctx.jobs, Completed) == set f | f in s.ctx.jobs && s.ctx.jobs[f] == Completed
    ensures JobsWith(s.ctx.jobs, Failed) == set f | f in s.ctx.jobs && s.ctx.jobs[f] == Failed
  {
    hide Total;
    TotalIsCount(OkGap, s.pcs);
    TotalIsCount(BadGap, s.pcs);
    assert Where(OkGap, s.pcs) == set i | 0 <= i < |s.pcs| && s.pcs[i].CountResult? && s.pcs[i].r.Chunks?;
    assert Where(BadGap, s.pcs) == set i | 0 <= i < |s.pcs| && s.pcs[i].CountResult? && s.pcs[i].r.Error?;
  }

  lemma {:induction false} ChunksOfJoin(results: map<nat, nat>, counted: seq<nat>, f: nat)
    requires f in results
    ensures ChunksOf(results, []) == 0
    ensures ChunksOf(results, counted + [f]) == ChunksOf(results, counted) + results[f]
  {
    assert (counted + [f])[..|counted|] == counted;
  }

  /** From the pipeline's answer to the counters: a file with n chunks completes and
      adds 1 and n, one with an error fails and adds 1. */
  lemma OutcomeIsCounted(s: State, i: nat, ok: bool, r: Outcome)
    requires i < |s.pcs| == |s.files| && s.pcs[i] == RunPipeline
    ensures var f := s.files[i];
      var t := GoroutineStep(GoroutineStep(GoroutineStep(s, i, ok, r), i, ok, r), i, ok, r);
      && t.ctx.jobs == s.ctx.jobs[f := if r.Chunks? then Completed else Failed]
      && t.ctx.processedFiles == s.ctx.processedFiles + (if r.Chunks? then 1 else 0)
      && t.ctx.failedFiles == s.ctx.failedFiles + (if r.Chunks? then 0 else 1)
      && t.ctx.totalChunks == s.ctx.totalChunks + (if r.Chunks? then r.n else 0)
      && (r.Chunks? ==> t.past.results == s.past.results[f := r.n] && t.past.counted == s.past.counted + [f])
      && t.pcs == s.pcs[i := UpdateProgress]
  {
    var a := GoroutineStep(s, i, ok, r);
    assert a.pcs == s.pcs[i := WriteStatus(r)] && a.ctx == s.ctx;
    var b := GoroutineStep(a, i, ok, r);
    assert b.pcs == s.pcs[i := CountResult(r)];
  }

  /** A file that is not found fails and is counted nowhere. */
  lemma MissingFileFails(s: State, i: nat, r: Outcome)
    requires i < |s.pcs| == |s.files| && s.pcs[i] == FindFile
    ensures var t := GoroutineStep(s, i, false, r);
      t.ctx == s.ctx.(jobs := s.ctx.jobs[s.files[i] := Failed]) && t.pcs == s.pcs[i := UpdateProgress]
  {
  }

  /** At every step the counters are the jobs in each final state, less those
      between their status write and their counter update, and less the files
      whose lookup missed, which failed without being counted; the chunk total is
      the sum over the results counted, each of them once. */
  lemma SessionAccounting(max: int, jobs: set<nat>, acts: seq<Action>)
    ensures var s := Run(Step, Init(max, jobs), acts);
      && s.ctx.processedFiles + |set i | 0 <= i < |s.pcs| && s.pcs[i].CountResult? && s.pcs[i].r.Chunks?|
         == |set f | f in s.ctx.jobs && s.ctx.jobs[f] == Completed|
      && s.ctx.failedFiles + |set i | 0 <= i < |s.pcs| && s.pcs[i].CountResult? && s.pcs[i].r.Error?|
         + |s.past.missed| == |set f | f in s.ctx.jobs && s.ctx.jobs[f] == Failed|
      && s.ctx.totalChunks == ChunksOf(s.past.results, s.past.counted)
      && NoRepeats(s.past.counted) && |s.past.counted| == s.ctx.processedFiles
      && (forall f | f in s.past.counted :: f in s.ctx.jobs && s.ctx.jobs[f] == Completed)
  {
    hide Init;
    RunKeepsInv(max, jobs, acts);
    var s := Run(Step, Init(max, jobs), acts);
    hide Step, Total, ChunksOf;
    GapsAreCounted(s);
    forall f | f in s.past.counted ensures f in s.ctx.jobs && s.ctx.jobs[f] == Completed {
      assert f in ToSet(s.past.counted);
      assert f in ToSet(s.files);
      var i :| 0 <= i < |s.files| && s.files[i] == f;
      assert ResultFits(s, i);
    }
  }

  /** Jobs that ended stay as they are. */
  lemma EndedJobsStay(s: State, act: Action)
    requires Inv(s)
    ensures Terminal(s.ctx.jobs) <= Terminal(Step(s, act).ctx.jobs)
    ensures forall f | f in s.ctx.jobs && s.ctx.jobs[f] in {Completed, Failed} ::
      f in Step(s, act).ctx.jobs && Step(s, act).ctx.jobs[f] == s.ctx.jobs[f]
  {
    hide MainFits, EnteredOnce, SlotsBounded, FailedAccounted, StartedOnce, ProcessedAccounted, ChunksAccounted;
    if act.Advance? && act.i < |s.pcs| {
      assert Fits(s.pcs[act.i], s.ctx.jobs[s.files[act.i]]);
    }
  }

  lemma {:induction false} RunEndedJobsStay(s: State, acts: seq<Action>)
    requires Inv(s)
    ensures var t := Run(Step, s, acts);
      && Terminal(s.ctx.jobs) <= Terminal(t.ctx.jobs) && t.ctx.totalFiles == s.ctx.totalFiles
    decreases |acts|
  {
    if acts != [] {
      StepKeepsInv(s, acts[0]);
      EndedJobsStay(s, acts[0]);
      StepFrame(s, acts[0]);
      hide Inv, Step, Terminal;
      RunEndedJobsStay(Step(s, acts[0]), acts[1..]);
    }
  }

  lemma FewerThanAll(jobs: map<nat, JobStatus>)
    ensures |Terminal(jobs)| <= |jobs|
    ensures |Terminal(jobs)| == |jobs| <==> forall f | f in jobs :: jobs[f] in {Completed, Failed}
  {
    var left := jobs.Keys - Terminal(jobs);
    assert Terminal(jobs) <= jobs.Keys;
    assert |left| == |jobs.Keys| - |Terminal(jobs)|;
    if |left| == 0 { assert forall f | f in jobs :: f !in left; }
    if forall f | f in jobs :: jobs[f] in {Completed, Failed} { assert left == {}; }
  }

  lemma Ratio(a: nat, b: nat, total: nat)
    requires a <= b <= total && total > 0
    ensures 0.0 <= a as real / total as real <= b as real / total as real <= 1.0
    ensures b as real / total as real == 1.0 <==> b == total
  {
    var x, y := a as real / total as real, b as real / total as real;
    assert x * total as real == a as real && y * total as real == b as real;
  }

  /** Progress stays between 0 and 1, never decreases, and is 1 exactly when
      every job has ended, in a session with at least one file. */
  lemma ProgressIsMonotone(max: int, jobs: set<nat>, acts: seq<Action>, more: seq<Action>)
    requires jobs != {}
    ensures var s, t := Run(Step, Init(max, jobs), acts), Run(Step, Init(max, jobs), acts + more);
      && 0.0 <= Progress(s.ctx) <= Progress(t.ctx) <= 1.0
      && (Progress(t.ctx) == 1.0 <==> forall f | f in t.ctx.jobs :: t.ctx.jobs[f] in {Completed, Failed})
  {
    hide Step, Terminal;
    var s, t := Run(Step, Init(max, jobs), acts), Run(Step, Init(max, jobs), acts + more);
    RunConcat(Step, Init(max, jobs), acts, more);
    RunKeepsInv(max, jobs, acts);
    RunKeepsInv(max, jobs, acts + more);
    RunKeepsMax(max, jobs, acts);
    RunEndedJobsStay(s, more);
    FewerThanAll(t.ctx.jobs);
    SubsetSize(Terminal(s.ctx.jobs), Terminal(t.ctx.jobs));
    Ratio(|Terminal(s.ctx.jobs)|, |Terminal(t.ctx.jobs)|, |jobs|);
  }
}
