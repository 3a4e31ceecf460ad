/** The progress in the session row. updateSessionProgress counts the ended jobs
    under the lock and writes the row later, so two goroutines can write in the
    other order than they counted. */
module SessionProgress {
  import opened Runs
  import opened Session
  import opened Collections
  import opened SessionRuns

  /** The progress column of the session row. */
  function RowProgress(s: State): real {
    if s.ctx.totalFiles > 0 then s.row as real / s.ctx.totalFiles as real else 0.0
  }

  /** Past the status of its job and not yet at the row. */
  predicate Unwritten(pc: Pc) { pc.CountResult? || pc.UpdateProgress? || pc.WriteProgress? }

  lemma JobEnds(jobs: map<nat, JobStatus>, f: nat, to: JobStatus)
    requires f in jobs && jobs[f] !in {Completed, Failed}
    ensures f !in Terminal(jobs)
    ensures Terminal(jobs[f := to]) == Terminal(jobs) + if to in {Completed, Failed} then {f} else {}
  {
    var after := Terminal(jobs[f := to]);
    assert forall g | g != f :: g in after <==> g in Terminal(jobs);
    assert f in after <==> to in {Completed, Failed};
  }

  lemma TerminalMoves(jobs: map<nat, JobStatus>, f: nat, to: JobStatus)
    requires f in jobs && jobs[f] !in {Completed, Failed}
    ensures |Terminal(jobs[f := to])| == |Terminal(jobs)| + if to in {Completed, Failed} then 1 else 0
  {
    JobEnds(jobs, f, to);
    hide Terminal;
  }

  /** Past the status of its job. */
  predicate Ended(pc: Pc) { Unwritten(pc) || pc.ReleaseSlot? || pc.WgDone? || pc.Gone? }

  lemma EndedFits(pc: Pc, status: JobStatus)
    requires Fits(pc, status)
    ensures Ended(pc) <==> status in {Completed, Failed}
  {
  }

  /** How one statement moves goroutine i and the row. */
  lemma GoroutineMoves(s: State, i: nat, ok: bool, r: Outcome)
    requires i < |s.pcs| == |s.files|
    ensures var t := GoroutineStep(s, i, ok, r); var p, q := s.pcs[i], t.pcs[i];
      && (Ended(p) ==> Ended(q)) && (Ended(q) && !Ended(p) ==> Unwritten(q) && !q.WriteProgress?)
      && (Unwritten(p) && !Unwritten(q) ==> p.WriteProgress?)
      && (q.WriteProgress? && !p.WriteProgress? ==> q.ended == |Terminal(s.ctx.jobs)|)
      && (if p.WriteProgress? then
            && q == ReleaseSlot && t.row == (if ok then p.ended else s.row) && t.past.dropped == !ok
          else t.row == s.row && t.past.dropped == s.past.dropped && (Unwritten(p) ==> Unwritten(q)))
  {
    hide Terminal;
  }

  lemma TerminalStays(jobs: map<nat, JobStatus>, f: nat, to: JobStatus)
    requires f in jobs && jobs[f] in {Completed, Failed} && to in {Completed, Failed}
    ensures Terminal(jobs[f := to]) == Terminal(jobs)
  {
  }

  lemma OneJobEnds(before: map<nat, JobStatus>, after: map<nat, JobStatus>, f: nat)
    requires f in before && OneJobChanges(before, after, f)
    requires before[f] in {Completed, Failed} ==> after[f] in {Completed, Failed}
    ensures |Terminal(after)| == |Terminal(before)| +
      if after[f] in {Completed, Failed} && before[f] !in {Completed, Failed} then 1 else 0
  {
    hide Terminal;
    if after != before {
      if before[f] in {Completed, Failed} {
        TerminalStays(before, f, after[f]);
      } else {
        TerminalMoves(before, f, after[f]);
      }
    }
  }

  /** One statement of goroutine i ends at most its own job. */
  lemma GoroutineEnds(s: State, i: nat, ok: bool, r: Outcome)
    requires JobsFit(s) && i < |s.pcs|
    ensures var t := GoroutineStep(s, i, ok, r);
      |Terminal(t.ctx.jobs)| == |Terminal(s.ctx.jobs)| + if Ended(t.pcs[i]) && !Ended(s.pcs[i]) then 1 else 0
  {
    var t, f := GoroutineStep(s, i, ok, r), s.files[i];
    GoroutineFits(s, i, ok, r);
    GoroutineChangesOneJob(s, i, ok, r);
    GoroutineMoves(s, i, ok, r);
    EndedFits(s.pcs[i], s.ctx.jobs[f]);
    EndedFits(t.pcs[i], t.ctx.jobs[f]);
    hide GoroutineStep, Terminal, Fits, Ended, OneJobChanges;
    OneJobEnds(s.ctx.jobs, t.ctx.jobs, f);
  }

  // ----- one slot taken -----

  ghost predicate OneSlotTaken(s: State) {
    forall i, j | 0 <= i < j < |s.pcs| :: Slot(s.pcs[i]) == 0 || Slot(s.pcs[j]) == 0
  }

  /** With `n` jobs ended the row is one behind while the goroutine that ended the
      last has not written, and behind after a write that was lost. */
  ghost predicate InStep(pcs: seq<Pc>, row: nat, dropped: bool, n: nat) {
    && (forall i | 0 <= i < |pcs| && pcs[i].WriteProgress? :: pcs[i].ended == n)
    && (if dropped || exists i :: 0 <= i < |pcs| && Unwritten(pcs[i]) then row < n else row == n)
  }

  ghost predicate RowInStep(s: State) { InStep(s.pcs, s.row, s.past.dropped, |Terminal(s.ctx.jobs)|) }

  lemma {:induction false} TwoTakeTwo(pcs: seq<Pc>, i: nat, j: nat)
    requires i < j < |pcs| && Slot(pcs[i]) == 1 && Slot(pcs[j]) == 1
    ensures Total(Slot, pcs) >= 2
  {
    if i > 0 { TwoTakeTwo(pcs[1..], i - 1, j - 1); } else { OneTakesOne(pcs[1..], j - 1); }
  }

  lemma {:induction false} OneTakesOne(pcs: seq<Pc>, i: nat)
    requires i < |pcs| && Slot(pcs[i]) == 1
    ensures Total(Slot, pcs) >= 1
  {
    if i > 0 { OneTakesOne(pcs[1..], i - 1); }
  }

  lemma TwoGoroutinesTwoJobs(s: State, i: nat, j: nat)
    requires JobsFit(s) && i < j < |s.pcs|
    ensures |s.ctx.jobs| >= 2
  {
    assert |s.ctx.jobs| == |s.ctx.jobs.Keys|;
    SubsetSize({s.files[i], s.files[j]}, s.ctx.jobs.Keys);
  }

  lemma FewTakeOneSlot(s: State)
    requires JobsFit(s) && SlotsBounded(s) && (s.max <= 1 || |s.ctx.jobs| <= 1)
    ensures OneSlotTaken(s)
  {
    hide JobsFit;
    forall i, j | 0 <= i < j < |s.pcs| ensures Slot(s.pcs[i]) == 0 || Slot(s.pcs[j]) == 0 {
      TwoGoroutinesTwoJobs(s, i, j);
      if Slot(s.pcs[i]) == 1 && Slot(s.pcs[j]) == 1 { TwoTakeTwo(s.pcs, i, j); }
    }
  }

  /** The others are at no statement between status and row. */
  lemma OthersWritten(pcs: seq<Pc>, i: nat)
    requires i < |pcs| && Slot(pcs[i]) == 1
    requires forall k, j | 0 <= k < j < |pcs| :: Slot(pcs[k]) == 0 || Slot(pcs[j]) == 0
    ensures forall k | 0 <= k < |pcs| && k != i :: !Unwritten(pcs[k])
  {
  }

  lemma MoveKeepsStep(pcs: seq<Pc>, i: nat, next: Pc, row: nat, row': nat, dropped: bool, dropped': bool, n: nat)
    requires i < |pcs| && InStep(pcs, row, dropped, n)
    requires forall k | 0 <= k < |pcs| && k != i :: !Unwritten(pcs[k])
    requires if pcs[i].WriteProgress? then next == ReleaseSlot && row' == (if dropped' then row else n)
             else row' == row && dropped' == dropped && (Unwritten(pcs[i]) ==> Unwritten(next))
    requires next.WriteProgress? ==> next.ended == n
    ensures Unwritten(next) && !Unwritten(pcs[i]) && !next.WriteProgress? ==>
      InStep(pcs[i := next], row', dropped', n + 1)
    ensures (Unwritten(next) ==> Unwritten(pcs[i])) ==> InStep(pcs[i := next], row', dropped', n) && row <= row'
  {
    var after := pcs[i := next];
    assert after[i] == next;
    assert forall k | 0 <= k < |pcs| && k != i :: after[k] == pcs[k];
  }

  lemma GoroutineKeepsRow(s: State, i: nat, ok: bool, r: Outcome)
    requires JobsFit(s) && OneSlotTaken(s) && RowInStep(s) && i < |s.pcs|
    ensures RowInStep(GoroutineStep(s, i, ok, r)) && s.row <= GoroutineStep(s, i, ok, r).row
  {
    var t := GoroutineStep(s, i, ok, r);
    if Slot(s.pcs[i]) == 1 {
      GoroutineFrame(s, i, ok, r);
      GoroutineEnds(s, i, ok, r);
      GoroutineMoves(s, i, ok, r);
      OthersWritten(s.pcs, i);
      hide Terminal, JobsFit, GoroutineStep, OneSlotTaken;
      MoveKeepsStep(s.pcs, i, t.pcs[i], s.row, t.row, s.past.dropped, t.past.dropped, |Terminal(s.ctx.jobs)|);
    } else {
      IdleKeepsStep(s, i, ok, r);
    }
  }

  lemma IdleKeepsStep(s: State, i: nat, ok: bool, r: Outcome)
    requires RowInStep(s) && i < |s.pcs| == |s.files| && Slot(s.pcs[i]) == 0
    ensures RowInStep(GoroutineStep(s, i, ok, r)) && s.row <= GoroutineStep(s, i, ok, r).row
  {
    var t := GoroutineStep(s, i, ok, r);
    assert t.pcs == s.pcs || (s.pcs[i] == WgDone && t.pcs == s.pcs[i := Gone]);
    assert forall k | 0 <= k < |t.pcs| && k != i :: t.pcs[k] == s.pcs[k];
    hide Terminal;
  }

  /** What a step of no goroutine past its status leaves alone. */
  ghost predicate Leaves(s: State, t: State) {
    && t.row == s.row && t.past.dropped == s.past.dropped && t.ctx.jobs == s.ctx.jobs && |s.pcs| <= |t.pcs|
    && (forall k | 0 <= k < |s.pcs| :: t.pcs[k] == s.pcs[k] || (!Unwritten(s.pcs[k]) && !Unwritten(t.pcs[k])))
    && (forall k | |s.pcs| <= k < |t.pcs| :: !Unwritten(t.pcs[k]))
  }

  lemma SnapshotLeaves(s: State, order: seq<nat>)
    requires MainFits(s) && |s.pcs| == |s.files|
    ensures Leaves(s, Step(s, Snapshot(order)))
  {
    hide JobsWith;
  }

  lemma SpawnLeaves(s: State)
    requires MainFits(s)
    ensures Leaves(s, Step(s, Spawn))
  {
    hide JobsWith;
  }

  lemma AcquireLeaves(s: State, i: nat)
    ensures Leaves(s, Step(s, Acquire(i)))
  {
    hide Total;
  }

  lemma MainLeaves(s: State, act: Action)
    requires act.Start? || act.Stop? || act.Launch? || act.AwaitAll?
    ensures Leaves(s, Step(s, act))
  {
  }

  lemma OtherStep(s: State, act: Action)
    requires MainFits(s) && |s.pcs| == |s.files| && !act.Advance?
    ensures Leaves(s, Step(s, act))
  {
    hide Leaves, Step, MainFits;
    match act
    case Snapshot(order) => SnapshotLeaves(s, order);
    case Spawn => SpawnLeaves(s);
    case Acquire(i) => AcquireLeaves(s, i);
    case _ => MainLeaves(s, act);
  }

  lemma OthersKeepStep(pcs: seq<Pc>, pcs': seq<Pc>, row: nat, dropped: bool, n: nat)
    requires InStep(pcs, row, dropped, n) && |pcs| <= |pcs'|
    requires forall k | 0 <= k < |pcs| :: pcs'[k] == pcs[k] || (!Unwritten(pcs[k]) && !Unwritten(pcs'[k]))
    requires forall k | |pcs| <= k < |pcs'| :: !Unwritten(pcs'[k])
    ensures InStep(pcs', row, dropped, n)
  {
    if i :| 0 <= i < |pcs| && Unwritten(pcs[i]) { assert Unwritten(pcs'[i]); }
  }

  lemma StepKeepsRow(s: State, act: Action)
    requires Inv(s) && OneSlotTaken(s) && RowInStep(s)
    ensures RowInStep(Step(s, act)) && s.row <= Step(s, act).row
  {
    hide EnteredOnce, SlotsBounded, FailedAccounted, ProcessedAccounted, ChunksAccounted, Terminal, GoroutineStep;
    hide InStep;
    if act.Advance? {
      JobsHaveGoroutines(s, act.i);
      hide JobsFit, MainFits, StartedOnce, OneSlotTaken;
      if act.i < |s.pcs| { GoroutineKeepsRow(s, act.i, act.ok, act.r); }
    } else {
      JobsHaveGoroutines(s, 0);
      hide JobsFit, MainFits, StartedOnce, OneSlotTaken, Step;
      OtherStep(s, act);
      OthersKeepStep(s.pcs, Step(s, act).pcs, s.row, s.past.dropped, |Terminal(s.ctx.jobs)|);
    }
  }

  // ----- never ahead, on any run -----

  /** Neither the row nor a count on its way to it is ahead of the jobs. */
  ghost predicate RowBehind(s: State) {
    && s.row <= |Terminal(s.ctx.jobs)|
    && forall i | 0 <= i < |s.pcs| && s.pcs[i].WriteProgress? :: s.pcs[i].ended <= |Terminal(s.ctx.jobs)|
  }

  lemma GoroutineKeepsBehind(s: State, i: nat, ok: bool, r: Outcome)
    requires JobsFit(s) && RowBehind(s) && i < |s.pcs|
    ensures RowBehind(GoroutineStep(s, i, ok, r))
  {
    GoroutineFrame(s, i, ok, r);
    GoroutineEnds(s, i, ok, r);
    GoroutineMoves(s, i, ok, r);
    hide Terminal, JobsFit, GoroutineStep;
    var t := GoroutineStep(s, i, ok, r);
    assert forall k | 0 <= k < |t.pcs| && k != i :: t.pcs[k] == s.pcs[k];
  }

  lemma StepKeepsBehind(s: State, act: Action)
    requires Inv(s) && RowBehind(s)
    ensures RowBehind(Step(s, act))
  {
    hide EnteredOnce, SlotsBounded, FailedAccounted, ProcessedAccounted, ChunksAccounted, Terminal, GoroutineStep;
    if act.Advance? {
      JobsHaveGoroutines(s, act.i);
      hide JobsFit, MainFits, StartedOnce, RowBehind;
      if act.i < |s.pcs| { GoroutineKeepsBehind(s, act.i, act.ok, act.r); }
    } else {
      JobsHaveGoroutines(s, 0);
      hide JobsFit, MainFits, StartedOnce, Step;
      OtherStep(s, act);
      assert forall k | 0 <= k < |Step(s, act).pcs| && Unwritten(Step(s, act).pcs[k]) ::
        k < |s.pcs| && Step(s, act).pcs[k] == s.pcs[k];
    }
  }

  /** Whatever is interleaved and lost, the row never claims more than has ended. */
  lemma RowIsNeverAhead(max: int, jobs: set<nat>, acts: seq<Action>)
    ensures var s := Run(Step, Init(max, jobs), acts); 0.0 <= RowProgress(s) <= Progress(s.ctx) <= 1.0
  {
    InitInv(max, jobs);
    assert RowBehind(Init(max, jobs));
    forall s, a | Inv(s) && RowBehind(s) ensures Inv(Step(s, a)) && RowBehind(Step(s, a)) {
      hide Inv, Step, RowBehind;
      StepKeepsInv(s, a);
      StepKeepsBehind(s, a);
    }
    var s := Run(Step, Init(max, jobs), acts);
    hide Step;
    RunKeeps(Step, (s: State) => Inv(s) && RowBehind(s), Init(max, jobs), acts);
    FewerThanAll(s.ctx.jobs);
    if s.ctx.totalFiles > 0 { Ratio(s.row, |Terminal(s.ctx.jobs)|, s.ctx.totalFiles); }
  }

  // ----- serial runs -----

  /** A state the goroutines of which pass the semaphore one at a time. */
  ghost predicate OneAtATime(s: State) {
    Inv(s) && RowInStep(s) && (s.max <= 1 || |s.ctx.jobs| <= 1)
  }

  lemma StepKeepsSerial(s: State, act: Action)
    requires OneAtATime(s)
    ensures OneAtATime(Step(s, act)) && s.row <= Step(s, act).row
  {
    FewTakeOneSlot(s);
    StepKeepsInv(s, act);
    StepKeepsRow(s, act);
    StepFrame(s, act);
    SameSize(s.ctx.jobs, Step(s, act).ctx.jobs);
    hide Inv, RowInStep, Step;
  }

  lemma {:induction false} RunKeepsSerial(s: State, acts: seq<Action>)
    requires OneAtATime(s)
    ensures var t := Run(Step, s, acts); OneAtATime(t) && s.row <= t.row
    decreases |acts|
  {
    if acts != [] {
      hide OneAtATime, Step;
      StepKeepsSerial(s, acts[0]);
      RunKeepsSerial(Step(s, acts[0]), acts[1..]);
    }
  }

  lemma InitIsSerial(max: int, jobs: set<nat>)
    requires max <= 1 || |jobs| <= 1
    ensures OneAtATime(Init(max, jobs))
  {
    InitInv(max, jobs);
    var s := Init(max, jobs);
    assert Terminal(s.ctx.jobs) == {};
    assert |s.ctx.jobs| == |s.ctx.jobs.Keys|;
    hide Inv;
  }

  // ----- two at a time -----

  function Go(i: nat, ok: bool): Action { Advance(i, ok, Error) }

  lemma Enters(s: State, i: nat)
    requires i < |s.pcs| == |s.files| && s.pcs[i] == Blocked && Total(Slot, s.pcs) < s.max
    ensures var t := Step(s, Acquire(i)); t == s.(pcs := s.pcs[i := SetProcessing], past := t.past)
    ensures Step(s, Acquire(i)).past.dropped == s.past.dropped
  {
  }

  lemma Misses(s: State, i: nat)
    requires i < |s.pcs| == |s.files| && s.pcs[i] == SetProcessing
    ensures var t, f := Step(Step(s, Go(i, true)), Go(i, false)), s.files[i];
      && t.pcs == s.pcs[i := UpdateProgress] && t.ctx.jobs == s.ctx.jobs[f := Processing][f := Failed]
      && t.files == s.files && t.main == s.main && t.max == s.max
      && t.row == s.row && t.past.dropped == s.past.dropped
  {
    var a := Step(s, Go(i, true));
    assert a == s.(pcs := s.pcs[i := FindFile], ctx := SetJob(s, i, Processing));
    assert a.pcs[i := UpdateProgress] == s.pcs[i := UpdateProgress];
  }

  lemma CountsEnded(s: State, i: nat)
    requires i < |s.pcs| == |s.files| && s.pcs[i] == UpdateProgress
    ensures Step(s, Go(i, true)) == s.(pcs := s.pcs[i := WriteProgress(|Terminal(s.ctx.jobs)|)])
  {
  }

  lemma PendingGoroutine(s: State, i: nat)
    requires JobsFit(s) && i < |s.pcs| && s.pcs[i] == Blocked
    ensures |s.pcs| == |s.files| && s.files[i] in s.ctx.jobs && s.ctx.jobs[s.files[i]] == Pending
  {
    assert Fits(s.pcs[i], s.ctx.jobs[s.files[i]]);
  }

  /** The job of a blocked goroutine fails, its file not being found. */
  lemma EntersAndMisses(s: State, i: nat)
    requires JobsFit(s) && i < |s.pcs| && s.pcs[i] == Blocked && Total(Slot, s.pcs) < s.max
    ensures var t := Step(Step(Step(s, Acquire(i)), Go(i, true)), Go(i, false));
      && t.pcs == s.pcs[i := UpdateProgress] && t.files == s.files && t.main == s.main && t.max == s.max
      && t.row == s.row && t.past.dropped == s.past.dropped
      && |Terminal(t.ctx.jobs)| == |Terminal(s.ctx.jobs)| + 1
  {
    PendingGoroutine(s, i);
    hide JobsFit, Step, Terminal, Slot, Total;
    var a, f := Step(s, Acquire(i)), s.files[i];
    Enters(s, i);
    Misses(a, i);
    assert s.pcs[i := SetProcessing][i := UpdateProgress] == s.pcs[i := UpdateProgress];
    TerminalMoves(s.ctx.jobs, f, Processing);
    TerminalMoves(s.ctx.jobs[f := Processing], f, Failed);
  }

  /** Goroutine i goes past the semaphore, finds no file and counts. */
  lemma FileMisses(s: State, i: nat)
    requires JobsFit(s) && s.main == Waiting && i < |s.pcs| && s.pcs[i] == Blocked && Total(Slot, s.pcs) < s.max
    ensures var t := Run(Step, s, [Acquire(i), Go(i, true), Go(i, false), Go(i, true)]);
      && t.pcs == s.pcs[i := WriteProgress(|Terminal(s.ctx.jobs)| + 1)] && t.main == Waiting && t.max == s.max
      && t.row == s.row && t.past.dropped == s.past.dropped
      && |Terminal(t.ctx.jobs)| == |Terminal(s.ctx.jobs)| + 1
  {
    assert |s.files| == |s.pcs|;
    EntersAndMisses(s, i);
    hide JobsFit, Step, Terminal, Total;
    RunFour(Step, s, Acquire(i), Go(i, true), Go(i, false), Go(i, true));
    var t := Step(Step(Step(s, Acquire(i)), Go(i, true)), Go(i, false));
    hide Go;
    CountsEnded(t, i);
    var last := WriteProgress(|Terminal(t.ctx.jobs)|);
    assert s.pcs[i := UpdateProgress][i := last] == s.pcs[i := last];
  }

  /** Goroutine i writes the progress it counted, and leaves. */
  lemma FileWrites(s: State, i: nat)
    requires |s.pcs| == |s.files| && s.main == Waiting && i < |s.pcs| && s.pcs[i].WriteProgress?
    ensures var t := Run(Step, s, [Go(i, true), Go(i, true), Go(i, true)]);
      && t.pcs == s.pcs[i := Gone] && t.main == Waiting && t.max == s.max && t.ctx.jobs == s.ctx.jobs
      && t.row == s.pcs[i].ended && !t.past.dropped
  {
    RunThree(Step, s, Go(i, true), Go(i, true), Go(i, true));
    var a := Step(s, Go(i, true));
    assert a.pcs == s.pcs[i := ReleaseSlot];
    var b := Step(a, Go(i, true));
    assert b.pcs == s.pcs[i := WgDone];
  }

  lemma RunFromKeepsInv(s: State, acts: seq<Action>)
    requires Inv(s)
    ensures Inv(Run(Step, s, acts))
  {
    hide Inv, Step;
    forall t, a | Inv(t) ensures Inv(Step(t, a)) {
      StepKeepsInv(t, a);
    }
    RunKeeps(Step, Inv, s, acts);
  }

  /** Goroutine 0 has counted one job and not written, k - 1 others are through. */
  ghost predicate Overtaking(s: State, k: nat) {
    && s.main == Waiting && s.max >= 2 && !s.past.dropped
    && 1 <= k <= |s.pcs| && s.pcs[0] == WriteProgress(1)
    && (forall i | 1 <= i < k :: s.pcs[i] == Gone) && (forall i | k <= i < |s.pcs| :: s.pcs[i] == Blocked)
    && |Terminal(s.ctx.jobs)| == k && (k > 1 ==> s.row == k)
  }

  lemma OneHolder(pcs: seq<Pc>)
    requires |pcs| >= 1 && forall i | 1 <= i < |pcs| :: Slot(pcs[i]) == 0
    ensures Total(Slot, pcs) == Slot(pcs[0])
  {
    assert forall i | 0 <= i < |pcs[1..]| :: pcs[1..][i] == pcs[i + 1];
    TotalOfSame(Slot, pcs[1..], 0);
  }

  function Through(i: nat): seq<Action> {
    [Acquire(i), Go(i, true), Go(i, false), Go(i, true)] + [Go(i, true), Go(i, true), Go(i, true)]
  }

  lemma JobsFitGoroutines(s: State)
    requires Inv(s)
    ensures JobsFit(s) && |s.files| == |s.pcs|
  {
  }

  lemma GoesThrough(s: State, k: nat)
    requires Inv(s) && s.main == Waiting && k < |s.pcs| && s.pcs[k] == Blocked && Total(Slot, s.pcs) < s.max
    ensures var t := Run(Step, s, Through(k));
      && Inv(t) && t.pcs == s.pcs[k := Gone] && t.main == Waiting && t.max == s.max && !t.past.dropped
      && t.row == |Terminal(t.ctx.jobs)| == |Terminal(s.ctx.jobs)| + 1
  {
    hide Inv, JobsFit, Step, Terminal, Total, Slot, Go, Run;
    var first, second := [Acquire(k), Go(k, true), Go(k, false), Go(k, true)], [Go(k, true), Go(k, true), Go(k, true)];
    var t := Run(Step, s, first);
    RunConcat(Step, s, first, second);
    RunFromKeepsInv(s, first);
    RunFromKeepsInv(t, second);
    JobsFitGoroutines(s);
    JobsFitGoroutines(t);
    FileMisses(s, k);
    FileWrites(t, k);
    assert s.pcs[k := t.pcs[k]][k := Gone] == s.pcs[k := Gone];
  }

  lemma SlotIsFree(s: State, k: nat)
    requires Overtaking(s, k)
    ensures Total(Slot, s.pcs) < s.max
  {
    hide Terminal;
    OneHolder(s.pcs);
  }

  /** The next goroutine goes all the way, while goroutine 0 still holds its count. */
  lemma NextOvertakes(s: State, k: nat)
    requires Inv(s) && Overtaking(s, k) && k < |s.pcs|
    ensures var t := Run(Step, s, Through(k)); Inv(t) && |t.pcs| == |s.pcs| && Overtaking(t, k + 1)
  {
    hide Inv, Step, Terminal, Total, Slot, Through, Run;
    SlotIsFree(s, k);
    GoesThrough(s, k);
  }

  lemma {:induction false} AllOvertake(s: State, k: nat) returns (acts: seq<Action>)
    requires Inv(s) && Overtaking(s, k) && k <= |s.pcs|
    ensures var t := Run(Step, s, acts); Inv(t) && |t.pcs| == |s.pcs| && Overtaking(t, |s.pcs|)
    decreases |s.pcs| - k
  {
    hide Inv, Step, Overtaking;
    acts := [];
    if k < |s.pcs| {
      hide Run, Through;
      NextOvertakes(s, k);
      var t := Run(Step, s, Through(k));
      var rest := AllOvertake(t, k + 1);
      acts := Through(k) + rest;
      RunConcat(Step, s, Through(k), rest);
    }
  }

  /** The goroutines are spawned and block. */
  lemma {:induction false} AllBlock(s: State, next: nat) returns (acts: seq<Action>)
    requires s.main == Spawning(next) && next <= |s.pcs| && forall i | 0 <= i < next :: s.pcs[i] == Blocked
    ensures var t := Run(Step, s, acts);
      && t == s.(main := Waiting, pcs := t.pcs) && |t.pcs| == |s.pcs|
      && forall i | 0 <= i < |t.pcs| :: t.pcs[i] == Blocked
    decreases |s.pcs| - next
  {
    var t := Step(s, Spawn);
    if next < |s.pcs| {
      assert t == s.(main := Spawning(next + 1), pcs := s.pcs[next := Blocked]);
      var rest := AllBlock(t, next + 1);
      acts := [Spawn] + rest;
      assert acts[1..] == rest;
    } else {
      assert t == s.(main := Waiting);
      acts := [Spawn];
      assert acts[1..] == [];
      assert Run(Step, t, []) == t;
    }
  }

  /** All goroutines wait for a slot. */
  ghost predicate AllBlocked(s: State) {
    && s.main == Waiting && !s.past.dropped && |Terminal(s.ctx.jobs)| == 0
    && forall i | 0 <= i < |s.pcs| :: s.pcs[i] == Blocked
  }

  lemma Opens(max: int, jobs: set<nat>, order: seq<nat>)
    requires max >= 0 && ToSet(order) == jobs && |order| == |jobs|
    ensures var s := Run(Step, Init(max, jobs), [Start, Launch(true), Snapshot(order)]);
      && s.main == Spawning(0) && s.max == max && |s.pcs| == |jobs|
      && !s.past.dropped && s.ctx.jobs == Init(max, jobs).ctx.jobs
  {
    var s := Init(max, jobs);
    RunThree(Step, s, Start, Launch(true), Snapshot(order));
    assert s.ctx.jobs.Keys == jobs && |s.ctx.jobs| == |s.ctx.jobs.Keys|;
    var launched := Step(Step(s, Start), Launch(true));
    assert launched.main == Launched && launched.ctx.jobs == s.ctx.jobs && launched.max == max;
  }

  lemma AllGetBlocked(max: int, jobs: set<nat>) returns (acts: seq<Action>)
    requires max >= 0
    ensures var s := Run(Step, Init(max, jobs), acts); Inv(s) && AllBlocked(s) && s.max == max && |s.pcs| == |jobs|
  {
    var order := OrderOf(jobs);
    var start := [Start, Launch(true), Snapshot(order)];
    Opens(max, jobs, order);
    assert Terminal(Init(max, jobs).ctx.jobs) == {};
    hide Init, Inv, Step, Terminal;
    var rest := AllBlock(Run(Step, Init(max, jobs), start), 0);
    acts := start + rest;
    RunConcat(Step, Init(max, jobs), start, rest);
    RunKeepsInv(max, jobs, acts);
  }

  lemma FirstCounts(s: State)
    requires Inv(s) && AllBlocked(s) && s.max >= 2 && |s.pcs| >= 1
    ensures var t := Run(Step, s, [Acquire(0), Go(0, true), Go(0, false), Go(0, true)]);
      Inv(t) && |t.pcs| == |s.pcs| && Overtaking(t, 1)
  {
    hide Inv, Step, Terminal, JobsFit, Go;
    TotalOfSame(Slot, s.pcs, 0);
    JobsFitGoroutines(s);
    RunFromKeepsInv(s, [Acquire(0), Go(0, true), Go(0, false), Go(0, true)]);
    FileMisses(s, 0);
  }

  /** Goroutine 0 writes last what it counted first. */
  lemma LastWrites(s: State)
    requires Inv(s) && Overtaking(s, |s.pcs|)
    ensures var t := Run(Step, s, [Go(0, true), Go(0, true), Go(0, true)] + [AwaitAll]);
      t.main == Finished && t.row == 1 && !t.past.dropped
  {
    hide Inv, Terminal, JobsFit;
    JobsFitGoroutines(s);
    var write := [Go(0, true), Go(0, true), Go(0, true)];
    RunConcat(Step, s, write, [AwaitAll]);
    FileWrites(s, 0);
    var t := Run(Step, s, write);
    assert [AwaitAll][1..] == [];
    assert Run(Step, t, [AwaitAll]) == Run(Step, Step(t, AwaitAll), []);
    hide Step;
    assert forall i | 0 <= i < |t.pcs| :: t.pcs[i] == Gone;
    EndsSession(t);
  }

  lemma EndsSession(s: State)
    requires s.main == Waiting && forall i | 0 <= i < |s.pcs| :: s.pcs[i] == Gone
    ensures Step(s, AwaitAll) == s.(main := Finished, ctx := s.ctx.(status := SessionCompleted))
  {
  }

  /** A run on which the row has all jobs and then, with every write done, only one. */
  lemma CountIsOvertaken(max: int, jobs: set<nat>) returns (acts: seq<Action>, more: seq<Action>)
    requires max >= 2 && |jobs| >= 2
    ensures Run(Step, Init(max, jobs), acts).row == |jobs|
    ensures var t := Run(Step, Init(max, jobs), acts + more); t.main == Finished && t.row == 1 && !t.past.dropped
  {
    hide Init, Inv, Step, AllBlocked, Overtaking, Go;
    var first := AllGetBlocked(max, jobs);
    var s := Run(Step, Init(max, jobs), first);
    var count := [Acquire(0), Go(0, true), Go(0, false), Go(0, true)];
    FirstCounts(s);
    var rest := AllOvertake(Run(Step, s, count), 1);
    acts := first + (count + rest);
    RunConcat(Step, s, count, rest);
    RunConcat(Step, Init(max, jobs), first, count + rest);
    var t := Run(Step, Init(max, jobs), acts);
    more := [Go(0, true), Go(0, true), Go(0, true)] + [AwaitAll];
    LastWrites(t);
    RunConcat(Step, Init(max, jobs), acts, more);
    assert t.row == |jobs| by { RowOfAll(t); }
  }

  lemma RowOfAll(s: State)
    requires Overtaking(s, |s.pcs|) && |s.pcs| >= 2
    ensures s.row == |s.pcs|
  {
  }

  // ----- results -----

  /** The progress in the row never falls. */
  ghost predicate NeverFalls(max: int, jobs: set<nat>) {
    forall acts: seq<Action>, more: seq<Action> ::
      RowProgress(Run(Step, Init(max, jobs), acts)) <= RowProgress(Run(Step, Init(max, jobs), acts + more))
  }

  /** Every finished session the last progress of which was written is at 1. */
  ghost predicate EndsAtOne(max: int, jobs: set<nat>) {
    forall acts: seq<Action> | Run(Step, Init(max, jobs), acts).main == Finished
                               && !Run(Step, Init(max, jobs), acts).past.dropped ::
      RowProgress(Run(Step, Init(max, jobs), acts)) == 1.0
  }

  lemma QuotientOrder(x: real, y: real, a: real, b: real, n: real)
    requires n > 0.0 && x * n == a && y * n == b
    ensures x <= y <==> a <= b
  {
    var d := y - x;
    assert d * n == b - a;
    if d >= 0.0 { assert d * n >= 0.0; } else { assert -d * n > 0.0; }
  }

  lemma RatioOfCounts(a: nat, b: nat, n: nat)
    requires n > 0
    ensures a as real / n as real <= b as real / n as real <==> a <= b
    ensures a as real / n as real == 1.0 <==> a == n
  {
    var x, y, m := a as real / n as real, b as real / n as real, n as real;
    assert x * m == a as real && y * m == b as real;
    QuotientOrder(x, y, a as real, b as real, m);
    QuotientOrder(x, 1.0, a as real, m, m);
    QuotientOrder(1.0, x, m, a as real, m);
  }

  lemma RowRatio(a: State, b: State)
    requires a.ctx.totalFiles == b.ctx.totalFiles > 0
    ensures RowProgress(a) <= RowProgress(b) <==> a.row <= b.row
    ensures RowProgress(a) == 1.0 <==> a.row == a.ctx.totalFiles
  {
    RatioOfCounts(a.row, b.row, a.ctx.totalFiles);
  }

  lemma SerialNeverFalls(max: int, jobs: set<nat>)
    requires jobs != {} && (max <= 1 || |jobs| <= 1)
    ensures NeverFalls(max, jobs)
  {
    hide Init, Inv, Step, OneAtATime, RowProgress;
    InitIsSerial(max, jobs);
    forall acts: seq<Action>, more: seq<Action>
      ensures RowProgress(Run(Step, Init(max, jobs), acts)) <= RowProgress(Run(Step, Init(max, jobs), acts + more))
    {
      var s, t := Run(Step, Init(max, jobs), acts), Run(Step, Init(max, jobs), acts + more);
      RunConcat(Step, Init(max, jobs), acts, more);
      RunKeepsSerial(Init(max, jobs), acts);
      RunKeepsSerial(s, more);
      RunKeepsMax(max, jobs, acts);
      RunKeepsMax(max, jobs, acts + more);
      RowRatio(s, t);
    }
  }

  /** A finished session has nobody on the way to the row. */
  lemma FinishedRow(s: State)
    requires OneAtATime(s) && s.main == Finished
    ensures s.past.dropped <==> s.row < |s.ctx.jobs|
    ensures s.row <= |s.ctx.jobs|
  {
    FewerThanAll(s.ctx.jobs);
    assert forall i | 0 <= i < |s.pcs| :: s.pcs[i] == Gone;
    FinishedJobsEnded(s);
    hide Inv, Terminal;
  }

  lemma FinishedJobsEnded(s: State)
    requires JobsFit(s) && MainFits(s) && s.main == Finished
    ensures forall f | f in s.ctx.jobs :: s.ctx.jobs[f] in {Completed, Failed}
  {
    hide JobsWith;
    forall f | f in s.ctx.jobs ensures s.ctx.jobs[f] in {Completed, Failed} {
      assert f in ToSet(s.files);
      var i :| 0 <= i < |s.files| && s.files[i] == f;
      assert s.pcs[i] == Gone;
    }
  }

  lemma SerialEndsAtOne(max: int, jobs: set<nat>)
    requires jobs != {} && (max <= 1 || |jobs| <= 1)
    ensures EndsAtOne(max, jobs)
  {
    hide Init, Inv, Step, OneAtATime, RowProgress;
    InitIsSerial(max, jobs);
    forall acts: seq<Action> | Run(Step, Init(max, jobs), acts).main == Finished
                               && !Run(Step, Init(max, jobs), acts).past.dropped
      ensures RowProgress(Run(Step, Init(max, jobs), acts)) == 1.0
    {
      var s := Run(Step, Init(max, jobs), acts);
      RunKeepsSerial(Init(max, jobs), acts);
      RunKeepsMax(max, jobs, acts);
      FinishedRow(s);
      assert |s.ctx.jobs| == |s.ctx.jobs.Keys|;
      RowRatio(s, s);
    }
  }

  /** The progress in the session row never falls, on any run, if and only if at
      most one goroutine at a time is past the semaphore; and if and only if that
      is so does every finished session end at 1, its last write not being lost. */
  lemma RowProgressIff(max: int, jobs: set<nat>)
    requires jobs != {}
    ensures NeverFalls(max, jobs) <==> max <= 1 || |jobs| == 1
    ensures EndsAtOne(max, jobs) <==> max <= 1 || |jobs| == 1
  {
    hide Init, Step, RowProgress;
    assert |jobs| >= 1;
    if max <= 1 || |jobs| <= 1 {
      SerialNeverFalls(max, jobs);
      SerialEndsAtOne(max, jobs);
    } else {
      var acts, more := CountIsOvertaken(max, jobs);
      var s, t := Run(Step, Init(max, jobs), acts), Run(Step, Init(max, jobs), acts + more);
      RunKeepsMax(max, jobs, acts);
      RunKeepsMax(max, jobs, acts + more);
      RowRatio(s, t);
      RowRatio(t, t);
    }
  }
}
