/** Progress of the page pipeline: runs end, and what they end with. */
module PageProgress {
  import opened Runs
  import opened PagePipeline

  /** Statements left to a page still to be written, and at each place after it. */
  function FlowRank(f: Flow): nat {
    9 * |f.unwritten| + 8 * |f.jobs| + 7 * |f.inOcr| + 6 * f.results.Size()
  }

  function PoolRank(pool: Pool): nat {
    5 * pool.fetched.Size() + 4 * pool.written.Size() + 3 * pool.reading + 2 * |pool.loaded| + |pool.begun|
  }

  function PhaseRank(phase: Phase): nat {
    match phase case Created => 3 case Writing => 2 case _ => 0
  }

  /** One tick of the stale-job detector is left while the status is open. */
  function TickRank(status: JobStatus): nat { if status in {Splitting, Processing} then 1 else 0 }

  /** Steps left to the whole pipeline. */
  function Rank(s: State): nat {
    FlowRank(s.flow) + PoolRank(s.pool) + PhaseRank(s.phase) + TickRank(s.db.status)
  }

  lemma OcrLowersRank(f: Flow, workers: nat, act: OcrAction, page: nat)
    ensures var g := OcrStep(f, workers, act, page); g == f || FlowRank(g) < FlowRank(f)
  {
    match act
    case Produce(ok) => PagesSize(f.results, page, ok);
    case _ =>
  }

  lemma SplitterLowersRank(s: State, act: SplitterAction)
    ensures var t := SplitterStep(s, act); t == s || Rank(t) < Rank(s)
  {
    hide PageSet, PoolRank;
  }

  lemma PageMoves(s: State, act: AssemblerAction)
    requires act.Fetch? || act.WriteRow? || act.Increment?
    ensures var t := AssemblerStep(s, act);
      && t.phase == s.phase && TickRank(t.db.status) == TickRank(s.db.status)
      && (t == s || FlowRank(t.flow) + PoolRank(t.pool) < FlowRank(s.flow) + PoolRank(s.pool))
  {
    hide IsComplete, Pages.Add, Pages.Remove, Pages.Has, Pages.Size;
    PagesSize(s.flow.results, act.page, act.ok);
    PagesSize(s.pool.fetched, act.page, act.ok);
    PagesSize(s.pool.written, act.page, act.ok);
  }

  lemma AssemblyMoves(s: State, act: AssemblerAction)
    requires act.ReadJob? || act.Begin? || act.Finish?
    ensures var t := AssemblerStep(s, act);
      && t.phase == s.phase && t.flow == s.flow && TickRank(t.db.status) <= TickRank(s.db.status)
      && (t == s || PoolRank(t.pool) < PoolRank(s.pool))
  {
  }

  /** Every step that changes anything, in any state, takes one of the steps left. */
  lemma StepLowersRank(s: State, act: Action)
    ensures Step(s, act) == s || Rank(Step(s, act)) < Rank(s)
  {
    hide SplitterStep, OcrStep, AssemblerStep, FlowRank, PoolRank;
    match act
    case Splitter(a) => SplitterLowersRank(s, a);
    case Ocr(a, page) => OcrLowersRank(s.flow, s.conf.ocrWorkers, a, page);
    case Assembler(a) =>
      if a.Fetch? || a.WriteRow? || a.Increment? { PageMoves(s, a); } else { AssemblyMoves(s, a); }
    case StaleTick =>
  }

  lemma RankAtFirst(conf: Config)
    ensures Rank(Init(conf)) == 9 * conf.total + 4
  {
  }

  /** Nothing but the stale-job detector can change anything any more. */
  ghost predicate Settled(s: State) {
    forall act: Action | act != StaleTick :: Step(s, act) == s
  }

  lemma PoolCanMove(s: State) returns (act: Action)
    requires s.pool.Busy() > 0
    ensures act != StaleTick && Step(s, act) != s
  {
    act := Assembler(ReadJob);
    if p :| p in s.pool.fetched.ok { act := Assembler(WriteRow(p, true)); }
    else if p :| p in s.pool.fetched.bad { act := Assembler(WriteRow(p, false)); }
    else if p :| p in s.pool.written.ok { act := Assembler(Increment(p, true)); }
    else if p :| p in s.pool.written.bad { act := Assembler(Increment(p, false)); }
    else if f :| f in s.pool.loaded { act := Assembler(Begin(f)); }
    else if f :| f in s.pool.begun { act := Assembler(Finish(f)); }
    assert Step(s, act).pool != s.pool;
  }

  lemma FlowCanMove(s: State) returns (act: Action)
    requires s.pool.Busy() == 0 && s.conf.ocrWorkers >= 1 && s.conf.assemblers >= 1
    requires |s.flow.jobs| + |s.flow.inOcr| + s.flow.results.Size() > 0
    ensures act != StaleTick && Step(s, act) != s
  {
    if p :| p in s.flow.inOcr { act := Ocr(Lose, p); }
    else if p :| p in s.flow.jobs { act := Ocr(TakeJob, p); }
    else if p :| p in s.flow.results.ok { act := Assembler(Fetch(p, true)); }
    else {
      var p :| p in s.flow.results.bad;
      act := Assembler(Fetch(p, false));
    }
    assert Step(s, act).flow != s.flow;
  }

  lemma SplitterCanMove(s: State) returns (act: Action)
    requires s.phase !in {Returned, Aborted}
    ensures act != StaleTick && Step(s, act) != s
  {
    act := Splitter(Abort);
    assert Step(s, act).phase == Aborted;
  }

  /** When nothing moves any more, every page has been counted, lost on its way
      from OCR, or never written. */
  lemma SettledPages(s: State)
    requires Inv(s) && Settled(s) && s.conf.ocrWorkers >= 1 && s.conf.assemblers >= 1
    ensures s.pool.Busy() == 0 && s.phase in {Returned, Aborted}
    ensures |s.flow.unwritten| + |s.flow.lost| + s.db.completed + s.db.failed == s.conf.total
  {
    hide Step, EachPageOnce, RowsInserted, CountersTrackRows, TriggerAccounted, StatusTracked;
    if s.phase !in {Returned, Aborted} { var act := SplitterCanMove(s); }
    if s.pool.Busy() > 0 { var act := PoolCanMove(s); }
    if |s.flow.jobs| + |s.flow.inOcr| + s.flow.results.Size() > 0 && s.pool.Busy() == 0 { var act := FlowCanMove(s); }
  }

  /** A job that has not been assembled has no status but those of SplitFile and
      the stale-job detector once SplitFile has returned. */
  ghost predicate OpenUntilAssembled(s: State) {
    s.phase == Returned && s.past.calls == 0 ==> s.db.status in {Processing, TimedOut}
  }

  lemma StepKeepsOpen(s: State, act: Action)
    requires TriggerAccounted(s) && StatusTracked(s) && OpenUntilAssembled(s)
    ensures OpenUntilAssembled(Step(s, act))
  {
    hide PageSet;
  }

  lemma RunKeepsOpen(conf: Config, acts: seq<Action>)
    requires conf.total >= 1
    ensures OpenUntilAssembled(Run(Step, Init(conf), acts))
  {
    InitInv(conf);
    assert OpenUntilAssembled(Init(conf));
    forall s, a | Inv(s) && OpenUntilAssembled(s) ensures Inv(Step(s, a)) && OpenUntilAssembled(Step(s, a)) {
      hide OpenUntilAssembled, Step;
      StepKeepsInv(s, a);
      StepKeepsOpen(s, a);
    }
    hide Inv, Step, OpenUntilAssembled;
    RunKeeps(Step, (s: State) => Inv(s) && OpenUntilAssembled(s), Init(conf), acts);
  }

  lemma SettledJob(s: State)
    requires Inv(s) && OpenUntilAssembled(s) && Settled(s) && s.conf.ocrWorkers >= 1 && s.conf.assemblers >= 1
    ensures s.phase in {Returned, Aborted} && s.pool.Busy() == 0
    ensures s.past.calls >= 1 <==> s.flow.lost == s.flow.unwritten == multiset{}
    ensures s.phase == Returned ==> s.flow.unwritten == multiset{}
    ensures s.phase == Returned && s.past.calls == 0 ==> Step(s, StaleTick).db.status == TimedOut
  {
    SettledPages(s);
    hide Settled, EachPageOnce, PagesConserved, CountersTrackRows, StatusTracked, PageSet;
  }

  /** Whatever is interleaved, a job takes a bounded number of steps; and with a
      worker of each kind, once no step but a tick of the stale-job detector can
      change anything, its file has been assembled if and only if no page was lost
      and none left unwritten. A job that SplitFile has returned from and that has
      not been assembled then ends timed out. */
  lemma MaximalRunsAssemble(conf: Config, acts: seq<Action>)
    requires conf.total >= 1
    ensures Effective(Step, (act: Action) => true, Init(conf), acts) <= 9 * conf.total + 4
    ensures var s := Run(Step, Init(conf), acts);
      (forall act: Action | act != StaleTick :: Step(s, act) == s) && conf.ocrWorkers >= 1 && conf.assemblers >= 1 ==>
        && s.phase in {Returned, Aborted} && s.pool.Busy() == 0
        && (s.past.calls >= 1 <==> s.flow.lost == s.flow.unwritten == multiset{})
        && (s.phase == Returned ==> s.flow.unwritten == multiset{})
        && (s.phase == Returned && s.past.calls == 0 ==> Step(s, StaleTick).db.status == TimedOut)
  {
    hide Step, Inv, Init, OpenUntilAssembled, Rank, Pool.Busy;
    RankAtFirst(conf);
    RunKeepsInv(conf, acts);
    RunKeepsOpen(conf, acts);
    var s := Run(Step, Init(conf), acts);
    forall t: State, a: Action ensures Step(t, a) == t || Rank(Step(t, a)) < Rank(t) { StepLowersRank(t, a); }
    EffectiveIsBounded(Step, (act: Action) => true, (t: State) => true, Rank, Init(conf), acts);
    if Settled(s) && conf.ocrWorkers >= 1 && conf.assemblers >= 1 { SettledJob(s); }
  }
}
