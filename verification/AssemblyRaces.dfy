/** What a deployment of the page pipeline decides: with which numbers of pages,
    OCR workers and assemblers a file can be assembled twice, and a verdict lost
    to the splitter's last write. */
module AssemblyRaces {
  import opened PagePipeline
  import opened Collections
  import opened Runs
  import PageWorkers

  // ----- at most one assembly -----

  /** Nobody reads the job back who has not counted a page. */
  ghost predicate ReadersCounted(s: State) {
    && s.pool.reading <= s.db.completed + s.db.failed && s.past.racers <= s.conf.total
    && (s.past.racers > 0 ==> IsComplete(s.conf.total, s.db))
  }

  lemma AssemblerKeepsReaders(s: State, act: AssemblerAction)
    requires PagesConserved(s) && ReadersCounted(s)
    ensures ReadersCounted(AssemblerStep(s, act))
  {
    hide PageSet, RowsWith, Verdict;
  }

  lemma StepKeepsReaders(s: State, act: Action)
    requires PagesConserved(s) && ReadersCounted(s)
    ensures ReadersCounted(Step(s, act))
  {
    hide PageSet, AssemblerStep, OcrStep, PagesConserved;
    if act.Assembler? { AssemblerKeepsReaders(s, act.assembly); }
  }

  /** Without an OCR worker no page gets past its job message. */
  ghost predicate NothingRead(s: State) {
    && s.flow.inOcr == multiset{} && s.flow.results == NO_PAGES && s.pool.fetched == NO_PAGES
    && s.pool.written == NO_PAGES
    && s.db.completed == 0 && s.db.failed == 0
  }

  lemma StepReadsNothing(s: State, act: Action)
    requires NothingRead(s) && s.conf.ocrWorkers == 0
    ensures NothingRead(Step(s, act)) && Step(s, act).conf == s.conf
  {
    hide PageSet;
  }

  lemma RunKeepsReaders(conf: Config, acts: seq<Action>)
    requires conf.total >= 1
    ensures ReadersCounted(Run(Step, Init(conf), acts))
    ensures conf.ocrWorkers == 0 ==> NothingRead(Run(Step, Init(conf), acts))
  {
    var kept := (s: State) => Inv(s) && ReadersCounted(s) && s.conf == conf
      && (conf.ocrWorkers == 0 ==> NothingRead(s));
    InitInv(conf);
    forall s, a | kept(s) ensures kept(Step(s, a)) {
      hide Step, PagesConserved, ReadersCounted, NothingRead;
      StepKeepsInv(s, a);
      StepKeepsReaders(s, a);
      if conf.ocrWorkers == 0 { StepReadsNothing(s, a); }
    }
    hide Inv, Step;
    RunKeeps(Step, kept, Init(conf), acts);
  }

  /** Whether two results can be between increment and read at a time. */
  predicate CanRace(conf: Config) { conf.assemblers >= 2 && conf.total >= 2 && conf.ocrWorkers >= 1 }

  lemma NoRaceOneAssembly(conf: Config, acts: seq<Action>)
    requires conf.total >= 1 && !CanRace(conf)
    ensures Run(Step, Init(conf), acts).past.calls <= 1
  {
    RunKeepsInv(conf, acts);
    RunKeepsReaders(conf, acts);
    hide Step, PageSet, RowsWith;
  }

  // ----- schedules -----

  /** Page p goes through OCR and into the hands of an assembler, row written. */
  function Handle(p: nat): seq<Action> {
    [Ocr(TakeJob, p), Ocr(Produce(true), p), Assembler(Fetch(p, true)), Assembler(WriteRow(p, true))]
  }

  lemma HandleOne(s: State, p: nat)
    requires p in s.flow.jobs && s.flow.inOcr == multiset{} && s.conf.ocrWorkers >= 1
    requires s.pool.Busy() < s.conf.assemblers
    ensures var t := Run(Step, s, Handle(p));
      && t.conf == s.conf && t.phase == s.phase && t.past == s.past
      && t.flow.unwritten == s.flow.unwritten && t.flow.inOcr == multiset{} && t.flow.jobs == TakeOut(s.flow.jobs, p)
      && t.pool == s.pool.(written := s.pool.written.Add(p, true))
      && t.db == s.db.(rows := t.db.rows)
  {
    var h := Handle(p);
    RunFour(Step, s, h[0], h[1], h[2], h[3]);
    var b := Step(Step(s, h[0]), h[1]);
    assert b.flow.inOcr == multiset{} && b.pool == s.pool;
    var c := Step(b, h[2]);
    assert c.pool.fetched == s.pool.fetched.Add(p, true);
    assert c.db == s.db;
    var d := Step(c, h[3]);
    assert d.pool.fetched == s.pool.fetched;
    assert d.flow.jobs == TakeOut(s.flow.jobs, p);
    assert d.db.status == s.db.status && d.db.completed == s.db.completed && d.db.failed == s.db.failed;
    assert d == Run(Step, s, h);
  }

  /** The first k pages are counted, the others queued, and nobody is at work. */
  ghost predicate FirstCounted(s: State, conf: Config, k: nat) {
    && s.conf == conf && s.phase == Writing && s.flow.unwritten == multiset{} && s.flow.inOcr == multiset{}
    && s.flow.jobs == multiset(PageSet(conf.total) - PageSet(k)) && s.pool == IDLE_POOL
    && s.db.completed == k && s.db.failed == 0 && s.past == Past(0, 0, false, false)
  }

  function SplitAll(total: nat): seq<Action> {
    [Splitter(InsertRows)] + PageWorkers.WriteActs({}, total)
  }

  lemma SplitCounts(conf: Config)
    ensures FirstCounted(Run(Step, Init(conf), SplitAll(conf.total)), conf, 0)
  {
    var s := Step(Init(conf), Splitter(InsertRows));
    RunConcat(Step, Init(conf), [Splitter(InsertRows)], PageWorkers.WriteActs({}, conf.total));
    assert [Splitter(InsertRows)][1..] == [];
    assert PageSet(0) - {} == {} && PageSet(conf.total) - {} == PageSet(conf.total);
    assert PageSet(conf.total) - PageSet(conf.total) == {} && PageSet(conf.total) - PageSet(0) == PageSet(conf.total);
    PageWorkers.WriteRun(s, {}, conf.total);
    hide Run;
  }

  function CountActs(p: nat): seq<Action> { [Assembler(Increment(p, true)), Assembler(ReadJob)] }

  lemma CountOne(s: State, p: nat)
    requires s.pool == IDLE_POOL.(written := NO_PAGES.Add(p, true))
    requires s.db.completed + s.db.failed + 1 < s.conf.total
    ensures Run(Step, s, CountActs(p)) == s.(pool := IDLE_POOL, db := s.db.(completed := s.db.completed + 1))
  {
    RunTwo(Step, s, Assembler(Increment(p, true)), Assembler(ReadJob));
    assert NO_PAGES.Add(p, true).Remove(p, true) == NO_PAGES;
  }

  lemma TakeNext(total: nat, k: nat)
    requires k < total
    ensures k + 1 in multiset(PageSet(total) - PageSet(k))
    ensures TakeOut(multiset(PageSet(total) - PageSet(k)), k + 1) == multiset(PageSet(total) - PageSet(k + 1))
  {
    assert PageSet(k + 1) == PageSet(k) + {k + 1};
    assert PageSet(total) - PageSet(k) - {k + 1} == PageSet(total) - PageSet(k + 1);
    PageWorkers.TakeFromSet(PageSet(total) - PageSet(k), k + 1);
  }

  /** The first k pages are counted, page k + 1 is about to be, the others queued. */
  ghost predicate AboutToCount(s: State, conf: Config, k: nat) {
    && s.conf == conf && s.phase == Writing && s.flow.unwritten == multiset{} && s.flow.inOcr == multiset{}
    && s.flow.jobs == multiset(PageSet(conf.total) - PageSet(k + 1))
    && s.pool == IDLE_POOL.(written := NO_PAGES.Add(k + 1, true))
    && s.db.completed == k && s.db.failed == 0 && s.past == Past(0, 0, false, false)
  }

  /** Page k + 1 up to its row, from a state where the first k are counted. */
  lemma HandleNext(s: State, conf: Config, k: nat)
    requires FirstCounted(s, conf, k) && k < conf.total && conf.ocrWorkers >= 1 && conf.assemblers >= 1
    ensures AboutToCount(Run(Step, s, Handle(k + 1)), conf, k)
  {
    TakeNext(conf.total, k);
    hide PageSet, TakeOut;
    HandleOne(s, k + 1);
    hide Run, Step;
  }

  /** The first k pages one after the other. */
  function Serial(k: nat): seq<Action> {
    if k == 0 then [] else Serial(k - 1) + (Handle(k) + CountActs(k))
  }

  lemma NextCounted(s: State, conf: Config, k: nat)
    requires FirstCounted(s, conf, k) && k + 1 < conf.total && conf.ocrWorkers >= 1 && conf.assemblers >= 1
    ensures FirstCounted(Run(Step, s, Handle(k + 1) + CountActs(k + 1)), conf, k + 1)
  {
    hide Step, Handle, CountActs, Run, PageSet;
    RunConcat(Step, s, Handle(k + 1), CountActs(k + 1));
    HandleNext(s, conf, k);
    CountOne(Run(Step, s, Handle(k + 1)), k + 1);
  }

  lemma {:induction false} SerialCounts(s: State, conf: Config, k: nat)
    requires FirstCounted(s, conf, 0) && k < conf.total && conf.ocrWorkers >= 1 && conf.assemblers >= 1
    ensures FirstCounted(Run(Step, s, Serial(k)), conf, k)
  {
    hide Step, Handle, CountActs, FirstCounted;
    if k > 0 {
      hide Run;
      SerialCounts(s, conf, k - 1);
      RunConcat(Step, s, Serial(k - 1), Handle(k) + CountActs(k));
      NextCounted(Run(Step, s, Serial(k - 1)), conf, k - 1);
    }
  }

  /** The file split, and up to the row of page k + 1. */
  function UpTo(n: nat, k: nat): seq<Action> {
    SplitAll(n) + Serial(k) + Handle(k + 1)
  }

  lemma ReachesPage(conf: Config, k: nat)
    requires k < conf.total && conf.ocrWorkers >= 1 && conf.assemblers >= 1
    ensures AboutToCount(Run(Step, Init(conf), UpTo(conf.total, k)), conf, k)
  {
    hide Step;
    RunConcat(Step, Init(conf), SplitAll(conf.total), Serial(k));
    RunConcat(Step, Init(conf), SplitAll(conf.total) + Serial(k), Handle(k + 1));
    SplitCounts(conf);
    var s := Run(Step, Init(conf), SplitAll(conf.total));
    SerialCounts(s, conf, k);
    hide SplitAll, Serial, Handle, PageSet;
    HandleNext(Run(Step, s, Serial(k)), conf, k);
  }

  // ----- two assemblies -----

  /** The last two pages are counted before either assembler reads. */
  function CountBoth(n: nat): seq<Action>
    requires n >= 2
  {
    [Assembler(Increment(n - 1, true)), Assembler(Increment(n, true)), Assembler(ReadJob), Assembler(ReadJob)]
  }

  function Race(n: nat): seq<Action>
    requires n >= 2
  {
    UpTo(n, n - 2) + Handle(n) + CountBoth(n)
  }

  lemma CountBothCallsTwice(s: State, n: nat)
    requires n >= 2 && s.conf.total == n && s.db.completed == n - 2 && s.db.failed == 0 && s.pool.reading == 0
    requires n - 1 in s.pool.written.ok && n in s.pool.written.ok
    ensures Run(Step, s, CountBoth(n)).past.calls == s.past.calls + 2
  {
    var c := CountBoth(n);
    RunFour(Step, s, c[0], c[1], c[2], c[3]);
  }

  lemma RaceCallsTwice(conf: Config)
    requires CanRace(conf)
    ensures Run(Step, Init(conf), Race(conf.total)).past.calls == 2
  {
    RaceCallsTwiceFrom(conf, Init(conf), conf.total - 2) by { ReachesPage(conf, conf.total - 2); }
  }

  lemma RaceCallsTwiceFrom(conf: Config, s: State, k: nat)
    requires CanRace(conf) && conf.total == k + 2 && AboutToCount(Run(Step, s, UpTo(conf.total, k)), conf, k)
    ensures Run(Step, s, Race(conf.total)).past.calls == 2
  {
    hide Step, Run, UpTo, Race, AboutToCount, CanRace, Handle, CountBoth;
    RaceEndsSo(s, conf.total);
    BothRead(Run(Step, s, UpTo(conf.total, k)), conf, k);
  }

  lemma RaceEndsSo(s: State, n: nat)
    requires n >= 2
    ensures Run(Step, s, Race(n)) == Run(Step, Run(Step, Run(Step, s, UpTo(n, n - 2)), Handle(n)), CountBoth(n))
  {
    hide Step, UpTo, Handle, CountBoth;
    RunConcat(Step, s, UpTo(n, n - 2) + Handle(n), CountBoth(n));
    RunConcat(Step, s, UpTo(n, n - 2), Handle(n));
  }

  /** Page k + 2 is handled too before page k + 1 is counted. */
  lemma SecondHandled(s: State, conf: Config, k: nat)
    requires CanRace(conf) && conf.total == k + 2 && AboutToCount(s, conf, k)
    ensures var t := Run(Step, s, Handle(k + 2));
      && t.conf == conf && t.db.completed == k && t.db.failed == 0 && t.past.calls == 0 && t.pool.reading == 0
      && t.pool.written == NO_PAGES.Add(k + 1, true).Add(k + 2, true)
  {
    TakeNext(k + 2, k + 1);
    assert s.pool.Busy() == 1;
    hide PageSet, TakeOut, Put;
    HandleOne(s, k + 2);
    hide Step, Run;
  }

  lemma BothRead(s: State, conf: Config, k: nat)
    requires CanRace(conf) && conf.total == k + 2 && AboutToCount(s, conf, k)
    ensures Run(Step, Run(Step, s, Handle(k + 2)), CountBoth(k + 2)).past.calls == 2
  {
    SecondHandled(s, conf, k);
    assert k + 1 in NO_PAGES.Add(k + 1, true).Add(k + 2, true).ok
      && k + 2 in NO_PAGES.Add(k + 1, true).Add(k + 2, true).ok;
    hide Step, Run, AboutToCount, Handle, CountBoth;
    CountBothCallsTwice(Run(Step, s, Handle(k + 2)), k + 2);
  }

  /** A file is assembled at most once on every run if and only if there is at most
      one assembler, at most one page or no OCR worker. */
  lemma AssemblesOnceIff(conf: Config)
    requires conf.total >= 1
    ensures (forall acts :: Run(Step, Init(conf), acts).past.calls <= 1)
       <==> conf.assemblers <= 1 || conf.total <= 1 || conf.ocrWorkers == 0
  {
    hide Step;
    if CanRace(conf) {
      RaceCallsTwice(conf);
    } else {
      forall acts ensures Run(Step, Init(conf), acts).past.calls <= 1 { NoRaceOneAssembly(conf, acts); }
    }
  }

  // ----- a verdict lost -----

  function LastPageActs(n: nat): seq<Action> {
    CountActs(n) + [Assembler(Begin(0)), Assembler(Finish(0))]
  }

  /** All pages counted and the file assembled before SplitFile's last write. */
  function LateReturn(n: nat): seq<Action>
    requires n >= 1
  {
    UpTo(n, n - 1) + LastPageActs(n) + [Splitter(Return), StaleTick]
  }

  lemma AssemblesLast(s: State, n: nat)
    requires n >= 1 && s.conf.total == n && AboutToCount(s, s.conf, n - 1)
    ensures var t := Run(Step, s, LastPageActs(n));
      && t.conf == s.conf && t.pool == IDLE_POOL && t.db.completed == n && t.db.failed == 0 && IsFinal(t.db.status)
      && t.phase == Writing && t.flow.unwritten == multiset{}
  {
    var c := CountActs(n);
    assert LastPageActs(n) == [c[0], c[1], Assembler(Begin(0)), Assembler(Finish(0))];
    RunFour(Step, s, c[0], c[1], Assembler(Begin(0)), Assembler(Finish(0)));
    assert NO_PAGES.Add(n, true).Remove(n, true) == NO_PAGES;
    assert TakeOut(Put(multiset{}, 0), 0) == multiset{};
  }

  lemma ReturnsLate(s: State)
    requires s.phase == Writing && s.flow.unwritten == multiset{} && IsFinal(s.db.status)
    ensures var t := Run(Step, s, [Splitter(Return), StaleTick]);
      && t.phase == Returned && t.conf == s.conf && t.pool == s.pool && t.past.late
      && t.db == s.db.(status := PagePipeline.TimedOut)
  {
    RunTwo(Step, s, Splitter(Return), StaleTick);
  }

  /** For any file, a run that completes every page ends with the job timed out. */
  lemma LateSplitterLosesTheVerdict(conf: Config)
    requires conf.total >= 1 && conf.ocrWorkers >= 1 && conf.assemblers >= 1
    ensures var s := Run(Step, Init(conf), LateReturn(conf.total));
      && s.phase == Returned && s.pool.Busy() == 0 && s.db.completed == conf.total
      && s.past.late && s.db.status == PagePipeline.TimedOut
  {
    hide PageSet;
    var n := conf.total;
    ReachesPage(conf, n - 1);
    var s := Run(Step, Init(conf), UpTo(n, n - 1));
    assert s.conf == conf;
    hide Step, Run, UpTo, LastPageActs, AboutToCount;
    RunConcat(Step, Init(conf), UpTo(n, n - 1) + LastPageActs(n), [Splitter(Return), StaleTick]);
    RunConcat(Step, Init(conf), UpTo(n, n - 1), LastPageActs(n));
    AssemblesLast(s, n);
    ReturnsLate(Run(Step, s, LastPageActs(n)));
  }

  /** The last write never hits a final status, on any run, if and only if there is
      no OCR worker or no assembler to reach one with. */
  lemma NeverLateIff(conf: Config)
    requires conf.total >= 1
    ensures (forall acts :: !Run(Step, Init(conf), acts).past.late) <==> conf.ocrWorkers == 0 || conf.assemblers == 0
  {
    hide Step;
    if conf.ocrWorkers >= 1 && conf.assemblers >= 1 {
      LateSplitterLosesTheVerdict(conf);
    } else {
      forall acts ensures !Run(Step, Init(conf), acts).past.late {
        RunKeepsInv(conf, acts);
        RunKeepsReaders(conf, acts);
      }
    }
  }
}
