/** The page pipeline of one processing job as a transition system: the splitter
    (internal/processors/splitter.go), a pool of OCR workers (cmd/ocrworker) and
    a pool of assemblers (cmd/assembler), interleaved statement by statement.
    A worker's local state is the message it holds and the statement it stands
    at, so a pool is given by the messages its workers hold at each statement. */
module PagePipeline {
  import opened Runs
  import opened Collections

  datatype PageStatus = Pending | Completed | Failed
  datatype JobStatus = Splitting | Processing | Assembling | JobCompleted | Partial | JobFailed | TimedOut
  datatype Phase = Created | Writing | Returned | Aborted

  /** `stored` says whether assembleFile finds the file row and can insert chunks. */
  datatype Config = Config(total: nat, stored: bool, ocrWorkers: nat, assemblers: nat)

  /** Page results by outcome. */
  datatype Pages = Pages(ok: multiset<nat>, bad: multiset<nat>) {
    predicate Has(page: nat, good: bool) { if good then page in ok else page in bad }

    function Add(page: nat, good: bool): Pages {
      if good then this.(ok := Put(ok, page)) else this.(bad := Put(bad, page))
    }

    function Remove(page: nat, good: bool): Pages
      requires Has(page, good)
    {
      if good then this.(ok := TakeOut(ok, page)) else this.(bad := TakeOut(bad, page))
    }

    function Size(): nat { |ok| + |bad| }

    function Of(page: nat): nat { ok[page] + bad[page] }
  }

  const NO_PAGES := Pages(multiset{}, multiset{})

  /** Pages on their way to the assemblers. */
  datatype Flow = Flow(unwritten: multiset<nat>, jobs: multiset<nat>, inOcr: multiset<nat>,
                       lost: multiset<nat>, results: Pages)
  {
    function Of(page: nat): nat { unwritten[page] + jobs[page] + inOcr[page] + lost[page] + results.Of(page) }

    function Size(): nat { |unwritten| + |jobs| + |inOcr| + |lost| + results.Size() }
  }

  /** Assemblers about to write the page row (`fetched`), to increment a counter
      (`written`), to read the job back (`reading`, their number), to set
      "assembling" (`loaded`) and to write the final status (`begun`). The last
      two hold the failed_pages they read. */
  datatype Pool = Pool(fetched: Pages, written: Pages, reading: nat, loaded: multiset<nat>, begun: multiset<nat>)
  {
    function Busy(): nat { fetched.Size() + written.Size() + reading + |loaded| + |begun| }

    predicate NobodyAssembles() { loaded == multiset{} && begun == multiset{} }
  }

  const IDLE_POOL := Pool(NO_PAGES, NO_PAGES, 0, multiset{}, multiset{})

  /** The tables: the job row and its page rows. */
  datatype Tables = Tables(status: JobStatus, completed: nat, failed: nat, rows: map<nat, PageStatus>)

  /** History, which no step decides on: assembleFile calls so far, how many
      assemblers stood before the read when the last page was counted, whether
      some call has finished, and whether SplitFile's last write hit a final
      status that nobody has written again since. */
  datatype Past = Past(calls: nat, racers: nat, finished: bool, late: bool)

  datatype State = State(conf: Config, phase: Phase, flow: Flow, pool: Pool, db: Tables, past: Past)

  datatype SplitterAction = InsertRows | WritePage(page: nat) | Return | Abort
  datatype OcrAction = TakeJob | Produce(ok: bool) | Lose
  datatype AssemblerAction =
    | Fetch(page: nat, ok: bool) | WriteRow(page: nat, ok: bool) | Increment(page: nat, ok: bool)
    | ReadJob | Begin(failedSeen: nat) | Finish(failedSeen: nat)

  datatype Action =
    | Splitter(split: SplitterAction)
    | Ocr(work: OcrAction, page: nat)
    | Assembler(assembly: AssemblerAction)
    | StaleTick

  function PageSet(total: nat): (pages: set<nat>)
    ensures forall p :: p in pages <==> 1 <= p <= total
    ensures |pages| == total
  {
    if total == 0 then {} else PageSet(total - 1) + {total}
  }

  /** The job row just created, before SplitFile inserts the page rows. */
  function Init(conf: Config): State {
    State(conf, Created,
          Flow(multiset(PageSet(conf.total)), multiset{}, multiset{}, multiset{}, NO_PAGES),
          Pool(NO_PAGES, NO_PAGES, 0, multiset{}, multiset{}),
          Tables(Splitting, 0, 0, map[]),
          Past(0, 0, false, false))
  }

  predicate IsComplete(total: nat, db: Tables) {
    db.completed + db.failed >= total
  }

  predicate IsFinal(status: JobStatus) {
    status in {JobCompleted, Partial, JobFailed}
  }

  /** What assembleFile writes last when it saw `failed` failed pages. */
  function Verdict(total: nat, failed: nat, stored: bool): JobStatus {
    if 5 * failed >= total || !stored then JobFailed
    else if failed > 0 then Partial
    else JobCompleted
  }

  function SplitterStep(s: State, act: SplitterAction): State {
    match act
    case InsertRows =>
      if s.phase != Created then s else
      s.(phase := Writing, db := s.db.(rows := map p | p in PageSet(s.conf.total) :: Pending))
    case WritePage(p) =>
      if s.phase != Writing || p !in s.flow.unwritten then s else
      s.(flow := s.flow.(unwritten := TakeOut(s.flow.unwritten, p), jobs := Put(s.flow.jobs, p)))
    case Return =>
      if s.phase != Writing || s.flow.unwritten != multiset{} then s else
      s.(phase := Returned, db := s.db.(status := Processing), past := s.past.(late := IsFinal(s.db.status)))
    case Abort =>
      if s.phase != Created && s.phase != Writing then s else
      s.(phase := Aborted, db := s.db.(status := JobFailed))
  }

  function OcrStep(f: Flow, workers: nat, act: OcrAction, p: nat): Flow {
    match act
    case TakeJob =>
      if p !in f.jobs || |f.inOcr| >= workers then f else
      f.(jobs := TakeOut(f.jobs, p), inOcr := Put(f.inOcr, p))
    case Produce(ok) =>
      if p !in f.inOcr then f else
      f.(inOcr := TakeOut(f.inOcr, p), results := f.results.Add(p, ok))
    case Lose =>
      if p !in f.inOcr then f else
      f.(inOcr := TakeOut(f.inOcr, p), lost := Put(f.lost, p))
  }

  function AssemblerStep(s: State, act: AssemblerAction): State {
    var pool, db := s.pool, s.db;
    match act
    case Fetch(p, ok) =>
      if !s.flow.results.Has(p, ok) || pool.Busy() >= s.conf.assemblers then s else
      s.(flow := s.flow.(results := s.flow.results.Remove(p, ok)), pool := pool.(fetched := pool.fetched.Add(p, ok)))
    case WriteRow(p, ok) =>
      if !pool.fetched.Has(p, ok) then s else
      s.(pool := pool.(fetched := pool.fetched.Remove(p, ok), written := pool.written.Add(p, ok)),
         db := if p in db.rows then db.(rows := db.rows[p := if ok then Completed else Failed]) else db)
    case Increment(p, ok) =>
      if !pool.written.Has(p, ok) then s else
      var db' := if ok then db.(completed := db.completed + 1) else db.(failed := db.failed + 1);
      var last := IsComplete(s.conf.total, db') && !IsComplete(s.conf.total, db);
      s.(pool := pool.(written := pool.written.Remove(p, ok), reading := pool.reading + 1), db := db',
         past := if last then s.past.(racers := pool.reading + 1) else s.past)
    case ReadJob =>
      if pool.reading == 0 then s else
      if !IsComplete(s.conf.total, db) then s.(pool := pool.(reading := pool.reading - 1)) else
      s.(pool := pool.(reading := pool.reading - 1, loaded := Put(pool.loaded, db.failed)),
         past := s.past.(calls := s.past.calls + 1))
    case Begin(f) =>
      if f !in pool.loaded then s else
      s.(pool := pool.(loaded := TakeOut(pool.loaded, f), begun := Put(pool.begun, f)),
         db := db.(status := Assembling))
    case Finish(f) =>
      if f !in pool.begun then s else
      s.(pool := pool.(begun := TakeOut(pool.begun, f)), db := db.(status := Verdict(s.conf.total, f, s.conf.stored)),
         past := s.past.(finished := true, late := false))
  }

  function Step(s: State, act: Action): State {
    match act
    case Splitter(a) => SplitterStep(s, a)
    case Ocr(a, p) => s.(flow := OcrStep(s.flow, s.conf.ocrWorkers, a, p))
    case Assembler(a) => AssemblerStep(s, a)
    case StaleTick =>
      if s.db.status != Splitting && s.db.status != Processing then s else
      s.(db := s.db.(status := TimedOut))
  }

  function RowsWith(rows: map<nat, PageStatus>, status: PageStatus): set<nat> {
    set p | p in rows && rows[p] == status
  }

  // ----- the inductive invariant, in five parts -----

  /** How often a page is in the pipeline, over all the places it can be in. */
  function Copies(flow: Flow, pool: Pool, rows: map<nat, PageStatus>, page: nat): nat {
    flow.Of(page) + pool.fetched.Of(page) + (if page in rows && rows[page] != Pending then 1 else 0)
  }

  ghost predicate EachPageOnce(s: State) {
    forall p: nat :: Copies(s.flow, s.pool, s.db.rows, p) == if p in PageSet(s.conf.total) then 1 else 0
  }

  /** Pages still to be written, queued, in OCR, lost to a failed write, or with
      a result queued or in the hands of an assembler, plus both counters. */
  ghost predicate PagesConserved(s: State) {
    s.flow.Size() + s.pool.fetched.Size() + s.pool.written.Size() + s.db.completed + s.db.failed == s.conf.total
  }

  ghost predicate RowsInserted(s: State) {
    && (s.db.rows.Keys == PageSet(s.conf.total)
        || (s.db.rows == map[] && s.flow.unwritten == multiset(PageSet(s.conf.total))))
    && (s.phase == Writing || s.phase == Returned ==> s.db.rows.Keys == PageSet(s.conf.total))
    && (s.phase == Created ==> s.db.rows == map[])
    && (s.phase == Returned ==> s.flow.unwritten == multiset{})
  }

  ghost predicate CountersTrackRows(s: State) {
    && s.db.completed + |s.pool.written.ok| == |RowsWith(s.db.rows, Completed)|
    && s.db.failed + |s.pool.written.bad| == |RowsWith(s.db.rows, Failed)|
  }

  ghost predicate TriggerAccounted(s: State) {
    && s.conf.total >= 1
    && (IsComplete(s.conf.total, s.db) ==> s.past.racers >= 1 && s.past.calls + s.pool.reading == s.past.racers)
    && (!IsComplete(s.conf.total, s.db) ==> s.past.racers == 0 && s.past.calls == 0 && s.pool.NobodyAssembles())
    && (forall f :: f in s.pool.loaded || f in s.pool.begun ==> f == s.db.failed)
  }

  ghost predicate StatusTracked(s: State) {
    && (s.past.finished || !s.pool.NobodyAssembles() ==> s.past.calls > 0)
    && (s.past.calls > 0 ==> s.past.finished || !s.pool.NobodyAssembles())
    && (s.phase in {Created, Writing} ==> !s.past.late && (IsFinal(s.db.status) ==> s.past.finished))
    && (s.past.late ==> s.past.finished)
    && (s.past.finished && s.phase != Aborted && s.pool.NobodyAssembles() ==>
          if s.past.late then s.db.status in {Processing, TimedOut}
          else s.db.status == Verdict(s.conf.total, s.db.failed, s.conf.stored))
  }

  ghost predicate Inv(s: State) {
    && EachPageOnce(s) && PagesConserved(s) && RowsInserted(s) && CountersTrackRows(s)
    && TriggerAccounted(s) && StatusTracked(s)
    && s.pool.Busy() <= s.conf.assemblers && s.past.racers <= s.conf.assemblers
  }

  // ----- every step keeps the invariant -----

  lemma InitInv(conf: Config)
    requires conf.total >= 1
    ensures Inv(Init(conf))
  {
    assert RowsWith(map[], Completed) == {} && RowsWith(map[], Failed) == {};
    hide PageSet, RowsWith;
  }

  /** A page about to be written has a pending row. */
  lemma FetchedPageIsPending(s: State, page: nat, ok: bool)
    requires EachPageOnce(s) && RowsInserted(s) && s.pool.fetched.Has(page, ok)
    ensures page in s.db.rows && s.db.rows[page] == Pending
  {
    assert Copies(s.flow, s.pool, s.db.rows, page) == if page in PageSet(s.conf.total) then 1 else 0;
  }

  lemma RowsAfterWrite(rows: map<nat, PageStatus>, page: nat, ok: bool)
    requires page in rows && rows[page] == Pending
    ensures var after := rows[page := if ok then Completed else Failed];
      && RowsWith(after, Completed) == RowsWith(rows, Completed) + (if ok then {page} else {})
      && RowsWith(after, Failed) == RowsWith(rows, Failed) + (if ok then {} else {page})
  {
  }

  lemma SplitterKeepsCopies(s: State, act: SplitterAction, p: nat)
    requires RowsInserted(s)
    ensures var t := SplitterStep(s, act);
      Copies(t.flow, t.pool, t.db.rows, p) == Copies(s.flow, s.pool, s.db.rows, p)
  {
  }

  lemma SplitterConservesPages(s: State, act: SplitterAction)
    requires PagesConserved(s)
    ensures PagesConserved(SplitterStep(s, act))
  {
    hide PageSet;
  }

  lemma SplitterKeepsRows(s: State, act: SplitterAction)
    requires RowsInserted(s)
    ensures RowsInserted(SplitterStep(s, act))
  {
    hide PageSet;
  }

  lemma SplitterKeepsCounters(s: State, act: SplitterAction)
    requires RowsInserted(s) && CountersTrackRows(s)
    ensures CountersTrackRows(SplitterStep(s, act))
  {
    var t := SplitterStep(s, act);
    if act == InsertRows && s.phase == Created {
      assert RowsWith(t.db.rows, Completed) == RowsWith(t.db.rows, Failed) == {};
      assert RowsWith(s.db.rows, Completed) == RowsWith(s.db.rows, Failed) == {};
    }
  }

  lemma SplitterKeepsTrigger(s: State, act: SplitterAction)
    requires TriggerAccounted(s) && StatusTracked(s)
    ensures TriggerAccounted(SplitterStep(s, act)) && StatusTracked(SplitterStep(s, act))
  {
  }

  lemma OcrKeepsPages(f: Flow, workers: nat, act: OcrAction, page: nat)
    ensures var g := OcrStep(f, workers, act, page);
      && g.Size() == f.Size() && g.unwritten == f.unwritten
      && forall p :: g.Of(p) == f.Of(p)
  {
  }

  lemma OcrKeepsInv(s: State, act: OcrAction, page: nat)
    requires PagesConserved(s) && RowsInserted(s) && CountersTrackRows(s) && TriggerAccounted(s) && StatusTracked(s)
    ensures var t := Step(s, Ocr(act, page));
      PagesConserved(t) && RowsInserted(t) && CountersTrackRows(t) && TriggerAccounted(t) && StatusTracked(t)
  {
    OcrKeepsPages(s.flow, s.conf.ocrWorkers, act, page);
  }

  lemma StaleTickKeepsStatus(s: State)
    requires StatusTracked(s)
    ensures StatusTracked(Step(s, StaleTick))
  {
  }

  lemma StaleTickKeepsInv(s: State)
    requires PagesConserved(s) && RowsInserted(s) && CountersTrackRows(s) && TriggerAccounted(s) && StatusTracked(s)
    ensures var t := Step(s, StaleTick);
      PagesConserved(t) && RowsInserted(t) && CountersTrackRows(t) && TriggerAccounted(t) && StatusTracked(t)
  {
    hide PageSet, RowsWith, StatusTracked;
    var t := Step(s, StaleTick);
    StaleTickKeepsStatus(s);
    assert t == s.(db := s.db.(status := t.db.status));
    hide Step;
  }

  /** Fetching a result and writing its row move the page on. */
  lemma FetchMovesCopy(s: State, page: nat, ok: bool, p: nat)
    ensures var t := AssemblerStep(s, Fetch(page, ok));
      Copies(t.flow, t.pool, t.db.rows, p) == Copies(s.flow, s.pool, s.db.rows, p)
  {
  }

  lemma WriteRowMovesCopy(s: State, page: nat, ok: bool, p: nat)
    requires EachPageOnce(s) && RowsInserted(s)
    ensures var t := AssemblerStep(s, WriteRow(page, ok));
      Copies(t.flow, t.pool, t.db.rows, p) == Copies(s.flow, s.pool, s.db.rows, p)
  {
    if s.pool.fetched.Has(page, ok) {
      FetchedPageIsPending(s, page, ok);
      hide EachPageOnce, RowsInserted;
    }
  }

  lemma CountingLeavesCopies(s: State, act: AssemblerAction, p: nat)
    requires !act.Fetch? && !act.WriteRow?
    ensures var t := AssemblerStep(s, act);
      Copies(t.flow, t.pool, t.db.rows, p) == Copies(s.flow, s.pool, s.db.rows, p)
  {
    hide Copies;
    var t := AssemblerStep(s, act);
    assert t.flow == s.flow && t.pool.fetched == s.pool.fetched && t.db.rows == s.db.rows;
    SameCopies(s.flow, s.pool, t.pool, s.db.rows, p);
  }

  lemma SameCopies(flow: Flow, pool: Pool, other: Pool, rows: map<nat, PageStatus>, page: nat)
    requires pool.fetched == other.fetched
    ensures Copies(flow, pool, rows, page) == Copies(flow, other, rows, page)
  {
  }

  lemma AssemblerKeepsCopies(s: State, act: AssemblerAction, p: nat)
    requires EachPageOnce(s) && RowsInserted(s)
    ensures var t := AssemblerStep(s, act);
      Copies(t.flow, t.pool, t.db.rows, p) == Copies(s.flow, s.pool, s.db.rows, p)
  {
    hide Copies, AssemblerStep, EachPageOnce, RowsInserted;
    match act
    case Fetch(page, ok) => FetchMovesCopy(s, page, ok, p);
    case WriteRow(page, ok) => WriteRowMovesCopy(s, page, ok, p);
    case _ => CountingLeavesCopies(s, act, p);
  }

  lemma PagesSize(pages: Pages, page: nat, good: bool)
    ensures pages.Add(page, good).Size() == pages.Size() + 1
    ensures pages.Has(page, good) ==> pages.Remove(page, good).Size() == pages.Size() - 1
  {
  }

  lemma AssemblerConservesPages(s: State, act: AssemblerAction)
    requires PagesConserved(s)
    ensures PagesConserved(AssemblerStep(s, act))
  {
    hide PageSet, Verdict, Pages.Add, Pages.Remove, Pages.Has, Pages.Size;
    match act
    case Fetch(p, ok) => PagesSize(s.flow.results, p, ok); PagesSize(s.pool.fetched, p, ok);
    case WriteRow(p, ok) => PagesSize(s.pool.fetched, p, ok); PagesSize(s.pool.written, p, ok);
    case Increment(p, ok) => PagesSize(s.pool.written, p, ok);
    case _ =>
  }

  lemma AssemblerKeepsRows(s: State, act: AssemblerAction)
    requires RowsInserted(s)
    ensures RowsInserted(AssemblerStep(s, act))
  {
    hide PageSet;
    var t := AssemblerStep(s, act);
    assert t.db.rows.Keys == s.db.rows.Keys;
    assert t.phase == s.phase && t.conf == s.conf && t.flow.unwritten == s.flow.unwritten;
    hide AssemblerStep;
  }

  lemma AssemblerKeepsCounters(s: State, act: AssemblerAction)
    requires EachPageOnce(s) && RowsInserted(s) && CountersTrackRows(s)
    ensures CountersTrackRows(AssemblerStep(s, act))
  {
    hide AssemblerStep, EachPageOnce, RowsInserted, CountersTrackRows;
    if act.WriteRow? { WriteRowKeepsCounters(s, act.page, act.ok); } else { CountingKeepsCounters(s, act); }
  }

  lemma CountingKeepsCounters(s: State, act: AssemblerAction)
    requires CountersTrackRows(s) && !act.WriteRow?
    ensures CountersTrackRows(AssemblerStep(s, act))
  {
    hide PageSet, RowsWith, Verdict, IsComplete;
  }

  lemma WriteRowKeepsCounters(s: State, page: nat, ok: bool)
    requires EachPageOnce(s) && RowsInserted(s) && CountersTrackRows(s)
    ensures CountersTrackRows(AssemblerStep(s, WriteRow(page, ok)))
  {
    hide EachPageOnce, RowsInserted, PageSet;
    if s.pool.fetched.Has(page, ok) {
      FetchedPageIsPending(s, page, ok);
      RowsAfterWrite(s.db.rows, page, ok);
      PageIsNew(s.db.rows, page, ok);
      hide RowsWith;
    }
  }

  lemma PageIsNew(rows: map<nat, PageStatus>, page: nat, ok: bool)
    requires page in rows && rows[page] == Pending
    ensures page !in RowsWith(rows, Completed) && page !in RowsWith(rows, Failed)
  {
  }

  lemma AssemblerKeepsTrigger(s: State, act: AssemblerAction)
    requires PagesConserved(s) && TriggerAccounted(s)
    ensures TriggerAccounted(AssemblerStep(s, act))
  {
  }

  lemma AssemblerKeepsStatus(s: State, act: AssemblerAction)
    requires PagesConserved(s) && TriggerAccounted(s) && StatusTracked(s)
    ensures StatusTracked(AssemblerStep(s, act))
  {
    hide PageSet, RowsWith;
  }

  lemma AssemblersBusy(s: State, act: AssemblerAction)
    requires s.pool.Busy() <= s.conf.assemblers && s.past.racers <= s.conf.assemblers
    ensures AssemblerStep(s, act).pool.Busy() <= s.conf.assemblers
    ensures AssemblerStep(s, act).past.racers <= s.conf.assemblers
  {
  }

  lemma StepKeepsCopies(s: State, act: Action, p: nat)
    requires EachPageOnce(s) && RowsInserted(s)
    ensures var t := Step(s, act);
      Copies(t.flow, t.pool, t.db.rows, p) == Copies(s.flow, s.pool, s.db.rows, p)
  {
    match act
    case Splitter(a) => SplitterKeepsCopies(s, a, p);
    case Ocr(a, page) => OcrKeepsPages(s.flow, s.conf.ocrWorkers, a, page);
    case Assembler(a) => AssemblerKeepsCopies(s, a, p);
    case StaleTick =>
  }

  lemma StepKeepsPageOnce(s: State, act: Action)
    requires EachPageOnce(s) && RowsInserted(s)
    ensures EachPageOnce(Step(s, act))
  {
    var t := Step(s, act);
    assert t.conf == s.conf;
    forall p: nat ensures Copies(t.flow, t.pool, t.db.rows, p) == if p in PageSet(t.conf.total) then 1 else 0 {
      StepKeepsCopies(s, act, p);
    }
  }

  lemma StepKeepsInv(s: State, act: Action)
    requires Inv(s)
    ensures Inv(Step(s, act)) && Step(s, act).conf == s.conf
  {
    hide EachPageOnce, PagesConserved, RowsInserted, CountersTrackRows, TriggerAccounted, StatusTracked;
    hide SplitterStep, OcrStep, AssemblerStep;
    StepKeepsPageOnce(s, act);
    StepKeepsConf(s, act);
    match act
    case Splitter(a) =>
      SplitterConservesPages(s, a);
      SplitterKeepsRows(s, a);
      SplitterKeepsCounters(s, a);
      SplitterKeepsTrigger(s, a);
    case Ocr(a, page) =>
      OcrKeepsInv(s, a, page);
    case Assembler(a) =>
      AssemblerConservesPages(s, a);
      AssemblerKeepsRows(s, a);
      AssemblerKeepsCounters(s, a);
      AssemblerKeepsTrigger(s, a);
      AssemblerKeepsStatus(s, a);
      AssemblersBusy(s, a);
    case StaleTick =>
      StaleTickKeepsInv(s);
  }

  lemma StepKeepsConf(s: State, act: Action)
    ensures Step(s, act).conf == s.conf
    ensures !act.Assembler? ==> Step(s, act).pool == s.pool && Step(s, act).past.racers == s.past.racers
  {
  }

  /** Every interleaving of the three process kinds keeps the invariant. */
  lemma RunKeepsInv(conf: Config, acts: seq<Action>)
    requires conf.total >= 1
    ensures Inv(Run(Step, Init(conf), acts))
    ensures Run(Step, Init(conf), acts).conf == conf
  {
    hide Inv, Step;
    InitInv(conf);
    forall s, a | Inv(s) && s.conf == conf ensures Inv(Step(s, a)) && Step(s, a).conf == conf {
      StepKeepsInv(s, a);
    }
    RunKeeps(Step, (s: State) => Inv(s) && s.conf == conf, Init(conf), acts);
  }

  // ----- what holds in every reachable state -----

  /** Conservation over the three process kinds. */
  lemma PageConservation(conf: Config, acts: seq<Action>)
    requires conf.total >= 1
    ensures var s := Run(Step, Init(conf), acts);
      |s.flow.unwritten| + |s.flow.jobs| + |s.flow.inOcr| + |s.flow.lost|
      + |s.flow.results.ok| + |s.flow.results.bad|
      + |s.pool.fetched.ok| + |s.pool.fetched.bad| + |s.pool.written.ok| + |s.pool.written.bad|
      + s.db.completed + s.db.failed == conf.total
  {
    RunKeepsInv(conf, acts);
  }

  lemma RowsWithIs(rows: map<nat, PageStatus>, status: PageStatus)
    ensures RowsWith(rows, status) == set p | p in rows && rows[p] == status
  {
  }

  lemma AllRows(rows: map<nat, PageStatus>, total: nat)
    ensures (forall p: nat :: p in rows <==> 1 <= p <= total) <==> rows.Keys == PageSet(total)
  {
  }

  lemma CountedRows(db: Tables, total: nat)
    requires db.completed == |RowsWith(db.rows, Completed)| && db.failed == |RowsWith(db.rows, Failed)|
    requires db.rows.Keys == PageSet(total) || db.rows == map[]
    ensures db.completed + db.failed >= total <==> db.rows.Keys == PageSet(total) && Pending !in db.rows.Values
  {
    var done := RowsWith(db.rows, Completed) + RowsWith(db.rows, Failed);
    assert |done| == db.completed + db.failed;
    assert done <= db.rows.Keys;
    if db.completed + db.failed >= total {
      SubsetSize(done, db.rows.Keys);
      assert forall p | p in db.rows :: p in done;
    }
    if db.rows.Keys == PageSet(total) && Pending !in db.rows.Values {
      forall p | p in db.rows.Keys ensures p in done {
        assert db.rows[p] in db.rows.Values;
      }
      assert done == db.rows.Keys;
    }
  }

  /** At a message boundary the counters equal the row counts, so IsComplete
      holds exactly when every page row is there and none is pending. */
  lemma CountersAtMessageBoundary(conf: Config, acts: seq<Action>)
    requires conf.total >= 1
    requires var s := Run(Step, Init(conf), acts); s.pool.fetched == s.pool.written == NO_PAGES
    ensures var db := Run(Step, Init(conf), acts).db;
      && db.completed == |set p | p in db.rows && db.rows[p] == Completed|
      && db.failed == |set p | p in db.rows && db.rows[p] == Failed|
      && (db.completed + db.failed >= conf.total <==>
            (forall p: nat :: p in db.rows <==> 1 <= p <= conf.total) && Pending !in db.rows.Values)
  {
    hide Step, EachPageOnce, TriggerAccounted, StatusTracked, PageSet, RowsWith;
    RunKeepsInv(conf, acts);
    var db := Run(Step, Init(conf), acts).db;
    RowsWithIs(db.rows, Completed);
    RowsWithIs(db.rows, Failed);
    AllRows(db.rows, conf.total);
    CountedRows(db, conf.total);
  }

  /** assembleFile is never called before all results are counted; once they are
      and no assembler is between increment and read, it has been called, and
      exactly once if and only if the assembler that counted the last page stood
      alone between increment and read. */
  lemma AssemblyTrigger(conf: Config, acts: seq<Action>)
    requires conf.total >= 1
    ensures var s := Run(Step, Init(conf), acts);
      && (s.past.calls > 0 ==> s.db.completed + s.db.failed == conf.total)
      && (s.db.completed + s.db.failed == conf.total && s.pool.reading == 0 ==>
            s.past.calls >= 1 && (s.past.calls == 1 <==> s.past.racers == 1))
  {
    RunKeepsInv(conf, acts);
  }

  /** With the results handled one at a time there is exactly one call. */
  lemma OneAtATimeAssemblesOnce(conf: Config, acts: seq<Action>)
    requires conf.total >= 1 && conf.assemblers == 1
    ensures var s := Run(Step, Init(conf), acts);
      && s.past.calls <= 1
      && (s.db.completed + s.db.failed == conf.total && s.pool.Busy() == 0 ==> s.past.calls == 1)
  {
    RunKeepsInv(conf, acts);
  }

  /** Nothing can happen to a job all of whose pages are counted, once the
      splitter has returned, the assemblers are idle and the status is final:
      the stale-job detector included. */
  lemma FinalStateIsStable(s: State, act: Action)
    requires Inv(s) && s.phase == Returned && IsComplete(s.conf.total, s.db) && s.pool.Busy() == 0
    requires s.db.status in {JobCompleted, Partial, JobFailed}
    ensures Step(s, act) == s
  {
    hide EachPageOnce, RowsInserted, CountersTrackRows, TriggerAccounted, StatusTracked, PageSet;
    assert s.flow.Size() == 0;
    hide PagesConserved, Pool.Busy, OcrStep, AssemblerStep;
    match act
    case Splitter(a) =>
    case Ocr(a, p) => NothingForOcr(s.flow, s.conf.ocrWorkers, a, p);
    case Assembler(a) => NothingForAssembler(s, a);
    case StaleTick =>
  }

  lemma NothingForOcr(f: Flow, workers: nat, act: OcrAction, p: nat)
    requires f.Size() == 0
    ensures OcrStep(f, workers, act, p) == f
  {
  }

  lemma NothingForAssembler(s: State, act: AssemblerAction)
    requires s.flow.Size() == 0 && s.pool.Busy() == 0
    ensures AssemblerStep(s, act) == s
  {
  }

  /** The status left behind is the verdict on the page rows if and only if
      SplitFile's last write did not hit a final status. */
  lemma FinalStatus(conf: Config, acts: seq<Action>)
    requires conf.total >= 1
    requires var s := Run(Step, Init(conf), acts);
      s.phase == Returned && IsComplete(conf.total, s.db) && s.pool.Busy() == 0
    ensures var s := Run(Step, Init(conf), acts);
      && s.db.failed == |set p | p in s.db.rows && s.db.rows[p] == Failed|
      && (s.db.status == Verdict(conf.total, s.db.failed, conf.stored) <==> !s.past.late)
      && (s.past.late ==> s.db.status in {Processing, TimedOut})
  {
    hide Step, EachPageOnce, RowsWith;
    RunKeepsInv(conf, acts);
    RowsWithIs(Run(Step, Init(conf), acts).db.rows, Failed);
  }

  /** A fifth of the pages, or chunks that cannot be stored, fail the job. */
  lemma VerdictIs(total: nat, failed: nat, stored: bool)
    ensures Verdict(total, failed, stored) == JobFailed <==> 5 * failed >= total || !stored
    ensures Verdict(total, failed, stored) == JobCompleted <==> 5 * failed < total && stored && failed == 0
    ensures Verdict(total, failed, stored) == Partial <==> 5 * failed < total && stored && failed > 0
  {
  }

  lemma OnTimeStaysOnTime(s: State, act: Action)
    ensures s.phase == Returned && !s.past.late ==>
      Step(s, act).phase == Returned && !Step(s, act).past.late
  {
  }

  /** If SplitFile returns before the last result is counted, the job ends with
      the verdict on its page rows, whatever is interleaved, and stays there. */
  lemma VerdictIfSplitReturnsFirst(conf: Config, before: seq<Action>, after: seq<Action>, next: Action)
    requires conf.total >= 1
    requires var b := Run(Step, Init(conf), before);
      b.phase == Writing && b.flow.unwritten == multiset{} && !IsComplete(conf.total, b.db)
    ensures var s := Run(Step, Init(conf), before + [Splitter(Return)] + after);
      s.db.completed + s.db.failed == conf.total && s.pool.Busy() == 0 ==>
        var failed := |set p | p in s.db.rows && s.db.rows[p] == Failed|;
        && (s.db.status == JobFailed <==> 5 * failed >= conf.total || !conf.stored)
        && (s.db.status == JobCompleted <==> 5 * failed < conf.total && conf.stored && failed == 0)
        && (s.db.status == Partial <==> 5 * failed < conf.total && conf.stored && failed > 0)
        && Step(s, next) == s
  {
    var b := Run(Step, Init(conf), before);
    var r := Run(Step, Init(conf), before + [Splitter(Return)]);
    RunConcat(Step, Init(conf), before, [Splitter(Return)]);
    assert r == Step(b, Splitter(Return)) by { assert [Splitter(Return)][1..] == []; }
    assert !r.past.late by { RunKeepsInv(conf, before); }
    var acts := before + [Splitter(Return)] + after;
    var s := Run(Step, Init(conf), acts);
    RunConcat(Step, Init(conf), before + [Splitter(Return)], after);
    RunStaysOnTime(r, after);
    if IsComplete(conf.total, s.db) && s.pool.Busy() == 0 {
      FinalStatus(conf, acts);
      RunKeepsInv(conf, acts);
      FinalStateIsStable(s, next);
    }
  }

  lemma RunStaysOnTime(s: State, acts: seq<Action>)
    requires s.phase == Returned && !s.past.late
    ensures Run<State, Action>(Step, s, acts).phase == Returned
    ensures !Run<State, Action>(Step, s, acts).past.late
  {
    hide Step;
    forall t: State, a: Action | t.phase == Returned && !t.past.late
      ensures Step(t, a).phase == Returned && !Step(t, a).past.late
    {
      OnTimeStaysOnTime(t, a);
    }
    RunKeeps(Step, (t: State) => t.phase == Returned && !t.past.late, s, acts);
  }
}
