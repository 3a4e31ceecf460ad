/** A page result handled by one assembler with nothing in between
    (Assembly.Handle) is a run of the interleaved machine (PagePipeline). */
module AssemblerRuns {
  import Assembly
  import opened PagePipeline
  import opened Collections
  import opened Runs

  /** The tables of the two agree, as far as the machine has them. */
  ghost predicate Matches(tables: Tables, db: Assembly.Db) {
    && tables.completed == db.completed && tables.failed == db.failed && tables.status == db.status
    && tables.rows.Keys == db.rows.Keys
    && forall p | p in db.rows :: tables.rows[p] == db.rows[p].status
  }

  function ResultActs(page: nat, ok: bool): seq<Action> {
    [Assembler(Fetch(page, ok)), Assembler(WriteRow(page, ok)), Assembler(Increment(page, ok)), Assembler(ReadJob)]
  }

  function AssemblyActs(failed: nat): seq<Action> {
    [Assembler(Begin(failed)), Assembler(Finish(failed))]
  }

  /** The tables after a result is recorded. */
  function AfterResult(t: Tables, page: nat, ok: bool): Tables {
    var rows := if page in t.rows then t.rows[page := if ok then Completed else Failed] else t.rows;
    if ok then t.(rows := rows, completed := t.completed + 1) else t.(rows := rows, failed := t.failed + 1)
  }

  lemma AddThenRemove(page: nat, ok: bool)
    ensures NO_PAGES.Add(page, ok).Has(page, ok) && NO_PAGES.Add(page, ok).Remove(page, ok) == NO_PAGES
    ensures NO_PAGES.Size() == 0
  {}

  /** The result is fetched and its row written. */
  lemma WritesRow(s: State, page: nat, ok: bool)
    requires s.pool == IDLE_POOL && s.conf.assemblers >= 1 && s.flow.results.Has(page, ok)
    ensures var t := Step(Step(s, Assembler(Fetch(page, ok))), Assembler(WriteRow(page, ok)));
      && t.conf == s.conf && t.phase == s.phase && t.pool == IDLE_POOL.(written := NO_PAGES.Add(page, ok))
      && t.db == s.db.(rows := if page in s.db.rows then s.db.rows[page := if ok then Completed else Failed]
                               else s.db.rows)
  {
    AddThenRemove(page, ok);
    var a := Step(s, Assembler(Fetch(page, ok)));
    assert a.pool == IDLE_POOL.(fetched := NO_PAGES.Add(page, ok)) && a.db == s.db;
  }

  /** The page is counted and the job read back. */
  lemma CountsPage(s: State, page: nat, ok: bool)
    requires s.pool == IDLE_POOL.(written := NO_PAGES.Add(page, ok))
    ensures var t := Step(Step(s, Assembler(Increment(page, ok))), Assembler(ReadJob));
      && t.conf == s.conf && t.phase == s.phase
      && t.db == (if ok then s.db.(completed := s.db.completed + 1) else s.db.(failed := s.db.failed + 1))
      && t.pool == if IsComplete(s.conf.total, t.db) then IDLE_POOL.(loaded := multiset{t.db.failed}) else IDLE_POOL
  {
    AddThenRemove(page, ok);
    var a := Step(s, Assembler(Increment(page, ok)));
    assert a.pool == IDLE_POOL.(reading := 1);
    hide IsComplete;
    assert Put(multiset{}, a.db.failed) == multiset{a.db.failed};
  }

  lemma Counts(s: State, page: nat, ok: bool)
    requires s.pool == IDLE_POOL && s.conf.assemblers >= 1 && s.flow.results.Has(page, ok)
    ensures var t := Run(Step, s, ResultActs(page, ok));
      && t.conf == s.conf && t.phase == s.phase && t.db == AfterResult(s.db, page, ok)
      && t.pool == if IsComplete(s.conf.total, t.db) then IDLE_POOL.(loaded := multiset{t.db.failed}) else IDLE_POOL
  {
    var acts := ResultActs(page, ok);
    RunFour(Step, s, acts[0], acts[1], acts[2], acts[3]);
    WritesRow(s, page, ok);
    CountsPage(Step(Step(s, acts[0]), acts[1]), page, ok);
    hide IsComplete, Run, Step;
  }

  lemma Assembles(s: State)
    requires s.pool == IDLE_POOL.(loaded := multiset{s.db.failed})
    ensures var t := Run(Step, s, AssemblyActs(s.db.failed));
      && t.pool == IDLE_POOL && t.conf == s.conf && t.phase == s.phase
      && t.db == s.db.(status := Verdict(s.conf.total, s.db.failed, s.conf.stored))
  {
    var f := s.db.failed;
    RunTwo(Step, s, Assembler(Begin(f)), Assembler(Finish(f)));
    var a := Step(s, Assembler(Begin(f)));
    assert TakeOut(multiset{f}, f) == multiset{} && Put(multiset{}, f) == multiset{f};
    assert a.pool == IDLE_POOL.(begun := multiset{f});
  }

  lemma RecordMatches(env: Assembly.Env, t: Tables, db: Assembly.Db, page: nat, r: Assembly.Result)
    requires Matches(t, db)
    ensures Matches(AfterResult(t, page, r.ok), Assembly.Record(env, db, page, r))
  {}

  lemma AssembleMatches(env: Assembly.Env, t: Tables, db: Assembly.Db)
    requires Matches(t, db) && db.total >= 1
    ensures Matches(t.(status := Verdict(db.total, t.failed, Assembly.Stores(env, db.rows, db.total))),
                    Assembly.Assemble(env, db))
  {
    Assembly.FailureThreshold(db.failed, db.total);
    hide Assembly.ChunksOf, Assembly.CompletedPages, Assembly.FailureRate, Assembly.DlpJobsOf, Assembly.Mean;
    hide Assembly.Confidences;
  }

  /** A tick of the stale-job detector is the same in both. */
  lemma StaleTickIsStep(s: State, db: Assembly.Db)
    requires Matches(s.db, db)
    ensures Matches(Step(s, StaleTick).db, Assembly.MarkStale(db))
    ensures Step(s, StaleTick).db.status == Assembly.MarkStale(db).status
  {
  }

  /** The serial handler and the machine write the same status, counters and page
      rows, for every result and every answer of the services. */
  lemma HandleIsRun(env: Assembly.Env, s: State, db: Assembly.Db, page: nat, r: Assembly.Result)
    requires s.pool == IDLE_POOL && s.conf.assemblers >= 1 && s.flow.results.Has(page, r.ok)
    requires Matches(s.db, db) && s.conf.total == db.total >= 1
    requires var counted := Assembly.Record(env, db, page, r);
      s.conf.stored == Assembly.Stores(env, counted.rows, counted.total)
    ensures var counted := Assembly.Record(env, db, page, r);
      var acts := if counted.completed + counted.failed >= counted.total
                  then ResultActs(page, r.ok) + AssemblyActs(counted.failed) else ResultActs(page, r.ok);
      var t, after := Run(Step, s, acts), Assembly.Handle(env, db, page, r);
      && t.pool == IDLE_POOL && t.db.status == after.status
      && t.db.completed == after.completed && t.db.failed == after.failed
      && t.db.rows.Keys == after.rows.Keys && forall p | p in after.rows :: t.db.rows[p] == after.rows[p].status
  {
    Counts(s, page, r.ok);
    RecordMatches(env, s.db, db, page, r);
    var counted := Assembly.Record(env, db, page, r);
    var c := Run(Step, s, ResultActs(page, r.ok));
    assert counted.total == db.total;
    if counted.completed + counted.failed >= counted.total {
      RunConcat(Step, s, ResultActs(page, r.ok), AssemblyActs(counted.failed));
      Assembles(c);
      AssembleMatches(env, c.db, counted);
    }
    hide Run, Step, Assembly.Record, Assembly.Assemble, AfterResult, ResultActs, AssemblyActs, Verdict, IsComplete;
  }
}
