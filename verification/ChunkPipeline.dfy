/** From chunk rows to embeddings: the end of assembleFile (cmd/assembler), the
    backfill tool (cmd/backfill-dlp), DLP workers (cmd/dlpworker) and embedding
    workers (cmd/embeddingworker), interleaved statement by statement, for the
    chunks of one file. The chunk rows are inserted in one transaction. Any
    message can be delivered again. */
module ChunkPipeline {
  import opened Runs
  import opened Collections

  datatype Status = Pending | Processing | Completed | Failed | Skipped

  datatype Row = Row(dlp: Status, emb: Status)

  /** assembleFile making the chunks, publishing their DLP jobs after the insert,
      or given up because the insert failed. */
  datatype Phase = Assembling | Publishing(left: set<nat>) | Aborted

  /** The statement a DLP worker stands before, in processDLPJob. */
  datatype Dlp =
    | Check(c: nat) | Mark(c: nat) | Load(c: nat) | Scan(c: nat) | Save(c: nat) | Fail(c: nat) | Publish(c: nat)

  /** The statement an embedding worker stands before, in processEmbeddingJob
      and then checkFileEmbeddingComplete. */
  datatype Emb =
    | EMark(c: nat) | ELoad(c: nat) | EEmbed(c: nat) | ESave(c: nat) | EFail(c: nat) | ESkip(c: nat)
    | CountAll | CountEmbedded(total: nat)

  /** What a run has done so far. */
  datatype Event = Scanned(c: nat) | Queued(c: nat) | Embedded(c: nat) | Reported

  /** `plan` are the chunks of the file, `inline` those the assembler has scanned
      without error. */
  datatype State = State(
    plan: set<nat>, inline: set<nat>, phase: Phase, table: map<nat, Row>,
    dlpJobs: multiset<nat>, embJobs: multiset<nat>, dlp: map<nat, Dlp>, emb: map<nat, Emb>,
    log: seq<Event>)

  datatype Loaded = Text | Empty | Unreadable

  datatype DlpAction =
    | Fetch(c: nat, redeliver: bool) | ReadStatus | SetProcessing | LoadText(ok: bool) | ScanText(ok: bool)
    | SaveResult | SaveFailure | PublishJob(ok: bool)

  datatype EmbAction =
    | EFetch(c: nat, redeliver: bool) | ESetProcessing | ELoadText(l: Loaded) | EmbedText(ok: bool)
    | ESaveResult | ESaveFailure | ESaveSkipped | ECountAll | ECountEmbedded

  datatype Action =
    | ScanInline(c: nat) | InsertAll(ok: bool) | PublishDlpJob(c: nat, ok: bool) | Backfill(c: nat)
    | DlpWorker(w: nat, d: DlpAction) | EmbWorker(w: nat, e: EmbAction)

  function Init(plan: set<nat>): State {
    State(plan, {}, Assembling, map[], multiset{}, multiset{}, map[], map[], [])
  }

  /** The rows of the chunks as assembleFile inserts them. */
  function Inserted(plan: set<nat>, inline: set<nat>): map<nat, Row> {
    map c | c in plan :: Row(if c in inline then Completed else Pending, Pending)
  }

  function Drop(m: multiset<nat>, x: nat, keep: bool): multiset<nat>
    requires x in m
  {
    if keep then m else TakeOut(m, x)
  }

  /** An update of a row that is not there changes nothing. */
  function SetDlp(table: map<nat, Row>, c: nat, status: Status): map<nat, Row> {
    if c in table then table[c := table[c].(dlp := status)] else table
  }

  function SetEmb(table: map<nat, Row>, c: nat, status: Status): map<nat, Row> {
    if c in table then table[c := table[c].(emb := status)] else table
  }

  function EmbeddedChunks(table: map<nat, Row>): set<nat> {
    set c | c in table && table[c].emb == Completed
  }

  function Idle<T>(workers: map<nat, T>, w: nat): map<nat, T> { workers - {w} }

  function DlpStep(s: State, w: nat, d: DlpAction): State {
    if d.Fetch? then
      if w in s.dlp || d.c !in s.dlpJobs then s else
      s.(dlp := s.dlp[w := Check(d.c)], dlpJobs := Drop(s.dlpJobs, d.c, d.redeliver))
    else if w !in s.dlp then s else
    match s.dlp[w]
    case Check(c) =>
      if !d.ReadStatus? then s else
      var scanned := c in s.table && s.table[c].dlp == Completed;
      s.(dlp := s.dlp[w := if scanned then Publish(c) else Mark(c)])
    case Mark(c) =>
      if !d.SetProcessing? then s else
      s.(dlp := s.dlp[w := Load(c)], table := SetDlp(s.table, c, Processing))
    case Load(c) =>
      if !d.LoadText? then s else s.(dlp := s.dlp[w := if d.ok then Scan(c) else Fail(c)])
    case Scan(c) =>
      if !d.ScanText? then s else
      if d.ok then s.(dlp := s.dlp[w := Save(c)], log := s.log + [Scanned(c)]) else s.(dlp := s.dlp[w := Fail(c)])
    case Save(c) =>
      if !d.SaveResult? then s else s.(dlp := s.dlp[w := Publish(c)], table := SetDlp(s.table, c, Completed))
    case Fail(c) =>
      if !d.SaveFailure? then s else s.(dlp := Idle(s.dlp, w), table := SetDlp(s.table, c, Failed))
    case Publish(c) =>
      if !d.PublishJob? then s else
      if d.ok then s.(dlp := Idle(s.dlp, w), embJobs := Put(s.embJobs, c), log := s.log + [Queued(c)])
      else s.(dlp := Idle(s.dlp, w))
  }

  function Loading(c: nat, text: Loaded): Emb {
    match text case Text => EEmbed(c) case Empty => ESkip(c) case Unreadable => EFail(c)
  }

  function EmbStep(s: State, w: nat, e: EmbAction): State {
    if e.EFetch? then
      if w in s.emb || e.c !in s.embJobs then s else
      s.(emb := s.emb[w := EMark(e.c)], embJobs := Drop(s.embJobs, e.c, e.redeliver))
    else if w !in s.emb then s else
    match s.emb[w]
    case EMark(c) =>
      if !e.ESetProcessing? then s else s.(emb := s.emb[w := ELoad(c)], table := SetEmb(s.table, c, Processing))
    case ELoad(c) =>
      if !e.ELoadText? then s else s.(emb := s.emb[w := Loading(c, e.l)])
    case EEmbed(c) =>
      if !e.EmbedText? then s else s.(emb := s.emb[w := if e.ok then ESave(c) else EFail(c)])
    case ESave(c) =>
      if !e.ESaveResult? then s else
      s.(emb := s.emb[w := CountAll], table := SetEmb(s.table, c, Completed), log := s.log + [Embedded(c)])
    case EFail(c) =>
      if !e.ESaveFailure? then s else s.(emb := Idle(s.emb, w), table := SetEmb(s.table, c, Failed))
    case ESkip(c) =>
      if !e.ESaveSkipped? then s else s.(emb := Idle(s.emb, w), table := SetEmb(s.table, c, Skipped))
    case CountAll =>
      if !e.ECountAll? then s else s.(emb := s.emb[w := CountEmbedded(|s.table|)])
    case CountEmbedded(total) =>
      if !e.ECountEmbedded? then s else
      if total > 0 && |EmbeddedChunks(s.table)| == total then s.(emb := Idle(s.emb, w), log := s.log + [Reported])
      else s.(emb := Idle(s.emb, w))
  }

  lemma SetDlpMeans(table: map<nat, Row>, c: nat, status: Status)
    ensures var after := SetDlp(table, c, status);
      && after.Keys == table.Keys && (forall d | d in after && d != c :: after[d] == table[d])
      && (c in after ==> after[c] == Row(status, table[c].emb))
  {
  }

  lemma SetEmbMeans(table: map<nat, Row>, c: nat, status: Status)
    ensures var after := SetEmb(table, c, status);
      && after.Keys == table.Keys && (forall d | d in after && d != c :: after[d] == table[d])
      && (c in after ==> after[c] == Row(table[c].dlp, status))
  {
  }

  lemma DlpTableAfter(s: State, w: nat, d: DlpAction)
    ensures DlpStep(s, w, d).table ==
      if w in s.dlp && s.dlp[w].Mark? && d == SetProcessing then SetDlp(s.table, s.dlp[w].c, Processing)
      else if w in s.dlp && s.dlp[w].Save? && d == SaveResult then SetDlp(s.table, s.dlp[w].c, Completed)
      else if w in s.dlp && s.dlp[w].Fail? && d == SaveFailure then SetDlp(s.table, s.dlp[w].c, Failed)
      else s.table
  {
    hide SetDlp, Drop, Put, Idle;
  }

  lemma EmbTableAfter(s: State, w: nat, e: EmbAction)
    ensures EmbStep(s, w, e).table ==
      if w in s.emb && s.emb[w].EMark? && e == ESetProcessing then SetEmb(s.table, s.emb[w].c, Processing)
      else if w in s.emb && s.emb[w].ESave? && e == ESaveResult then SetEmb(s.table, s.emb[w].c, Completed)
      else if w in s.emb && s.emb[w].EFail? && e == ESaveFailure then SetEmb(s.table, s.emb[w].c, Failed)
      else if w in s.emb && s.emb[w].ESkip? && e == ESaveSkipped then SetEmb(s.table, s.emb[w].c, Skipped)
      else s.table
  {
    hide SetEmb, Drop, Idle, Loading, EmbeddedChunks;
  }

  /** The only statements of a DLP worker that write to the table, and what they
      write: the scan status of its chunk. */
  lemma DlpStatusWrites(s: State, w: nat, d: DlpAction, c: nat)
    ensures var t := DlpStep(s, w, d);
      && t.table.Keys == s.table.Keys
      && (c in s.table ==> t.table[c].emb == s.table[c].emb)
      && (c in s.table ==>
            t.table[c].dlp == if w in s.dlp && s.dlp[w] == Mark(c) && d == SetProcessing then Processing
                              else if w in s.dlp && s.dlp[w] == Save(c) && d == SaveResult then Completed
                              else if w in s.dlp && s.dlp[w] == Fail(c) && d == SaveFailure then Failed
                              else s.table[c].dlp)
  {
    DlpTableAfter(s, w, d);
    hide DlpStep, SetDlp;
    if w in s.dlp {
      SetDlpMeans(s.table, s.dlp[w].c, Processing);
      SetDlpMeans(s.table, s.dlp[w].c, Completed);
      SetDlpMeans(s.table, s.dlp[w].c, Failed);
    }
  }

  lemma EmbStatusWrites(s: State, w: nat, e: EmbAction, c: nat)
    ensures var t := EmbStep(s, w, e);
      && t.table.Keys == s.table.Keys
      && (c in s.table ==> t.table[c].dlp == s.table[c].dlp)
      && (c in s.table ==>
            t.table[c].emb == if w in s.emb && s.emb[w] == EMark(c) && e == ESetProcessing then Processing
                              else if w in s.emb && s.emb[w] == ESave(c) && e == ESaveResult then Completed
                              else if w in s.emb && s.emb[w] == EFail(c) && e == ESaveFailure then Failed
                              else if w in s.emb && s.emb[w] == ESkip(c) && e == ESaveSkipped then Skipped
                              else s.table[c].emb)
  {
    EmbTableAfter(s, w, e);
    hide EmbStep, SetEmb;
    if w in s.emb && !s.emb[w].CountAll? && !s.emb[w].CountEmbedded? {
      SetEmbMeans(s.table, s.emb[w].c, Processing);
      SetEmbMeans(s.table, s.emb[w].c, Completed);
      SetEmbMeans(s.table, s.emb[w].c, Failed);
      SetEmbMeans(s.table, s.emb[w].c, Skipped);
    }
  }

  function Step(s: State, act: Action): State {
    match act
    case ScanInline(c) =>
      if s.phase != Assembling || c !in s.plan then s else
      s.(inline := s.inline + {c}, log := s.log + [Scanned(c)])
    case InsertAll(ok) =>
      if s.phase != Assembling then s else
      if !ok then s.(phase := Aborted) else
      s.(phase := Publishing(s.plan), table := Inserted(s.plan, s.inline))
    case PublishDlpJob(c, ok) =>
      if !s.phase.Publishing? || c !in s.phase.left then s else
      s.(phase := Publishing(s.phase.left - {c}), dlpJobs := if ok then Put(s.dlpJobs, c) else s.dlpJobs)
    case Backfill(c) =>
      if c !in s.table || s.table[c].dlp != Pending then s else s.(dlpJobs := Put(s.dlpJobs, c))
    case DlpWorker(w, d) => DlpStep(s, w, d)
    case EmbWorker(w, e) => EmbStep(s, w, e)
  }

  // ----- scan before embed -----

  /** Everything that follows a scan follows it in the log. */
  ghost predicate InOrder(log: seq<Event>) {
    forall i | 0 <= i < |log| :: (log[i].Queued? || log[i].Embedded?) ==> Scanned(log[i].c) in log[..i]
  }

  ghost predicate DlpScanned(s: State) {
    && (forall c | c in s.table && s.table[c].dlp == Completed :: Scanned(c) in s.log)
    && (forall c | c in s.inline :: Scanned(c) in s.log)
    && (forall w | w in s.dlp && (s.dlp[w].Save? || s.dlp[w].Publish?) :: Scanned(s.dlp[w].c) in s.log)
  }

  ghost predicate EmbScanned(s: State) {
    && (forall c | c in s.embJobs :: Scanned(c) in s.log)
    && (forall w | w in s.emb && !s.emb[w].CountAll? && !s.emb[w].CountEmbedded? :: Scanned(s.emb[w].c) in s.log)
  }

  ghost predicate EmbLogged(s: State) {
    forall c | c in s.table && s.table[c].emb == Completed :: Embedded(c) in s.log
  }

  ghost predicate ScanFirst(s: State) {
    DlpScanned(s) && EmbScanned(s) && EmbLogged(s) && InOrder(s.log)
  }

  lemma InOrderAppend(log: seq<Event>, e: Event)
    requires InOrder(log) && (e.Queued? || e.Embedded? ==> Scanned(e.c) in log)
    ensures InOrder(log + [e])
  {
    forall i | 0 <= i <= |log| ensures var l := log + [e];
      (l[i].Queued? || l[i].Embedded?) ==> Scanned(l[i].c) in l[..i]
    {
      assert (log + [e])[..i] == log[..i];
      if i == |log| { assert log[..i] == log; }
    }
  }

  lemma DlpKeepsOrder(s: State, w: nat, d: DlpAction)
    requires DlpScanned(s) && InOrder(s.log)
    ensures InOrder(DlpStep(s, w, d).log)
  {
    if w in s.dlp && !d.Fetch? {
      InOrderAppend(s.log, Scanned(s.dlp[w].c));
      if s.dlp[w].Publish? { InOrderAppend(s.log, Queued(s.dlp[w].c)); }
    }
  }

  lemma DlpLogs(s: State, w: nat, d: DlpAction)
    ensures var t := DlpStep(s, w, d);
      t.log == s.log || (w in s.dlp && t.log in {s.log + [Scanned(s.dlp[w].c)], s.log + [Queued(s.dlp[w].c)]})
  {
    hide SetDlp, Put, Drop, Idle;
  }

  lemma DlpOthers(s: State, w: nat, d: DlpAction)
    ensures var t := DlpStep(s, w, d);
      t.inline == s.inline && forall v | v in t.dlp && v != w :: v in s.dlp && t.dlp[v] == s.dlp[v]
  {
    hide SetDlp, Put;
  }

  /** The place a DLP worker moves to and the row it completes follow its scan. */
  lemma DlpMoves(s: State, w: nat, d: DlpAction)
    requires DlpScanned(s)
    ensures var t := DlpStep(s, w, d);
      w in t.dlp && (t.dlp[w].Save? || t.dlp[w].Publish?) ==> Scanned(t.dlp[w].c) in t.log
  {
    hide SetDlp, Put, Drop;
  }

  lemma DlpCompletes(s: State, w: nat, d: DlpAction)
    requires DlpScanned(s)
    ensures var t := DlpStep(s, w, d);
      forall c | c in t.table && t.table[c].dlp == Completed :: Scanned(c) in t.log
  {
    hide Put;
  }

  lemma DlpKeepsDlp(s: State, w: nat, d: DlpAction)
    requires DlpScanned(s)
    ensures DlpScanned(DlpStep(s, w, d))
  {
    DlpMoves(s, w, d);
    DlpOthers(s, w, d);
    DlpLogs(s, w, d);
    DlpCompletes(s, w, d);
    hide DlpStep;
  }

  lemma DlpKeepsEmb(s: State, w: nat, d: DlpAction)
    requires DlpScanned(s) && EmbScanned(s)
    ensures EmbScanned(DlpStep(s, w, d))
  {
    DlpLogs(s, w, d);
    DlpQueues(s, w, d);
    hide DlpStep, Put;
  }

  lemma DlpQueues(s: State, w: nat, d: DlpAction)
    ensures var t := DlpStep(s, w, d);
      t.emb == s.emb && forall c | c in t.embJobs ::
        c in s.embJobs || (w in s.dlp && s.dlp[w].Publish? && s.dlp[w].c == c)
  {
    hide SetDlp;
  }

  lemma DlpKeepsLogged(s: State, w: nat, d: DlpAction)
    requires EmbLogged(s)
    ensures EmbLogged(DlpStep(s, w, d))
  {
    hide Put;
  }

  lemma EmbKeepsOrder(s: State, w: nat, e: EmbAction)
    requires EmbScanned(s) && InOrder(s.log)
    ensures InOrder(EmbStep(s, w, e).log)
  {
    InOrderAppend(s.log, Reported);
    if w in s.emb && s.emb[w].ESave? { InOrderAppend(s.log, Embedded(s.emb[w].c)); }
  }

  lemma EmbAppends(s: State, w: nat, e: EmbAction)
    ensures var t := EmbStep(s, w, e);
      || t.log == s.log
      || (w in s.emb && s.emb[w].ESave? && t.log == s.log + [Embedded(s.emb[w].c)])
      || (w in s.emb && s.emb[w].CountEmbedded? && s.emb[w].total > 0
          && |EmbeddedChunks(s.table)| == s.emb[w].total && t.log == s.log + [Reported])
  {
    hide EmbeddedChunks, SetEmb, Idle, Loading, Drop;
  }

  lemma EmbBeside(s: State, w: nat, e: EmbAction)
    ensures var t := EmbStep(s, w, e); t.dlp == s.dlp && t.inline == s.inline && t.plan == s.plan && t.phase == s.phase
  {
    hide EmbeddedChunks, SetEmb, Idle, Loading, Drop;
  }

  lemma EmbKeepsDlpColumn(s: State, w: nat, e: EmbAction)
    ensures var t := EmbStep(s, w, e);
      t.table.Keys == s.table.Keys && forall c | c in s.table :: t.table[c].dlp == s.table[c].dlp
  {
    hide EmbeddedChunks, Idle, Loading, Drop;
  }

  lemma EmbKeepsDlp(s: State, w: nat, e: EmbAction)
    requires DlpScanned(s)
    ensures DlpScanned(EmbStep(s, w, e))
  {
    EmbBeside(s, w, e);
    EmbAppends(s, w, e);
    EmbKeepsDlpColumn(s, w, e);
    hide EmbStep;
  }

  /** The chunk a worker is at is the one it was at, or one it fetched. */
  lemma EmbPlaces(s: State, w: nat, e: EmbAction)
    ensures var t := EmbStep(s, w, e);
      && (forall c | c in t.embJobs :: c in s.embJobs)
      && (forall v | v in t.emb && v != w :: v in s.emb && t.emb[v] == s.emb[v])
      && (w in t.emb && !t.emb[w].CountAll? && !t.emb[w].CountEmbedded? ==>
            t.emb[w].c in s.embJobs
            || (w in s.emb && !s.emb[w].CountAll? && !s.emb[w].CountEmbedded? && t.emb[w].c == s.emb[w].c))
  {
    hide SetEmb, EmbeddedChunks;
  }

  lemma EmbKeepsEmb(s: State, w: nat, e: EmbAction)
    requires EmbScanned(s)
    ensures EmbScanned(EmbStep(s, w, e))
  {
    EmbAppends(s, w, e);
    EmbPlaces(s, w, e);
    hide EmbStep;
  }

  lemma EmbKeepsLogged(s: State, w: nat, e: EmbAction)
    requires EmbLogged(s)
    ensures EmbLogged(EmbStep(s, w, e))
  {
  }

  lemma AssemblyKeepsDlp(s: State, act: Action)
    requires DlpScanned(s) && !act.DlpWorker? && !act.EmbWorker?
    ensures DlpScanned(Step(s, act))
  {
    hide Put;
  }

  lemma AssemblyKeepsEmb(s: State, act: Action)
    requires EmbScanned(s) && EmbLogged(s) && !act.DlpWorker? && !act.EmbWorker?
    ensures EmbScanned(Step(s, act)) && EmbLogged(Step(s, act))
  {
    hide Put;
  }

  lemma AssemblyKeepsOrder(s: State, act: Action)
    requires InOrder(s.log) && !act.DlpWorker? && !act.EmbWorker?
    ensures InOrder(Step(s, act).log)
  {
    if act.ScanInline? { InOrderAppend(s.log, Scanned(act.c)); }
    hide InOrder, Put;
  }

  lemma StepScansFirst(s: State, act: Action)
    requires ScanFirst(s)
    ensures ScanFirst(Step(s, act))
  {
    hide DlpScanned, EmbScanned, EmbLogged, InOrder, DlpStep, EmbStep;
    match act
    case DlpWorker(w, d) =>
      DlpKeepsOrder(s, w, d);
      DlpKeepsDlp(s, w, d);
      DlpKeepsEmb(s, w, d);
      DlpKeepsLogged(s, w, d);
    case EmbWorker(w, e) =>
      EmbKeepsOrder(s, w, e);
      EmbKeepsDlp(s, w, e);
      EmbKeepsEmb(s, w, e);
      EmbKeepsLogged(s, w, e);
    case _ =>
      AssemblyKeepsOrder(s, act);
      AssemblyKeepsDlp(s, act);
      AssemblyKeepsEmb(s, act);
  }

  /** In every run, redelivery and backfill included, each queued embedding job
      and each embedded chunk comes after a scan of that chunk without error. */
  lemma ScanBeforeEmbed(plan: set<nat>, acts: seq<Action>)
    ensures var s := Run(Step, Init(plan), acts);
      && (forall i | 0 <= i < |s.log| :: (s.log[i].Queued? || s.log[i].Embedded?) ==> Scanned(s.log[i].c) in s.log[..i])
      && (forall c | c in s.embJobs || (c in s.table && s.table[c].emb == Completed) :: Scanned(c) in s.log)
  {
    RunScansFirst(plan, acts);
    var s := Run(Step, Init(plan), acts);
    forall c | c in s.table && s.table[c].emb == Completed ensures Scanned(c) in s.log {
      var i :| 0 <= i < |s.log| && s.log[i] == Embedded(c);
      assert Scanned(c) in s.log[..i];
    }
  }

  lemma RunScansFirst(plan: set<nat>, acts: seq<Action>)
    ensures ScanFirst(Run(Step, Init(plan), acts))
  {
    assert ScanFirst(Init(plan));
    hide ScanFirst, Step;
    forall s, a | ScanFirst(s) ensures ScanFirst(Step(s, a)) {
      StepScansFirst(s, a);
    }
    RunKeeps(Step, ScanFirst, Init(plan), acts);
  }

  // ----- file completion -----

  ghost predicate NothingFlows(s: State) {
    s.dlpJobs == multiset{} && s.embJobs == multiset{} && s.dlp == map[] && s.emb == map[]
  }

  predicate AllEmbedded(s: State) {
    s.table != map[] && forall c | c in s.table :: s.table[c].emb == Completed
  }

  predicate SomeoneChecks(s: State) {
    exists w :: w in s.emb && (s.emb[w].CountAll? || s.emb[w].CountEmbedded?)
  }

  /** There is a row for every chunk of the file or for none, and messages only
      with the rows. */
  ghost predicate TableFits(s: State) {
    if s.phase.Publishing? then s.table.Keys == s.plan else s.table == map[] && NothingFlows(s)
  }

  ghost predicate TotalsFit(s: State) {
    forall w | w in s.emb && s.emb[w].CountEmbedded? :: s.emb[w].total == |s.table|
  }

  /** Every report follows the embedding of every chunk of the file. */
  ghost predicate ReportsLast(plan: set<nat>, log: seq<Event>) {
    forall i | 0 <= i < |log| && log[i] == Reported :: forall c | c in plan :: Embedded(c) in log[..i]
  }

  ghost predicate Completion(s: State) {
    && TableFits(s) && TotalsFit(s) && ReportsLast(s.plan, s.log)
    && (AllEmbedded(s) ==> Reported in s.log || SomeoneChecks(s))
  }

  lemma AllCounted(table: map<nat, Row>)
    ensures EmbeddedChunks(table) == set c | c in table && table[c].emb == Completed
    ensures |EmbeddedChunks(table)| == |table| <==> forall c | c in table :: table[c].emb == Completed
  {
    var done := EmbeddedChunks(table);
    assert done <= table.Keys;
    assert |table.Keys - done| == |table.Keys| - |done|;
    if |done| == |table| {
      assert table.Keys - done == {};
      forall c | c in table ensures c in done {
        assert c !in table.Keys - done;
      }
    }
    if forall c | c in table :: table[c].emb == Completed {
      assert done == table.Keys;
    }
  }

  lemma ReportsLastAppend(plan: set<nat>, log: seq<Event>, e: Event)
    requires ReportsLast(plan, log) && (e == Reported ==> forall c | c in plan :: Embedded(c) in log)
    ensures ReportsLast(plan, log + [e])
  {
    forall i | 0 <= i <= |log| && (log + [e])[i] == Reported
      ensures forall c | c in plan :: Embedded(c) in (log + [e])[..i]
    {
      assert (log + [e])[..i] == log[..i];
      if i == |log| { assert log[..i] == log; }
    }
  }

  /** A DLP worker leaves the rows there are and their embedding status alone. */
  lemma DlpKeepsEmbColumn(s: State, w: nat, d: DlpAction)
    ensures var t := DlpStep(s, w, d);
      t.table.Keys == s.table.Keys && forall c | c in s.table :: t.table[c].emb == s.table[c].emb
  {
  }

  lemma DlpFrame(s: State, w: nat, d: DlpAction)
    ensures var t := DlpStep(s, w, d);
      t.emb == s.emb && t.phase == s.phase && t.plan == s.plan && (NothingFlows(s) ==> t == s)
  {
    hide SetDlp, Put;
  }

  lemma DlpKeepsCompletion(s: State, w: nat, d: DlpAction)
    requires Completion(s)
    ensures Completion(DlpStep(s, w, d))
  {
    var t := DlpStep(s, w, d);
    DlpFrame(s, w, d);
    DlpKeepsEmbColumn(s, w, d);
    DlpLogs(s, w, d);
    hide DlpStep, NothingFlows;
    SameSize(s.table, t.table);
    if AllEmbedded(t) { assert AllEmbedded(s); }
    hide AllEmbedded, ReportsLast;
    if t.log != s.log {
      ReportsLastAppend(s.plan, s.log, Scanned(s.dlp[w].c));
      ReportsLastAppend(s.plan, s.log, Queued(s.dlp[w].c));
    }
  }

  lemma EmbKeepsKeys(s: State, w: nat, e: EmbAction)
    ensures EmbStep(s, w, e).table.Keys == s.table.Keys
  {
    hide EmbeddedChunks, Idle, Loading, Drop;
  }

  lemma EmbFrame(s: State, w: nat, e: EmbAction)
    ensures var t := EmbStep(s, w, e);
      && t.phase == s.phase && t.plan == s.plan && t.inline == s.inline && t.table.Keys == s.table.Keys
      && (forall x | x in s.log :: x in t.log)
      && (NothingFlows(s) ==> t == s)
  {
    EmbKeepsKeys(s, w, e);
    EmbBeside(s, w, e);
    EmbAppends(s, w, e);
    if NothingFlows(s) { NothingToEmbed(s, w, e); }
    hide EmbStep;
  }

  lemma NothingToEmbed(s: State, w: nat, e: EmbAction)
    requires NothingFlows(s)
    ensures EmbStep(s, w, e) == s
  {
    hide EmbeddedChunks, SetEmb;
  }

  lemma EmbCounting(s: State, w: nat, e: EmbAction)
    ensures var t := EmbStep(s, w, e);
      w in t.emb && t.emb[w].CountEmbedded? ==> t.emb[w].total == |s.table| || (w in s.emb && t.emb[w] == s.emb[w])
  {
    hide EmbeddedChunks, SetEmb, Drop;
  }

  lemma EmbKeepsTotals(s: State, w: nat, e: EmbAction)
    requires TotalsFit(s)
    ensures TotalsFit(EmbStep(s, w, e))
  {
    EmbKeepsKeys(s, w, e);
    EmbCounting(s, w, e);
    EmbPlaces(s, w, e);
    hide EmbStep;
    SameSize(s.table, EmbStep(s, w, e).table);
  }

  /** A worker reports only when every chunk of the file has been embedded. */
  lemma EmbReportsRightly(s: State, w: nat, e: EmbAction)
    requires TableFits(s) && TotalsFit(s) && EmbLogged(s) && ReportsLast(s.plan, s.log)
    ensures ReportsLast(s.plan, EmbStep(s, w, e).log)
  {
    EmbAppends(s, w, e);
    AllCounted(s.table);
    var t := EmbStep(s, w, e);
    hide NothingFlows, EmbeddedChunks, ReportsLast, EmbStep;
    if t.log == s.log {
    } else if s.emb[w].ESave? {
      ReportsLastAppend(s.plan, s.log, Embedded(s.emb[w].c));
    } else {
      assert |s.table| > 0 && |EmbeddedChunks(s.table)| == |s.table|;
      ReportsLastAppend(s.plan, s.log, Reported);
    }
  }

  lemma EmbWrites(s: State, w: nat, e: EmbAction)
    ensures var t := EmbStep(s, w, e);
      || t.table == s.table
      || (w in t.emb && t.emb[w].CountAll?)
      || (w in s.emb && s.emb[w].EMark? && t.table == SetEmb(s.table, s.emb[w].c, Processing))
      || (w in s.emb && s.emb[w].EFail? && t.table == SetEmb(s.table, s.emb[w].c, Failed))
      || (w in s.emb && s.emb[w].ESkip? && t.table == SetEmb(s.table, s.emb[w].c, Skipped))
  {
    hide EmbeddedChunks, SetEmb, Drop, Idle, Loading;
  }

  lemma SetIsNotEmbedded(table: map<nat, Row>, c: nat, status: Status)
    requires status != Completed && SetEmb(table, c, status) != table
    ensures exists d :: d in SetEmb(table, c, status) && SetEmb(table, c, status)[d].emb != Completed
  {
    assert c in SetEmb(table, c, status);
  }

  /** Whoever changes a row to embedded counts next. */
  lemma LastSaveChecks(s: State, w: nat, e: EmbAction)
    requires AllEmbedded(EmbStep(s, w, e)) && EmbStep(s, w, e).table != s.table
    ensures SomeoneChecks(EmbStep(s, w, e))
  {
    EmbWrites(s, w, e);
    hide EmbStep, SetEmb;
    var t := EmbStep(s, w, e);
    if !(w in t.emb && t.emb[w].CountAll?) {
      SetIsNotEmbedded(s.table, s.emb[w].c,
                       if s.emb[w].EMark? then Processing else if s.emb[w].EFail? then Failed else Skipped);
      assert false;
    }
  }

  /** A worker that checks a file with every chunk embedded reports it, or checks on. */
  lemma CheckerGoesOn(s: State, w: nat, e: EmbAction, v: nat)
    requires AllEmbedded(s) && v in s.emb
    requires s.emb[v].CountAll? || (s.emb[v].CountEmbedded? && s.emb[v].total == |s.table|)
    ensures var t := EmbStep(s, w, e);
      Reported in t.log || (v in t.emb && (t.emb[v].CountAll? || t.emb[v].CountEmbedded?))
  {
    AllCounted(s.table);
    assert |s.table| > 0 by { assert s.table.Keys != {}; }
  }

  lemma EmbKeepsLastCheck(s: State, w: nat, e: EmbAction)
    requires Completion(s)
    ensures var t := EmbStep(s, w, e); AllEmbedded(t) ==> Reported in t.log || SomeoneChecks(t)
  {
    EmbFrame(s, w, e);
    var t := EmbStep(s, w, e);
    if AllEmbedded(t) && Reported !in t.log {
      if t.table != s.table {
        LastSaveChecks(s, w, e);
      } else {
        hide EmbStep, NothingFlows, ReportsLast, TableFits;
        var v :| v in s.emb && (s.emb[v].CountAll? || s.emb[v].CountEmbedded?);
        CheckerGoesOn(s, w, e, v);
      }
    }
  }

  lemma EmbKeepsCompletion(s: State, w: nat, e: EmbAction)
    requires Completion(s) && EmbLogged(s)
    ensures Completion(EmbStep(s, w, e))
  {
    hide EmbStep, NothingFlows, SomeoneChecks, AllEmbedded, TotalsFit, ReportsLast, EmbLogged;
    EmbFrame(s, w, e);
    EmbKeepsTotals(s, w, e);
    EmbReportsRightly(s, w, e);
    EmbKeepsLastCheck(s, w, e);
  }

  ghost predicate Inv(s: State) { ScanFirst(s) && Completion(s) }

  lemma AssemblyKeepsTable(s: State, act: Action)
    requires TableFits(s) && !act.DlpWorker? && !act.EmbWorker?
    ensures TableFits(Step(s, act))
  {
  }

  lemma AssemblyKeepsReports(s: State, act: Action)
    requires ReportsLast(s.plan, s.log) && !act.DlpWorker? && !act.EmbWorker?
    ensures var t := Step(s, act);
      ReportsLast(t.plan, t.log) && t.emb == s.emb && (Reported in s.log ==> Reported in t.log)
  {
    if act.ScanInline? { ReportsLastAppend(s.plan, s.log, Scanned(act.c)); }
    hide ReportsLast;
  }

  lemma AssemblyKeepsCompletion(s: State, act: Action)
    requires Completion(s) && !act.DlpWorker? && !act.EmbWorker?
    ensures Completion(Step(s, act))
  {
    AssemblyKeepsTable(s, act);
    AssemblyKeepsReports(s, act);
    hide ReportsLast;
    var t := Step(s, act);
    if act.InsertAll? && s.phase == Assembling {
      assert s.emb == map[];
      assert !AllEmbedded(t) by {
        if t.table != map[] {
          HasElement(t.table.Keys);
          var c :| c in t.table.Keys;
          assert t.table[c].emb == Pending;
        }
      }
    }
  }

  lemma StepKeepsInv(s: State, act: Action)
    requires Inv(s)
    ensures Inv(Step(s, act))
  {
    hide DlpScanned, EmbScanned, InOrder, Completion, DlpStep, EmbStep;
    StepScansFirst(s, act);
    match act
    case DlpWorker(w, d) => DlpKeepsCompletion(s, w, d);
    case EmbWorker(w, e) => EmbKeepsCompletion(s, w, e);
    case _ => AssemblyKeepsCompletion(s, act);
  }

  /** From any state with the invariant, every schedule keeps it. */
  lemma RunsKeepInv(s: State, acts: seq<Action>)
    requires Inv(s)
    ensures Inv(Run(Step, s, acts))
  {
    hide Inv, Step;
    forall t, a | Inv(t) ensures Inv(Step(t, a)) {
      StepKeepsInv(t, a);
    }
    RunKeeps(Step, Inv, s, acts);
  }

  lemma InitInv(plan: set<nat>)
    ensures Inv(Init(plan))
  {
  }

  lemma StepKeepsPlan(s: State, act: Action)
    ensures Step(s, act).plan == s.plan
  {
    match act
    case DlpWorker(w, d) => DlpFrame(s, w, d);
    case EmbWorker(w, e) => EmbFrame(s, w, e);
    case _ =>
  }

  lemma {:induction false} RunKeepsPlan(s: State, acts: seq<Action>)
    ensures Run(Step, s, acts).plan == s.plan
    decreases |acts|
  {
    if acts != [] {
      hide Step;
      StepKeepsPlan(s, acts[0]);
      RunKeepsPlan(Step(s, acts[0]), acts[1..]);
    }
  }

  /** Completion is never announced early: on every run, backfills at any moment
      and redelivered messages included, each report comes after the embedding of
      every chunk the assembly makes of the file. */
  lemma ReportIsNeverEarly(plan: set<nat>, acts: seq<Action>, i: nat)
    requires var log := Run(Step, Init(plan), acts).log; i < |log| && log[i] == Reported
    ensures forall c | c in plan :: Embedded(c) in Run(Step, Init(plan), acts).log[..i]
  {
    InitInv(plan);
    RunsKeepInv(Init(plan), acts);
    RunKeepsPlan(Init(plan), acts);
  }

  /** Once every chunk is embedded and no worker still has to check, some worker
      has reported the file. */
  lemma CompleteFileIsReported(plan: set<nat>, acts: seq<Action>)
    requires plan != {}
    requires var s := Run(Step, Init(plan), acts);
      && s.table.Keys == plan && (forall c | c in plan :: s.table[c].emb == Completed)
      && forall w | w in s.emb :: !s.emb[w].CountAll? && !s.emb[w].CountEmbedded?
    ensures Reported in Run(Step, Init(plan), acts).log
  {
    InitInv(plan);
    RunsKeepInv(Init(plan), acts);
  }
}
