/** The same code as a program that runs one message at a time: the chunk table
    and the queues updated in place by the DLP worker (cmd/dlpworker), the
    embedding worker (cmd/embeddingworker), the end of assembleFile
    (cmd/assembler) and the backfill tool (cmd/backfill-dlp). Each statement is
    also a step of the machine of ChunkPipeline, so what holds of all its runs
    holds of the program. */
module ChunkWorkers {
  import opened ChunkPipeline
  import opened Collections

  // ----- what one message does -----

  /** How the calls a DLP worker makes come out. */
  datatype DlpCalls = DlpCalls(text: bool, scan: bool, publish: bool)

  predicate IsScanned(table: map<nat, Row>, c: nat) { c in table && table[c].dlp == Completed }

  /** The chunk has a scan without error behind it once the worker is done. */
  predicate Passes(table: map<nat, Row>, c: nat, calls: DlpCalls) {
    IsScanned(table, c) || (calls.text && calls.scan)
  }

  function DlpTable(table: map<nat, Row>, c: nat, calls: DlpCalls): map<nat, Row> {
    if IsScanned(table, c) then table
    else SetDlp(table, c, if calls.text && calls.scan then Completed else Failed)
  }

  function DlpEvents(table: map<nat, Row>, c: nat, calls: DlpCalls): seq<Event> {
    if !Passes(table, c, calls) then []
    else if IsScanned(table, c) then (if calls.publish then [Queued(c)] else [])
    else if calls.publish then [Scanned(c), Queued(c)]
    else [Scanned(c)]
  }

  /** How the calls an embedding worker makes come out. */
  datatype EmbCalls = EmbCalls(text: Loaded, embed: bool)

  function EmbStatus(calls: EmbCalls): Status {
    match calls.text
    case Unreadable => Failed
    case Empty => Skipped
    case Text => if calls.embed then Completed else Failed
  }

  function EmbEvents(table: map<nat, Row>, c: nat, calls: EmbCalls): seq<Event> {
    if EmbStatus(calls) != Completed then []
    else if |table| > 0 && |EmbeddedChunks(SetEmb(table, c, Completed))| == |table| then [Embedded(c), Reported]
    else [Embedded(c)]
  }

  /** A DLP message delivered twice changes the table as once, when the first went
      through, and asks for the embedding again. */
  lemma DlpTwice(table: map<nat, Row>, c: nat, first: DlpCalls, second: DlpCalls)
    requires c in table && Passes(table, c, first)
    ensures DlpTable(DlpTable(table, c, first), c, second) == DlpTable(table, c, first)
    ensures second.publish ==> DlpEvents(DlpTable(table, c, first), c, second) == [Queued(c)]
  {
  }

  // ----- the program -----

  class ChunkTables {
    /** The chunks the file is to have, and those scanned inline. */
    const plan: set<nat>
    var inline: set<nat>
    var table: map<nat, Row>
    var dlpJobs: multiset<nat>
    var embJobs: multiset<nat>
    /** Where the machine is when the program is here. */
    ghost var machine: State

    /** The program is where the machine is, with its worker at the given places,
        and the machine is where its runs can lead. */
    ghost predicate At(dlp: map<nat, Dlp>, emb: map<nat, Emb>)
      reads this
    {
      && machine.plan == plan && machine.inline == inline
      && machine.table == table && machine.dlpJobs == dlpJobs && machine.embJobs == embJobs
      && machine.dlp == dlp && machine.emb == emb && Inv(machine)
    }

    ghost predicate Valid()
      reads this
    {
      At(map[], map[])
    }

    constructor (plan: set<nat>)
      ensures Valid() && this.plan == plan && machine == Init(plan)
    {
      this.plan, inline, table, dlpJobs, embJobs, machine := plan, {}, map[], multiset{}, multiset{}, Init(plan);
      InitInv(plan);
    }

    /** Scan before embed and no early report, of the program's own history. */
    lemma HistoryIsInOrder()
      requires Valid()
      ensures forall c | c in embJobs || (c in table && table[c].emb == Completed) :: Scanned(c) in machine.log
      ensures forall i | 0 <= i < |machine.log| && (machine.log[i].Queued? || machine.log[i].Embedded?) ::
        Scanned(machine.log[i].c) in machine.log[..i]
      ensures forall i | 0 <= i < |machine.log| && machine.log[i] == Reported ::
        forall c | c in plan :: Embedded(c) in machine.log[..i]
    {
      hide Completion;
      assert Completion(machine);
      CompletionSays(machine);
      forall c | c in table && table[c].emb == Completed ensures Scanned(c) in machine.log {
        var i :| 0 <= i < |machine.log| && machine.log[i] == Embedded(c);
        assert Scanned(c) in machine.log[..i];
      }
    }

    ghost method Act(a: Action)
      requires Inv(machine)
      modifies `machine
      ensures machine == Step(old(machine), a) && Inv(machine)
    {
      StepKeepsInv(machine, a);
      machine := Step(machine, a);
    }

    /** One worker is enough for a program that handles one message at a time. */
    ghost method Dlp(d: DlpAction)
      requires Inv(machine)
      modifies `machine
      ensures machine == DlpStep(old(machine), 0, d) && Inv(machine)
    {
      Act(DlpWorker(0, d));
    }

    ghost method Emb(e: EmbAction)
      requires Inv(machine)
      modifies `machine
      ensures machine == EmbStep(old(machine), 0, e) && Inv(machine)
    {
      Act(EmbWorker(0, e));
    }

    /** An update of a row that is not there changes nothing. */
    method UpdateDlpStatus(c: nat, status: Status)
      modifies `table
      ensures table == SetDlp(old(table), c, status)
    {
      if c in table { table := table[c := table[c].(dlp := status)]; }
    }

    method UpdateEmbStatus(c: nat, status: Status)
      modifies `table
      ensures table == SetEmb(old(table), c, status)
    {
      if c in table { table := table[c := table[c].(emb := status)]; }
    }

    // ----- the DLP worker, statement by statement -----

    method FetchDlpJob(c: nat, redeliver: bool) returns (scanned: bool)
      requires Valid() && c in dlpJobs
      modifies `dlpJobs, `machine
      ensures dlpJobs == Drop(old(dlpJobs), c, redeliver) && machine.log == old(machine.log)
      ensures scanned == IsScanned(table, c) && At(map[0 := if scanned then Publish(c) else Mark(c)], map[])
    {
      hide Inv;
      Dlp(Fetch(c, redeliver));
      if !redeliver { dlpJobs := dlpJobs[c := dlpJobs[c] - 1]; }
      scanned := c in table && table[c].dlp == Completed;
      Dlp(ReadStatus);
    }

    method MarkDlpProcessing(c: nat)
      requires At(map[0 := Mark(c)], map[])
      modifies `table, `machine
      ensures At(map[0 := Load(c)], map[]) && table == SetDlp(old(table), c, Processing)
        && machine.log == old(machine.log)
    {
      hide Inv;
      UpdateDlpStatus(c, Processing);
      Dlp(SetProcessing);
    }

    method LoadChunk(c: nat, ok: bool)
      requires At(map[0 := Load(c)], map[])
      modifies `machine
      ensures At(map[0 := if ok then Scan(c) else Fail(c)], map[]) && machine.log == old(machine.log)
    {
      hide Inv, SetDlp;
      Dlp(LoadText(ok));
    }

    method ScanContent(c: nat, ok: bool)
      requires At(map[0 := Scan(c)], map[])
      modifies `machine
      ensures At(map[0 := if ok then Save(c) else Fail(c)], map[])
      ensures machine.log == if ok then old(machine.log) + [Scanned(c)] else old(machine.log)
    {
      hide Inv, SetDlp;
      Dlp(ScanText(ok));
    }

    method SaveDlpResult(c: nat)
      requires At(map[0 := Save(c)], map[])
      modifies `table, `machine
      ensures At(map[0 := Publish(c)], map[]) && table == SetDlp(old(table), c, Completed)
        && machine.log == old(machine.log)
    {
      hide Inv;
      UpdateDlpStatus(c, Completed);
      Dlp(SaveResult);
    }

    method SaveDlpFailure(c: nat)
      requires At(map[0 := Fail(c)], map[])
      modifies `table, `machine
      ensures Valid() && table == SetDlp(old(table), c, Failed) && machine.log == old(machine.log)
    {
      hide Inv;
      UpdateDlpStatus(c, Failed);
      Dlp(SaveFailure);
    }

    method PublishEmbeddingJob(c: nat, ok: bool)
      requires At(map[0 := Publish(c)], map[])
      modifies `embJobs, `machine
      ensures Valid()
      ensures embJobs == if ok then old(embJobs)[c := old(embJobs)[c] + 1] else old(embJobs)
      ensures machine.log == if ok then old(machine.log) + [Queued(c)] else old(machine.log)
    {
      hide Inv;
      Dlp(PublishJob(ok));
      if ok { embJobs := embJobs[c := embJobs[c] + 1]; }
    }

    /** The chunk ends scanned if it was, or if its text was read and scanned, and
        failed otherwise; a chunk that ends scanned has its embedding asked for. */
    method ProcessDLPJob(c: nat, redeliver: bool, calls: DlpCalls)
      requires Valid() && c in dlpJobs
      modifies this
      ensures Valid() && table == DlpTable(old(table), c, calls)
      ensures table.Keys == old(table).Keys && forall d | d in table && d != c :: table[d] == old(table)[d]
      ensures var clean := (c in old(table) && old(table)[c].dlp == Completed) || (calls.text && calls.scan);
        && (c in table ==> table[c] == Row(if clean then Completed else Failed, old(table)[c].emb))
        && embJobs == if clean && calls.publish then old(embJobs)[c := old(embJobs)[c] + 1] else old(embJobs)
      ensures dlpJobs == old(dlpJobs)[c := old(dlpJobs)[c] - if redeliver then 0 else 1]
      ensures machine.log == old(machine.log)
        + (if c in old(table) && old(table)[c].dlp == Completed then []
           else if calls.text && calls.scan then [Scanned(c)] else [])
        + (if calls.publish && ((c in old(table) && old(table)[c].dlp == Completed) || (calls.text && calls.scan))
           then [Queued(c)] else [])
    {
      DlpMeans(table, c, calls, machine.log);
      JobTaken(dlpJobs, c, redeliver);
      hide *;
      RunDLPJob(c, redeliver, calls);
    }

    method RunDLPJob(c: nat, redeliver: bool, calls: DlpCalls)
      requires Valid() && c in dlpJobs
      modifies this
      ensures Valid() && dlpJobs == Drop(old(dlpJobs), c, redeliver)
      ensures table == DlpTable(old(table), c, calls)
      ensures embJobs == if Passes(old(table), c, calls) && calls.publish
                         then old(embJobs)[c := old(embJobs)[c] + 1] else old(embJobs)
      ensures machine.log == old(machine.log) + DlpEvents(old(table), c, calls)
    {
      DlpCases(table, c, calls, machine.log);
      hide *;
      var scanned := FetchDlpJob(c, redeliver);
      if scanned {
        PublishEmbeddingJob(c, calls.publish);
        return;
      }
      MarkDlpProcessing(c);
      LoadChunk(c, calls.text);
      if !calls.text {
        SaveDlpFailure(c);
        return;
      }
      ScanContent(c, calls.scan);
      if !calls.scan {
        SaveDlpFailure(c);
        return;
      }
      SaveDlpResult(c);
      PublishEmbeddingJob(c, calls.publish);
    }

    // ----- the embedding worker -----

    method FetchEmbeddingJob(c: nat, redeliver: bool)
      requires Valid() && c in embJobs
      modifies `embJobs, `machine
      ensures At(map[], map[0 := EMark(c)]) && embJobs == Drop(old(embJobs), c, redeliver)
        && machine.log == old(machine.log)
    {
      hide Inv;
      Emb(EFetch(c, redeliver));
      if !redeliver { embJobs := embJobs[c := embJobs[c] - 1]; }
    }

    method MarkEmbProcessing(c: nat)
      requires At(map[], map[0 := EMark(c)])
      modifies `table, `machine
      ensures At(map[], map[0 := ELoad(c)]) && table == SetEmb(old(table), c, Processing)
        && machine.log == old(machine.log)
    {
      hide Inv;
      UpdateEmbStatus(c, Processing);
      Emb(ESetProcessing);
    }

    method LoadEmbText(c: nat, text: Loaded)
      requires At(map[], map[0 := ELoad(c)])
      modifies `machine
      ensures At(map[], map[0 := match text case Text => EEmbed(c) case Empty => ESkip(c) case Unreadable => EFail(c)])
      ensures machine.log == old(machine.log)
    {
      hide Inv, SetEmb;
      Emb(ELoadText(text));
    }

    method Embed(c: nat, ok: bool)
      requires At(map[], map[0 := EEmbed(c)])
      modifies `machine
      ensures At(map[], map[0 := if ok then ESave(c) else EFail(c)]) && machine.log == old(machine.log)
    {
      hide Inv, SetEmb;
      Emb(EmbedText(ok));
    }

    method SaveEmbedding(c: nat)
      requires At(map[], map[0 := ESave(c)])
      modifies `table, `machine
      ensures At(map[], map[0 := CountAll]) && table == SetEmb(old(table), c, Completed)
      ensures machine.log == old(machine.log) + [Embedded(c)]
    {
      hide Inv;
      UpdateEmbStatus(c, Completed);
      Emb(ESaveResult);
    }

    /** Skipped for an empty text, failed otherwise. */
    method SaveNoEmbedding(c: nat, empty: bool)
      requires At(map[], map[0 := if empty then ESkip(c) else EFail(c)])
      modifies `table, `machine
      ensures Valid() && table == SetEmb(old(table), c, if empty then Skipped else Failed)
        && machine.log == old(machine.log)
    {
      hide Inv;
      if empty {
        UpdateEmbStatus(c, Skipped);
        Emb(ESaveSkipped);
      } else {
        UpdateEmbStatus(c, Failed);
        Emb(ESaveFailure);
      }
    }

    /** The rows that are embedded. */
    method CountEmbeddedRows() returns (n: nat)
      ensures n == |EmbeddedChunks(table)|
    {
      n := 0;
      ghost var counted: set<nat> := {};
      var rest := table.Keys;
      while rest != {}
        invariant rest <= table.Keys && counted == (set c | c in table && c !in rest && table[c].emb == Completed)
        invariant n == |counted|
      {
        HasElement(rest);
        var c :| c in rest;
        rest := rest - {c};
        if table[c].emb == Completed {
          assert (set d | d in table && d !in rest && table[d].emb == Completed) == counted + {c};
          n, counted := n + 1, counted + {c};
        } else {
          assert (set d | d in table && d !in rest && table[d].emb == Completed) == counted;
        }
      }
      assert counted == EmbeddedChunks(table);
    }

    ghost method CountFirst(total: nat)
      requires At(map[], map[0 := CountAll]) && total == |table|
      modifies `machine
      ensures At(map[], map[0 := CountEmbedded(total)]) && machine.log == old(machine.log)
    {
      hide Inv, EmbeddedChunks, SetEmb;
      Emb(ECountAll);
    }

    ghost method CountSecond(total: nat, embedded: nat)
      requires At(map[], map[0 := CountEmbedded(total)]) && embedded == |EmbeddedChunks(table)|
      modifies `machine
      ensures Valid()
      ensures machine.log == if total > 0 && embedded == total then old(machine.log) + [Reported] else old(machine.log)
    {
      hide Inv, EmbeddedChunks, SetEmb;
      Emb(ECountEmbedded);
    }

    method CheckFileEmbeddingComplete() returns (reported: bool)
      requires At(map[], map[0 := CountAll])
      modifies `machine
      ensures Valid()
      ensures reported <==> |table| > 0 && forall c | c in table :: table[c].emb == Completed
      ensures machine.log == if reported then old(machine.log) + [Reported] else old(machine.log)
    {
      AllCounted(table);
      hide *;
      var total := |table|;
      CountFirst(total);
      var embedded := CountEmbeddedRows();
      CountSecond(total, embedded);
      reported := total > 0 && embedded == total;
    }

    /** The chunk ends embedded, skipped or failed; the file is checked, and perhaps
        reported, only after an embedding. */
    method ProcessEmbeddingJob(c: nat, redeliver: bool, calls: EmbCalls)
      requires Valid() && c in embJobs
      modifies this
      ensures Valid() && table == SetEmb(old(table), c, EmbStatus(calls))
      ensures table.Keys == old(table).Keys && forall d | d in table && d != c :: table[d] == old(table)[d]
      ensures c in table ==> table[c] == Row(old(table)[c].dlp,
        if calls.text == Empty then Skipped else if calls.text == Text && calls.embed then Completed else Failed)
      ensures embJobs == old(embJobs)[c := old(embJobs)[c] - if redeliver then 0 else 1] && dlpJobs == old(dlpJobs)
      ensures machine.log == old(machine.log)
        + (if calls.text == Text && calls.embed then [Embedded(c)] else [])
        + (if calls.text == Text && calls.embed && |table| > 0 && forall d | d in table :: table[d].emb == Completed
           then [Reported] else [])
    {
      EmbMeans(table, c, calls, machine.log);
      JobTaken(embJobs, c, redeliver);
      hide *;
      RunEmbeddingJob(c, redeliver, calls);
    }

    method RunEmbeddingJob(c: nat, redeliver: bool, calls: EmbCalls)
      requires Valid() && c in embJobs
      modifies this
      ensures Valid() && embJobs == Drop(old(embJobs), c, redeliver) && dlpJobs == old(dlpJobs)
      ensures table == SetEmb(old(table), c, EmbStatus(calls))
      ensures machine.log == old(machine.log) + EmbEvents(old(table), c, calls)
    {
      EmbCases(table, c, calls, machine.log);
      hide *;
      FetchEmbeddingJob(c, redeliver);
      MarkEmbProcessing(c);
      LoadEmbText(c, calls.text);
      match calls.text {
        case Unreadable =>
          SaveNoEmbedding(c, false);
        case Empty =>
          SaveNoEmbedding(c, true);
        case Text =>
          Embed(c, calls.embed);
          if !calls.embed {
            SaveNoEmbedding(c, false);
            return;
          }
          SaveEmbedding(c);
          var reported := CheckFileEmbeddingComplete();
      }
    }

    // ----- the assembler and the backfill tool -----

    /** The inline scan of a chunk the file is to have. */
    method ScanInline(c: nat, ok: bool)
      requires Valid() && machine.phase == Assembling && c in plan
      modifies `inline, `machine
      ensures Valid() && machine.phase == Assembling && inline == if ok then old(inline) + {c} else old(inline)
    {
      hide Inv;
      if ok {
        inline := inline + {c};
        Act(Action.ScanInline(c));
      }
    }

    /** One transaction for all rows, the scanned chunks marked as such. */
    method InsertChunks(ok: bool)
      requires Valid() && machine.phase == Assembling
      modifies `table, `machine
      ensures Valid() && (!ok ==> table == old(table))
      ensures ok ==> table.Keys == plan
      ensures ok ==> forall c | c in plan :: table[c] == Row(if c in inline then Completed else Pending, Pending)
      ensures machine.phase == if ok then Publishing(plan) else Aborted
    {
      hide Inv;
      Act(InsertAll(ok));
      if ok { table := Inserted(plan, inline); }
    }

    method PublishDLPJob(c: nat, ok: bool)
      requires Valid() && machine.phase.Publishing? && c in machine.phase.left
      modifies `dlpJobs, `machine
      ensures Valid() && dlpJobs == if ok then old(dlpJobs)[c := old(dlpJobs)[c] + 1] else old(dlpJobs)
    {
      hide Inv;
      Act(PublishDlpJob(c, ok));
      if ok { dlpJobs := dlpJobs[c := dlpJobs[c] + 1]; }
    }

    /** At any moment, for any chunk. */
    method BackfillChunk(c: nat)
      requires Valid()
      modifies `dlpJobs, `machine
      ensures Valid()
      ensures dlpJobs == if c in table && table[c].dlp == Pending
                         then old(dlpJobs)[c := old(dlpJobs)[c] + 1] else old(dlpJobs)
    {
      hide Inv;
      Act(Backfill(c));
      if c in table && table[c].dlp == Pending { dlpJobs := dlpJobs[c := dlpJobs[c] + 1]; }
    }
  }

  /** What a DLP message does to the rows. */
  lemma DlpMeans(table: map<nat, Row>, c: nat, calls: DlpCalls, log: seq<Event>)
    ensures var scanned := c in table && table[c].dlp == Completed;
      var clean, after := scanned || (calls.text && calls.scan), DlpTable(table, c, calls);
      && (Passes(table, c, calls) <==> clean)
      && after.Keys == table.Keys && (forall d | d in after && d != c :: after[d] == table[d])
      && (c in after ==> after[c] == Row(if clean then Completed else Failed, table[c].emb))
      && log + DlpEvents(table, c, calls) ==
           log + (if scanned then [] else if calls.text && calls.scan then [Scanned(c)] else [])
           + (if clean && calls.publish then [Queued(c)] else [])
  {
    hide SetDlp;
    SetDlpMeans(table, c, Completed);
    SetDlpMeans(table, c, Failed);
  }

  lemma EmbMeans(table: map<nat, Row>, c: nat, calls: EmbCalls, log: seq<Event>)
    ensures var after := SetEmb(table, c, EmbStatus(calls));
      && after.Keys == table.Keys && (forall d | d in after && d != c :: after[d] == table[d])
      && (c in after ==> after[c] == Row(table[c].dlp,
            if calls.text == Empty then Skipped else if calls.text == Text && calls.embed then Completed else Failed))
      && log + EmbEvents(table, c, calls) ==
           log + (if calls.text == Text && calls.embed then [Embedded(c)] else [])
           + (if calls.text == Text && calls.embed && |after| > 0 && forall d | d in after :: after[d].emb == Completed
              then [Reported] else [])
  {
    var done := SetEmb(table, c, Completed);
    AllCounted(done);
    SameSize(table, done);
  }

  lemma JobTaken(jobs: multiset<nat>, c: nat, redeliver: bool)
    requires c in jobs
    ensures Drop(jobs, c, redeliver) == jobs[c := jobs[c] - if redeliver then 0 else 1]
  {
  }

  /** DlpTable and DlpEvents, exit by exit. */
  lemma DlpCases(table: map<nat, Row>, c: nat, calls: DlpCalls, log: seq<Event>)
    ensures var marked := SetDlp(table, c, Processing);
      if IsScanned(table, c) then
        && Passes(table, c, calls) && DlpTable(table, c, calls) == table
        && log + DlpEvents(table, c, calls) == if calls.publish then log + [Queued(c)] else log
      else if !calls.text || !calls.scan then
        && !Passes(table, c, calls) && DlpTable(table, c, calls) == SetDlp(marked, c, Failed)
        && log + DlpEvents(table, c, calls) == log
      else
        && Passes(table, c, calls) && DlpTable(table, c, calls) == SetDlp(marked, c, Completed)
        && log + DlpEvents(table, c, calls) ==
           if calls.publish then log + [Scanned(c)] + [Queued(c)] else log + [Scanned(c)]
  {
  }

  /** EmbStatus and EmbEvents, exit by exit. */
  lemma EmbCases(table: map<nat, Row>, c: nat, calls: EmbCalls, log: seq<Event>)
    ensures var marked := SetEmb(table, c, Processing);
      && SetEmb(marked, c, EmbStatus(calls)) == SetEmb(table, c, EmbStatus(calls))
      && (calls.text == Text && calls.embed ==>
            var done := SetEmb(marked, c, Completed);
            && EmbStatus(calls) == Completed
            && log + EmbEvents(table, c, calls) ==
              if |done| > 0 && forall d | d in done :: done[d].emb == Completed
              then log + [Embedded(c)] + [Reported] else log + [Embedded(c)])
      && (calls.text != Text || !calls.embed ==>
            EmbStatus(calls) == (if calls.text == Empty then Skipped else Failed)
            && log + EmbEvents(table, c, calls) == log)
  {
    var done := SetEmb(table, c, Completed);
    AllCounted(done);
    SameSize(table, done);
  }

  lemma CompletionSays(s: State)
    requires Completion(s)
    ensures ReportsLast(s.plan, s.log)
  {
  }
}
