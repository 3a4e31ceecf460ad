/** The assembler (cmd/assembler/main.go) handling the page results of one job
    one at a time: the tables it writes, its loops, and why the order in which
    results arrive does not matter. */
module Assembly {
  import PagePipeline
  import opened Options

  type PageStatus = PagePipeline.PageStatus
  type JobStatus = PagePipeline.JobStatus

  /** A page result message, but for its page number. */
  datatype Result = Result(ok: bool, content: string, confidence: real)

  /** A page row; `text` is what its content key leads to, if it has a key. */
  datatype Row = Row(status: PageStatus, text: Option<string>, confidence: Option<real>)

  const PENDING_ROW := Row(PagePipeline.Pending, None, None)

  datatype Scan = ScanError | NoMatch | Match(redacted: Option<string>)

  datatype Chunk = Chunk(page: nat, number: nat, content: string, scanned: bool, pii: bool)

  datatype FileStatus = Uploaded | Error | Processed

  datatype Event = DocumentProcessed(chunkCount: nat, ocrConfidence: real) | DocumentFailed

  /** How the services outside this code answer. */
  datatype Env = Env(
    stores: nat -> bool,         // page text is written to S3
    fetches: nat -> bool,          // page text is read back
    sanitize: string -> string,
    redacting: bool,
    scan: (nat, string) -> Scan,
    uploads: nat -> bool,        // chunk text is written to S3
    publishes: nat -> bool,      // the DLP job message is written
    fileFound: bool,
    inserts: bool)               // the chunk rows are inserted

  datatype Db = Db(
    total: nat, completed: nat, failed: nat, status: JobStatus, rows: map<nat, Row>,
    chunks: seq<Chunk>, dlpJobs: seq<nat>, fileStatus: FileStatus, chunkCount: nat,
    events: seq<Event>, assemblies: nat)

  // ----- what the handlers compute -----

  function RowAfter(env: Env, row: Row, page: nat, r: Result): Row {
    Row(if r.ok then PagePipeline.Completed else PagePipeline.Failed,
        if r.ok && r.content != "" && env.stores(page) then Some(r.content) else row.text,
        if r.confidence > 0.0 then Some(r.confidence) else row.confidence)
  }

  predicate IsCompleted(rows: map<nat, Row>, page: nat) {
    page in rows && rows[page].status == PagePipeline.Completed
  }

  /** The completed pages up to n in page order: the query of assembleFile. */
  function CompletedPages(rows: map<nat, Row>, n: nat): seq<nat> {
    if n == 0 then []
    else if IsCompleted(rows, n) then CompletedPages(rows, n - 1) + [n]
    else CompletedPages(rows, n - 1)
  }

  /** The chunk made of one completed page, or None if the page is skipped. */
  function ChunkOf(env: Env, row: Row, page: nat, number: nat): Option<Chunk> {
    if row.text == None || !env.fetches(page) || row.text == Some("") || !env.uploads(page) then None else
    var content := env.sanitize(row.text.value);
    if !env.redacting then Some(Chunk(page, number, content, false, false)) else
    match env.scan(page, content)
    case ScanError => Some(Chunk(page, number, content, false, false))
    case NoMatch => Some(Chunk(page, number, content, true, false))
    case Match(redacted) => Some(Chunk(page, number, redacted.GetOr(content), true, true))
  }

  function ChunksOf(env: Env, rows: map<nat, Row>, pages: seq<nat>): seq<Chunk>
    requires forall p | p in pages :: p in rows
  {
    if pages == [] then [] else
    var last := |pages| - 1;
    match ChunkOf(env, rows[pages[last]], pages[last], last + 1)
    case Some(c) => ChunksOf(env, rows, pages[..last]) + [c]
    case None => ChunksOf(env, rows, pages[..last])
  }

  /** The pages whose chunk gets a DLP job, in chunk order. */
  function DlpJobsOf(env: Env, chunks: seq<Chunk>): seq<nat> {
    if chunks == [] then [] else
    var last := |chunks| - 1;
    if env.publishes(chunks[last].page) then DlpJobsOf(env, chunks[..last]) + [chunks[last].page]
    else DlpJobsOf(env, chunks[..last])
  }

  /** The confidences reported by the given pages, in order. */
  function Confidences(rows: map<nat, Row>, pages: seq<nat>): seq<real>
    requires forall p | p in pages :: p in rows
  {
    if pages == [] then [] else
    var last := |pages| - 1;
    match rows[pages[last]].confidence
    case Some(c) => Confidences(rows, pages[..last]) + [c]
    case None => Confidences(rows, pages[..last])
  }

  function Sum(xs: seq<real>): real {
    if xs == [] then 0.0 else Sum(xs[..|xs| - 1]) + xs[|xs| - 1]
  }

  function Mean(xs: seq<real>): real {
    if xs == [] then 0.0 else Sum(xs) / (|xs| as real)
  }

  function FailureRate(failed: nat, total: nat): real {
    if total == 0 then 0.0 else failed as real / total as real
  }

  /** Whether assembleFile finds the file row and can insert its chunks, if any. */
  function Stores(env: Env, rows: map<nat, Row>, total: nat): bool {
    CompletedPagesHaveRows(rows, total);
    env.fileFound && (env.inserts || ChunksOf(env, rows, CompletedPages(rows, total)) == [])
  }

  function Assemble(env: Env, db: Db): Db {
    CompletedPagesHaveRows(db.rows, db.total);
    var begun := db.(status := PagePipeline.Assembling, assemblies := db.assemblies + 1);
    if FailureRate(db.failed, db.total) >= 0.2 then
      begun.(status := PagePipeline.JobFailed, fileStatus := Error, events := db.events + [DocumentFailed])
    else if !env.fileFound then begun.(status := PagePipeline.JobFailed) else
    var pages := CompletedPages(db.rows, db.total);
    var chunks := ChunksOf(env, db.rows, pages);
    if chunks != [] && !env.inserts then begun.(status := PagePipeline.JobFailed) else
    begun.(status := if db.failed > 0 then PagePipeline.Partial else PagePipeline.JobCompleted,
           chunks := db.chunks + chunks,
           dlpJobs := db.dlpJobs + DlpJobsOf(env, chunks),
           fileStatus := Processed, chunkCount := |chunks|,
           events := db.events + [if db.failed == 0
                                  then DocumentProcessed(|chunks|, Mean(Confidences(db.rows, pages)))
                                  else DocumentFailed])
  }

  /** The row update and the increment of processPageResult. */
  function Record(env: Env, db: Db, page: nat, r: Result): Db {
    var rows := if page in db.rows then db.rows[page := RowAfter(env, db.rows[page], page, r)] else db.rows;
    if r.ok then db.(rows := rows, completed := db.completed + 1)
    else db.(rows := rows, failed := db.failed + 1)
  }

  function Handle(env: Env, db: Db, page: nat, r: Result): Db {
    var counted := Record(env, db, page, r);
    if counted.completed + counted.failed >= counted.total then Assemble(env, counted) else counted
  }

  /** The job as SplitFile leaves it: one pending row a page. */
  function Split(total: nat): Db {
    Db(total, 0, 0, PagePipeline.Processing, map p | p in PagePipeline.PageSet(total) :: PENDING_ROW,
       [], [], Uploaded, 0, [], 0)
  }

  function MarkStale(db: Db): Db {
    if db.status in {PagePipeline.Splitting, PagePipeline.Processing}
    then db.(status := PagePipeline.TimedOut) else db
  }

  lemma {:induction false} CompletedPagesHaveRows(rows: map<nat, Row>, n: nat)
    ensures forall p | p in CompletedPages(rows, n) :: p in rows && 1 <= p <= n && IsCompleted(rows, p)
  {
    if n > 0 { CompletedPagesHaveRows(rows, n - 1); }
  }

  // ----- the code -----

  /** One job's tables and queues, as the assembler sees them. */
  class Assembler {
    const env: Env
    const total: nat
    var completed: nat
    var failed: nat
    var status: JobStatus
    var rows: map<nat, Row>
    var chunks: seq<Chunk>
    var dlpJobs: seq<nat>
    var fileStatus: FileStatus
    var chunkCount: nat
    var events: seq<Event>
    var assemblies: nat

    function View(): Db
      reads this
    {
      Db(total, completed, failed, status, rows, chunks, dlpJobs, fileStatus, chunkCount, events, assemblies)
    }

    constructor (env: Env, total: nat)
      ensures this.env == env && View() == Split(total)
    {
      this.env, this.total := env, total;
      completed, failed, status := 0, 0, PagePipeline.Processing;
      rows := map p | p in PagePipeline.PageSet(total) :: PENDING_ROW;
      chunks, dlpJobs, fileStatus, chunkCount, events, assemblies := [], [], Uploaded, 0, [], 0;
    }

    method ProcessPageResult(page: nat, result: Result)
      modifies this
      ensures View() == Handle(env, old(View()), page, result)
      ensures rows.Keys == old(rows).Keys && forall p | p in rows && p != page :: rows[p] == old(rows)[p]
      ensures page in rows ==>
        && rows[page].status == (if result.ok then PagePipeline.Completed else PagePipeline.Failed)
        && rows[page].text == (if result.ok && result.content != "" && env.stores(page) then Some(result.content)
                               else old(rows)[page].text)
        && rows[page].confidence == (if result.confidence > 0.0 then Some(result.confidence)
                                     else old(rows)[page].confidence)
      ensures completed == old(completed) + (if result.ok then 1 else 0)
      ensures failed == old(failed) + (if result.ok then 0 else 1)
      ensures assemblies == old(assemblies) + if completed + failed >= total then 1 else 0
      ensures completed + failed < total ==>
        View() == old(View()).(rows := rows, completed := completed, failed := failed)
    {
      hide Record, RowAfter, Assemble;
      RecordResult(page, result);
      if completed + failed < total { return; }
      AssembleFile();
    }

    /** The update of the page row and the increment of one counter. */
    method RecordResult(page: nat, result: Result)
      modifies `rows, `completed, `failed
      ensures View() == Record(env, old(View()), page, result)
      ensures rows.Keys == old(rows).Keys && forall p | p in rows && p != page :: rows[p] == old(rows)[p]
      ensures page in rows ==>
        && rows[page].status == (if result.ok then PagePipeline.Completed else PagePipeline.Failed)
        && rows[page].text == (if result.ok && result.content != "" && env.stores(page) then Some(result.content)
                               else old(rows)[page].text)
        && rows[page].confidence == (if result.confidence > 0.0 then Some(result.confidence)
                                     else old(rows)[page].confidence)
      ensures completed == old(completed) + (if result.ok then 1 else 0)
      ensures failed == old(failed) + (if result.ok then 0 else 1)
    {
      var text: Option<string> := None;
      if result.ok && result.content != "" && env.stores(page) {
        text := Some(result.content);
      }
      if page in rows {
        var row := rows[page].(status := if result.ok then PagePipeline.Completed else PagePipeline.Failed);
        if text.Some? { row := row.(text := text); }
        if result.confidence > 0.0 { row := row.(confidence := Some(result.confidence)); }
        rows := rows[page := row];
      }
      if result.ok { completed := completed + 1; } else { failed := failed + 1; }
    }

    method AssembleFile()
      modifies `assemblies, `status, `fileStatus, `events, `chunks, `dlpJobs, `chunkCount
      ensures View() == Assemble(env, old(View()))
      ensures assemblies == old(assemblies) + 1
      ensures total >= 1 && 5 * failed >= total ==>
        status == PagePipeline.JobFailed && fileStatus == Error && events == old(events) + [DocumentFailed]
      ensures total >= 1 && 5 * failed < total && !env.fileFound ==>
        status == PagePipeline.JobFailed && fileStatus == old(fileStatus) && events == old(events)
      ensures total >= 1 && 5 * failed < total && env.fileFound && env.inserts ==>
        && fileStatus == Processed
        && status == (if failed == 0 then PagePipeline.JobCompleted else PagePipeline.Partial)
        && |events| == |old(events)| + 1 && (events[|old(events)|].DocumentProcessed? <==> failed == 0)
      ensures status == PagePipeline.JobFailed ==>
        chunks == old(chunks) && dlpJobs == old(dlpJobs) && chunkCount == old(chunkCount)
    {
      if total >= 1 { FailureThreshold(failed, total); }
      hide CompletedPages, ChunksOf, DlpJobsOf, Confidences, Mean, FailureRate;
      assemblies := assemblies + 1;
      status := PagePipeline.Assembling;
      if FailureRate(failed, total) >= 0.2 {
        status := PagePipeline.JobFailed;
        fileStatus := Error;
        events := events + [DocumentFailed];
        return;
      }
      if !env.fileFound { status := PagePipeline.JobFailed; return; }
      var pages := CompletedPages(rows, total);
      CompletedPagesHaveRows(rows, total);
      var created := ChunkPages(pages);
      if |created| > 0 && !env.inserts { status := PagePipeline.JobFailed; return; }
      StoreChunks(pages, created);
    }

    /** The end of assembleFile, once the chunk rows are in. */
    method StoreChunks(pages: seq<nat>, created: seq<Chunk>)
      requires forall p | p in pages :: p in rows
      modifies `chunks, `dlpJobs, `status, `fileStatus, `chunkCount, `events
      ensures chunks == old(chunks) + created && dlpJobs == old(dlpJobs) + DlpJobsOf(env, created)
      ensures status == if failed > 0 then PagePipeline.Partial else PagePipeline.JobCompleted
      ensures fileStatus == Processed && chunkCount == |created|
      ensures events == old(events)
        + [if failed == 0 then DocumentProcessed(|created|, Mean(Confidences(rows, pages))) else DocumentFailed]
    {
      hide DlpJobsOf, Confidences, Mean;
      chunks := chunks + created;
      PublishDLPJobs(created);
      status := if failed > 0 then PagePipeline.Partial else PagePipeline.JobCompleted;
      fileStatus := Processed;
      chunkCount := |created|;
      if failed == 0 {
        var mean := AverageOCRConfidence(rows, pages);
        events := events + [DocumentProcessed(|created|, mean)];
      } else {
        events := events + [DocumentFailed];
      }
    }

    /** The loop of assembleFile over the completed pages. */
    method ChunkPages(pages: seq<nat>) returns (created: seq<Chunk>)
      requires forall p | p in pages :: p in rows
      ensures created == ChunksOf(env, rows, pages)
    {
      created := [];
      for i := 0 to |pages|
        invariant created == ChunksOf(env, rows, pages[..i])
      {
        assert pages[..i + 1][..i] == pages[..i];
        var page := pages[i];
        var text := rows[page].text;
        if text == None || !env.fetches(page) { continue; }
        if text.value == "" { continue; }
        var content := env.sanitize(text.value);
        var scanned, pii := false, false;
        if env.redacting {
          match env.scan(page, content) {
            case ScanError =>
            case NoMatch => scanned := true;
            case Match(redacted) =>
              pii := true;
              if redacted.Some? { content := redacted.value; }
              scanned := true;
          }
        }
        if !env.uploads(page) { continue; }
        created := created + [Chunk(page, i + 1, content, scanned, pii)];
      }
      assert pages[..|pages|] == pages;
    }

    method PublishDLPJobs(created: seq<Chunk>)
      modifies this`dlpJobs
      ensures dlpJobs == old(dlpJobs) + DlpJobsOf(env, created)
    {
      for i := 0 to |created|
        invariant dlpJobs == old(dlpJobs) + DlpJobsOf(env, created[..i])
      {
        assert created[..i + 1][..i] == created[..i];
        if env.publishes(created[i].page) {
          dlpJobs := dlpJobs + [created[i].page];
        }
      }
      assert created[..|created|] == created;
    }

    /** One tick of detectStaleJobs that finds the job older than the timeout. */
    method DetectStale()
      modifies this`status
      ensures View() == MarkStale(old(View()))
      ensures status == if old(status) in {PagePipeline.Splitting, PagePipeline.Processing}
                        then PagePipeline.TimedOut else old(status)
    {
      if status == PagePipeline.Splitting || status == PagePipeline.Processing {
        status := PagePipeline.TimedOut;
      }
    }
  }

  lemma SumAppend(xs: seq<real>, x: real)
    ensures Sum(xs + [x]) == Sum(xs) + x
  {
    assert (xs + [x])[..|xs + [x]| - 1] == xs;
  }

  method AverageOCRConfidence(rows: map<nat, Row>, pages: seq<nat>) returns (mean: real)
    requires forall p | p in pages :: p in rows
    ensures mean == Mean(Confidences(rows, pages))
  {
    var sum, n := 0.0, 0;
    for i := 0 to |pages|
      invariant sum == Sum(Confidences(rows, pages[..i])) && n == |Confidences(rows, pages[..i])|
    {
      var upTo := pages[..i + 1];
      assert upTo[..i] == pages[..i] && upTo[i] == pages[i];
      var c := rows[pages[i]].confidence;
      ghost var before := Confidences(rows, pages[..i]);
      assert Confidences(rows, upTo) == if c.Some? then before + [c.value] else before;
      if c.Some? {
        SumAppend(before, c.value);
        sum, n := sum + c.value, n + 1;
      }
    }
    assert pages[..|pages|] == pages;
    mean := if n == 0 then 0.0 else sum / (n as real);
  }

  // ----- runs: results delivered one at a time, in any order -----

  datatype Arrival = Deliver(page: nat) | StaleTick

  /** For a fixed set of page results, the tables after the given arrivals. */
  function After(env: Env, res: nat -> Result, total: nat, arrivals: seq<Arrival>): Db {
    if arrivals == [] then Split(total) else
    var db := After(env, res, total, arrivals[..|arrivals| - 1]);
    match arrivals[|arrivals| - 1]
    case Deliver(p) => Handle(env, db, p, res(p))
    case StaleTick => MarkStale(db)
  }

  function Delivered(arrivals: seq<Arrival>): set<nat> {
    set a | a in arrivals && a.Deliver? :: a.page
  }

  /** Every result is delivered at most once, and only this job's. */
  ghost predicate OncePerPage(total: nat, arrivals: seq<Arrival>) {
    && Delivered(arrivals) <= PagePipeline.PageSet(total)
    && forall i, j | 0 <= i < j < |arrivals| && arrivals[i].Deliver? :: arrivals[i] != arrivals[j]
  }

  function Ok(res: nat -> Result, pages: set<nat>): set<nat> { set p | p in pages && res(p).ok }

  function Bad(res: nat -> Result, pages: set<nat>): set<nat> { set p | p in pages && !res(p).ok }

  /** The tables when exactly the results of `pages` are recorded and the file
      is not assembled yet, in terms of that set alone. */
  function Recorded(env: Env, res: nat -> Result, total: nat, pages: set<nat>, status: JobStatus): Db {
    Split(total).(
      completed := |Ok(res, pages)|, failed := |Bad(res, pages)|, status := status,
      rows := RowsOf(env, res, total, pages))
  }

  lemma CountOne(res: nat -> Result, pages: set<nat>, p: nat)
    requires p !in pages
    ensures |Ok(res, pages + {p})| == |Ok(res, pages)| + if res(p).ok then 1 else 0
    ensures |Bad(res, pages + {p})| == |Bad(res, pages)| + if res(p).ok then 0 else 1
  {
    if res(p).ok {
      assert Ok(res, pages + {p}) == Ok(res, pages) + {p} && Bad(res, pages + {p}) == Bad(res, pages);
    } else {
      assert Bad(res, pages + {p}) == Bad(res, pages) + {p} && Ok(res, pages + {p}) == Ok(res, pages);
    }
  }

  function RowsOf(env: Env, res: nat -> Result, total: nat, pages: set<nat>): map<nat, Row> {
    map p | p in PagePipeline.PageSet(total) ::
      if p in pages then RowAfter(env, PENDING_ROW, p, res(p)) else PENDING_ROW
  }

  lemma RowsOfOneMore(env: Env, res: nat -> Result, total: nat, pages: set<nat>, p: nat)
    requires p !in pages && p in PagePipeline.PageSet(total)
    ensures p in RowsOf(env, res, total, pages) && RowsOf(env, res, total, pages)[p] == PENDING_ROW
    ensures RowsOf(env, res, total, pages)[p := RowAfter(env, PENDING_ROW, p, res(p))]
         == RowsOf(env, res, total, pages + {p})
  {
    hide RowAfter, PagePipeline.PageSet;
  }

  lemma RecordOne(env: Env, res: nat -> Result, total: nat, pages: set<nat>, status: JobStatus, p: nat)
    requires p !in pages && p in PagePipeline.PageSet(total)
    ensures Record(env, Recorded(env, res, total, pages, status), p, res(p))
         == Recorded(env, res, total, pages + {p}, status)
  {
    hide RowsOf, RowAfter;
    CountOne(res, pages, p);
    RowsOfOneMore(env, res, total, pages, p);
  }

  lemma RecordedCount(env: Env, res: nat -> Result, total: nat, pages: set<nat>)
    requires pages <= PagePipeline.PageSet(total)
    ensures |Ok(res, pages)| + |Bad(res, pages)| == |pages| <= total
    ensures |pages| == total <==> pages == PagePipeline.PageSet(total)
  {
    assert Ok(res, pages) + Bad(res, pages) == pages;
    assert |PagePipeline.PageSet(total) - pages| == total - |pages|;
  }

  /** The tables at the end, in terms of the results alone. */
  function Outcome(env: Env, res: nat -> Result, total: nat): Db {
    Assemble(env, Recorded(env, res, total, PagePipeline.PageSet(total), PagePipeline.Processing))
  }

  lemma AssembleForgetsStatus(env: Env, db: Db, status: JobStatus)
    ensures Assemble(env, db.(status := status)) == Assemble(env, db)
  {
  }

  lemma HandleOne(env: Env, res: nat -> Result, total: nat, pages: set<nat>, status: JobStatus, p: nat)
    requires p !in pages && p in PagePipeline.PageSet(total) && pages <= PagePipeline.PageSet(total)
    ensures Handle(env, Recorded(env, res, total, pages, status), p, res(p))
         == if pages + {p} == PagePipeline.PageSet(total) then Outcome(env, res, total)
            else Recorded(env, res, total, pages + {p}, status)
  {
    hide Record, Assemble;
    RecordOne(env, res, total, pages, status, p);
    RecordedCount(env, res, total, pages + {p});
    AssembleForgetsStatus(env, Recorded(env, res, total, pages + {p}, PagePipeline.Processing), status);
  }

  lemma OutcomeIsFinal(env: Env, res: nat -> Result, total: nat)
    ensures PagePipeline.IsFinal(Outcome(env, res, total).status)
    ensures Outcome(env, res, total).assemblies == 1
  {
  }

  lemma NothingRecorded(env: Env, res: nat -> Result, total: nat)
    ensures Split(total) == Recorded(env, res, total, {}, PagePipeline.Processing)
  {
    assert Ok(res, {}) == Bad(res, {}) == {};
    assert Split(total).rows == Recorded(env, res, total, {}, PagePipeline.Processing).rows;
  }

  /** What the last arrival adds to the delivered pages. */
  lemma LastArrival(total: nat, arrivals: seq<Arrival>)
    requires arrivals != [] && OncePerPage(total, arrivals)
    ensures var before, a := arrivals[..|arrivals| - 1], arrivals[|arrivals| - 1];
      && OncePerPage(total, before)
      && (a == StaleTick ==> Delivered(arrivals) == Delivered(before))
      && (a.Deliver? ==> Delivered(arrivals) == Delivered(before) + {a.page} && a.page !in Delivered(before)
                         && a.page in PagePipeline.PageSet(total))
      && Delivered(before) <= PagePipeline.PageSet(total)
  {
    hide PagePipeline.PageSet;
    var before, a := arrivals[..|arrivals| - 1], arrivals[|arrivals| - 1];
    assert arrivals == before + [a];
    assert Delivered(arrivals) == Delivered(before) + if a.Deliver? then {a.page} else {};
  }

  /** Order independence, one arrival at a time: before the last result the
      tables depend on the set of results delivered and on whether a stale tick
      came; from the last result on they are the outcome, which no stale tick
      changes, and the file has been assembled exactly once. */
  lemma {:induction false} AfterArrivals(env: Env, res: nat -> Result, total: nat, arrivals: seq<Arrival>)
    requires total >= 1 && OncePerPage(total, arrivals)
    ensures var db, pages := After(env, res, total, arrivals), Delivered(arrivals);
      if pages == PagePipeline.PageSet(total) then
        db == Outcome(env, res, total) && db.assemblies == 1 && PagePipeline.IsFinal(db.status)
      else
        db.status == (if StaleTick in arrivals then PagePipeline.TimedOut else PagePipeline.Processing)
        && db == Recorded(env, res, total, pages, db.status)
  {
    hide Handle, Outcome, Recorded, Split, OncePerPage, PagePipeline.PageSet;
    OutcomeIsFinal(env, res, total);
    if arrivals == [] {
      assert 1 in PagePipeline.PageSet(total);
      assert Delivered([]) == {};
      NothingRecorded(env, res, total);
      RecordedStatus(env, res, total, {}, PagePipeline.Processing, PagePipeline.Processing);
    } else {
      var before := arrivals[..|arrivals| - 1];
      LastArrival(total, arrivals);
      assert arrivals == before + [arrivals[|arrivals| - 1]];
      AfterArrivals(env, res, total, before);
      var db, pages := After(env, res, total, before), Delivered(before);
      match arrivals[|arrivals| - 1]
      case StaleTick =>
        RecordedStatus(env, res, total, pages, db.status, PagePipeline.TimedOut);
      case Deliver(p) =>
        HandleOne(env, res, total, pages, db.status, p);
        RecordedStatus(env, res, total, pages + {p}, db.status, db.status);
    }
  }

  /** Until the last result is in: two counters and a row for each result delivered,
      and nothing assembled. */
  lemma BeforeTheLast(env: Env, res: nat -> Result, total: nat, arrivals: seq<Arrival>, missing: nat)
    requires OncePerPage(total, arrivals) && 1 <= missing <= total && Deliver(missing) !in arrivals
    ensures var db := After(env, res, total, arrivals);
      && db.completed == |set p: nat | 1 <= p <= total && Deliver(p) in arrivals && res(p).ok|
      && db.failed == |set p: nat | 1 <= p <= total && Deliver(p) in arrivals && !res(p).ok|
      && (forall p: nat :: p in db.rows <==> 1 <= p <= total)
      && (forall p: nat | 1 <= p <= total :: db.rows[p].status ==
            if Deliver(p) !in arrivals then PagePipeline.Pending
            else if res(p).ok then PagePipeline.Completed else PagePipeline.Failed)
      && db.status == (if StaleTick in arrivals then PagePipeline.TimedOut else PagePipeline.Processing)
      && db.assemblies == 0 && db.chunks == [] && db.dlpJobs == [] && db.events == [] && db.fileStatus == Uploaded
  {
    AfterArrivals(env, res, total, arrivals);
    var pages := Delivered(arrivals);
    assert missing in PagePipeline.PageSet(total) && missing !in pages;
    hide After;
    forall p: nat ensures p in pages <==> Deliver(p) in arrivals {}
    assert Ok(res, pages) == set p: nat | 1 <= p <= total && Deliver(p) in arrivals && res(p).ok;
    assert Bad(res, pages) == set p: nat | 1 <= p <= total && Deliver(p) in arrivals && !res(p).ok;
  }

  lemma RecordedStatus(env: Env, res: nat -> Result, total: nat, pages: set<nat>, status: JobStatus, later: JobStatus)
    ensures var db := Recorded(env, res, total, pages, status);
      db.status == status && db.(status := later) == Recorded(env, res, total, pages, later)
  {
  }

  /** The results of all pages have been delivered. */
  ghost predicate AllDelivered(total: nat, arrivals: seq<Arrival>) {
    forall p: nat | 1 <= p <= total :: Deliver(p) in arrivals
  }

  lemma AllDeliveredSet(total: nat, arrivals: seq<Arrival>)
    requires OncePerPage(total, arrivals) && AllDelivered(total, arrivals)
    ensures Delivered(arrivals) == PagePipeline.PageSet(total)
  {
    forall p | p in PagePipeline.PageSet(total) ensures p in Delivered(arrivals) {
      assert Deliver(p) in arrivals;
    }
  }

  /** Every delivery order of the same results, with stale ticks anywhere, ends
      in the same tables: status, rows, chunks, DLP jobs, chunk count and event. */
  lemma OrderIndependence(env: Env, res: nat -> Result, total: nat, a: seq<Arrival>, b: seq<Arrival>)
    requires total >= 1 && OncePerPage(total, a) && OncePerPage(total, b)
    requires AllDelivered(total, a) && AllDelivered(total, b)
    ensures After(env, res, total, a) == After(env, res, total, b)
  {
    AllDeliveredSet(total, a);
    AllDeliveredSet(total, b);
    AfterArrivals(env, res, total, a);
    AfterArrivals(env, res, total, b);
    hide *;
  }

  // ----- what the outcome says -----

  lemma FailureThreshold(failed: nat, total: nat)
    requires total >= 1
    ensures FailureRate(failed, total) >= 0.2 <==> 5 * failed >= total
  {
    var rate := FailureRate(failed, total);
    assert rate * total as real == failed as real;
    if rate >= 0.2 {
      assert failed as real >= 0.2 * total as real;
    }
  }

  /** The page rows at the end are the results. */
  lemma OutcomeRows(env: Env, res: nat -> Result, total: nat)
    ensures var rows := Outcome(env, res, total).rows;
      forall p: nat ::
        && (p in rows <==> 1 <= p <= total)
        && (p in rows ==>
              && rows[p].status == (if res(p).ok then PagePipeline.Completed else PagePipeline.Failed)
              && rows[p].text == (if res(p).ok && res(p).content != "" && env.stores(p)
                                  then Some(res(p).content) else None)
              && rows[p].confidence == (if res(p).confidence > 0.0 then Some(res(p).confidence) else None))
  {
    var before := Recorded(env, res, total, PagePipeline.PageSet(total), PagePipeline.Processing);
    assert Outcome(env, res, total).rows == before.rows by {
      OutcomeIs(env, res, total);
      AssembleKeepsRows(env, before);
    }
    hide Outcome;
  }

  lemma AssembleKeepsRows(env: Env, db: Db)
    ensures Assemble(env, db).rows == db.rows
  {
  }

  lemma FailedPages(res: nat -> Result, total: nat)
    ensures Bad(res, PagePipeline.PageSet(total)) == set p: nat | 1 <= p <= total && !res(p).ok
  {
  }

  /** The final status is the verdict on the number of failed results, a fifth of
      the pages being too many, and on whether the chunks could be stored. */
  lemma OutcomeStatus(env: Env, res: nat -> Result, total: nat)
    requires total >= 1
    ensures var db, failed := Outcome(env, res, total), |set p: nat | 1 <= p <= total && !res(p).ok|;
      && db.failed == failed && db.completed == total - failed
      && db.status == PagePipeline.Verdict(total, failed, Stores(env, db.rows, total))
  {
    FailedPages(res, total);
    FailureThreshold(|Bad(res, PagePipeline.PageSet(total))|, total);
    RecordedCount(env, res, total, PagePipeline.PageSet(total));
    hide ChunksOf, CompletedPages, FailureRate, DlpJobsOf, Confidences, Mean, RowsOf;
  }

  lemma AssembleFollowsStatus(env: Env, db: Db)
    requires db.total >= 1 && db.chunks == [] && db.dlpJobs == [] && db.events == []
    requires db.chunkCount == 0 && db.fileStatus == Uploaded
    ensures var after := Assemble(env, db);
      && after.assemblies == db.assemblies + 1 && PagePipeline.IsFinal(after.status)
      && (after.status == PagePipeline.JobFailed ==> after.chunks == [] && after.dlpJobs == [])
      && after.chunkCount == |after.chunks|
      && after.fileStatus == (if 5 * db.failed >= db.total then Error
                              else if after.status == PagePipeline.JobFailed then Uploaded else Processed)
      && (after.status == PagePipeline.JobCompleted ==> db.failed == 0)
      && (after.status == PagePipeline.Partial ==> db.failed > 0)
      && |after.events| <= 1
      && (DocumentFailed in after.events <==> 5 * db.failed >= db.total || after.status == PagePipeline.Partial)
      && (after.status == PagePipeline.JobCompleted <==> |after.events| == 1 && after.events[0].DocumentProcessed?)
      && (after.status == PagePipeline.JobCompleted ==> after.events[0].chunkCount == |after.chunks|)
  {
    FailureThreshold(db.failed, db.total);
    hide ChunksOf, CompletedPages, FailureRate, DlpJobsOf, Confidences, Mean;
  }

  /** The file row, the chunks and the event follow the status. */
  lemma OutcomeFollowsStatus(env: Env, res: nat -> Result, total: nat)
    requires total >= 1
    ensures var db, failed := Outcome(env, res, total), |set p: nat | 1 <= p <= total && !res(p).ok|;
      && db.assemblies == 1 && PagePipeline.IsFinal(db.status)
      && (db.status == PagePipeline.JobFailed ==> db.chunks == [] && db.dlpJobs == [])
      && db.chunkCount == |db.chunks|
      && db.fileStatus == (if 5 * failed >= total then Error
                           else if db.status == PagePipeline.JobFailed then Uploaded else Processed)
      && (db.status == PagePipeline.JobCompleted ==> failed == 0)
      && (db.status == PagePipeline.Partial ==> failed > 0)
      && |db.events| <= 1
      && (DocumentFailed in db.events <==> 5 * failed >= total || db.status == PagePipeline.Partial)
      && (db.status == PagePipeline.JobCompleted <==> |db.events| == 1 && db.events[0].DocumentProcessed?)
      && (db.status == PagePipeline.JobCompleted ==> db.events[0].chunkCount == |db.chunks|)
  {
    FailedPages(res, total);
    hide Assemble, PagePipeline.PageSet, Bad;
    AssembleFollowsStatus(env, Recorded(env, res, total, PagePipeline.PageSet(total), PagePipeline.Processing));
  }

  /** The completed pages up to p. */
  function CompletedUpTo(rows: map<nat, Row>, p: nat): set<nat> {
    set q: nat | q in rows && q <= p && q >= 1 && IsCompleted(rows, q)
  }

  lemma {:induction false} CompletedPagesSize(rows: map<nat, Row>, n: nat)
    ensures |CompletedPages(rows, n)| == |CompletedUpTo(rows, n)|
    ensures forall p | 1 <= p <= n && IsCompleted(rows, p) :: p in CompletedPages(rows, n)
  {
    if n == 0 {
      assert CompletedUpTo(rows, 0) == {};
    } else {
      CompletedUpToNext(rows, n);
      hide CompletedUpTo;
      CompletedPagesSize(rows, n - 1);
    }
  }

  lemma CompletedUpToNext(rows: map<nat, Row>, n: nat)
    requires n >= 1
    ensures n !in CompletedUpTo(rows, n - 1)
    ensures CompletedUpTo(rows, n) == CompletedUpTo(rows, n - 1) + if IsCompleted(rows, n) then {n} else {}
  {
  }

  /** The chunk table of a file: one chunk for each completed page whose text
      can be read and stored, in page order, and numbered by the rank of the page
      among the completed pages, skipped ones included. */
  ghost predicate IsChunkTable(env: Env, rows: map<nat, Row>, n: nat, chunks: seq<Chunk>) {
    && (forall i, j | 0 <= i < j < |chunks| :: chunks[i].page < chunks[j].page)
    && (forall c | c in chunks :: 1 <= c.page <= n && IsCompleted(rows, c.page)
          && Some(c) == ChunkOf(env, rows[c.page], c.page, |CompletedUpTo(rows, c.page)|))
    && (forall p | 1 <= p <= n && IsCompleted(rows, p) ::
          var made := ChunkOf(env, rows[p], p, |CompletedUpTo(rows, p)|);
          made.Some? ==> made.value in chunks)
  }

  lemma ChunkOfPage(env: Env, row: Row, page: nat, number: nat)
    ensures var made := ChunkOf(env, row, page, number); made.Some? ==> made.value.page == page
  {
  }

  lemma ChunkTableGrows(env: Env, rows: map<nat, Row>, n: nat, chunks: seq<Chunk>)
    requires n > 0 && IsCompleted(rows, n) && IsChunkTable(env, rows, n - 1, chunks)
    ensures var made := ChunkOf(env, rows[n], n, |CompletedUpTo(rows, n)|);
      IsChunkTable(env, rows, n, if made.Some? then chunks + [made.value] else chunks)
  {
    hide ChunkOf, CompletedUpTo;
    ChunkOfPage(env, rows[n], n, |CompletedUpTo(rows, n)|);
  }

  lemma ChunksLast(env: Env, rows: map<nat, Row>, pages: seq<nat>, page: nat)
    requires (forall p | p in pages :: p in rows) && page in rows
    ensures var made := ChunkOf(env, rows[page], page, |pages| + 1);
      ChunksOf(env, rows, pages + [page])
        == if made.Some? then ChunksOf(env, rows, pages) + [made.value] else ChunksOf(env, rows, pages)
  {
    hide ChunkOf;
    assert (pages + [page])[..|pages|] == pages;
  }

  lemma ChunkTableStays(env: Env, rows: map<nat, Row>, n: nat, chunks: seq<Chunk>)
    requires n > 0 && !IsCompleted(rows, n) && IsChunkTable(env, rows, n - 1, chunks)
    ensures IsChunkTable(env, rows, n, chunks)
  {
    hide ChunkOf, CompletedUpTo;
  }

  /** One page further. */
  lemma ChunkTableNext(env: Env, rows: map<nat, Row>, n: nat, earlier: seq<nat>)
    requires n > 0 && (forall p | p in earlier :: p in rows)
      && IsChunkTable(env, rows, n - 1, ChunksOf(env, rows, earlier))
    requires IsCompleted(rows, n) ==> |earlier| + 1 == |CompletedUpTo(rows, n)|
    ensures var pages := if IsCompleted(rows, n) then earlier + [n] else earlier;
      (forall p | p in pages :: p in rows) && IsChunkTable(env, rows, n, ChunksOf(env, rows, pages))
  {
    hide ChunkOf, ChunksOf, CompletedUpTo, IsChunkTable;
    if IsCompleted(rows, n) {
      ChunksLast(env, rows, earlier, n);
      ChunkTableGrows(env, rows, n, ChunksOf(env, rows, earlier));
    } else {
      ChunkTableStays(env, rows, n, ChunksOf(env, rows, earlier));
    }
  }

  lemma {:induction false} ChunkTable(env: Env, rows: map<nat, Row>, n: nat)
    ensures forall p | p in CompletedPages(rows, n) :: p in rows
    ensures IsChunkTable(env, rows, n, ChunksOf(env, rows, CompletedPages(rows, n)))
  {
    if n > 0 {
      ChunkTable(env, rows, n - 1);
      CompletedPagesSize(rows, n);
      hide ChunkOf, ChunksOf, CompletedUpTo, IsChunkTable, IsCompleted;
      ChunkTableNext(env, rows, n, CompletedPages(rows, n - 1));
    }
  }

  /** The chunks of a file that is not failed are a function of the page rows alone,
      and the DLP jobs are the pages of the chunks that could be published, in
      that order. */
  lemma OutcomeChunks(env: Env, res: nat -> Result, total: nat)
    requires Outcome(env, res, total).status != PagePipeline.JobFailed
    ensures var db := Outcome(env, res, total);
      IsChunkTable(env, db.rows, total, db.chunks) && db.dlpJobs == DlpJobsOf(env, db.chunks)
  {
    var before := Recorded(env, res, total, PagePipeline.PageSet(total), PagePipeline.Processing);
    assert before.chunks == [] && before.dlpJobs == [] && before.total == total;
    OutcomeIs(env, res, total);
    hide *;
    AssembledChunks(env, before);
    ChunkTable(env, before.rows, total);
  }

  lemma OutcomeIs(env: Env, res: nat -> Result, total: nat)
    ensures Outcome(env, res, total)
         == Assemble(env, Recorded(env, res, total, PagePipeline.PageSet(total), PagePipeline.Processing))
  {
  }

  lemma AssembledChunks(env: Env, db: Db)
    requires Assemble(env, db).status != PagePipeline.JobFailed && db.chunks == [] && db.dlpJobs == []
    ensures forall p | p in CompletedPages(db.rows, db.total) :: p in db.rows
    ensures var after, chunks := Assemble(env, db), ChunksOf(env, db.rows, CompletedPages(db.rows, db.total));
      after.rows == db.rows && after.chunks == chunks && after.dlpJobs == DlpJobsOf(env, chunks)
  {
    CompletedPagesHaveRows(db.rows, db.total);
    var chunks := ChunksOf(env, db.rows, CompletedPages(db.rows, db.total));
    hide ChunksOf, CompletedPages, DlpJobsOf, Confidences, Mean, FailureRate;
    assert [] + chunks == chunks;
    assert [] + DlpJobsOf(env, chunks) == DlpJobsOf(env, chunks);
  }

  lemma {:induction false} DlpJobsFollowChunks(env: Env, chunks: seq<Chunk>)
    requires forall i, j | 0 <= i < j < |chunks| :: chunks[i].page < chunks[j].page
    ensures var jobs := DlpJobsOf(env, chunks);
      && (forall i, j | 0 <= i < j < |jobs| :: jobs[i] < jobs[j])
      && (forall p :: p in jobs <==> env.publishes(p) && exists c :: c in chunks && c.page == p)
  {
    if chunks != [] {
      var last := |chunks| - 1;
      var earlier := DlpJobsOf(env, chunks[..last]);
      DlpJobsFollowChunks(env, chunks[..last]);
      forall i | 0 <= i < |earlier| ensures earlier[i] < chunks[last].page {
        assert earlier[i] in earlier;
      }
      forall p ensures p in DlpJobsOf(env, chunks) <==> env.publishes(p) && exists c :: c in chunks && c.page == p {
        PagesOfLast(chunks, p);
      }
    }
  }

  lemma PagesOfLast(chunks: seq<Chunk>, p: nat)
    requires chunks != []
    ensures (exists c :: c in chunks && c.page == p) <==>
      (exists c :: c in chunks[..|chunks| - 1] && c.page == p) || chunks[|chunks| - 1].page == p
  {
    assert chunks == chunks[..|chunks| - 1] + [chunks[|chunks| - 1]];
  }

  // ----- what a chunk holds -----

  /** One chunk, from the result of its page and the answer of its scan. */
  lemma ChunkHolds(env: Env, res: nat -> Result, total: nat, page: nat, number: nat)
    requires 1 <= page <= total
    ensures var made, r := ChunkOf(env, Outcome(env, res, total).rows[page], page, number), res(page);
      && page in Outcome(env, res, total).rows
      && (made.Some? <==> r.ok && r.content != "" && env.stores(page) && env.fetches(page) && env.uploads(page))
      && (made.Some? ==>
            var c, text := made.value, env.sanitize(r.content);
            && c.page == page && c.number == number
            && (!env.redacting || env.scan(page, text) == ScanError ==>
                  c.content == text && !c.scanned && !c.pii)
            && (env.redacting && env.scan(page, text) == NoMatch ==>
                  c.content == text && c.scanned && !c.pii)
            && (env.redacting && env.scan(page, text) == Match(None) ==>
                  c.content == text && c.scanned && c.pii)
            && (forall redacted | env.redacting && env.scan(page, text) == Match(Some(redacted)) ::
                  c.content == redacted && c.scanned && c.pii))
  {
    OutcomeRows(env, res, total);
    hide Outcome;
  }

  lemma CompletedRank(env: Env, res: nat -> Result, total: nat, page: nat)
    requires 1 <= page <= total
    ensures CompletedUpTo(Outcome(env, res, total).rows, page) == set q: nat | 1 <= q <= page && res(q).ok
    ensures IsCompleted(Outcome(env, res, total).rows, page) <==> res(page).ok
  {
    OutcomeRows(env, res, total);
    hide Outcome;
  }

  /** Every chunk of a job that does not end failed: its page came with a text that
      was stored, read back and stored again; it is numbered by the completed
      pages up to its own; and it holds the sanitised text, or what the redaction
      made of it, marked as scanned unless redaction is off or the scan failed,
      and as holding personal data when the scan matched. */
  lemma ChunkContents(env: Env, res: nat -> Result, total: nat, c: Chunk)
    requires Outcome(env, res, total).status != PagePipeline.JobFailed && c in Outcome(env, res, total).chunks
    ensures var r := res(c.page); var text := env.sanitize(r.content);
      && 1 <= c.page <= total && r.ok && r.content != ""
      && env.stores(c.page) && env.fetches(c.page) && env.uploads(c.page)
      && c.number == |set q: nat | 1 <= q <= c.page && res(q).ok|
      && (!env.redacting || env.scan(c.page, text) == ScanError ==> c.content == text && !c.scanned && !c.pii)
      && (env.redacting && env.scan(c.page, text) == NoMatch ==> c.content == text && c.scanned && !c.pii)
      && (env.redacting && env.scan(c.page, text) == Match(None) ==> c.content == text && c.scanned && c.pii)
      && (forall redacted | env.redacting && env.scan(c.page, text) == Match(Some(redacted)) ::
            c.content == redacted && c.scanned && c.pii)
  {
    OutcomeChunks(env, res, total);
    var rows := Outcome(env, res, total).rows;
    var number := |CompletedUpTo(rows, c.page)|;
    assert 1 <= c.page <= total && Some(c) == ChunkOf(env, rows[c.page], c.page, number);
    hide Outcome, ChunkOf, CompletedUpTo, IsChunkTable;
    ChunkHolds(env, res, total, c.page, number);
    CompletedRank(env, res, total, c.page);
  }

  /** And every page with such a text has its chunk, one, in page order. */
  lemma PagesHaveChunks(env: Env, res: nat -> Result, total: nat)
    requires Outcome(env, res, total).status != PagePipeline.JobFailed
    ensures var chunks := Outcome(env, res, total).chunks;
      && (forall i, j | 0 <= i < j < |chunks| :: chunks[i].page < chunks[j].page)
      && (forall p: nat | 1 <= p <= total && res(p).ok && res(p).content != ""
                          && env.stores(p) && env.fetches(p) && env.uploads(p) ::
            exists c :: c in chunks && c.page == p)
  {
    OutcomeChunks(env, res, total);
    var rows, chunks := Outcome(env, res, total).rows, Outcome(env, res, total).chunks;
    forall p: nat | 1 <= p <= total && res(p).ok && res(p).content != ""
                    && env.stores(p) && env.fetches(p) && env.uploads(p)
      ensures exists c :: c in chunks && c.page == p
    {
      var made := ChunkOf(env, rows[p], p, |CompletedUpTo(rows, p)|);
      ChunkHolds(env, res, total, p, |CompletedUpTo(rows, p)|);
      CompletedRank(env, res, total, p);
      assert made.value in chunks;
    }
  }

  /** A job ends failed if and only if a fifth of its pages failed, the file row is
      missing, or there is a text to make a chunk of that could not be inserted. */
  lemma FailedIff(env: Env, res: nat -> Result, total: nat)
    requires total >= 1
    ensures Outcome(env, res, total).status == PagePipeline.JobFailed <==>
      || 5 * |set p: nat | 1 <= p <= total && !res(p).ok| >= total
      || !env.fileFound
      || (!env.inserts && exists p: nat :: 1 <= p <= total && res(p).ok && res(p).content != ""
                                           && env.stores(p) && env.fetches(p) && env.uploads(p))
  {
    OutcomeStatus(env, res, total);
    var rows := Outcome(env, res, total).rows;
    ChunkTable(env, rows, total);
    var made := ChunksOf(env, rows, CompletedPages(rows, total));
    hide Outcome, ChunksOf, CompletedPages, ChunkOf, CompletedUpTo;
    if made != [] {
      var c := made[0];
      assert c in made;
      ChunkHolds(env, res, total, c.page, |CompletedUpTo(rows, c.page)|);
      CompletedRank(env, res, total, c.page);
      assert res(c.page).ok;
    }
    if p: nat :| 1 <= p <= total && res(p).ok && res(p).content != ""
                 && env.stores(p) && env.fetches(p) && env.uploads(p) {
      ChunkHolds(env, res, total, p, |CompletedUpTo(rows, p)|);
      CompletedRank(env, res, total, p);
      var chunk := ChunkOf(env, rows[p], p, |CompletedUpTo(rows, p)|);
      assert chunk.value in made;
    }
  }

  // ----- the confidence announced -----

  /** The sum of the confidences reported with the good results of pages 1 to n. */
  function ReportedSum(res: nat -> Result, n: nat): real {
    if n == 0 then 0.0
    else ReportedSum(res, n - 1) + if res(n).ok && res(n).confidence > 0.0 then res(n).confidence else 0.0
  }

  ghost function Reporting(res: nat -> Result, n: nat): set<nat> {
    set p: nat | 1 <= p <= n && res(p).ok && res(p).confidence > 0.0
  }

  /** The rows of pages 1 to n say which results were good and what they reported. */
  ghost predicate RowsReport(rows: map<nat, Row>, res: nat -> Result, n: nat) {
    forall p: nat | 1 <= p <= n ::
      && p in rows && (IsCompleted(rows, p) <==> res(p).ok)
      && rows[p].confidence == if res(p).confidence > 0.0 then Some(res(p).confidence) else None
  }

  ghost predicate Adds(rows: map<nat, Row>, pages: seq<nat>, res: nat -> Result, n: nat)
    requires forall p | p in pages :: p in rows
  {
    Sum(Confidences(rows, pages)) == ReportedSum(res, n) && |Confidences(rows, pages)| == |Reporting(res, n)|
  }

  lemma AddsNext(rows: map<nat, Row>, pages: seq<nat>, res: nat -> Result, n: nat)
    requires n > 0 && (forall p | p in pages :: p in rows) && n in rows && Adds(rows, pages, res, n - 1)
    requires rows[n].confidence == if res(n).confidence > 0.0 then Some(res(n).confidence) else None
    ensures res(n).ok ==> Adds(rows, pages + [n], res, n)
    ensures !res(n).ok ==> Adds(rows, pages, res, n)
  {
    hide Confidences, Sum, Reporting;
    OneMoreReport(res, n);
    ConfidencesLast(rows, pages, n);
    SumAppend(Confidences(rows, pages), res(n).confidence);
  }

  lemma {:induction false} ConfidencesReported(rows: map<nat, Row>, res: nat -> Result, n: nat)
    requires RowsReport(rows, res, n)
    ensures forall p | p in CompletedPages(rows, n) :: p in rows
    ensures Adds(rows, CompletedPages(rows, n), res, n)
  {
    CompletedPagesHaveRows(rows, n);
    if n == 0 {
      assert Reporting(res, 0) == {};
    } else {
      hide Adds;
      ConfidencesReported(rows, res, n - 1);
      AddsNext(rows, CompletedPages(rows, n - 1), res, n);
    }
  }

  lemma OneMoreReport(res: nat -> Result, n: nat)
    requires n > 0
    ensures |Reporting(res, n)| == |Reporting(res, n - 1)| + if res(n).ok && res(n).confidence > 0.0 then 1 else 0
  {
    assert Reporting(res, n) == Reporting(res, n - 1) + if res(n).ok && res(n).confidence > 0.0 then {n} else {};
  }

  lemma ConfidencesLast(rows: map<nat, Row>, pages: seq<nat>, page: nat)
    requires (forall p | p in pages :: p in rows) && page in rows
    ensures Confidences(rows, pages + [page]) == match rows[page].confidence
      case Some(c) => Confidences(rows, pages) + [c]
      case None => Confidences(rows, pages)
  {
    assert (pages + [page])[..|pages|] == pages;
  }

  lemma OutcomeRowsReport(env: Env, res: nat -> Result, total: nat)
    ensures RowsReport(Outcome(env, res, total).rows, res, total)
  {
    OutcomeRows(env, res, total);
    hide Outcome;
  }

  lemma MeanReported(rows: map<nat, Row>, res: nat -> Result, n: nat)
    requires RowsReport(rows, res, n)
    ensures forall p | p in CompletedPages(rows, n) :: p in rows
    ensures var k := |set p: nat | 1 <= p <= n && res(p).ok && res(p).confidence > 0.0|;
      Mean(Confidences(rows, CompletedPages(rows, n))) == if k == 0 then 0.0 else ReportedSum(res, n) / k as real
  {
    ConfidencesReported(rows, res, n);
    hide Confidences, CompletedPages, Sum, ReportedSum, RowsReport;
  }

  /** The event of a completed job announces the mean of the confidences that were
      reported, or 0 when none was. */
  lemma AnnouncedConfidence(env: Env, res: nat -> Result, total: nat)
    requires Outcome(env, res, total).status == PagePipeline.JobCompleted
    ensures var k := |set p: nat | 1 <= p <= total && res(p).ok && res(p).confidence > 0.0|;
      var events := Outcome(env, res, total).events;
      && |events| == 1 && events[0].DocumentProcessed?
      && events[0].ocrConfidence == if k == 0 then 0.0 else ReportedSum(res, total) / k as real
  {
    var before := Recorded(env, res, total, PagePipeline.PageSet(total), PagePipeline.Processing);
    assert before.total == total && before.events == [];
    OutcomeIs(env, res, total);
    hide Outcome, Assemble, Confidences, CompletedPages, Mean, Recorded;
    AssembleKeepsRows(env, before);
    OutcomeRowsReport(env, res, total);
    hide RowsReport;
    MeanReported(before.rows, res, total);
    CompletedEvent(env, before);
  }

  lemma CompletedEvent(env: Env, db: Db)
    requires Assemble(env, db).status == PagePipeline.JobCompleted && db.events == []
    ensures forall p | p in CompletedPages(db.rows, db.total) :: p in db.rows
    ensures var events := Assemble(env, db).events;
      && |events| == 1 && events[0].DocumentProcessed?
      && events[0].ocrConfidence == Mean(Confidences(db.rows, CompletedPages(db.rows, db.total)))
  {
    CompletedPagesHaveRows(db.rows, db.total);
    hide ChunksOf, CompletedPages, DlpJobsOf, Confidences, Mean, FailureRate;
  }

  lemma {:induction false} SumBounds(xs: seq<real>, lo: real, hi: real)
    requires forall i | 0 <= i < |xs| :: lo <= xs[i] <= hi
    ensures lo * (|xs| as real) <= Sum(xs) <= hi * (|xs| as real)
  {
    if xs != [] {
      var last := |xs| - 1;
      SumBounds(xs[..last], lo, hi);
    }
  }

  /** The mean confidence lies between the reported confidences. */
  lemma MeanBounds(xs: seq<real>, lo: real, hi: real)
    requires xs != [] && forall i | 0 <= i < |xs| :: lo <= xs[i] <= hi
    ensures lo <= Mean(xs) <= hi
  {
    SumBounds(xs, lo, hi);
  }
}
