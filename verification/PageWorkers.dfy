/** SplitFile (internal/processors/splitter.go) and the OCR worker's handling of
    one page job (cmd/ocrworker), and what they have to do with the steps of
    PagePipeline. */
module PageWorkers {
  import opened Options
  import opened PagePipeline
  import opened Collections
  import opened Runs

  // ----- the splitter -----

  datatype PageJob = PageJob(fileId: string, page: nat, total: nat, classification: string)

  /** How the calls of SplitFile come out. `classes` is None when classification
      fails; `lost` are the pages whose message cannot be written. */
  datatype SplitCalls = SplitCalls(
    download: bool, pages: Option<nat>, create: bool, classes: Option<seq<Option<string>>>, insert: bool,
    lost: set<nat>)

  datatype SplitError =
    | DownloadFailed | CountFailed | NoPages | CreateFailed | ClassifyFailed | InsertFailed | ProduceFailed

  datatype Job = Job(total: nat, status: JobStatus)

  function ClassOf(classes: seq<Option<string>>, i: nat): string {
    if i < |classes| then classes[i].GetOr("unknown") else "unknown"
  }

  /** The first calls that go wrong, in the order they are made. */
  function SplitFault(calls: SplitCalls): Option<SplitError> {
    if !calls.download then Some(DownloadFailed)
    else if calls.pages.None? then Some(CountFailed)
    else if calls.pages.value == 0 then Some(SplitError.NoPages)
    else if !calls.create then Some(CreateFailed)
    else if calls.classes.None? then Some(ClassifyFailed)
    else if !calls.insert then Some(InsertFailed)
    else if calls.lost * PageSet(calls.pages.value) != {} then Some(ProduceFailed)
    else None
  }

  function JobAfter(calls: SplitCalls): Option<Job> {
    match SplitFault(calls)
    case None => Some(Job(calls.pages.value, Processing))
    case Some(ClassifyFailed) | Some(InsertFailed) | Some(ProduceFailed) => Some(Job(calls.pages.value, JobFailed))
    case _ => None
  }

  function JobOf(fileId: string, total: nat, classes: seq<Option<string>>, page: nat): PageJob
    requires page >= 1
  {
    PageJob(fileId, page, total, ClassOf(classes, page - 1))
  }

  /** The page rows SplitFile leaves. */
  function RowsAfter(calls: SplitCalls): map<nat, PageStatus> {
    if SplitFault(calls) in {None, Some(ProduceFailed)} then map p | p in PageSet(calls.pages.value) :: Pending
    else map[]
  }

  /** The messages of the pages up to n that are not lost, in page order. */
  function Messages(fileId: string, total: nat, classes: seq<Option<string>>, lost: set<nat>, n: nat): seq<PageJob> {
    if n == 0 then []
    else if n in lost then Messages(fileId, total, classes, lost, n - 1)
    else Messages(fileId, total, classes, lost, n - 1) + [JobOf(fileId, total, classes, n)]
  }

  function MessagesAfter(fileId: string, calls: SplitCalls): seq<PageJob> {
    if SplitFault(calls) in {None, Some(ProduceFailed)}
    then Messages(fileId, calls.pages.value, calls.classes.value, calls.lost, calls.pages.value) else []
  }

  function PagesOf(messages: seq<PageJob>): multiset<nat> {
    if messages == [] then multiset{} else Put(PagesOf(messages[..|messages| - 1]), messages[|messages| - 1].page)
  }

  lemma SentUpTo(lost: set<nat>, n: nat)
    requires n > 0
    ensures n !in PageSet(n - 1)
    ensures PageSet(n) - lost == if n in lost then PageSet(n - 1) - lost else PageSet(n - 1) - lost + {n}
    ensures lost * PageSet(n) == {} <==> lost * PageSet(n - 1) == {} && n !in lost
  {
    assert PageSet(n) == PageSet(n - 1) + {n};
    assert n in lost ==> n in lost * PageSet(n);
    assert lost * PageSet(n - 1) <= lost * PageSet(n);
    hide PageSet;
  }

  lemma PagesOfMore(messages: seq<PageJob>, m: PageJob)
    ensures PagesOf(messages + [m]) == Put(PagesOf(messages), m.page)
  {
    assert (messages + [m])[..|messages|] == messages;
  }

  lemma OneMoreMessage(earlier: seq<PageJob>, next: PageJob, lost: set<nat>)
    requires next.page > 0 && PagesOf(earlier) == multiset(PageSet(next.page - 1) - lost)
    ensures PagesOf(if next.page in lost then earlier else earlier + [next]) == multiset(PageSet(next.page) - lost)
  {
    hide *;
    SentUpTo(lost, next.page);
    if next.page !in lost {
      PagesOfMore(earlier, next);
      PutToSet(PageSet(next.page - 1) - lost, next.page);
    }
  }

  /** One message for each page up to n that is not lost. */
  lemma {:induction false} MessagesCover(fileId: string, total: nat, classes: seq<Option<string>>, lost: set<nat>,
                                         n: nat)
    ensures PagesOf(Messages(fileId, total, classes, lost, n)) == multiset(PageSet(n) - lost)
  {
    if n == 0 {
      assert PageSet(0) - lost == {};
    } else {
      hide PageSet, PagesOf;
      MessagesCover(fileId, total, classes, lost, n - 1);
      OneMoreMessage(Messages(fileId, total, classes, lost, n - 1), JobOf(fileId, total, classes, n), lost);
    }
  }

  /** With none lost, message k is that of page k + 1. */
  lemma {:induction false} MessagesInOrder(fileId: string, total: nat, classes: seq<Option<string>>, lost: set<nat>,
                                           n: nat)
    requires forall p | 1 <= p <= n :: p !in lost
    ensures var messages := Messages(fileId, total, classes, lost, n);
      |messages| == n && forall k | 0 <= k < n ::
        messages[k] == PageJob(fileId, k + 1, total,
                               if k < |classes| && classes[k].Some? then classes[k].value else "unknown")
  {
    if n > 0 {
      MessagesInOrder(fileId, total, classes, lost, n - 1);
    }
  }

  /** The message of its page, with the total and the page's classification. */
  ghost predicate IsMessage(m: PageJob, fileId: string, total: nat, classes: seq<Option<string>>) {
    m.page >= 1 && m == PageJob(fileId, m.page, total,
      if m.page <= |classes| && classes[m.page - 1].Some? then classes[m.page - 1].value else "unknown")
  }

  /** The messages are those of the pages up to n that are not lost, in page order. */
  ghost predicate AreMessages(sent: seq<PageJob>, fileId: string, total: nat, classes: seq<Option<string>>,
                              lost: set<nat>, n: nat)
  {
    && (forall m | m in sent :: m.page <= n && m.page !in lost && IsMessage(m, fileId, total, classes))
    && (forall i, j | 0 <= i < j < |sent| :: sent[i].page < sent[j].page)
    && Cover(sent, lost, n)
  }

  ghost predicate Cover(sent: seq<PageJob>, lost: set<nat>, n: nat) {
    forall p | 1 <= p <= n && p !in lost :: exists m :: m in sent && m.page == p
  }

  lemma JobIs(fileId: string, total: nat, classes: seq<Option<string>>, page: nat)
    requires page >= 1
    ensures var m := JobOf(fileId, total, classes, page); m.page == page && IsMessage(m, fileId, total, classes)
  {
  }

  lemma CoverMore(sent: seq<PageJob>, next: PageJob, lost: set<nat>)
    requires next.page > 0 && Cover(sent, lost, next.page - 1)
    ensures next.page in lost ==> Cover(sent, lost, next.page)
    ensures Cover(sent + [next], lost, next.page)
  {
    var more := sent + [next];
    assert more[|sent|] == next;
    forall p | 1 <= p <= next.page && p !in lost ensures exists m :: m in more && m.page == p {
      if p < next.page {
        var m :| m in sent && m.page == p;
        assert m in more;
      }
    }
  }

  lemma AreMessagesMore(sent: seq<PageJob>, fileId: string, total: nat, classes: seq<Option<string>>,
                        lost: set<nat>, n: nat)
    requires n > 0 && AreMessages(sent, fileId, total, classes, lost, n - 1)
    ensures AreMessages(if n in lost then sent else sent + [JobOf(fileId, total, classes, n)],
                        fileId, total, classes, lost, n)
  {
    hide Cover, IsMessage, JobOf;
    JobIs(fileId, total, classes, n);
    CoverMore(sent, JobOf(fileId, total, classes, n), lost);
  }

  lemma {:induction false} MessagesAre(fileId: string, total: nat, classes: seq<Option<string>>, lost: set<nat>, n: nat)
    ensures AreMessages(Messages(fileId, total, classes, lost, n), fileId, total, classes, lost, n)
  {
    hide JobOf;
    if n == 0 {
      assert Messages(fileId, total, classes, lost, 0) == [];
    } else {
      hide AreMessages;
      MessagesAre(fileId, total, classes, lost, n - 1);
      AreMessagesMore(Messages(fileId, total, classes, lost, n - 1), fileId, total, classes, lost, n);
    }
  }

  /** What SplitFile leaves, fault by fault. */
  lemma SplitMeans(fileId: string, calls: SplitCalls)
    ensures SplitFault(calls) ==
      if !calls.download then Some(DownloadFailed)
      else if calls.pages.None? then Some(CountFailed)
      else if calls.pages == Some(0) then Some(SplitError.NoPages)
      else if !calls.create then Some(CreateFailed)
      else if calls.classes.None? then Some(ClassifyFailed)
      else if !calls.insert then Some(InsertFailed)
      else if exists p :: p in calls.lost && 1 <= p <= calls.pages.value then Some(ProduceFailed)
      else None
    ensures SplitFault(calls) in {None, Some(ClassifyFailed), Some(InsertFailed), Some(ProduceFailed)} ==>
      calls.pages.Some? &&
      JobAfter(calls) == Some(Job(calls.pages.value, if SplitFault(calls) == None then Processing else JobFailed))
    ensures SplitFault(calls) in {Some(DownloadFailed), Some(CountFailed), Some(SplitError.NoPages), Some(CreateFailed)}
      ==> JobAfter(calls) == None
    ensures SplitFault(calls) in {None, Some(ProduceFailed)} ==>
      && calls.classes.Some?
      && (forall p :: p in RowsAfter(calls) <==> 1 <= p <= calls.pages.value)
      && (forall p | p in RowsAfter(calls) :: RowsAfter(calls)[p] == Pending)
    ensures SplitFault(calls) !in {None, Some(ProduceFailed)} ==>
      RowsAfter(calls) == map[] && MessagesAfter(fileId, calls) == []
    ensures SplitFault(calls) in {None, Some(ProduceFailed)} ==>
      AreMessages(MessagesAfter(fileId, calls), fileId, calls.pages.value, calls.classes.value, calls.lost,
                  calls.pages.value)
  {
    hide Messages, AreMessages;
    if calls.pages.Some? { LostPages(calls.lost, calls.pages.value); }
    if SplitFault(calls) in {None, Some(ProduceFailed)} {
      MessagesAre(fileId, calls.pages.value, calls.classes.value, calls.lost, calls.pages.value);
    }
  }

  lemma LostPages(lost: set<nat>, total: nat)
    ensures lost * PageSet(total) != {} <==> exists p :: p in lost && 1 <= p <= total
  {
    if lost * PageSet(total) != {} {
      HasElement(lost * PageSet(total));
      var p :| p in lost * PageSet(total);
      assert p in lost;
    }
    if p :| p in lost && 1 <= p <= total { assert p in lost * PageSet(total); }
  }

  class SplitterTables {
    var job: Option<Job>
    var rows: map<nat, PageStatus>
    var pageJobs: seq<PageJob>

    constructor ()
      ensures job == None && rows == map[] && pageJobs == []
    {
      job, rows, pageJobs := None, map[], [];
    }

    /** Appends the messages of the pages that are not lost; an error if any is. */
    method WriteMessages(messages: seq<PageJob>, ghost fileId: string, total: nat, ghost classes: seq<Option<string>>,
                         lost: set<nat>)
      returns (ok: bool)
      requires |messages| == total && forall k | 0 <= k < total :: messages[k] == JobOf(fileId, total, classes, k + 1)
      modifies `pageJobs
      ensures ok <==> lost * PageSet(total) == {}
      ensures pageJobs == old(pageJobs) + Messages(fileId, total, classes, lost, total)
    {
      ok := true;
      hide PageSet;
      for i := 0 to total
        invariant ok <==> lost * PageSet(i) == {}
        invariant pageJobs == old(pageJobs) + Messages(fileId, total, classes, lost, i)
      {
        SentUpTo(lost, i + 1);
        if messages[i].page in lost { ok := false; } else { pageJobs := pageJobs + [messages[i]]; }
      }
    }

    /** The page rows and the messages, by page. */
    method PreparePages(fileId: string, total: nat, classes: seq<Option<string>>)
      returns (pageResults: array<(nat, PageStatus)>, messages: seq<PageJob>)
      ensures fresh(pageResults) && pageResults.Length == total == |messages|
      ensures forall k | 0 <= k < total :: pageResults[k] == (k + 1, Pending)
      ensures forall k | 0 <= k < total ::
        messages[k] == PageJob(fileId, k + 1, total,
                               if k < |classes| && classes[k].Some? then classes[k].value else "unknown")
      ensures forall k | 0 <= k < total :: messages[k] == JobOf(fileId, total, classes, k + 1)
    {
      pageResults := new (nat, PageStatus)[total];
      messages := [];
      for i := 0 to total
        invariant |messages| == i
        invariant forall k | 0 <= k < i :: pageResults[k] == (k + 1, Pending)
        invariant forall k | 0 <= k < i :: messages[k] == JobOf(fileId, total, classes, k + 1)
      {
        pageResults[i] := (i + 1, Pending);
        var classification := "unknown";
        if i < |classes| && classes[i].Some? { classification := classes[i].value; }
        messages := messages + [PageJob(fileId, i + 1, total, classification)];
      }
    }

    /** With no fault there is a job in processing with a pending row and a message
        for each page from 1 to the total, in order. A fault before the job row
        leaves no job, a later one leaves the job failed; a fault in writing the
        messages leaves the rows and the other messages. */
    method SplitFile(fileId: string, calls: SplitCalls) returns (error: Option<SplitError>)
      requires job == None && rows == map[]
      modifies this
      ensures error ==
        if !calls.download then Some(DownloadFailed)
        else if calls.pages.None? then Some(CountFailed)
        else if calls.pages == Some(0) then Some(SplitError.NoPages)
        else if !calls.create then Some(CreateFailed)
        else if calls.classes.None? then Some(ClassifyFailed)
        else if !calls.insert then Some(InsertFailed)
        else if exists p :: p in calls.lost && 1 <= p <= calls.pages.value then Some(ProduceFailed)
        else None
      ensures job == JobAfter(calls) && rows == RowsAfter(calls)
      ensures error in {None, Some(ClassifyFailed), Some(InsertFailed), Some(ProduceFailed)} ==>
        calls.pages.Some? && job == Some(Job(calls.pages.value, if error == None then Processing else JobFailed))
      ensures error in {Some(DownloadFailed), Some(CountFailed), Some(SplitError.NoPages), Some(CreateFailed)} ==>
        job == None
      ensures error in {None, Some(ProduceFailed)} ==>
        && calls.classes.Some?
        && (forall p :: p in rows <==> 1 <= p <= calls.pages.value) && (forall p | p in rows :: rows[p] == Pending)
      ensures error !in {None, Some(ProduceFailed)} ==> rows == map[] && pageJobs == old(pageJobs)
      ensures pageJobs == old(pageJobs) + MessagesAfter(fileId, calls)
      ensures error in {None, Some(ProduceFailed)} ==>
        var classes, sent := calls.classes.value, pageJobs[|old(pageJobs)|..];
        && (forall m | m in sent :: 1 <= m.page <= calls.pages.value && m.page !in calls.lost
              && m == PageJob(fileId, m.page, calls.pages.value,
                   if m.page <= |classes| && classes[m.page - 1].Some? then classes[m.page - 1].value else "unknown"))
        && (forall i, j | 0 <= i < j < |sent| :: sent[i].page < sent[j].page)
        && (forall p | 1 <= p <= calls.pages.value && p !in calls.lost :: exists m :: m in sent && m.page == p)
    {
      SplitMeans(fileId, calls);
      hide SplitFault, JobAfter, RowsAfter, MessagesAfter;
      error := RunSplit(fileId, calls);
      assert pageJobs[|old(pageJobs)|..] == MessagesAfter(fileId, calls);
    }

    method RunSplit(fileId: string, calls: SplitCalls) returns (error: Option<SplitError>)
      requires job == None && rows == map[]
      modifies this
      ensures error == SplitFault(calls)
      ensures job == JobAfter(calls) && rows == RowsAfter(calls)
      ensures pageJobs == old(pageJobs) + MessagesAfter(fileId, calls)
    {
      if !calls.download { return Some(DownloadFailed); }
      if calls.pages.None? { return Some(CountFailed); }
      var total := calls.pages.value;
      if total == 0 { return Some(SplitError.NoPages); }
      if !calls.create { return Some(CreateFailed); }
      job := Some(Job(total, Splitting));
      if calls.classes.None? {
        job := Some(Job(total, JobFailed));
        return Some(ClassifyFailed);
      }
      var pageResults, messages := PreparePages(fileId, total, calls.classes.value);
      hide JobOf, PageSet, Messages;
      if !calls.insert {
        job := Some(Job(total, JobFailed));
        return Some(InsertFailed);
      }
      InsertRows(pageResults);
      var ok := WriteMessages(messages, fileId, total, calls.classes.value, calls.lost);
      if !ok {
        job := Some(Job(total, JobFailed));
        return Some(ProduceFailed);
      }
      job := Some(Job(total, Processing));
      error := None;
    }

    method InsertRows(results: array<(nat, PageStatus)>)
      requires rows == map[] && forall k | 0 <= k < results.Length :: results[k] == (k + 1, Pending)
      modifies `rows
      ensures rows == map p | p in PageSet(results.Length) :: Pending
    {
      for i := 0 to results.Length
        invariant rows == map p | p in PageSet(i) :: Pending
      {
        rows := rows[results[i].0 := results[i].1];
      }
    }
  }

  // ----- every split is a run of the machine -----

  function WriteActs(lost: set<nat>, n: nat): seq<Action> {
    if n == 0 then []
    else if n in lost then WriteActs(lost, n - 1)
    else WriteActs(lost, n - 1) + [Splitter(WritePage(n))]
  }

  /** The splitter's steps once the job row is there. */
  function SplitActs(calls: SplitCalls): seq<Action>
    requires JobAfter(calls).Some?
  {
    match SplitFault(calls)
    case None => [Splitter(InsertRows)] + WriteActs(calls.lost, calls.pages.value) + [Splitter(Return)]
    case Some(ProduceFailed) => [Splitter(InsertRows)] + WriteActs(calls.lost, calls.pages.value) + [Splitter(Abort)]
    case Some(_) => [Splitter(Abort)]
  }

  /** The pages up to n written but for the lost ones. */
  function Split(s: State, lost: set<nat>, n: nat): State {
    s.(flow := s.flow.(unwritten := multiset(PageSet(s.conf.total) - (PageSet(n) - lost)),
                       jobs := multiset(PageSet(n) - lost)))
  }

  lemma SentSets(total: nat, lost: set<nat>, n: nat)
    requires 0 < n <= total && n !in lost
    ensures var sent := PageSet(n - 1) - lost;
      && n !in sent && PageSet(n) - lost == sent + {n}
      && n in PageSet(total) - sent && PageSet(total) - (PageSet(n) - lost) == PageSet(total) - sent - {n}
  {
    SentUpTo(lost, n);
    hide PageSet;
  }

  lemma WriteOne(s: State, lost: set<nat>, n: nat)
    requires s.phase == Writing && 0 < n <= s.conf.total && n !in lost
    ensures Step(Split(s, lost, n - 1), Splitter(WritePage(n))) == Split(s, lost, n)
  {
    var sent := PageSet(n - 1) - lost;
    SentSets(s.conf.total, lost, n);
    hide PageSet, TakeOut, Put;
    TakeFromSet(PageSet(s.conf.total) - sent, n);
    PutToSet(sent, n);
  }

  lemma TakeFromSet(a: set<nat>, x: nat)
    requires x in a
    ensures x in multiset(a) && TakeOut(multiset(a), x) == multiset(a - {x})
  {}

  lemma PutToSet(a: set<nat>, x: nat)
    requires x !in a
    ensures Put(multiset(a), x) == multiset(a + {x})
  {}

  lemma LostStays(s: State, lost: set<nat>, n: nat)
    requires 0 < n && n in lost
    ensures Split(s, lost, n - 1) == Split(s, lost, n)
  {
    assert PageSet(n - 1) - lost == PageSet(n) - lost;
  }

  lemma {:induction false} WriteRun(s: State, lost: set<nat>, n: nat)
    requires s.phase == Writing && n <= s.conf.total && s == Split(s, lost, 0)
    ensures Run(Step, s, WriteActs(lost, n)) == Split(s, lost, n)
  {
    hide Step, Split;
    if n > 0 {
      WriteRun(s, lost, n - 1);
      if n in lost {
        LostStays(s, lost, n);
      } else {
        WriteOne(s, lost, n);
        RunConcat(Step, s, WriteActs(lost, n - 1), [Splitter(WritePage(n))]);
        assert [Splitter(WritePage(n))][1..] == [];
      }
    }
  }

  /** Up to the last write of the job row. */
  lemma WrittenRun(conf: Config, lost: set<nat>, last: SplitterAction)
    ensures var s := Step(Init(conf), Splitter(InsertRows));
      Run(Step, Init(conf), [Splitter(InsertRows)] + WriteActs(lost, conf.total) + [Splitter(last)])
        == Step(Split(s, lost, conf.total), Splitter(last))
  {
    var s := Step(Init(conf), Splitter(InsertRows));
    assert PageSet(0) - lost == {} && PageSet(conf.total) - {} == PageSet(conf.total);
    assert s == Split(s, lost, 0);
    hide Step, Split;
    RunConcat(Step, Init(conf), [Splitter(InsertRows)] + WriteActs(lost, conf.total), [Splitter(last)]);
    RunConcat(Step, Init(conf), [Splitter(InsertRows)], WriteActs(lost, conf.total));
    assert [Splitter(InsertRows)][1..] == [] && [Splitter(last)][1..] == [];
    StillWriting(conf);
    WriteRun(s, lost, conf.total);
  }

  lemma StillWriting(conf: Config)
    ensures var s := Step(Init(conf), Splitter(InsertRows)); s.phase == Writing && s.conf == conf
  {}

  lemma WrittenEnds(conf: Config, lost: set<nat>)
    ensures var s := Split(Step(Init(conf), Splitter(InsertRows)), lost, conf.total);
      var rows := map p | p in PageSet(conf.total) :: Pending;
      var returned, aborted := Step(s, Splitter(Return)), Step(s, Splitter(Abort));
      && (lost * PageSet(conf.total) == {} ==>
            (returned.phase == Returned && returned.db == Tables(Processing, 0, 0, rows)
             && returned.flow.jobs == multiset(PageSet(conf.total) - lost)))
      && aborted.phase == Aborted && aborted.db == Tables(JobFailed, 0, 0, rows)
      && aborted.flow.jobs == multiset(PageSet(conf.total) - lost)
  {
    hide PageSet;
    assert lost * PageSet(conf.total) == {} ==> PageSet(conf.total) - (PageSet(conf.total) - lost) == {};
  }

  /** Whichever call goes wrong once the job row is there, SplitFile leaves the
      status, the rows and the messages that the splitter of the machine leaves. */
  lemma SplitIsRun(fileId: string, calls: SplitCalls, conf: Config)
    requires JobAfter(calls) != None && conf.total == calls.pages.value
    ensures var t := Run(Step, Init(conf), SplitActs(calls));
      && t.db == Tables(JobAfter(calls).value.status, 0, 0, RowsAfter(calls))
      && t.flow.jobs == PagesOf(MessagesAfter(fileId, calls))
      && (t.phase == Returned <==> SplitFault(calls) == None)
  {
    var total := conf.total;
    if SplitFault(calls) in {None, Some(ProduceFailed)} {
      MessagesCover(fileId, total, calls.classes.value, calls.lost, total);
      WrittenRun(conf, calls.lost, if SplitFault(calls) == None then Return else Abort);
      WrittenEnds(conf, calls.lost);
      hide Run, Messages, PagesOf, PageSet, Step, Split, Init;
    } else {
      AbortedAtOnce(conf);
      hide Run, Step, Init, PageSet;
    }
  }

  lemma AbortedAtOnce(conf: Config)
    ensures var t := Run(Step, Init(conf), [Splitter(Abort)]);
      t.db == Tables(JobFailed, 0, 0, map[]) && t.flow.jobs == multiset{} && t.phase == Aborted
  {
    assert [Splitter(Abort)][1..] == [];
    hide PageSet;
  }

  // ----- the OCR worker -----

  /** How the calls for one page come out: whether the cached file is still there,
      the path of the download, and the extraction. */
  datatype Extraction = Text(content: string, confidence: real) | TimedOut | Broken

  datatype OcrCalls = OcrCalls(present: bool, download: Option<string>, extract: Extraction, produce: bool)

  datatype Result =
    | PageText(fileId: string, page: nat, total: nat, content: string, confidence: real)
    | PageError(fileId: string, page: nat, total: nat, errorType: string)

  /** The worker's statements in the machine: the page goes from the queue to the
      results of the outcome it had, or is lost with its result. */
  lemma OcrRun(f: Flow, workers: nat, page: nat)
    requires page in f.jobs && |f.inOcr| < workers
    ensures var taken, rest := OcrStep(f, workers, TakeJob, page), f.(jobs := TakeOut(f.jobs, page));
      && OcrStep(taken, workers, Produce(true), page) == rest.(results := f.results.(ok := Put(f.results.ok, page)))
      && OcrStep(taken, workers, Produce(false), page) == rest.(results := f.results.(bad := Put(f.results.bad, page)))
      && OcrStep(taken, workers, Lose, page) == rest.(lost := Put(f.lost, page))
  {
    assert TakeOut(Put(f.inOcr, page), page) == f.inOcr;
  }

  class OcrWorker {
    /** The local path of each file's PDF. */
    var cache: map<string, string>
    var results: seq<Result>
    /** The file each path was downloaded for. */
    ghost var origin: map<string, string>

    ghost predicate Valid()
      reads this
    {
      forall f | f in cache :: cache[f] in origin && origin[cache[f]] == f
    }

    constructor ()
      ensures Valid() && cache == map[] && results == [] && origin == map[]
    {
      cache, results, origin := map[], [], map[];
    }

    /** The path is always one downloaded for the file asked for. */
    method GetOrDownload(fileId: string, calls: OcrCalls) returns (path: Option<string>)
      requires Valid() && (calls.download.Some? ==> calls.download.value !in origin)
      modifies `cache, `origin
      ensures Valid() && old(origin.Keys) <= origin.Keys
      ensures path.Some? <==> (fileId in old(cache) && calls.present) || calls.download.Some?
      ensures path.Some? ==>
        path.value in origin && origin[path.value] == fileId && fileId in cache && cache[fileId] == path.value
      ensures path.None? ==> fileId !in cache
      ensures forall f | f != fileId :: (f in cache <==> f in old(cache)) && (f in cache ==> cache[f] == old(cache[f]))
    {
      if fileId in cache {
        if calls.present { return Some(cache[fileId]); }
        cache := cache - {fileId};
      }
      path := calls.download;
      if path.Some? {
        cache, origin := cache[fileId := path.value], origin[path.value := fileId];
      }
    }

    /** Every page job is answered by one result for its page, unless the write of
        the result is lost: text when the file could be had and read, else an
        error that says which failed. */
    method ProcessPageJob(job: PageJob, calls: OcrCalls)
      requires Valid() && (calls.download.Some? ==> calls.download.value !in origin)
      modifies this
      ensures Valid()
      ensures !calls.produce ==> results == old(results)
      ensures calls.produce ==> |results| == |old(results)| + 1 && results[..|old(results)|] == old(results)
      ensures calls.produce ==> var r := results[|old(results)|];
        && r.fileId == job.fileId && r.page == job.page && r.total == job.total
        && (r.PageText? <==> job.fileId in cache && calls.extract.Text?)
        && (r.PageText? ==> r.content == calls.extract.content && r.confidence == calls.extract.confidence)
        && (r.PageError? ==>
              r.errorType == if job.fileId !in cache then "s3_error"
                             else if calls.extract.TimedOut? then "hung_process" else "processing_error")
      ensures job.fileId in cache <==> (job.fileId in old(cache) && calls.present) || calls.download.Some?
    {
      var path := GetOrDownload(job.fileId, calls);
      var result;
      if path.None? {
        result := PageError(job.fileId, job.page, job.total, "s3_error");
      } else {
        match calls.extract {
          case Text(content, confidence) => result := PageText(job.fileId, job.page, job.total, content, confidence);
          case TimedOut => result := PageError(job.fileId, job.page, job.total, "hung_process");
          case Broken => result := PageError(job.fileId, job.page, job.total, "processing_error");
        }
      }
      if calls.produce { results := results + [result]; }
    }
  }
}
