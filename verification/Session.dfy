/** Processing sessions (internal/processors/session.go): the session object
    that AddFilesToSession, StartSession, StopSession and GetSessionProgress
    share, and the goroutines of processSessionFiles. */
module Session {
  import opened Collections

  datatype SessionStatus = SessionPending | Running | SessionCompleted | Cancelled

  datatype JobStatus = Pending | Processing | Completed | Failed

  /** What sessionCtx.mutex guards. */
  datatype Ctx = Ctx(status: SessionStatus, totalFiles: nat, processedFiles: nat, failedFiles: nat,
                     totalChunks: nat, jobs: map<nat, JobStatus>)

  function JobsWith(jobs: map<nat, JobStatus>, status: JobStatus): set<nat> {
    set f | f in jobs && jobs[f] == status
  }

  function Terminal(jobs: map<nat, JobStatus>): set<nat> {
    JobsWith(jobs, Completed) + JobsWith(jobs, Failed)
  }

  function Progress(c: Ctx): real {
    if c.totalFiles > 0 then |Terminal(c.jobs)| as real / c.totalFiles as real else 0.0
  }

  function Started(c: Ctx): Ctx {
    if c.status == SessionPending then c.(status := Running) else c
  }

  function Stopped(c: Ctx): Ctx {
    if c.status == Running then c.(status := Cancelled) else c
  }

  function ToSet(s: seq<nat>): set<nat> { set x | x in s }

  lemma VisitOne(jobs: map<nat, JobStatus>, rest: set<nat>, f: nat)
    requires f in rest && f in jobs
    ensures |Terminal(jobs) - (rest - {f})|
         == |Terminal(jobs) - rest| + if jobs[f] == Completed || jobs[f] == Failed then 1 else 0
  {
    assert Terminal(jobs) - (rest - {f})
        == (Terminal(jobs) - rest) + if jobs[f] == Completed || jobs[f] == Failed then {f} else {};
  }

  // ----- the session object -----

  class SessionContext {
    var status: SessionStatus
    var totalFiles: nat
    var processedFiles: nat
    var failedFiles: nat
    var totalChunks: nat
    var jobs: map<nat, JobStatus>

    function View(): Ctx
      reads this
    {
      Ctx(status, totalFiles, processedFiles, failedFiles, totalChunks, jobs)
    }

    constructor ()
      ensures View() == Ctx(SessionPending, 0, 0, 0, 0, map[])
    {
      status, totalFiles, processedFiles, failedFiles, totalChunks, jobs := SessionPending, 0, 0, 0, 0, map[];
    }

    /** The in-memory part of AddFilesToSession, for at most `maximum` files. */
    method AddFiles(files: seq<nat>, maximum: nat) returns (ok: bool)
      modifies this`totalFiles, this`jobs
      ensures ok <==> |files| <= maximum
      ensures !ok ==> View() == old(View())
      ensures ok ==> View() == old(View()).(totalFiles := |files|, jobs := WithFiles(old(jobs), files))
      ensures ok ==> forall f :: f in jobs <==> f in old(jobs) || f in files
      ensures ok ==> forall f | f in jobs :: jobs[f] == if f in files then Pending else old(jobs)[f]
    {
      if |files| > maximum { return false; }
      totalFiles := |files|;
      for i := 0 to |files|
        invariant totalFiles == |files|
        invariant jobs == WithFiles(old(jobs), files[..i])
      {
        assert files[..i + 1] == files[..i] + [files[i]];
        jobs := jobs[files[i] := Pending];
      }
      assert files[..|files|] == files;
      ok := true;
    }

    /** The part of StartSession under the mutex. */
    method Start() returns (ok: bool)
      modifies this`status
      ensures View() == Started(old(View())) && (ok <==> old(status) == SessionPending)
      ensures status == if ok then Running else old(status)
    {
      ok := status == SessionPending;
      if ok { status := Running; }
    }

    /** The part of StopSession under the mutex. */
    method Stop() returns (ok: bool)
      modifies this`status
      ensures View() == Stopped(old(View())) && (ok <==> old(status) == Running)
      ensures status == if ok then Cancelled else old(status)
    {
      ok := status == Running;
      if ok { status := Cancelled; }
    }

    /** What GetSessionProgress reports and updateSessionProgress stores. */
    method GetProgress() returns (progress: real)
      ensures progress == Progress(View())
      ensures progress == if totalFiles == 0 then 0.0 else
        |set f | f in jobs && (jobs[f] == Completed || jobs[f] == Failed)| as real / totalFiles as real
    {
      var completedJobs := CountTerminal(jobs);
      progress := if totalFiles > 0 then completedJobs as real / totalFiles as real else 0.0;
    }
  }

  /** The counting loop of both, in whatever order the map is visited. */
  method CountTerminal(jobs: map<nat, JobStatus>) returns (n: nat)
    ensures n == |Terminal(jobs)| == |set f | f in jobs && (jobs[f] == Completed || jobs[f] == Failed)|
  {
    assert Terminal(jobs) == set f | f in jobs && (jobs[f] == Completed || jobs[f] == Failed);
    n := 0;
    var rest := jobs.Keys;
    assert Terminal(jobs) - rest == {};
    while rest != {}
      invariant rest <= jobs.Keys
      invariant n == |Terminal(jobs) - rest|
    {
      HasElement(rest);
      var f :| f in rest;
      VisitOne(jobs, rest, f);
      if jobs[f] == Completed || jobs[f] == Failed { n := n + 1; }
      rest := rest - {f};
    }
    assert Terminal(jobs) - rest == Terminal(jobs);
  }

  function WithFiles(jobs: map<nat, JobStatus>, files: seq<nat>): map<nat, JobStatus> {
    map f | f in jobs.Keys + ToSet(files) :: if f in files then Pending else jobs[f]
  }

  lemma {:induction false} DistinctCount(files: seq<nat>)
    ensures |ToSet(files)| <= |files|
    ensures |ToSet(files)| == |files| <==> NoRepeats(files)
  {
    if files != [] {
      var last := |files| - 1;
      var f := files[last];
      DistinctCount(files[..last]);
      assert files == files[..last] + [f];
      assert ToSet(files) == ToSet(files[..last]) + {f};
      if f in ToSet(files[..last]) {
        var i :| 0 <= i < last && files[i] == f;
      }
    }
  }

  /** A call makes TotalFiles the number of jobs if and only if it leaves out as
      many jobs of earlier calls as it repeats ids, since it overwrites the total
      but keeps the jobs: for distinct ids, if and only if it leaves out none, and
      on a first call if and only if the ids are distinct. */
  lemma TotalFilesCountsJobs(jobs: map<nat, JobStatus>, files: seq<nat>)
    ensures |WithFiles(jobs, files)| == |files| <==> |jobs.Keys - ToSet(files)| == |files| - |ToSet(files)|
    ensures NoRepeats(files) ==> (|WithFiles(jobs, files)| == |files| <==> jobs.Keys <= ToSet(files))
    ensures jobs == map[] ==> (|WithFiles(jobs, files)| == |files| <==> NoRepeats(files))
  {
    DistinctCount(files);
    var all := WithFiles(jobs, files);
    var left := jobs.Keys - ToSet(files);
    assert |all| == |all.Keys|;
    assert all.Keys == ToSet(files) + left;
    assert |ToSet(files) + left| == |ToSet(files)| + |left|;
    if jobs.Keys <= ToSet(files) { assert left == {}; }
    if |left| == 0 { assert forall f | f in jobs.Keys :: f !in left; }
  }
}
