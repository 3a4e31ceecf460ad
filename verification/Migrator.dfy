/** The database migrator (internal/database/migrate.go): migration files sorted
    by version, the table of applied versions, and runs that may stop anywhere. */
module Migrator {
  import opened Collections

  /** A file of the migrations directory, by its name there, and the versions its
      own statements add to the table. */
  datatype File = File(name: string, records: set<string>)

  // ----- versions -----

  function UpTo(s: string, stop: char): string {
    if s == "" || s[0] == stop then "" else [s[0]] + UpTo(s[1..], stop)
  }

  function Version(f: File): string { UpTo(f.name, '_') }

  predicate AllDigits(s: string) { forall i | 0 <= i < |s| :: '0' <= s[i] <= '9' }

  function Digits(s: string): int
    requires AllDigits(s)
  {
    if s == "" then 0 else 10 * Digits(s[..|s| - 1]) + (s[|s| - 1] as int - '0' as int)
  }

  /** A version that is not a number sorts as 0. */
  function Number(version: string): int {
    if AllDigits(version) then Digits(version)
    else if |version| > 1 && AllDigits(version[1..]) && version[0] == '-' then -Digits(version[1..])
    else if |version| > 1 && AllDigits(version[1..]) && version[0] == '+' then Digits(version[1..])
    else 0
  }

  lemma {:induction false} UpToStops(s: string, stop: char)
    ensures stop !in UpTo(s, stop) && UpTo(s, stop) <= s
    ensures UpTo(s, stop) == s || s[|UpTo(s, stop)|] == stop
  {
    if s != "" && s[0] != stop {
      UpToStops(s[1..], stop);
      var rest := UpTo(s[1..], stop);
      assert UpTo(s, stop) == [s[0]] + rest && s == [s[0]] + s[1..];
      assert s[..|rest| + 1] == [s[0]] + s[1..][..|rest|];
    }
  }

  /** The version of a file is its name up to the first underscore. */
  lemma VersionIs(f: File)
    ensures '_' !in Version(f) && Version(f) <= f.name
    ensures Version(f) == f.name || f.name[|Version(f)|] == '_'
  {
    UpToStops(f.name, '_');
  }

  /** Decimal numbers, with or without a sign. */
  lemma NumberIs(s: string, d: char)
    requires AllDigits(s) && '0' <= d <= '9'
    ensures Number("") == 0 && Number(s + [d]) == 10 * Number(s) + (d as int - '0' as int)
    ensures s != "" ==> Number("-" + s) == -Number(s) && Number("+" + s) == Number(s)
  {
    assert (s + [d])[..|s|] == s;
    assert ("-" + s)[0] == '-' && ("-" + s)[1..] == s;
    assert ("+" + s)[0] == '+' && ("+" + s)[1..] == s;
  }

  // ----- the sorted list -----

  predicate Before(f: File, g: File) { Number(Version(f)) < Number(Version(g)) }

  function Insert(f: File, sorted: seq<File>): seq<File> {
    if sorted == [] then [f]
    else if Before(f, sorted[|sorted| - 1]) then Insert(f, sorted[..|sorted| - 1]) + [sorted[|sorted| - 1]]
    else sorted + [f]
  }

  /** By version number; files with equal numbers keep their order. */
  function Sorted(files: seq<File>): seq<File> {
    if files == [] then [] else Insert(files[|files| - 1], Sorted(files[..|files| - 1]))
  }

  ghost predicate Ordered(files: seq<File>) {
    forall i, j | 0 <= i < j < |files| :: !Before(files[j], files[i])
  }

  lemma {:induction false} InsertOrders(f: File, sorted: seq<File>)
    requires Ordered(sorted)
    ensures Ordered(Insert(f, sorted)) && multiset(Insert(f, sorted)) == multiset(sorted) + multiset{f}
  {
    hide Number, Version;
    if sorted != [] && Before(f, sorted[|sorted| - 1]) {
      var n := |sorted| - 1;
      InsertOrders(f, sorted[..n]);
      assert sorted == sorted[..n] + [sorted[n]];
      var front := Insert(f, sorted[..n]);
      forall i | 0 <= i < |front| ensures !Before(sorted[n], front[i]) {
        assert front[i] in multiset(front);
        assert front[i] == f || front[i] in sorted[..n];
      }
    }
  }

  lemma {:induction false} SortedOrders(files: seq<File>)
    ensures Ordered(Sorted(files)) && multiset(Sorted(files)) == multiset(files)
    ensures var sorted := Sorted(files);
      forall i, j | 0 <= i < j < |sorted| :: Number(Version(sorted[i])) <= Number(Version(sorted[j]))
  {
    hide Number, Version;
    if files != [] {
      var n := |files| - 1;
      SortedOrders(files[..n]);
      InsertOrders(files[n], Sorted(files[..n]));
      assert files == files[..n] + [files[n]];
    }
  }

  /** A list in order stays as it is. */
  lemma {:induction false} SortedKeepsOrdered(files: seq<File>)
    requires Ordered(files)
    ensures Sorted(files) == files
  {
    hide Before;
    if files != [] {
      var n := |files| - 1;
      SortedKeepsOrdered(files[..n]);
      assert files == files[..n] + [files[n]];
    }
  }

  // ----- the specification -----

  /** The applied versions, and the files whose transactions committed, in order. */
  datatype Db = Db(applied: set<string>, executed: seq<File>)

  const FRESH := Db({}, [])

  function Marks(f: File): set<string> { f.records + {Version(f)} }

  function Commit(db: Db, f: File): Db { Db(db.applied + Marks(f), db.executed + [f]) }

  function CommitAll(db: Db, files: seq<File>): Db {
    if files == [] then db else Commit(CommitAll(db, files[..|files| - 1]), files[|files| - 1])
  }

  function Pending(files: seq<File>, applied: set<string>): seq<File> {
    if files == [] then [] else
    var last := files[|files| - 1];
    var earlier := Pending(files[..|files| - 1], applied);
    if Version(last) in applied then earlier else earlier + [last]
  }

  /** A call, and how many of its migrations commit before one fails. */
  datatype Call = Up(count: int, stop: nat) | All(stop: nat)

  function Planned(call: Call, pending: nat): (n: nat)
    ensures n <= pending
  {
    match call
    case All(_) => pending
    case Up(count, _) => if count > pending then pending else if count < 0 then 0 else count
  }

  predicate Succeeds(files: seq<File>, db: Db, call: Call) {
    call.stop >= Planned(call, |Pending(files, db.applied)|)
  }

  function After(files: seq<File>, db: Db, call: Call): Db {
    var pending := Pending(files, db.applied);
    var planned := Planned(call, |pending|);
    CommitAll(db, pending[..if call.stop < planned then call.stop else planned])
  }

  function AfterAll(files: seq<File>, db: Db, calls: seq<Call>): Db
    decreases |calls|
  {
    if calls == [] then db else AfterAll(files, After(files, db, calls[0]), calls[1..])
  }

  /** No file marks the version of a later one. */
  ghost predicate Independent(files: seq<File>) {
    forall i, j | 0 <= i < j < |files| :: Version(files[j]) !in Marks(files[i])
  }

  ghost predicate DistinctVersions(files: seq<File>) {
    forall i, j | 0 <= i < j < |files| :: Version(files[i]) != Version(files[j])
  }

  ghost predicate RecordsOwn(files: seq<File>) {
    forall f | f in files :: f.records <= {Version(f)}
  }

  /** With files that record at most their own version, being independent is the
      same as having distinct versions. */
  lemma IndependentIff(files: seq<File>)
    requires RecordsOwn(files)
    ensures Independent(files) <==> DistinctVersions(files)
  {}

  // ----- lemmas -----

  lemma {:induction false} CommitAllFacts(db: Db, files: seq<File>, v: string)
    ensures CommitAll(db, files).executed == db.executed + files
    ensures v in CommitAll(db, files).applied <==>
      v in db.applied || exists i :: 0 <= i < |files| && v in Marks(files[i])
  {
    if files != [] {
      var n := |files| - 1;
      CommitAllFacts(db, files[..n], v);
      assert db.executed + files == (db.executed + files[..n]) + [files[n]];
      if v in CommitAll(db, files[..n]).applied && v !in db.applied {
        var i :| 0 <= i < n && v in Marks(files[..n][i]);
        assert v in Marks(files[i]);
      }
      if exists i :: 0 <= i < |files| && v in Marks(files[i]) {
        var i :| 0 <= i < |files| && v in Marks(files[i]);
        assert i < n ==> files[..n][i] == files[i];
      }
    }
  }

  lemma CommitLast(db: Db, files: seq<File>, f: File)
    ensures CommitAll(db, files + [f]) == Commit(CommitAll(db, files), f)
  {
    assert (files + [f])[..|files|] == files;
  }

  lemma {:induction false} CommitAllJoins(db: Db, first: seq<File>, second: seq<File>)
    ensures CommitAll(CommitAll(db, first), second) == CommitAll(db, first + second)
  {
    if second == [] {
      assert first + second == first;
    } else {
      var n := |second| - 1;
      CommitLast(db, first + second[..n], second[n]);
      CommitLast(CommitAll(db, first), second[..n], second[n]);
      hide Commit, CommitAll;
      CommitAllJoins(db, first, second[..n]);
      LastJoins(first, second);
    }
  }

  lemma PendingLast(files: seq<File>, f: File, applied: set<string>)
    ensures Pending(files + [f], applied) ==
      if Version(f) in applied then Pending(files, applied) else Pending(files, applied) + [f]
  {
    assert (files + [f])[..|files|] == files;
  }

  lemma {:induction false} PendingSplits(first: seq<File>, second: seq<File>, applied: set<string>)
    ensures Pending(first + second, applied) == Pending(first, applied) + Pending(second, applied)
  {
    if second == [] {
      assert first + second == first;
    } else {
      hide Pending, Version;
      var n := |second| - 1;
      LastJoins(first, second);
      PendingLast(first + second[..n], second[n], applied);
      PendingLast(second[..n], second[n], applied);
      PendingSplits(first, second[..n], applied);
      var a, b, f := Pending(first, applied), Pending(second[..n], applied), [second[n]];
      assert (a + b) + f == a + (b + f);
    }
  }

  lemma {:induction false} AllPending(files: seq<File>, applied: set<string>)
    ensures Pending(files, applied) == files <==> forall f | f in files :: Version(f) !in applied
    ensures |Pending(files, applied)| <= |files|
  {
    if files != [] {
      var n := |files| - 1;
      AllPending(files[..n], applied);
      assert files == files[..n] + [files[n]];
    }
  }

  lemma {:induction false} NonePending(files: seq<File>, applied: set<string>)
    requires forall f | f in files :: Version(f) in applied
    ensures Pending(files, applied) == []
  {
    if files != [] { NonePending(files[..|files| - 1], applied); }
  }

  /** After the first n files, the rest is pending, less the versions marked. */
  lemma PendingAfter(files: seq<File>, n: nat)
    requires n <= |files|
    ensures var db := CommitAll(FRESH, files[..n]); Pending(files, db.applied) == Pending(files[n..], db.applied)
  {
    hide Version, CommitAll, Pending;
    var db := CommitAll(FRESH, files[..n]);
    forall f | f in files[..n] ensures Version(f) in db.applied { MarksOwn(FRESH, files[..n], f); }
    NonePending(files[..n], db.applied);
    PendingSplits(files[..n], files[n..], db.applied);
    assert files == files[..n] + files[n..];
  }

  lemma LaterIsUnmarked(files: seq<File>, n: nat, k: nat)
    requires n <= k < |files| && Independent(files)
    ensures Version(files[k]) !in CommitAll(FRESH, files[..n]).applied
  {
    hide Version, CommitAll, Marks;
    CommitAllFacts(FRESH, files[..n], Version(files[k]));
    assert forall i | 0 <= i < n :: files[..n][i] == files[i];
  }

  lemma IndependentPending(files: seq<File>, n: nat)
    requires n <= |files| && Independent(files)
    ensures Pending(files, CommitAll(FRESH, files[..n]).applied) == files[n..]
  {
    hide Version, Pending, CommitAll, Marks, Independent;
    var db := CommitAll(FRESH, files[..n]);
    PendingAfter(files, n);
    forall f | f in files[n..] ensures Version(f) !in db.applied {
      var j :| 0 <= j < |files| - n && files[n..][j] == f;
      LaterIsUnmarked(files, n, n + j);
    }
    AllPending(files[n..], db.applied);
  }

  // ----- main results -----

  /** The table and the log are those of the first n files. */
  ghost predicate AtPrefix(files: seq<File>, db: Db, n: nat)
    requires n <= |files|
  {
    db == CommitAll(FRESH, files[..n])
  }

  /** How many more of the pending files a call commits. */
  function Advance(call: Call, pending: nat): (n: nat)
    ensures n <= pending
  {
    if call.stop < Planned(call, pending) then call.stop else Planned(call, pending)
  }

  lemma CallRuns(files: seq<File>, db: Db, n: nat, call: Call)
    requires Independent(files) && n <= |files| && AtPrefix(files, db, n)
    ensures After(files, db, call) == CommitAll(db, files[n..][..Advance(call, |files| - n)])
    ensures Succeeds(files, db, call) <==> call.stop >= Planned(call, |files| - n)
  {
    IndependentPending(files, n);
    hide Pending, CommitAll, Version, Marks, Independent;
  }

  lemma CallAdvances(files: seq<File>, db: Db, n: nat, call: Call) returns (m: nat)
    requires Independent(files) && n <= |files| && AtPrefix(files, db, n)
    ensures n <= m <= |files| && AtPrefix(files, After(files, db, call), m)
    ensures Succeeds(files, db, call) ==> m == n + Planned(call, |files| - n)
    ensures Succeeds(files, db, call) && call.All? ==> m == |files|
  {
    CallRuns(files, db, n, call);
    hide Pending, CommitAll, Version, Marks, Independent, After, Succeeds;
    m := n + Advance(call, |files| - n);
    SlicesJoin(files, n, m);
    CommitAllJoins(FRESH, files[..n], files[n..][..m - n]);
  }

  /** Whatever calls are made and wherever they fail, what has been committed is
      at every point the first files of the sorted list, each once. */
  lemma {:induction false} RunsKeepPrefix(files: seq<File>, db: Db, n: nat, calls: seq<Call>) returns (m: nat)
    requires Independent(files) && n <= |files| && AtPrefix(files, db, n)
    ensures n <= m <= |files| && AtPrefix(files, AfterAll(files, db, calls), m)
    ensures AfterAll(files, db, calls).executed == files[..m]
    decreases |calls|
  {
    m := n;
    if calls != [] {
      var k := CallAdvances(files, db, n, calls[0]);
      m := RunsKeepPrefix(files, After(files, db, calls[0]), k, calls[1..]);
    }
    CommitAllFacts(FRESH, files[..m], "");
  }

  /** The pending files are some of the files, unmarked, and none twice. */
  lemma {:induction false} PendingFacts(files: seq<File>, applied: set<string>)
    ensures forall f | f in Pending(files, applied) :: f in files && Version(f) !in applied
    ensures forall f | f in files && Version(f) !in applied :: f in Pending(files, applied)
    ensures NoRepeats(files) ==> NoRepeats(Pending(files, applied))
  {
    hide Version;
    if files != [] {
      var n := |files| - 1;
      PendingFacts(files[..n], applied);
      assert files == files[..n] + [files[n]];
    }
  }

  /** Every file that has run has its version marked. */
  ghost predicate Marked(db: Db) {
    forall f | f in db.executed :: Version(f) in db.applied
  }

  lemma CommitKeepsMarked(db: Db, run: seq<File>)
    requires Marked(db)
    ensures Marked(CommitAll(db, run)) && db.applied <= CommitAll(db, run).applied
    ensures forall f | f in run :: Version(f) in CommitAll(db, run).applied
  {
    hide Version, CommitAll, Marks;
    var after := CommitAll(db, run);
    CommitAllFacts(db, run, "");
    forall v ensures v in db.applied ==> v in after.applied { CommitAllFacts(db, run, v); }
    forall f | f in run ensures Version(f) in after.applied { MarksOwn(db, run, f); }
  }

  lemma MarksOwn(db: Db, run: seq<File>, f: File)
    requires f in run
    ensures Version(f) in CommitAll(db, run).applied
  {
    CommitAllFacts(db, run, Version(f));
    var i :| 0 <= i < |run| && run[i] == f;
    assert Version(f) in Marks(run[i]);
  }

  lemma CallRepeatsNothing(files: seq<File>, db: Db, call: Call)
    requires NoRepeats(files) && Marked(db) && NoRepeats(db.executed)
    ensures var next := After(files, db, call); Marked(next) && NoRepeats(next.executed)
  {
    var pending := Pending(files, db.applied);
    var run := pending[..Advance(call, |pending|)];
    assert After(files, db, call) == CommitAll(db, run);
    PendingFacts(files, db.applied);
    hide Version, Pending, CommitAll, After;
    CommitKeepsMarked(db, run);
    CommitAllFacts(db, run, "");
    forall i, j | 0 <= i < j < |db.executed + run| ensures (db.executed + run)[i] != (db.executed + run)[j] {
      if i < |db.executed| <= j {
        assert db.executed[i] in db.executed && run[j - |db.executed|] in pending;
      }
    }
  }

  lemma {:induction false} RunsRepeatNothing(files: seq<File>, db: Db, calls: seq<Call>)
    requires NoRepeats(files) && Marked(db) && NoRepeats(db.executed)
    ensures NoRepeats(AfterAll(files, db, calls).executed)
    decreases |calls|
  {
    if calls != [] {
      CallRepeatsNothing(files, db, calls[0]);
      hide After, Marked, NoRepeats;
      RunsRepeatNothing(files, After(files, db, calls[0]), calls[1..]);
    }
  }

  /** No file of a directory is committed twice, whatever versions they share. */
  lemma NothingRunsTwice(available: seq<File>, calls: seq<Call>)
    requires NoRepeats(available)
    ensures NoRepeats(AfterAll(Sorted(available), FRESH, calls).executed)
  {
    SortedOrders(available);
    PermutationRepeatsNothing(available, Sorted(available));
    RunsRepeatNothing(Sorted(available), FRESH, calls);
  }

  /** A Migrate that succeeds leaves none pending, from any table. */
  lemma SuccessLeavesNonePending(files: seq<File>, db: Db, stop: nat)
    requires Succeeds(files, db, All(stop))
    ensures Pending(files, After(files, db, All(stop)).applied) == []
  {
    var pending := Pending(files, db.applied);
    assert pending[..|pending|] == pending;
    var next := After(files, db, All(stop));
    assert next == CommitAll(db, pending);
    PendingFacts(files, db.applied);
    hide Version, Pending, CommitAll, After, Marks;
    forall f | f in files ensures Version(f) in next.applied {
      if Version(f) in db.applied { CommitAllFacts(db, pending, Version(f)); } else { MarksOwn(db, pending, f); }
    }
    NonePending(files, next.applied);
  }

  /** And with independent files it has then run all of them, in order. */
  lemma MigrateFinishes(files: seq<File>, calls: seq<Call>, stop: nat)
    requires Independent(files) && Succeeds(files, AfterAll(files, FRESH, calls), All(stop))
    ensures var db := After(files, AfterAll(files, FRESH, calls), All(stop));
      db == CommitAll(FRESH, files) && db.executed == files
  {
    assert files[..0] == [];
    hide Independent, Succeeds, After, Pending;
    var m := RunsKeepPrefix(files, FRESH, 0, calls);
    var n := CallAdvances(files, AfterAll(files, FRESH, calls), m, All(stop));
    assert files[..|files|] == files;
    CommitAllFacts(FRESH, files, "");
  }

  /** MigrateUp(n) and then Migrate, against Migrate at once. */
  ghost predicate ResumesAt(files: seq<File>, n: nat) {
    After(files, After(files, FRESH, Up(n, n)), All(|files|)) == After(files, FRESH, All(|files|))
  }

  lemma AllFromFresh(files: seq<File>)
    ensures Pending(files, {}) == files && After(files, FRESH, All(|files|)) == CommitAll(FRESH, files)
  {
    hide Pending, CommitAll, Version;
    AllPending(files, {});
    assert files[..|files|] == files;
  }

  /** MigrateUp(n) and then Migrate commit the first n files and what is pending then. */
  lemma TwoCalls(files: seq<File>, n: nat)
    requires n <= |files|
    ensures var rest := Pending(files[n..], CommitAll(FRESH, files[..n]).applied);
      After(files, After(files, FRESH, Up(n, n)), All(|files|)) == CommitAll(FRESH, files[..n] + rest)
  {
    hide Version, CommitAll, Pending, Marks;
    AllFromFresh(files);
    PendingAfter(files, n);
    var db := CommitAll(FRESH, files[..n]);
    var rest := Pending(files[n..], db.applied);
    AllPending(files[n..], db.applied);
    assert After(files, FRESH, Up(n, n)) == db;
    assert rest[..|rest|] == rest;
    CommitAllJoins(FRESH, files[..n], rest);
  }

  lemma CommittedIsExecuted(files: seq<File>)
    ensures CommitAll(FRESH, files).executed == files
  {
    CommitAllFacts(FRESH, files, "");
  }

  lemma CommitsDiffer(files: seq<File>, n: nat, rest: seq<File>)
    requires n <= |files|
    ensures CommitAll(FRESH, files[..n] + rest) == CommitAll(FRESH, files) <==> rest == files[n..]
  {
    hide CommitAll;
    CommittedIsExecuted(files[..n] + rest);
    CommittedIsExecuted(files);
    assert files == files[..n] + files[n..];
    assert rest == (files[..n] + rest)[n..];
  }

  lemma ResumesAtPending(files: seq<File>, n: nat)
    requires n <= |files|
    ensures ResumesAt(files, n) <==> Pending(files[n..], CommitAll(FRESH, files[..n]).applied) == files[n..]
  {
    hide Version, CommitAll, Pending, Marks, After;
    var rest := Pending(files[n..], CommitAll(FRESH, files[..n]).applied);
    TwoCalls(files, n);
    AllFromFresh(files);
    CommitsDiffer(files, n, rest);
  }

  lemma MarkedBy(files: seq<File>, n: nat, v: string)
    requires n <= |files|
    ensures v in CommitAll(FRESH, files[..n]).applied <==> exists i :: 0 <= i < n && v in Marks(files[i])
  {
    CommitAllFacts(FRESH, files[..n], v);
    if i :| 0 <= i < n && v in Marks(files[..n][i]) { assert v in Marks(files[i]); }
    if i :| 0 <= i < n && v in Marks(files[i]) { assert v in Marks(files[..n][i]); }
  }

  lemma ResumesAtIff(files: seq<File>, n: nat)
    requires n <= |files|
    ensures ResumesAt(files, n) <==> forall i, j | 0 <= i < n <= j < |files| :: Version(files[j]) !in Marks(files[i])
  {
    ResumesAtPending(files, n);
    hide Version, CommitAll, Pending, Marks, ResumesAt;
    var db := CommitAll(FRESH, files[..n]);
    AllPending(files[n..], db.applied);
    forall j | n <= j < |files|
      ensures files[j] in files[n..]
      ensures Version(files[j]) in db.applied <==> exists i :: 0 <= i < n && Version(files[j]) in Marks(files[i])
    {
      assert files[n..][j - n] == files[j];
      MarkedBy(files, n, Version(files[j]));
    }
    if ResumesAt(files, n) {
      forall i, j | 0 <= i < n <= j < |files| ensures Version(files[j]) !in Marks(files[i]) {
        assert files[j] in files[n..];
      }
    } else {
      var f :| f in files[n..] && Version(f) in db.applied;
      var k :| 0 <= k < |files| - n && files[n..][k] == f;
      assert files[n + k] == f;
      var i :| 0 <= i < n && Version(f) in Marks(files[i]);
      assert Version(files[n + k]) in Marks(files[i]);
    }
  }

  /** Stopping anywhere and going on equals one run, for every place to stop, if
      and only if no file marks a later one's version. */
  lemma ResumesIff(files: seq<File>)
    ensures (forall n: nat | n <= |files| :: ResumesAt(files, n)) <==> Independent(files)
  {
    forall n: nat | n <= |files|
      ensures ResumesAt(files, n)
         <==> forall i, j | 0 <= i < n <= j < |files| :: Version(files[j]) !in Marks(files[i])
    {
      ResumesAtIff(files, n);
    }
    if forall n: nat | n <= |files| :: ResumesAt(files, n) {
      forall i, j | 0 <= i < j < |files| ensures Version(files[j]) !in Marks(files[i]) {
        assert ResumesAt(files, j);
      }
    }
  }

  // ----- the files of the repository -----

  function SqlFile(version: string, name: string, records: set<string>): File {
    File(version + "_" + name, records)
  }

  const SHIPPED: seq<File> := [
    SqlFile("001", "initial_schema.sql", {"001"}),
    SqlFile("002", "indexes_and_optimizations.sql", {"002"}),
    SqlFile("003", "ml_analysis_tables.sql", {"003"}),
    SqlFile("004", "page_results.sql", {}),
    SqlFile("005", "add_ml_analysis_fk_constraints.sql", {"005"}),
    SqlFile("005", "add_neo4j_document_id.sql", {}),
    SqlFile("007", "s3_chunks_and_processing_jobs.sql", {})]

  lemma {:induction false} UpToOf(s: string, stop: char, rest: string)
    requires stop !in s
    ensures UpTo(s + [stop] + rest, stop) == s
  {
    if s != "" {
      assert (s + [stop] + rest)[1..] == s[1..] + [stop] + rest;
      UpToOf(s[1..], stop, rest);
    }
  }

  lemma SqlVersion(version: string, name: string, records: set<string>)
    requires '_' !in version
    ensures Version(SqlFile(version, name, records)) == version
  {
    UpToOf(version, '_', name);
  }

  /** A version once marked stays marked, and its files do not run. */
  lemma {:induction false} MarkedNeverRuns(files: seq<File>, db: Db, calls: seq<Call>, f: File)
    requires Version(f) in db.applied && f !in db.executed
    ensures f !in AfterAll(files, db, calls).executed
    decreases |calls|
  {
    if calls != [] {
      var next := After(files, db, calls[0]);
      var pending := Pending(files, db.applied);
      var planned := Planned(calls[0], |pending|);
      var run := pending[..if calls[0].stop < planned then calls[0].stop else planned];
      PendingFacts(files, db.applied);
      CommitAllFacts(db, run, Version(f));
      assert f !in run;
      MarkedNeverRuns(files, next, calls[1..], f);
    }
  }

  /** When a run stops between two files with one version, the second never runs. */
  lemma SharedVersionIsLost(files: seq<File>, n: nat, calls: seq<Call>)
    requires 0 < n < |files| && Version(files[n - 1]) == Version(files[n]) && files[n] !in files[..n]
    ensures files[n] !in AfterAll(files, After(files, FRESH, Up(n, n)), calls).executed
  {
    AllFromFresh(files);
    var db := CommitAll(FRESH, files[..n]);
    assert After(files, FRESH, Up(n, n)) == db;
    CommitAllFacts(FRESH, files[..n], Version(files[n]));
    assert Version(files[n]) in Marks(files[..n][n - 1]);
    MarkedNeverRuns(files, db, calls, files[n]);
  }

  /** Two of the files share a version, so a first run that stops between them
      keeps the second from ever running, which one run would have done. The list
      is the sorted one, on which the calls work. */
  lemma ShippedFilesDoNotResume(calls: seq<Call>)
    ensures Sorted(SHIPPED) == SHIPPED
    ensures SHIPPED[5] !in AfterAll(SHIPPED, After(SHIPPED, FRESH, Up(5, 5)), calls).executed
    ensures SHIPPED[5] in After(SHIPPED, FRESH, All(7)).executed
  {
    ShippedOrdered();
    ShippedShare();
    ShippedDiffer();
    ShippedSize();
    hide *;
    SortedKeepsOrdered(SHIPPED);
    SharedVersionIsLost(SHIPPED, 5, calls);
    AllFromFresh(SHIPPED);
    CommitAllFacts(FRESH, SHIPPED, "");
  }

  lemma NumberOf(d: char)
    requires '0' <= d <= '9'
    ensures Number(['0', '0', d]) == d as int - '0' as int
  {
    var v := ['0', '0', d];
    assert v[..2] == ['0', '0'] && v[..2][..1] == ['0'] && ['0'][..0] == "";
    assert Digits(['0']) == 0 && Digits(['0', '0']) == 0;
  }

  lemma ShippedNumber(i: nat)
    requires i < 7
    ensures Number(Version(SHIPPED[i])) == if i < 5 then i + 1 else if i == 5 then 5 else 7
  {
    var file := SHIPPED[i];
    match i
    case 0 => SqlVersion("001", "initial_schema.sql", {"001"}); NumberOf('1');
    case 1 => SqlVersion("002", "indexes_and_optimizations.sql", {"002"}); NumberOf('2');
    case 2 => SqlVersion("003", "ml_analysis_tables.sql", {"003"}); NumberOf('3');
    case 3 => SqlVersion("004", "page_results.sql", {}); NumberOf('4');
    case 4 => SqlVersion("005", "add_ml_analysis_fk_constraints.sql", {"005"}); NumberOf('5');
    case 5 => SqlVersion("005", "add_neo4j_document_id.sql", {}); NumberOf('5');
    case 6 => SqlVersion("007", "s3_chunks_and_processing_jobs.sql", {}); NumberOf('7');
    hide Version, Number, SqlFile;
  }

  lemma ShippedOrdered()
    ensures Ordered(SHIPPED)
  {
    ShippedSize();
    hide Version, Number, SHIPPED;
    forall i, j | 0 <= i < j < |SHIPPED| ensures !Before(SHIPPED[j], SHIPPED[i]) {
      ShippedNumber(i);
      ShippedNumber(j);
    }
  }

  lemma ShippedSize()
    ensures |SHIPPED| == 7 && FRESH.executed == []
  {}

  lemma ShippedShare()
    ensures Version(SHIPPED[4]) == "005" == Version(SHIPPED[5])
  {
    SqlVersion("005", "add_ml_analysis_fk_constraints.sql", {"005"});
    SqlVersion("005", "add_neo4j_document_id.sql", {});
    hide Version, SqlFile;
  }

  lemma ShippedDiffer()
    ensures SHIPPED[5] !in SHIPPED[..5]
  {
    forall i | 0 <= i < 5 ensures SHIPPED[i] != SHIPPED[5] {
      assert SHIPPED[5].name[6] == 'd';
    }
  }

  // ----- the program -----

  lemma {:induction false} PendingCounts(files: seq<File>, applied: set<string>, f: File)
    ensures multiset(Pending(files, applied))[f] == if Version(f) in applied then 0 else multiset(files)[f]
  {
    hide Version;
    if files != [] {
      var n := |files| - 1;
      PendingCounts(files[..n], applied, f);
      assert files == files[..n] + [files[n]];
    }
  }

  ghost predicate Rises(files: seq<File>) {
    forall i, j | 0 <= i < j < |files| :: Number(Version(files[i])) <= Number(Version(files[j]))
  }

  lemma RisesMore(files: seq<File>, f: File)
    requires Rises(files) && forall g | g in files :: Number(Version(g)) <= Number(Version(f))
    ensures Rises(files + [f])
  {
    hide Number, Version;
  }

  lemma RisesBefore(files: seq<File>)
    requires Rises(files) && files != []
    ensures var n := |files| - 1;
      Rises(files[..n]) && forall g | g in files[..n] :: Number(Version(g)) <= Number(Version(files[n]))
  {
    hide Number, Version;
  }

  lemma {:induction false} PendingInOrder(files: seq<File>, applied: set<string>)
    requires Rises(files)
    ensures Rises(Pending(files, applied))
  {
    if files != [] {
      hide Number, Version, Rises;
      var n := |files| - 1;
      RisesBefore(files);
      PendingInOrder(files[..n], applied);
      PendingFacts(files[..n], applied);
      RisesMore(Pending(files[..n], applied), files[n]);
    }
  }

  lemma PendingMeans(available: seq<File>, applied: set<string>)
    ensures var pending := Pending(Sorted(available), applied);
      && (forall i, j | 0 <= i < j < |pending| :: Number(Version(pending[i])) <= Number(Version(pending[j])))
      && (forall f :: multiset(pending)[f] == if Version(f) in applied then 0 else multiset(available)[f])
  {
    hide Number, Version, Pending, Sorted;
    SortedOrders(available);
    PendingInOrder(Sorted(available), applied);
    forall f ensures multiset(Pending(Sorted(available), applied))[f]
                  == if Version(f) in applied then 0 else multiset(available)[f] {
      PendingCounts(Sorted(available), applied, f);
    }
  }

  lemma CallExecutes(files: seq<File>, db: Db)
    ensures forall k | 0 <= k <= |Pending(files, db.applied)| ::
      CommitAll(db, Pending(files, db.applied)[..k]).executed == db.executed + Pending(files, db.applied)[..k]
  {
    forall k | 0 <= k <= |Pending(files, db.applied)|
      ensures CommitAll(db, Pending(files, db.applied)[..k]).executed == db.executed + Pending(files, db.applied)[..k]
    {
      CommitAllFacts(db, Pending(files, db.applied)[..k], "");
    }
  }

  class Migrator {
    const available: seq<File>
    var applied: set<string>
    ghost var executed: seq<File>

    constructor (available: seq<File>)
      ensures this.available == available && Contents() == FRESH
    {
      this.available, applied, executed := available, {}, [];
    }

    ghost function Contents(): Db
      reads this
    {
      Db(applied, executed)
    }

    method GetMigrationFiles() returns (files: seq<File>)
      ensures files == Sorted(available)
    {
      files := Sorted(available);
    }

    /** `ok` is false when the table cannot be made or read. */
    method GetPendingMigrations() returns (ok: bool, pending: seq<File>)
      ensures pending == if ok then Pending(Sorted(available), applied) else []
      ensures forall i, j | 0 <= i < j < |pending| :: Number(Version(pending[i])) <= Number(Version(pending[j]))
      ensures forall f | ok :: multiset(pending)[f] == if Version(f) in applied then 0 else multiset(available)[f]
    {
      hide Number, Version, Sorted;
      PendingMeans(available, applied);
      var files := GetMigrationFiles();
      ok, pending := *, [];
      if !ok { return; }
      for i := 0 to |files|
        invariant pending == Pending(files[..i], applied)
      {
        assert files[..i + 1][..i] == files[..i];
        if Version(files[i]) !in applied { pending := pending + [files[i]]; }
      }
      assert files[..|files|] == files;
    }

    /** One transaction: the file's statements and the record of its version. */
    method RunMigration(f: File) returns (ok: bool)
      modifies this
      ensures Contents() == if ok then Commit(old(Contents()), f) else old(Contents())
      ensures applied == if ok then old(applied) + f.records + {Version(f)} else old(applied)
      ensures executed == if ok then old(executed) + [f] else old(executed)
    {
      ok := *;
      if ok { applied, executed := applied + (f.records + {Version(f)}), executed + [f]; }
    }

    method RunFirst(pending: seq<File>, count: nat) returns (ok: bool, ghost stop: nat)
      requires count <= |pending|
      modifies this
      ensures stop <= count && (ok <==> stop == count) && Contents() == CommitAll(old(Contents()), pending[..stop])
    {
      stop := 0;
      for i := 0 to count
        invariant stop == i && Contents() == CommitAll(old(Contents()), pending[..i])
      {
        assert pending[..i + 1][..i] == pending[..i];
        ok := RunMigration(pending[i]);
        if !ok { return; }
        stop := i + 1;
      }
      ok := true;
    }

    method Migrate() returns (ok: bool, ghost stop: nat)
      modifies this
      ensures Contents() == After(Sorted(available), old(Contents()), All(stop))
      ensures ok ==> Succeeds(Sorted(available), old(Contents()), All(stop))
      ensures var pending := Pending(Sorted(available), old(applied));
        && stop <= |pending| && (ok ==> stop == |pending|) && executed == old(executed) + pending[..stop]
    {
      CallExecutes(Sorted(available), Contents());
      hide Sorted, Pending;
      var pending;
      ok, pending := GetPendingMigrations();
      if !ok { return false, 0; }
      if |pending| == 0 { return true, 0; }
      ok, stop := RunFirst(pending, |pending|);
    }

    method MigrateUp(count: int) returns (ok: bool, ghost stop: nat)
      modifies this
      ensures Contents() == After(Sorted(available), old(Contents()), Up(count, stop))
      ensures ok ==> Succeeds(Sorted(available), old(Contents()), Up(count, stop))
      ensures var pending := Pending(Sorted(available), old(applied));
        && stop <= |pending| && executed == old(executed) + pending[..stop]
        && (ok ==> stop == if count < 0 then 0 else if count < |pending| then count else |pending|)
        && (stop as int <= count || stop == 0)
    {
      CallExecutes(Sorted(available), Contents());
      hide Sorted, Pending;
      var pending;
      ok, pending := GetPendingMigrations();
      if !ok { return false, 0; }
      if |pending| == 0 { return true, 0; }
      var most := if count > |pending| then |pending| else if count < 0 then 0 else count;
      ok, stop := RunFirst(pending, most);
    }
  }
}
