/** Pipeline.processChunks (internal/processors/pipeline.go): the chunks a
    strategy makes of a file are filtered by quality and saved in batches. */
module ChunkBatching {
  import opened Options

  /** A chunk from the strategy; its completeness is part of optional metadata. */
  datatype Chunk = Chunk(id: string, size: int, quality: Option<real>)

  datatype Row = Row(id: string, size: int, completeness: real)

  datatype Config = Config(batchSize: nat, filterEnabled: bool, minQuality: real)

  /** One turn of the iterator loop: the chunks the strategy made, or the way the
      turn went wrong. */
  datatype Pull = Chunks(made: seq<Chunk>) | Cancelled | IteratorFails | StrategyFails

  datatype Error = Cancellation | Iterator | Strategy | Save | FinalSave | CountUpdate

  datatype Outcome = Success | Failure(error: Error)

  // ----- the specification -----

  function Convert(c: Chunk): Row { Row(c.id, c.size, c.quality.GetOr(0.0)) }

  predicate Keeps(conf: Config, row: Row) { !conf.filterEnabled || row.completeness >= conf.minQuality }

  /** The rows of the chunks that pass the filter. */
  function Filtered(conf: Config, chunks: seq<Chunk>): seq<Row> {
    if chunks == [] then [] else
    var last := Convert(chunks[|chunks| - 1]);
    var earlier := Filtered(conf, chunks[..|chunks| - 1]);
    if Keeps(conf, last) then earlier + [last] else earlier
  }

  /** The rows a stream calls for, in order. */
  function Stream(conf: Config, pulls: seq<Pull>): seq<Row> {
    if pulls == [] then [] else
    match pulls[|pulls| - 1]
    case Chunks(made) => Stream(conf, pulls[..|pulls| - 1]) + Filtered(conf, made)
    case _ => Stream(conf, pulls[..|pulls| - 1])
  }

  /** The index of the first turn that goes wrong, or the number of turns. */
  function GoodTurns(pulls: seq<Pull>): (n: nat)
    ensures n <= |pulls|
    ensures forall i | 0 <= i < n :: pulls[i].Chunks?
    ensures n < |pulls| ==> !pulls[n].Chunks?
  {
    if pulls == [] || !pulls[0].Chunks? then 0 else 1 + GoodTurns(pulls[1..])
  }

  function Fault(pull: Pull): Error
    requires !pull.Chunks?
  {
    match pull
    case Cancelled => Cancellation
    case IteratorFails => Iterator
    case StrategyFails => Strategy
  }

  function Flatten(batches: seq<seq<Row>>): seq<Row> {
    if batches == [] then [] else Flatten(batches[..|batches| - 1]) + batches[|batches| - 1]
  }

  ghost predicate AllOfSize(batches: seq<seq<Row>>, n: nat) {
    forall i | 0 <= i < |batches| :: |batches[i]| == n
  }

  /** Every batch but the last has exactly n rows, and the last 1 to n. */
  ghost predicate Batched(batches: seq<seq<Row>>, n: nat) {
    && (forall i | 0 <= i < |batches| - 1 :: |batches[i]| == n)
    && (batches != [] ==> 1 <= |batches[|batches| - 1]| <= n)
  }

  function Bytes(rows: seq<Row>): int {
    if rows == [] then 0 else Bytes(rows[..|rows| - 1]) + rows[|rows| - 1].size
  }

  /** The sum and the number of the positive completeness values. */
  function Quality(rows: seq<Row>): real {
    if rows == [] then 0.0 else
    var c := rows[|rows| - 1].completeness;
    Quality(rows[..|rows| - 1]) + if c > 0.0 then c else 0.0
  }

  function Rated(rows: seq<Row>): (n: nat)
    ensures n <= |rows|
  {
    if rows == [] then 0 else
    Rated(rows[..|rows| - 1]) + if rows[|rows| - 1].completeness > 0.0 then 1 else 0
  }

  // ----- lemmas on batches -----

  lemma FlattenAppend(batches: seq<seq<Row>>, batch: seq<Row>)
    ensures Flatten(batches + [batch]) == Flatten(batches) + batch
  {
    assert (batches + [batch])[..|batches|] == batches;
  }

  lemma {:induction false} FlattenFullSize(batches: seq<seq<Row>>, n: nat)
    requires AllOfSize(batches, n)
    ensures |Flatten(batches)| == |batches| * n
  {
    if batches != [] {
      FlattenFullSize(batches[..|batches| - 1], n);
      assert |batches| * n == (|batches| - 1) * n + n;
    }
  }

  lemma {:induction false} FlattenSplit(first: seq<seq<Row>>, second: seq<seq<Row>>)
    ensures Flatten(first + second) == Flatten(first) + Flatten(second)
  {
    if second == [] {
      assert first + second == first;
    } else {
      var n := |second| - 1;
      FlattenSplit(first, second[..n]);
      FlattenAppend(first + second[..n], second[n]);
      assert (first + second[..n]) + [second[n]] == first + second;
      assert Flatten(second) == Flatten(second[..n]) + second[n];
    }
  }

  /** There is one way to cut a list of rows into batches. */
  lemma {:induction false} BatchesAreUnique(a: seq<seq<Row>>, b: seq<seq<Row>>, n: nat)
    requires n >= 1 && Batched(a, n) && Batched(b, n) && Flatten(a) == Flatten(b)
    ensures a == b
    decreases |a|
  {
    if a != [] && b != [] {
      FirstBatch(a, n);
      FirstBatch(b, n);
      BatchesAreUnique(a[1..], b[1..], n);
      assert a == [a[0]] + a[1..] && b == [b[0]] + b[1..];
    }
  }

  lemma FlattenOne(batch: seq<Row>)
    ensures Flatten([batch]) == batch
  {
    FlattenAppend([], batch);
    assert [] + [batch] == [batch];
  }

  lemma FirstBatch(a: seq<seq<Row>>, n: nat)
    requires n >= 1 && Batched(a, n) && a != []
    ensures |a[0]| == if |Flatten(a)| < n then |Flatten(a)| else n
    ensures a[0] == Flatten(a)[..|a[0]|] && Flatten(a[1..]) == Flatten(a)[|a[0]|..] && Batched(a[1..], n)
  {
    assert a == [a[0]] + a[1..];
    FlattenSplit([a[0]], a[1..]);
    FlattenOne(a[0]);
    if |a| > 1 { assert |a[0]| == n; } else { assert a[1..] == []; }
  }

  lemma StreamTurn(conf: Config, pulls: seq<Pull>, i: nat)
    requires i < |pulls| && pulls[i].Chunks?
    ensures Stream(conf, pulls[..i + 1]) == Stream(conf, pulls[..i]) + Filtered(conf, pulls[i].made)
  {
    assert pulls[..i + 1][..i] == pulls[..i];
  }

  lemma GoodTurnsUnique(pulls: seq<Pull>, i: nat)
    requires i <= |pulls| && (forall k | 0 <= k < i :: pulls[k].Chunks?) && (i < |pulls| ==> !pulls[i].Chunks?)
    ensures GoodTurns(pulls) == i
  {}

  // ----- what the figures are -----

  /** Which row, if any, a chunk makes. */
  lemma RowOfChunk(conf: Config, c: Chunk)
    ensures var rating := match c.quality case Some(q) => q case None => 0.0;
      Filtered(conf, [c]) == if conf.filterEnabled && rating < conf.minQuality then [] else [Row(c.id, c.size, rating)]
  {
    assert [c][..0] == [];
  }

  lemma {:induction false} FilteredJoins(conf: Config, first: seq<Chunk>, second: seq<Chunk>)
    ensures Filtered(conf, []) == []
    ensures Filtered(conf, first + second) == Filtered(conf, first) + Filtered(conf, second)
  {
    if second == [] {
      assert first + second == first;
    } else {
      var n := |second| - 1;
      FilteredJoins(conf, first, second[..n]);
      assert (first + second)[..|first| + n] == first + second[..n];
    }
  }

  /** The stream is that of its turns, one after the other, and a turn that goes
      wrong adds nothing. */
  lemma StreamIs(conf: Config, pulls: seq<Pull>, last: Pull)
    ensures Stream(conf, []) == []
    ensures Stream(conf, pulls + [last]) == Stream(conf, pulls) + if last.Chunks? then Filtered(conf, last.made) else []
  {
    assert (pulls + [last])[..|pulls|] == pulls;
  }

  /** Bytes, ratings and their number add up over the rows. */
  lemma FiguresAdd(rows: seq<Row>, last: Row)
    ensures Bytes([]) == 0 && Quality([]) == 0.0 && Rated([]) == 0
    ensures Bytes(rows + [last]) == Bytes(rows) + last.size
    ensures Quality(rows + [last]) == Quality(rows) + if last.completeness > 0.0 then last.completeness else 0.0
    ensures Rated(rows + [last]) == Rated(rows) + if last.completeness > 0.0 then 1 else 0
  {
    assert (rows + [last])[..|rows|] == rows;
  }

  /** Rated counts the rows with a positive completeness. */
  lemma {:induction false} RatedCounts(rows: seq<Row>)
    ensures Rated(rows) == |set i | 0 <= i < |rows| && rows[i].completeness > 0.0|
  {
    if rows != [] {
      var n := |rows| - 1;
      RatedCounts(rows[..n]);
      var some := set i | 0 <= i < n && rows[i].completeness > 0.0;
      assert (set i | 0 <= i < |rows[..n]| && rows[..n][i].completeness > 0.0) == some;
      assert (set i | 0 <= i < |rows| && rows[i].completeness > 0.0)
          == some + if rows[n].completeness > 0.0 then {n} else {};
    }
  }

  // ----- the program -----

  class Database {
    var batches: seq<seq<Row>>
    var chunkCount: Option<int>

    constructor ()
      ensures batches == [] && chunkCount == None
    {
      batches, chunkCount := [], None;
    }

    /** One insert statement, which takes all the rows or none. */
    method SaveBatch(batch: seq<Row>) returns (ok: bool)
      modifies `batches
      ensures batches == if ok && batch != [] then old(batches) + [batch] else old(batches)
    {
      if batch == [] { return true; }
      ok := *;
      if ok { batches := batches + [batch]; }
    }

    method UpdateFileChunkCount(n: int) returns (ok: bool)
      modifies `chunkCount
      ensures chunkCount == if ok then Some(n) else old(chunkCount)
    {
      ok := *;
      if ok { chunkCount := Some(n); }
    }
  }

  class ProcessingResult {
    var chunksCreated: int
    var bytesProcessed: int
    var qualityScore: real

    constructor ()
      ensures chunksCreated == 0 && bytesProcessed == 0 && qualityScore == 0.0
    {
      chunksCreated, bytesProcessed, qualityScore := 0, 0, 0.0;
    }

    function Sums(): Totals
      reads this
    {
      Totals(chunksCreated, bytesProcessed, qualityScore)
    }
  }

  /** The local variables of the loops: the rows not saved yet, and the sum and
      the number of the positive completeness values. */
  datatype Buffer = Buffer(batch: seq<Row>, quality: real, rated: nat)

  /** The totals a run reports. */
  datatype Totals = Totals(created: int, bytes: int, quality: real)

  /** What holds at every point of the loops: the rows dealt with so far are the
      saved full batches followed by the buffer, and the totals are over them. */
  ghost predicate Progress(conf: Config, done: seq<Row>, saved: seq<seq<Row>>, buffer: Buffer, totals: Totals) {
    && AllOfSize(saved, conf.batchSize) && |buffer.batch| < conf.batchSize
    && done == Flatten(saved) + buffer.batch && totals == Totals(|Flatten(saved)|, Bytes(done), 0.0)
    && buffer.quality == Quality(done) && buffer.rated == Rated(done)
  }

  function Added(buffer: Buffer, row: Row): Buffer {
    if row.completeness > 0.0
    then Buffer(buffer.batch + [row], buffer.quality + row.completeness, buffer.rated + 1)
    else buffer.(batch := buffer.batch + [row])
  }

  lemma ProgressRow(conf: Config, done: seq<Row>, saved: seq<seq<Row>>, buffer: Buffer, totals: Totals, row: Row)
    requires Progress(conf, done, saved, buffer, totals)
    ensures var next, grown := Added(buffer, row), totals.(bytes := totals.bytes + row.size);
      && (|next.batch| < conf.batchSize ==> Progress(conf, done + [row], saved, next, grown))
      && (|next.batch| >= conf.batchSize ==>
            && SaveLost(conf, done + [row], saved, next.batch, grown)
            && Progress(conf, done + [row], saved + [next.batch], next.(batch := []),
                        grown.(created := totals.created + |next.batch|)))
  {
    assert (done + [row])[..|done|] == done;
    FlattenAppend(saved, buffer.batch + [row]);
  }

  /** Where a failed save of a full batch leaves things. */
  ghost predicate SaveLost(conf: Config, done: seq<Row>, saved: seq<seq<Row>>, lost: seq<Row>, totals: Totals) {
    && AllOfSize(saved, conf.batchSize) && |lost| == conf.batchSize
    && done == Flatten(saved) + lost && totals == Totals(|Flatten(saved)|, Bytes(done), 0.0)
  }

  lemma NoProgress(conf: Config)
    requires conf.batchSize >= 1
    ensures Progress(conf, [], [], Buffer([], 0.0, 0), Totals(0, 0, 0.0))
  {}

  /** The mean of the positive completeness values, and 0 when there are none. */
  function Average(rows: seq<Row>): real { Mean(Quality(rows), Rated(rows)) }

  function Mean(total: real, count: nat): real { if count > 0 then total / count as real else 0.0 }

  /** A run to the end: the batches hold the stream, cut in the one way there is,
      and the totals are over the stream. */
  ghost predicate Completed(conf: Config, pulls: seq<Pull>, saved: seq<seq<Row>>, totals: Totals) {
    && GoodTurns(pulls) == |pulls|
    && Flatten(saved) == Stream(conf, pulls) && Batched(saved, conf.batchSize)
    && totals == Totals(|Stream(conf, pulls)|, Bytes(Stream(conf, pulls)), Average(Stream(conf, pulls)))
  }

  /** A run cut short: the batches are full and hold a prefix of the rows the good
      turns call for, and the rows `lost` are next. They are fewer than a batch
      and all there is, except that a failed save loses the batch it was for. */
  ghost predicate Interrupted(conf: Config, pulls: seq<Pull>, error: Error, saved: seq<seq<Row>>, lost: seq<Row>,
                              totals: Totals) {
    var stream := Stream(conf, pulls[..GoodTurns(pulls)]);
    && AllOfSize(saved, conf.batchSize) && Flatten(saved) + lost <= stream
    && totals == Totals(|Flatten(saved)|, Bytes(Flatten(saved) + lost), 0.0)
    && (if error == Save then |lost| == conf.batchSize else |lost| < conf.batchSize && Flatten(saved) + lost == stream)
    && (error == FinalSave ==> GoodTurns(pulls) == |pulls| && lost != [])
    && (error !in {Save, FinalSave} ==> GoodTurns(pulls) < |pulls| && error == Fault(pulls[GoodTurns(pulls)]))
  }

  ghost predicate Reported(conf: Config, pulls: seq<Pull>, outcome: Outcome, saved: seq<seq<Row>>, lost: seq<Row>,
                           totals: Totals) {
    match outcome
    case Failure(error) => if error == CountUpdate then Completed(conf, pulls, saved, totals) && lost == []
                           else Interrupted(conf, pulls, error, saved, lost, totals)
    case Success => Completed(conf, pulls, saved, totals) && lost == []
  }

  lemma SaveExit(conf: Config, pulls: seq<Pull>, i: nat, j: nat, done: seq<Row>, saved: seq<seq<Row>>, lost: seq<Row>,
                 totals: Totals)
    requires i < |pulls| && (forall k | 0 <= k <= i :: pulls[k].Chunks?) && j <= |pulls[i].made|
    requires done == Stream(conf, pulls[..i]) + Filtered(conf, pulls[i].made[..j])
    requires SaveLost(conf, done, saved, lost, totals)
    ensures Reported(conf, pulls, Failure(Save), saved, lost, totals)
  {
    GoodTurnsAtLeast(pulls, i);
    StreamTurn(conf, pulls, i);
    FilteredPrefix(conf, pulls[i].made, j);
    StreamPrefix(conf, pulls, i + 1, GoodTurns(pulls));
  }

  lemma FaultExit(conf: Config, pulls: seq<Pull>, i: nat, saved: seq<seq<Row>>, buffer: Buffer, totals: Totals)
    requires i < |pulls| && (forall k | 0 <= k < i :: pulls[k].Chunks?) && !pulls[i].Chunks?
    requires Progress(conf, Stream(conf, pulls[..i]), saved, buffer, totals)
    ensures Reported(conf, pulls, Failure(Fault(pulls[i])), saved, buffer.batch, totals)
  {
    GoodTurnsUnique(pulls, i);
  }

  lemma FinalSaveExit(conf: Config, pulls: seq<Pull>, saved: seq<seq<Row>>, buffer: Buffer, totals: Totals)
    requires (forall k | 0 <= k < |pulls| :: pulls[k].Chunks?) && buffer.batch != []
    requires Progress(conf, Stream(conf, pulls), saved, buffer, totals)
    ensures Reported(conf, pulls, Failure(FinalSave), saved, buffer.batch, totals)
  {
    GoodTurnsUnique(pulls, |pulls|);
    assert pulls[..|pulls|] == pulls;
  }

  lemma NormalExit(conf: Config, pulls: seq<Pull>, saved: seq<seq<Row>>, buffer: Buffer, totals: Totals)
    requires forall k | 0 <= k < |pulls| :: pulls[k].Chunks?
    requires Progress(conf, Stream(conf, pulls), saved, buffer, totals)
    ensures var all := if buffer.batch == [] then saved else saved + [buffer.batch];
      var final := Totals(totals.created + |buffer.batch|, totals.bytes, Mean(buffer.quality, buffer.rated));
      Reported(conf, pulls, Success, all, [], final) && Reported(conf, pulls, Failure(CountUpdate), all, [], final)
  {
    GoodTurnsUnique(pulls, |pulls|);
    FlattenAppend(saved, buffer.batch);
  }

  lemma FilteredStep(conf: Config, done: seq<Row>, made: seq<Chunk>, j: nat)
    requires j < |made|
    ensures var before, row := done + Filtered(conf, made[..j]), Convert(made[j]);
      done + Filtered(conf, made[..j + 1]) == if Keeps(conf, row) then before + [row] else before
  {
    assert made[..j + 1][..j] == made[..j];
  }

  lemma GoodTurnsAtLeast(pulls: seq<Pull>, i: nat)
    requires i < |pulls| && forall k | 0 <= k <= i :: pulls[k].Chunks?
    ensures i < GoodTurns(pulls)
  {}

  lemma {:induction false} FilteredPrefix(conf: Config, chunks: seq<Chunk>, j: nat)
    requires j <= |chunks|
    ensures Filtered(conf, chunks[..j]) <= Filtered(conf, chunks)
    decreases |chunks|
  {
    if j < |chunks| {
      FilteredPrefix(conf, chunks[..|chunks| - 1], j);
      assert chunks[..|chunks| - 1][..j] == chunks[..j];
    } else {
      assert chunks[..j] == chunks;
    }
  }

  lemma {:induction false} StreamPrefix(conf: Config, pulls: seq<Pull>, i: nat, j: nat)
    requires i <= j <= |pulls|
    ensures Stream(conf, pulls[..i]) <= Stream(conf, pulls[..j])
    decreases j
  {
    if i < j {
      StreamPrefix(conf, pulls, i, j - 1);
      assert pulls[..j][..j - 1] == pulls[..j - 1];
    }
  }

  /** The body of the inner loop for a row that passed the filter. */
  method AddRow(conf: Config, row: Row, buffer: Buffer, db: Database, result: ProcessingResult, ghost done: seq<Row>,
                ghost base: seq<seq<Row>>, ghost saved: seq<seq<Row>>)
    returns (ok: bool, next: Buffer, ghost saved': seq<seq<Row>>)
    requires Progress(conf, done, saved, buffer, result.Sums()) && db.batches == base + saved
    modifies db`batches, result`chunksCreated, result`bytesProcessed
    ensures db.batches == base + saved'
    ensures if ok then Progress(conf, done + [row], saved', next, result.Sums())
            else saved' == saved && SaveLost(conf, done + [row], saved, next.batch, result.Sums())
  {
    hide Progress, SaveLost, Flatten, Bytes, Quality, Rated, AllOfSize;
    ghost var before := result.Sums();
    ghost var grown := before.(bytes := before.bytes + row.size);
    ProgressRow(conf, done, saved, buffer, before, row);
    saved' := saved;
    next := buffer.(batch := buffer.batch + [row]);
    if row.completeness > 0.0 { next := next.(quality := next.quality + row.completeness, rated := next.rated + 1); }
    assert next == Added(buffer, row);
    hide Added;
    result.bytesProcessed := result.bytesProcessed + row.size;
    assert result.Sums() == grown;
    ok := true;
    if |next.batch| >= conf.batchSize {
      ok := db.SaveBatch(next.batch);
      assert result.Sums() == grown;
      if ok {
        result.chunksCreated := result.chunksCreated + |next.batch|;
        assert result.Sums() == grown.(created := before.created + |next.batch|);
        saved' := saved + [next.batch];
        next := next.(batch := []);
      }
    }
  }

  /** One turn of the outer loop whose chunks the strategy has made. */
  method AddTurn(conf: Config, made: seq<Chunk>, buffer: Buffer, db: Database, result: ProcessingResult,
                 ghost done: seq<Row>, ghost base: seq<seq<Row>>, ghost saved: seq<seq<Row>>)
    returns (ok: bool, next: Buffer, ghost j: nat, ghost saved': seq<seq<Row>>)
    requires Progress(conf, done, saved, buffer, result.Sums()) && db.batches == base + saved
    modifies db`batches, result`chunksCreated, result`bytesProcessed
    ensures db.batches == base + saved'
    ensures j <= |made|
    ensures if ok then Progress(conf, done + Filtered(conf, made), saved', next, result.Sums())
            else SaveLost(conf, done + Filtered(conf, made[..j]), saved', next.batch, result.Sums())
  {
    hide Progress, SaveLost, Flatten, Bytes, Quality, Rated, AllOfSize;
    next, saved', j := buffer, saved, 0;
    assert done + Filtered(conf, made[..0]) == done;
    hide Filtered;
    for i := 0 to |made|
      invariant db.batches == base + saved'
      invariant Progress(conf, done + Filtered(conf, made[..i]), saved', next, result.Sums())
    {
      FilteredStep(conf, done, made, i);
      var row := Convert(made[i]);
      if conf.filterEnabled && row.completeness < conf.minQuality { continue; }
      ghost var sofar := done + Filtered(conf, made[..i]);
      ok, next, saved' := AddRow(conf, row, next, db, result, sofar, base, saved');
      if !ok {
        j := i + 1;
        return;
      }
    }
    assert made[..|made|] == made;
    ok := true;
  }

  /** What follows the loops. */
  method Finish(conf: Config, pulls: seq<Pull>, buffer: Buffer, db: Database, result: ProcessingResult,
                ghost base: seq<seq<Row>>, ghost saved: seq<seq<Row>>)
    returns (outcome: Outcome, ghost saved': seq<seq<Row>>, ghost lost: seq<Row>)
    requires forall k | 0 <= k < |pulls| :: pulls[k].Chunks?
    requires Progress(conf, Stream(conf, pulls), saved, buffer, result.Sums()) && db.batches == base + saved
    modifies db, result
    ensures db.batches == base + saved'
    ensures db.chunkCount == if outcome == Success then Some(result.chunksCreated) else old(db.chunkCount)
    ensures Reported(conf, pulls, outcome, saved', lost, result.Sums())
  {
    NormalExit(conf, pulls, saved, buffer, result.Sums());
    if buffer.batch != [] { FinalSaveExit(conf, pulls, saved, buffer, result.Sums()); }
    hide Progress, Stream, Reported, Mean;
    saved', lost := saved, [];
    if |buffer.batch| > 0 {
      var ok := db.SaveBatch(buffer.batch);
      if !ok { return Failure(FinalSave), saved, buffer.batch; }
      result.chunksCreated := result.chunksCreated + |buffer.batch|;
      saved' := saved + [buffer.batch];
    }
    result.qualityScore := Mean(buffer.quality, buffer.rated);
    var ok := db.UpdateFileChunkCount(result.chunksCreated);
    outcome := if ok then Success else Failure(CountUpdate);
  }

  /** What each way out leaves in the database and in the result. */
  method ProcessChunks(conf: Config, pulls: seq<Pull>, db: Database, result: ProcessingResult)
    returns (outcome: Outcome, ghost saved: seq<seq<Row>>, ghost lost: seq<Row>)
    requires conf.batchSize >= 1 && result.Sums() == Totals(0, 0, 0.0)
    modifies db, result
    ensures db.batches == old(db.batches) + saved
    ensures db.chunkCount == if outcome == Success then Some(result.chunksCreated) else old(db.chunkCount)
    ensures Reported(conf, pulls, outcome, saved, lost, result.Sums())
    ensures outcome in {Success, Failure(CountUpdate)} ==>
      && (forall p | p in pulls :: p.Chunks?) && Flatten(saved) == Stream(conf, pulls)
      && (forall k | 0 <= k < |saved| - 1 :: |saved[k]| == conf.batchSize)
      && (saved != [] ==> 1 <= |saved[|saved| - 1]| <= conf.batchSize)
      && result.chunksCreated == |Stream(conf, pulls)| && result.bytesProcessed == Bytes(Stream(conf, pulls))
      && result.qualityScore == Average(Stream(conf, pulls))
    ensures outcome.Failure? && outcome.error in {Cancellation, Iterator, Strategy} ==>
      exists k :: 0 <= k < |pulls| && (forall j | 0 <= j < k :: pulls[j].Chunks?) && !pulls[k].Chunks?
        && (outcome.error == Cancellation <==> pulls[k].Cancelled?)
        && (outcome.error == Iterator <==> pulls[k].IteratorFails?)
        && Flatten(saved) + lost == Stream(conf, pulls[..k])
    ensures outcome.Failure? && outcome.error != CountUpdate ==>
      && (forall k | 0 <= k < |saved| :: |saved[k]| == conf.batchSize)
      && (if outcome.error == Save then |lost| == conf.batchSize else |lost| < conf.batchSize)
      && result.chunksCreated == |Flatten(saved)| && result.bytesProcessed == Bytes(Flatten(saved) + lost)
    ensures outcome == Failure(Save) ==> Flatten(saved) + lost <= Stream(conf, pulls)
    ensures outcome == Failure(FinalSave) ==> Flatten(saved) + lost == Stream(conf, pulls) && lost != []
  {
    outcome, saved, lost := RunChunks(conf, pulls, db, result);
    ReportedSays(conf, pulls, outcome, saved, lost, result.Sums());
    hide Reported, Stream, Average, Flatten, Bytes;
  }

  lemma ReportedSays(conf: Config, pulls: seq<Pull>, outcome: Outcome, saved: seq<seq<Row>>, lost: seq<Row>,
                     totals: Totals)
    requires Reported(conf, pulls, outcome, saved, lost, totals)
    ensures outcome in {Success, Failure(CountUpdate)} ==>
      && (forall p | p in pulls :: p.Chunks?) && Flatten(saved) == Stream(conf, pulls)
      && (forall k | 0 <= k < |saved| - 1 :: |saved[k]| == conf.batchSize)
      && (saved != [] ==> 1 <= |saved[|saved| - 1]| <= conf.batchSize)
      && totals.created == |Stream(conf, pulls)| && totals.bytes == Bytes(Stream(conf, pulls))
      && totals.quality == Average(Stream(conf, pulls))
    ensures outcome.Failure? && outcome.error in {Cancellation, Iterator, Strategy} ==>
      exists k :: 0 <= k < |pulls| && (forall j | 0 <= j < k :: pulls[j].Chunks?) && !pulls[k].Chunks?
        && (outcome.error == Cancellation <==> pulls[k].Cancelled?)
        && (outcome.error == Iterator <==> pulls[k].IteratorFails?)
        && Flatten(saved) + lost == Stream(conf, pulls[..k])
    ensures outcome.Failure? && outcome.error != CountUpdate ==>
      && (forall k | 0 <= k < |saved| :: |saved[k]| == conf.batchSize)
      && (if outcome.error == Save then |lost| == conf.batchSize else |lost| < conf.batchSize)
      && totals.created == |Flatten(saved)| && totals.bytes == Bytes(Flatten(saved) + lost)
    ensures outcome == Failure(Save) ==> Flatten(saved) + lost <= Stream(conf, pulls)
    ensures outcome == Failure(FinalSave) ==> Flatten(saved) + lost == Stream(conf, pulls) && lost != []
  {
    hide Stream, Average, Flatten, Bytes, Mean;
    var k := GoodTurns(pulls);
    StreamPrefix(conf, pulls, k, |pulls|);
    assert pulls[..|pulls|] == pulls;
    if outcome.Failure? && outcome.error in {Cancellation, Iterator, Strategy} {
      assert !pulls[k].Chunks? && Flatten(saved) + lost == Stream(conf, pulls[..k]);
    }
  }

  /** The loops, and what follows them. */
  method RunChunks(conf: Config, pulls: seq<Pull>, db: Database, result: ProcessingResult)
    returns (outcome: Outcome, ghost saved: seq<seq<Row>>, ghost lost: seq<Row>)
    requires conf.batchSize >= 1 && result.Sums() == Totals(0, 0, 0.0)
    modifies db, result
    ensures db.batches == old(db.batches) + saved
    ensures db.chunkCount == if outcome == Success then Some(result.chunksCreated) else old(db.chunkCount)
    ensures Reported(conf, pulls, outcome, saved, lost, result.Sums())
  {
    var buffer := Buffer([], 0.0, 0);
    ghost var base := db.batches;
    saved := [];
    NoProgress(conf);
    assert Stream(conf, pulls[..0]) == [];
    hide Progress, SaveLost, Stream, Reported, Filtered, Mean, Fault, Batched, GoodTurns;
    var i := 0;
    while i < |pulls|
      invariant 0 <= i <= |pulls| && forall k | 0 <= k < i :: pulls[k].Chunks?
      invariant Progress(conf, Stream(conf, pulls[..i]), saved, buffer, result.Sums())
      invariant db.batches == base + saved && db.chunkCount == old(db.chunkCount)
    {
      if !pulls[i].Chunks? {
        FaultExit(conf, pulls, i, saved, buffer, result.Sums());
        return Failure(Fault(pulls[i])), saved, buffer.batch;
      }
      ghost var j;
      var ok;
      ghost var done := Stream(conf, pulls[..i]);
      ok, buffer, j, saved := AddTurn(conf, pulls[i].made, buffer, db, result, done, base, saved);
      if !ok {
        SaveExit(conf, pulls, i, j, done + Filtered(conf, pulls[i].made[..j]), saved, buffer.batch, result.Sums());
        return Failure(Save), saved, buffer.batch;
      }
      StreamTurn(conf, pulls, i);
      i := i + 1;
    }
    assert pulls[..i] == pulls;
    outcome, saved, lost := Finish(conf, pulls, buffer, db, result, base, saved);
  }

  function Completeness(rows: seq<Row>): real {
    if rows == [] then 0.0 else Completeness(rows[..|rows| - 1]) + rows[|rows| - 1].completeness
  }

  lemma {:induction false} QualityBounds(rows: seq<Row>)
    requires forall r | r in rows :: r.completeness >= 0.0
    ensures Quality(rows) == Completeness(rows) >= 0.0 && (Quality(rows) > 0.0 <==> Rated(rows) > 0)
  {
    if rows != [] { QualityBounds(rows[..|rows| - 1]); }
  }

  /** The quality score leaves rows without a rating out of the mean, so it is the
      mean over all rows if and only if all of them, or none, are rated. */
  lemma ScoreIsMeanIff(rows: seq<Row>)
    requires rows != [] && forall r | r in rows :: r.completeness >= 0.0
    ensures Average(rows) == Completeness(rows) / |rows| as real <==>
      (forall r | r in rows :: r.completeness > 0.0) || (forall r | r in rows :: r.completeness == 0.0)
  {
    RatedAll(rows);
    QualityBounds(rows);
    MeansAgreeIff(Completeness(rows), Rated(rows), |rows|);
  }

  lemma {:induction false} RatedAll(rows: seq<Row>)
    requires forall r | r in rows :: r.completeness >= 0.0
    ensures Rated(rows) == |rows| <==> forall r | r in rows :: r.completeness > 0.0
    ensures Rated(rows) == 0 <==> forall r | r in rows :: r.completeness == 0.0
  {
    if rows != [] {
      var n := |rows| - 1;
      RatedAll(rows[..n]);
      assert rows == rows[..n] + [rows[n]];
    }
  }

  /** With some row rated the score is the sum of the ratings over their number,
      with none it is 0. */
  lemma ScoreIs(rows: seq<Row>)
    ensures (exists r :: r in rows && r.completeness > 0.0) ==>
      Rated(rows) > 0 && Average(rows) * Rated(rows) as real == Quality(rows)
    ensures (forall r | r in rows :: r.completeness <= 0.0) ==> Average(rows) == 0.0
  {
    RatedSome(rows);
  }

  lemma {:induction false} RatedSome(rows: seq<Row>)
    ensures Rated(rows) > 0 <==> exists r :: r in rows && r.completeness > 0.0
  {
    if rows != [] {
      var n := |rows| - 1;
      RatedSome(rows[..n]);
      assert rows == rows[..n] + [rows[n]];
    }
  }

  lemma MeansAgreeIff(q: real, rated: nat, n: nat)
    requires rated <= n && n > 0 && q >= 0.0 && (q > 0.0 <==> rated > 0)
    ensures Mean(q, rated) == q / n as real <==> rated == n || rated == 0
  {
    if rated > 0 { SameQuotient(q, rated as real, n as real); }
  }

  lemma SameQuotient(q: real, k: real, n: real)
    requires q > 0.0 && k > 0.0 && n > 0.0
    ensures q / k == q / n <==> k == n
  {
    var r, t := q / k, q / n;
    assert r * k == q && t * n == q;
    if r == t && k < n { MoreIsMore(r, k, n); }
    if r == t && n < k { MoreIsMore(r, n, k); }
  }

  lemma MoreIsMore(r: real, k: real, n: real)
    requires k < n && r * k > 0.0 && k > 0.0
    ensures r * k < r * n
  {}
}
