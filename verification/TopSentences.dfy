/** selectTopSentences (pkg/analysis/models.go): the k sentences with the highest
    scores, in the order of the text. */
module TopSentences {
  import opened Collections

  datatype Scored = Scored(sentence: string, score: real, index: nat)

  // ----- sorting -----

  /** The two comparisons in use: falling score and rising index. */
  datatype Order = ByScore | ByIndex

  function Key(order: Order, s: Scored): real {
    match order
    case ByScore => -s.score
    case ByIndex => s.index as real
  }

  function Insert(x: Scored, sorted: seq<Scored>, order: Order): seq<Scored> {
    if sorted == [] || Key(order, x) <= Key(order, sorted[0]) then [x] + sorted
    else [sorted[0]] + Insert(x, sorted[1..], order)
  }

  function Sorted(xs: seq<Scored>, order: Order): seq<Scored> {
    if xs == [] then [] else Insert(xs[0], Sorted(xs[1..], order), order)
  }

  ghost predicate Ascending(xs: seq<Scored>, order: Order) {
    forall i, j | 0 <= i < j < |xs| :: Key(order, xs[i]) <= Key(order, xs[j])
  }

  lemma {:induction false} InsertKeepsAll(x: Scored, sorted: seq<Scored>, order: Order)
    ensures multiset(Insert(x, sorted, order)) == multiset(sorted) + multiset{x}
  {
    hide Key;
    if sorted != [] && Key(order, x) > Key(order, sorted[0]) {
      InsertKeepsAll(x, sorted[1..], order);
      assert sorted == [sorted[0]] + sorted[1..];
    }
  }

  lemma {:induction false} InsertSorts(x: Scored, sorted: seq<Scored>, order: Order)
    requires Ascending(sorted, order)
    ensures Ascending(Insert(x, sorted, order), order)
  {
    hide Key;
    if sorted != [] && Key(order, x) > Key(order, sorted[0]) {
      var rest := Insert(x, sorted[1..], order);
      InsertSorts(x, sorted[1..], order);
      InsertKeepsAll(x, sorted[1..], order);
      forall j | 0 <= j < |rest| ensures Key(order, sorted[0]) <= Key(order, rest[j]) {
        assert rest[j] in multiset(rest);
        assert rest[j] == x || rest[j] in sorted[1..];
      }
      assert Insert(x, sorted, order) == [sorted[0]] + rest;
      FirstIsLeast(sorted[0], rest, order);
    }
  }

  lemma FirstIsLeast(x: Scored, rest: seq<Scored>, order: Order)
    requires Ascending(rest, order) && forall j | 0 <= j < |rest| :: Key(order, x) <= Key(order, rest[j])
    ensures Ascending([x] + rest, order)
  {
    hide Key;
  }

  lemma {:induction false} SortedSorts(xs: seq<Scored>, order: Order)
    ensures Ascending(Sorted(xs, order), order) && multiset(Sorted(xs, order)) == multiset(xs)
  {
    if xs != [] {
      SortedSorts(xs[1..], order);
      InsertSorts(xs[0], Sorted(xs[1..], order), order);
      InsertKeepsAll(xs[0], Sorted(xs[1..], order), order);
      assert xs == [xs[0]] + xs[1..];
    }
  }

  /** Stands for sort.Slice on the first n places: its callers know no more than
      that the places are permuted and end in order of the key. */
  method SortSlice(a: array<Scored>, n: nat, order: Order)
    requires n <= a.Length
    modifies a
    ensures multiset(a[..n]) == multiset(old(a[..n])) && Ascending(a[..n], order)
    ensures a[n..] == old(a[n..])
  {
    var sorted := Sorted(a[..n], order);
    SortedSorts(a[..n], order);
    assert |multiset(sorted)| == |multiset(a[..n])|;
    forall i | 0 <= i < n { a[i] := sorted[i]; }
    assert a[..n] == sorted;
  }

  // ----- the selection -----

  /** The indices are those of a best selection of m sentences in text order. */
  ghost predicate Best(picks: seq<nat>, scores: seq<real>, n: nat, m: nat)
    requires n <= |scores|
  {
    && |picks| == m
    && (forall i | 0 <= i < m :: picks[i] < n)
    && (forall i, j | 0 <= i < j < m :: picks[i] < picks[j])
    && (forall p, q: nat | p in picks && q < n && q !in picks :: scores[p] >= scores[q])
  }

  /** A permutation of the sentences with their scores and indices. */
  ghost predicate Shuffle(xs: seq<Scored>, sentences: seq<string>, scores: seq<real>)
    requires |sentences| <= |scores|
  {
    && |xs| == |sentences|
    && (forall i | 0 <= i < |xs| ::
          xs[i].index < |xs| && xs[i] == Scored(sentences[xs[i].index], scores[xs[i].index], xs[i].index))
    && (forall i, j | 0 <= i < j < |xs| :: xs[i].index != xs[j].index)
    && (forall k: nat | k < |xs| :: Scored(sentences[k], scores[k], k) in xs)
  }

  lemma ListingIsShuffle(listed: seq<Scored>, sentences: seq<string>, scores: seq<real>)
    requires |listed| == |sentences| <= |scores|
    requires forall i | 0 <= i < |listed| :: listed[i] == Scored(sentences[i], scores[i], i)
    ensures Shuffle(listed, sentences, scores)
  {
    forall k: nat | k < |listed| ensures Scored(sentences[k], scores[k], k) in listed {
      assert listed[k] == Scored(sentences[k], scores[k], k);
    }
  }

  lemma ShuffleAgain(xs: seq<Scored>, ys: seq<Scored>, sentences: seq<string>, scores: seq<real>)
    requires |sentences| <= |scores| && Shuffle(xs, sentences, scores) && multiset(xs) == multiset(ys)
    ensures Shuffle(ys, sentences, scores)
  {
    assert |multiset(xs)| == |multiset(ys)|;
    forall i | 0 <= i < |ys| ensures ys[i] in xs { assert ys[i] in multiset(ys); }
    PermutationRepeatsNothing(xs, ys);
    forall k: nat | k < |ys| ensures Scored(sentences[k], scores[k], k) in ys {
      assert Scored(sentences[k], scores[k], k) in multiset(xs);
    }
  }

  function Indices(xs: seq<Scored>): (r: seq<nat>)
    ensures |r| == |xs| && forall i | 0 <= i < |r| :: r[i] == xs[i].index
  {
    seq(|xs|, i requires 0 <= i < |xs| => xs[i].index)
  }

  lemma SelectedRises(byScore: seq<Scored>, selected: seq<Scored>, sentences: seq<string>, scores: seq<real>, m: nat)
    requires |sentences| <= |scores| && m <= |byScore| && Shuffle(byScore, sentences, scores)
    requires multiset(selected) == multiset(byScore[..m]) && Ascending(selected, ByIndex)
    ensures |selected| == m && forall i | 0 <= i < m :: selected[i] in byScore[..m]
    ensures forall i, j | 0 <= i < j < m :: selected[i].index < selected[j].index
  {
    assert |multiset(selected)| == |multiset(byScore[..m])|;
    forall i | 0 <= i < m ensures selected[i] in byScore[..m] { assert selected[i] in multiset(selected); }
    PermutationRepeatsNothing(byScore[..m], selected);
    forall i, j | 0 <= i < j < m ensures selected[i].index < selected[j].index {
      assert selected[i] != selected[j];
      assert Key(ByIndex, selected[i]) <= Key(ByIndex, selected[j]);
    }
  }

  lemma FirstScoreHigher(byScore: seq<Scored>, selected: seq<Scored>, sentences: seq<string>, scores: seq<real>, m: nat,
                         s: Scored, q: nat)
    requires |sentences| <= |scores| && m <= |byScore| && Shuffle(byScore, sentences, scores)
    requires Ascending(byScore, ByScore) && multiset(selected) == multiset(byScore[..m])
    requires s in byScore[..m] && q < |sentences| && forall t | t in selected :: t.index != q
    ensures s.score >= scores[q]
  {
    var i :| 0 <= i < m && byScore[i] == s;
    var other := Scored(sentences[q], scores[q], q);
    var j :| 0 <= j < |byScore| && byScore[j] == other;
    forall k | 0 <= k < m ensures byScore[k] in selected { assert byScore[..m][k] in multiset(byScore[..m]); }
    assert j >= m;
    assert Key(ByScore, byScore[i]) <= Key(ByScore, byScore[j]);
  }

  /** The m first of the sentences by falling score, put back in text order, are a
      best selection, whichever way the sorts break ties. */
  lemma FirstAreBest(byScore: seq<Scored>, selected: seq<Scored>, sentences: seq<string>, scores: seq<real>, m: nat)
    requires |sentences| <= |scores| && m <= |byScore| && Shuffle(byScore, sentences, scores)
    requires Ascending(byScore, ByScore)
    requires multiset(selected) == multiset(byScore[..m]) && Ascending(selected, ByIndex)
    ensures Best(Indices(selected), scores, |sentences|, m)
    ensures forall i | 0 <= i < |selected| ::
      selected[i].index < |sentences| && selected[i].sentence == sentences[selected[i].index]
  {
    SelectedRises(byScore, selected, sentences, scores, m);
    var picks := Indices(selected);
    forall p, q: nat | p in picks && q < |sentences| && q !in picks ensures scores[p] >= scores[q] {
      var i :| 0 <= i < m && picks[i] == p;
      forall t | t in selected ensures t.index != q {
        var k :| 0 <= k < m && selected[k] == t;
        assert picks[k] == t.index;
      }
      FirstScoreHigher(byScore, selected, sentences, scores, m, selected[i], q);
    }
  }

  method SentencesOf(a: array<Scored>, m: nat) returns (result: seq<string>)
    requires m <= a.Length
    ensures |result| == m && forall k | 0 <= k < m :: result[k] == a[..m][k].sentence
  {
    result := [];
    for i := 0 to m
      invariant |result| == i && forall k | 0 <= k < i :: result[k] == a[k].sentence
    {
      result := result + [a[i].sentence];
    }
  }

  method RankByScore(sentences: seq<string>, scores: seq<real>) returns (scored: array<Scored>)
    requires |sentences| <= |scores|
    ensures fresh(scored) && scored.Length == |sentences|
    ensures Shuffle(scored[..], sentences, scores) && Ascending(scored[..], ByScore)
  {
    scored := new Scored[|sentences|](i requires 0 <= i < |sentences| => Scored(sentences[i], scores[i], i));
    ghost var listed := scored[..];
    ListingIsShuffle(listed, sentences, scores);
    hide Shuffle, Ascending, Sorted;
    assert scored[..scored.Length] == scored[..];
    SortSlice(scored, scored.Length, ByScore);
    assert scored[..scored.Length] == scored[..];
    ShuffleAgain(listed, scored[..], sentences, scores);
  }

  /** The sentences at `picks`: as many as asked for, or all, in the order of the
      text, and none left out has a higher score than one chosen. */
  method SelectTopSentences(sentences: seq<string>, scores: seq<real>, numSentences: nat)
    returns (result: seq<string>, ghost picks: seq<nat>)
    requires |sentences| <= |scores|
    ensures |result| == |picks| == if numSentences < |sentences| then numSentences else |sentences|
    ensures forall i | 0 <= i < |picks| :: picks[i] < |sentences| && result[i] == sentences[picks[i]]
    ensures forall i, j | 0 <= i < j < |picks| :: picks[i] < picks[j]
    ensures forall p, q: nat | p in picks && q < |sentences| && q !in picks :: scores[p] >= scores[q]
  {
    var scored := RankByScore(sentences, scores);
    hide Shuffle, Ascending, Sorted, Best;
    ghost var byScore := scored[..];
    var m := if numSentences < scored.Length then numSentences else scored.Length;
    assert scored[..m] == byScore[..m];
    SortSlice(scored, m, ByIndex);
    ghost var selected := scored[..m];
    FirstAreBest(byScore, selected, sentences, scores, m);
    result := SentencesOf(scored, m);
    picks := Indices(selected);
    BestSays(picks, scores, |sentences|, m);
  }

  lemma BestSays(picks: seq<nat>, scores: seq<real>, n: nat, m: nat)
    requires n <= |scores| && Best(picks, scores, n, m)
    ensures |picks| == m && forall i | 0 <= i < m :: picks[i] < n
    ensures forall i, j | 0 <= i < j < m :: picks[i] < picks[j]
    ensures forall p, q: nat | p in picks && q < n && q !in picks :: scores[p] >= scores[q]
  {}

  ghost predicate Rising(picks: seq<nat>) {
    forall i, j | 0 <= i < j < |picks| :: picks[i] < picks[j]
  }

  function Members(picks: seq<nat>): (r: set<nat>)
    ensures forall x: nat :: x in r <==> x in picks
  {
    if picks == [] then {} else Members(picks[1..]) + {picks[0]}
  }

  lemma {:induction false} MembersSize(picks: seq<nat>)
    requires Rising(picks)
    ensures |Members(picks)| == |picks|
  {
    if picks != [] {
      MembersSize(picks[1..]);
      assert picks[0] !in picks[1..];
    }
  }

  lemma {:induction false} RisingIsDetermined(p: seq<nat>, q: seq<nat>)
    requires Rising(p) && Rising(q) && (forall x: nat :: x in p <==> x in q)
    ensures p == q
  {
    assert p != [] ==> p[0] in q;
    assert q != [] ==> q[0] in p;
    if p != [] && q != [] {
      assert p == [p[0]] + p[1..] && q == [q[0]] + q[1..];
      forall x: nat ensures x in p[1..] <==> x in q[1..] {
        assert x in p <==> x in q;
      }
      RisingIsDetermined(p[1..], q[1..]);
    }
  }

  /** When no two scores are equal the selection is determined, so the sorts have
      no say in it. */
  lemma DistinctScoresDecide(p: seq<nat>, q: seq<nat>, scores: seq<real>, n: nat, m: nat)
    requires n <= |scores| && Best(p, scores, n, m) && Best(q, scores, n, m)
    requires forall i, j | 0 <= i < j < n :: scores[i] != scores[j]
    ensures p == q
  {
    forall x: nat ensures x in p ==> x in q { Contained(p, q, scores, n, m, x); }
    forall x: nat ensures x in q ==> x in p { Contained(q, p, scores, n, m, x); }
    RisingIsDetermined(p, q);
  }

  lemma Contained(p: seq<nat>, q: seq<nat>, scores: seq<real>, n: nat, m: nat, x: nat)
    requires n <= |scores| && Best(p, scores, n, m) && Best(q, scores, n, m)
    requires forall i, j | 0 <= i < j < n :: scores[i] != scores[j]
    ensures x in p ==> x in q
  {
    if x in p && x !in q {
      var y := Swapped(p, q, x);
      EqualScores(p, q, scores, n, m, x, y);
      assert false;
    }
  }

  lemma EqualScores(p: seq<nat>, q: seq<nat>, scores: seq<real>, n: nat, m: nat, x: nat, y: nat)
    requires n <= |scores| && Best(p, scores, n, m) && Best(q, scores, n, m)
    requires x in p && x !in q && y in q && y !in p
    ensures x < n && y < n && x != y && scores[x] == scores[y]
  {}

  /** Of two selections of one size, neither holds the other strictly. */
  lemma Swapped(p: seq<nat>, q: seq<nat>, x: nat) returns (y: nat)
    requires Rising(p) && Rising(q) && |p| == |q| && x in p && x !in q
    ensures y in q && y !in p
  {
    MembersSize(p);
    MembersSize(q);
    if Members(q) - Members(p) == {} {
      SubsetSize(Members(q), Members(p) - {x});
      assert false;
    }
    HasElement(Members(q) - Members(p));
    y :| y in Members(q) - Members(p);
  }
}
