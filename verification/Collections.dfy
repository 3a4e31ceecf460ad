/** Finite sets, multisets, maps and lists. */
module Collections {

  lemma HasElement<T>(s: set<T>)
    requires s != {}
    ensures exists x :: x in s
  {
    if forall x :: x !in s { assert false; }
  }

  lemma SubsetSize<T>(a: set<T>, b: set<T>)
    requires a <= b
    ensures |a| <= |b| && (|a| == |b| ==> a == b)
  {
    assert |b - a| == |b| - |a|;
  }

  lemma SameSize<K, V>(a: map<K, V>, b: map<K, V>)
    requires a.Keys == b.Keys
    ensures |a| == |b|
  {
    assert |a| == |a.Keys| && |b| == |b.Keys|;
  }

  function Put<T>(m: multiset<T>, x: T): multiset<T> { m[x := m[x] + 1] }

  function TakeOut<T>(m: multiset<T>, x: T): multiset<T>
    requires x in m
  {
    m[x := m[x] - 1]
  }

  /** The list kept for a key, from the first entry on. */
  function HistoryOf<K, T>(histories: map<K, seq<T>>, key: K): seq<T> {
    if key in histories then histories[key] else []
  }

  ghost predicate NoRepeats<T>(s: seq<T>) {
    forall i, j | 0 <= i < j < |s| :: s[i] != s[j]
  }

  lemma {:induction false} CountOnce<T>(s: seq<T>, x: T)
    requires NoRepeats(s)
    ensures multiset(s)[x] <= 1
  {
    if s != [] {
      assert s == [s[0]] + s[1..];
      CountOnce(s[1..], x);
      assert s[0] !in multiset(s[1..]);
    }
  }

  lemma CountTwice<T>(s: seq<T>, i: nat, j: nat)
    requires i < j < |s| && s[i] == s[j]
    ensures multiset(s)[s[i]] >= 2
  {
    assert s == s[..j] + s[j..];
    assert s[i] in s[..j] && s[j] in s[j..];
  }

  lemma PermutationRepeatsNothing<T>(s: seq<T>, t: seq<T>)
    requires multiset(s) == multiset(t) && NoRepeats(s)
    ensures NoRepeats(t)
  {
    forall i, j | 0 <= i < j < |t| ensures t[i] != t[j] {
      CountOnce(s, t[i]);
      if t[i] == t[j] { CountTwice(t, i, j); }
    }
  }

  lemma LastJoins<T>(first: seq<T>, second: seq<T>)
    requires second != []
    ensures var n := |second| - 1;
      first + second == (first + second[..n]) + [second[n]] && second == second[..n] + [second[n]]
  {
  }

  lemma SlicesJoin<T>(s: seq<T>, n: nat, m: nat)
    requires n <= m <= |s|
    ensures s[..n] + s[n..][..m - n] == s[..m]
  {
  }
}
