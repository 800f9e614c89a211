/**
 * The ordering of both standings tables: `Array.prototype.sort` with the comparator
 * `(a, b) => b.points - a.points || b.wins - a.wins`. That sort is stable, so it is
 * modelled as a stable insertion sort; StableRankingIsUnique shows that every stable
 * sort by this comparator produces the same sequence.
 */
module Ranking {

  /** The two numbers a standings row is ranked by. */
  datatype Score = Score(points: int, wins: int)

  /** The source's comparator; a negative value puts `a` ahead of `b`. */
  function Compare(a: Score, b: Score): int
  {
    var byPoints := b.points - a.points;
    if byPoints != 0 then byPoints else b.wins - a.wins
  }

  /** `a` belongs strictly ahead of `b`: more points, or as many points and more wins. */
  predicate Outranks(a: Score, b: Score)
  {
    a.points > b.points || (a.points == b.points && a.wins > b.wins)
  }

  lemma CompareMeansOutranks(a: Score, b: Score)
    ensures Compare(a, b) < 0 <==> Outranks(a, b)
    ensures Compare(a, b) > 0 <==> Outranks(b, a)
    ensures Compare(a, b) == 0 <==> a == b
  {
  }

  /** No element is outranked by one that comes after it. */
  predicate Ranked<T>(s: seq<T>, key: T -> Score)
  {
    forall i, j :: 0 <= i < j < |s| ==> !Outranks(key(s[j]), key(s[i]))
  }

  /** The elements of `s` whose score is `k`, in their order in `s`. */
  function WithScore<T>(s: seq<T>, key: T -> Score, k: Score): seq<T>
  {
    if s == [] then []
    else (if key(s[0]) == k then [s[0]] else []) + WithScore(s[1..], key, k)
  }

  /** `WithScore(s, key, k)` holds exactly the elements of `s` with score `k`. */
  lemma {:induction false} WithScoreMembers<T>(s: seq<T>, key: T -> Score, k: Score)
    ensures |WithScore(s, key, k)| <= |s|
    ensures forall x :: x in WithScore(s, key, k) ==> x in s && key(x) == k
    ensures forall x :: x in s && key(x) == k ==> x in WithScore(s, key, k)
  {
    if s != [] {
      WithScoreMembers(s[1..], key, k);
      assert s == [s[0]] + s[1..];
    }
  }

  /** A ranked sequence stays ranked without its first element. */
  lemma RankedTail<T>(t: seq<T>, key: T -> Score)
    requires t != [] && Ranked(t, key)
    ensures Ranked(t[1..], key)
  {
    forall i, j | 0 <= i < j < |t[1..]| ensures !Outranks(key(t[1..][j]), key(t[1..][i])) {
      assert t[1..][i] == t[i + 1] && t[1..][j] == t[j + 1];
    }
  }

  /** Putting `y` in front of a ranked sequence keeps it ranked when nothing in it outranks `y`. */
  lemma RankedCons<T>(y: T, t: seq<T>, key: T -> Score)
    requires Ranked(t, key)
    requires forall z :: z in t ==> !Outranks(key(z), key(y))
    ensures Ranked([y] + t, key)
  {
    var s := [y] + t;
    forall i, j | 0 <= i < j < |s| ensures !Outranks(key(s[j]), key(s[i])) {
      assert s[j] == t[j - 1];
      if i > 0 {
        assert s[i] == t[i - 1];
      } else {
        assert t[j - 1] in t;
      }
    }
  }

  /** `x` may go in front of `t` when `t`'s first element does not outrank it. */
  lemma InsertInFront<T>(x: T, t: seq<T>, key: T -> Score)
    requires Ranked(t, key)
    requires t == [] || Compare(key(x), key(t[0])) <= 0
    ensures Ranked([x] + t, key)
  {
    forall z | z in t ensures !Outranks(key(z), key(x)) {
      var j :| 0 <= j < |t| && t[j] == z;
      assert j == 0 || !Outranks(key(t[j]), key(t[0]));
    }
    RankedCons(x, t, key);
  }

  /** `t[0]` may stay in front when it outranks `x` and the rest is `t[1..]` with `x` inserted. */
  lemma InsertBehind<T>(x: T, t: seq<T>, rest: seq<T>, key: T -> Score)
    requires t != [] && Ranked(t, key) && Compare(key(x), key(t[0])) > 0
    requires Ranked(rest, key) && multiset(rest) == multiset(t[1..]) + multiset{x}
    ensures Ranked([t[0]] + rest, key)
  {
    forall z | z in rest ensures !Outranks(key(z), key(t[0])) {
      assert z in multiset(rest);
      if z != x {
        assert z in multiset(t[1..]);
        var j :| 0 <= j < |t[1..]| && t[1..][j] == z;
        assert t[j + 1] == z;
      }
    }
    RankedCons(t[0], rest, key);
  }

  /** Inserts `x`, which came before every element of `t` in the input, after the elements that outrank it. */
  function Insert<T>(x: T, t: seq<T>, key: T -> Score): (r: seq<T>)
    requires Ranked(t, key)
    ensures |r| == |t| + 1
    ensures Ranked(r, key)
    ensures multiset(r) == multiset(t) + multiset{x}
  {
    if t == [] || Compare(key(x), key(t[0])) <= 0 then
      InsertInFront(x, t, key);
      [x] + t
    else
      RankedTail(t, key);
      var rest := Insert(x, t[1..], key);
      InsertBehind(x, t, rest, key);
      assert t == [t[0]] + t[1..];
      [t[0]] + rest
  }

  /** Inserting `x` adds it in front of the elements of `t` that have its score. */
  lemma {:induction false} InsertWithScore<T>(x: T, t: seq<T>, key: T -> Score, k: Score)
    requires Ranked(t, key)
    ensures WithScore(Insert(x, t, key), key, k) == (if key(x) == k then [x] else []) + WithScore(t, key, k)
  {
    var r := Insert(x, t, key);
    if t == [] || Compare(key(x), key(t[0])) <= 0 {
      assert r == [x] + t;
      assert r[1..] == t;
    } else {
      RankedTail(t, key);
      var rest := Insert(x, t[1..], key);
      assert r == [t[0]] + rest;
      assert r[1..] == rest;
      InsertWithScore(x, t[1..], key, k);
      assert key(x) != key(t[0]);
    }
  }

  /** Stable sort by score, best first. */
  function SortByScore<T>(s: seq<T>, key: T -> Score): (r: seq<T>)
    ensures |r| == |s|
    ensures Ranked(r, key)
    ensures multiset(r) == multiset(s)
    ensures forall k :: WithScore(r, key, k) == WithScore(s, key, k)
  {
    if s == [] then []
    else
      var rest := SortByScore(s[1..], key);
      assert s == [s[0]] + s[1..];
      assert forall k :: WithScore(Insert(s[0], rest, key), key, k) == WithScore(s, key, k) by {
        forall k ensures WithScore(Insert(s[0], rest, key), key, k) == WithScore(s, key, k) {
          InsertWithScore(s[0], rest, key, k);
        }
      }
      Insert(s[0], rest, key)
  }

  /** `f` applied to every element of `s`. */
  function Project<T, U>(s: seq<T>, f: T -> U): (r: seq<U>)
    ensures |r| == |s|
    ensures forall i :: 0 <= i < |s| ==> r[i] == f(s[i])
  {
    if s == [] then [] else [f(s[0])] + Project(s[1..], f)
  }

  lemma {:induction false} InsertProject<T, U>(x: T, t: seq<T>, key: T -> Score, f: T -> U)
    requires Ranked(t, key)
    ensures multiset(Project(Insert(x, t, key), f)) == multiset(Project(t, f)) + multiset{f(x)}
  {
    if t == [] || Compare(key(x), key(t[0])) <= 0 {
      assert Project(Insert(x, t, key), f) == [f(x)] + Project(t, f);
    } else {
      RankedTail(t, key);
      InsertProject(x, t[1..], key, f);
      assert Project(Insert(x, t, key), f) == [f(t[0])] + Project(Insert(x, t[1..], key), f);
      assert Project(t, f) == [f(t[0])] + Project(t[1..], f);
    }
  }

  /** Sorting permutes any projection of the elements too (e.g. the drivers of the rows). */
  lemma {:induction false} SortProject<T, U>(s: seq<T>, key: T -> Score, f: T -> U)
    ensures multiset(Project(SortByScore(s, key), f)) == multiset(Project(s, f))
  {
    if s != [] {
      SortProject(s[1..], key, f);
      InsertProject(s[0], SortByScore(s[1..], key), key, f);
      assert Project(s, f) == [f(s[0])] + Project(s[1..], f);
    }
  }

  /** Sorting an already ranked sequence changes nothing. */
  lemma {:induction false} SortRankedIsIdentity<T>(s: seq<T>, key: T -> Score)
    requires Ranked(s, key)
    ensures SortByScore(s, key) == s
  {
    if s != [] {
      RankedTail(s, key);
      SortRankedIsIdentity(s[1..], key);
      if |s| > 1 {
        assert !Outranks(key(s[1]), key(s[0]));
      }
      assert [s[0]] + s[1..] == s;
    }
  }

  lemma {:induction false} MemberOfWithScore<T>(s: seq<T>, key: T -> Score, k: Score, j: nat)
    requires j < |s| && key(s[j]) == k
    ensures exists m :: 0 <= m < |WithScore(s, key, k)| && WithScore(s, key, k)[m] == s[j]
  {
    assert s[j] in s;
    var w := WithScore(s, key, k);
    WithScoreMembers(s, key, k);
    assert s[j] in w;
    var m :| 0 <= m < |w| && w[m] == s[j];
  }

  lemma WithScoreKeepsOrderFromFirst<T>(s: seq<T>, key: T -> Score, k: Score, j: nat)
    requires 0 < j < |s| && key(s[0]) == k && key(s[j]) == k
    ensures exists n :: 0 < n < |WithScore(s, key, k)| && WithScore(s, key, k)[0] == s[0] && WithScore(s, key, k)[n] == s[j]
  {
    var w := WithScore(s, key, k);
    var tail := WithScore(s[1..], key, k);
    assert w == [s[0]] + tail;
    MemberOfWithScore(s[1..], key, k, j - 1);
    var n :| 0 <= n < |tail| && tail[n] == s[1..][j - 1];
    assert w[n + 1] == s[j];
  }

  /** Two elements of `s` with score `k` keep their relative order in `WithScore(s, key, k)`. */
  lemma {:induction false} WithScoreKeepsOrder<T>(s: seq<T>, key: T -> Score, k: Score, i: nat, j: nat)
    requires i < j < |s| && key(s[i]) == k && key(s[j]) == k
    ensures exists m, n ::
              0 <= m < n < |WithScore(s, key, k)| && WithScore(s, key, k)[m] == s[i] && WithScore(s, key, k)[n] == s[j]
  {
    var w := WithScore(s, key, k);
    var tail := WithScore(s[1..], key, k);
    if i == 0 {
      WithScoreKeepsOrderFromFirst(s, key, k, j);
    } else {
      WithScoreKeepsOrder(s[1..], key, k, i - 1, j - 1);
      var m, n :| 0 <= m < n < |tail| && tail[m] == s[1..][i - 1] && tail[n] == s[1..][j - 1];
      assert tail[m] == s[i] && tail[n] == s[j];
      if key(s[0]) == k {
        assert w == [s[0]] + tail;
        assert m + 1 < n + 1 < |w| && w[m + 1] == s[i] && w[n + 1] == s[j];
      } else {
        assert w == tail;
      }
    }
  }

  /** Elements in order in `WithScore(s, key, k)` occur in that order in `s`. */
  lemma {:induction false} WithScoreOrderFromSource<T>(s: seq<T>, key: T -> Score, k: Score, m: nat, n: nat)
    requires m < n < |WithScore(s, key, k)|
    ensures exists a, b :: 0 <= a < b < |s| && s[a] == WithScore(s, key, k)[m] && s[b] == WithScore(s, key, k)[n]
  {
    var w := WithScore(s, key, k);
    var tail := WithScore(s[1..], key, k);
    if key(s[0]) == k {
      assert w == [s[0]] + tail;
      if m == 0 {
        assert w[n] == tail[n - 1];
        WithScoreMembers(s[1..], key, k);
        assert tail[n - 1] in tail;
        assert tail[n - 1] in s[1..];
        var b :| 0 <= b < |s[1..]| && s[1..][b] == tail[n - 1];
        assert s[0] == w[m] && s[b + 1] == w[n];
      } else {
        WithScoreOrderFromSource(s[1..], key, k, m - 1, n - 1);
        var a, b :| 0 <= a < b < |s[1..]| && s[1..][a] == tail[m - 1] && s[1..][b] == tail[n - 1];
        assert s[a + 1] == w[m] && s[b + 1] == w[n];
      }
    } else {
      assert w == tail;
      WithScoreOrderFromSource(s[1..], key, k, m, n);
      var a, b :| 0 <= a < b < |s[1..]| && s[1..][a] == tail[m] && s[1..][b] == tail[n];
      assert s[a + 1] == w[m] && s[b + 1] == w[n];
    }
  }

  /** Stability: two elements with the same score come out in the order they had in the input. */
  lemma SortKeepsTieOrder<T>(s: seq<T>, key: T -> Score, i: nat, j: nat)
    requires i < j < |s|
    requires key(SortByScore(s, key)[i]) == key(SortByScore(s, key)[j])
    ensures exists a, b :: 0 <= a < b < |s| && s[a] == SortByScore(s, key)[i] && s[b] == SortByScore(s, key)[j]
  {
    var r := SortByScore(s, key);
    var k := key(r[i]);
    WithScoreKeepsOrder(r, key, k, i, j);
    var m, n :| 0 <= m < n < |WithScore(r, key, k)| && WithScore(r, key, k)[m] == r[i] && WithScore(r, key, k)[n] == r[j];
    assert WithScore(r, key, k) == WithScore(s, key, k);
    WithScoreOrderFromSource(s, key, k, m, n);
  }

  lemma {:induction false} WithScoreOfTail<T>(s: seq<T>, key: T -> Score, k: Score)
    requires s != []
    ensures WithScore(s[1..], key, k) == if key(s[0]) == k then WithScore(s, key, k)[1..] else WithScore(s, key, k)
  {
    var tail := WithScore(s[1..], key, k);
    if key(s[0]) == k {
      assert WithScore(s, key, k) == [s[0]] + tail;
    }
  }

  /**
   * A ranked sequence is determined by the order of the elements within each score:
   * any stable sort by the comparator yields the same result as SortByScore.
   */
  lemma {:induction false} StableRankingIsUnique<T>(s: seq<T>, r: seq<T>, key: T -> Score)
    requires Ranked(r, key) && Ranked(s, key)
    requires forall k :: WithScore(r, key, k) == WithScore(s, key, k)
    ensures r == s
    decreases |s|
  {
    if s != [] {
      assert s[0] in s;
      var k0 := key(s[0]);
      WithScoreMembers(s, key, k0);
      WithScoreMembers(r, key, k0);
      assert s[0] in WithScore(s, key, k0);
      assert s[0] in r;
      assert r[0] in r;
      WithScoreMembers(r, key, key(r[0]));
      WithScoreMembers(s, key, key(r[0]));
      assert r[0] in WithScore(r, key, key(r[0]));
      assert r[0] in s;
      assert key(r[0]) == k0 by {
        var a :| 0 <= a < |s| && s[a] == r[0];
        var b :| 0 <= b < |r| && r[b] == s[0];
        assert a == 0 || !Outranks(key(s[a]), key(s[0]));
        assert b == 0 || !Outranks(key(r[b]), key(r[0]));
      }
      assert WithScore(r, key, k0) == [r[0]] + WithScore(r[1..], key, k0);
      assert WithScore(s, key, k0) == [s[0]] + WithScore(s[1..], key, k0);
      assert WithScore(r, key, k0) == WithScore(s, key, k0);
      assert r[0] == WithScore(r, key, k0)[0] == WithScore(s, key, k0)[0] == s[0];
      forall k ensures WithScore(r[1..], key, k) == WithScore(s[1..], key, k) {
        WithScoreOfTail(r, key, k);
        WithScoreOfTail(s, key, k);
      }
      StableRankingIsUnique(s[1..], r[1..], key);
      assert r == [r[0]] + r[1..];
      assert s == [s[0]] + s[1..];
    }
  }

  /** Any ranked rearrangement that keeps the order within each score is the one SortByScore gives. */
  lemma StableSortIsSortByScore<T>(s: seq<T>, r: seq<T>, key: T -> Score)
    requires Ranked(r, key)
    requires forall k :: WithScore(r, key, k) == WithScore(s, key, k)
    ensures r == SortByScore(s, key)
  {
    StableRankingIsUnique(SortByScore(s, key), r, key);
  }
}
