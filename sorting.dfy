/**
 * `Array.prototype.sort` with a comparator of the form `rank(a) - rank(b)`:
 * a stable sort by an integer rank, done in place as an insertion sort.
 */
module Sorting {
  import opened Seqs

  ghost predicate SortedBy<T>(s: seq<T>, rank: T -> int)
  {
    forall i, j :: 0 <= i < j < |s| ==> rank(s[i]) <= rank(s[j])
  }

  /** The elements of `s` whose rank is `k`, in their order in `s`. */
  function WithRank<T>(s: seq<T>, rank: T -> int, k: int): seq<T>
  {
    Keep(s, x => rank(x) == k)
  }

  /**
   * `r` is `s` sorted stably: ordered by rank, a permutation of `s`, and the
   * elements of each rank appear in `r` in the order they have in `s`.
   */
  ghost predicate IsStableSortOf<T>(r: seq<T>, s: seq<T>, rank: T -> int)
  {
    && SortedBy(r, rank)
    && multiset(r) == multiset(s)
    && forall k :: WithRank(r, rank, k) == WithRank(s, rank, k)
  }

  /** `s` with its element at `i` moved left to position `j`. */
  function MovedLeft<T>(s: seq<T>, j: nat, i: nat): (r: seq<T>)
    requires j <= i < |s|
    ensures |r| == |s|
  {
    s[..j] + [s[i]] + s[j..i] + s[i + 1..]
  }

  /** Exchanging the moved element with its left neighbour moves it one place further. */
  lemma MoveOneMore<T>(s: seq<T>, j: nat, i: nat)
    requires 0 < j <= i < |s|
    ensures MovedLeft(s, j, i)[j - 1 := s[i]][j := s[j - 1]] == MovedLeft(s, j - 1, i)
  {
    var r := MovedLeft(s, j, i);
    assert r[j - 1] == s[j - 1] && r[j] == s[i];
    assert s[j - 1..i] == [s[j - 1]] + s[j..i];
    assert s[..j] == s[..j - 1] + [s[j - 1]];
  }

  /**
   * Moving an element left past elements of strictly greater rank, and no
   * further than the first one of smaller or equal rank, keeps a sorted prefix
   * sorted.
   */
  lemma MoveLeftSorted<T>(s: seq<T>, j: nat, i: nat, rank: T -> int)
    requires j <= i < |s|
    requires SortedBy(s[..i], rank)
    requires forall q :: j <= q < i ==> rank(s[i]) < rank(s[q])
    requires j > 0 ==> rank(s[j - 1]) <= rank(s[i])
    ensures SortedBy(MovedLeft(s, j, i)[..i + 1], rank)
  {
    var r := MovedLeft(s, j, i)[..i + 1];
    assert r == s[..j] + [s[i]] + s[j..i];
    forall p, q | 0 <= p < q < i + 1 ensures rank(r[p]) <= rank(r[q]) {
      if q < j {
        assert r[p] == s[p] && r[q] == s[q];
      } else if p < j && q == j {
        assert r[p] == s[p] && rank(s[p]) <= rank(s[j - 1]);
      } else if p < j {
        assert r[p] == s[p] && r[q] == s[q - 1];
      } else if p == j {
        assert r[q] == s[q - 1];
      } else {
        assert r[p] == s[p - 1] && r[q] == s[q - 1];
      }
    }
  }

  /** The move permutes the sequence. */
  lemma MoveLeftPermutes<T>(s: seq<T>, j: nat, i: nat)
    requires j <= i < |s|
    ensures multiset(MovedLeft(s, j, i)) == multiset(s)
  {
    assert s == s[..j] + s[j..i] + [s[i]] + s[i + 1..];
  }

  /** A move past elements of other ranks keeps the order within every rank. */
  lemma MoveLeftKeepsRankOrder<T>(s: seq<T>, j: nat, i: nat, rank: T -> int)
    requires j <= i < |s|
    requires forall q :: j <= q < i ==> rank(s[i]) != rank(s[q])
    ensures forall k :: WithRank(MovedLeft(s, j, i), rank, k) == WithRank(s, rank, k)
  {
    var a, x, mid, b := s[..j], s[i], s[j..i], s[i + 1..];
    assert s == a + mid + [x] + b;
    assert MovedLeft(s, j, i) == a + [x] + mid + b;
    forall y | y in mid ensures rank(y) != rank(x) {
      var q :| 0 <= q < |mid| && mid[q] == y;
      assert mid[q] == s[j + q];
    }
    forall k ensures WithRank(MovedLeft(s, j, i), rank, k) == WithRank(s, rank, k) {
      KeepMoveLeft(a, x, mid, b, y => rank(y) == k);
    }
  }

  /** The moved element and its left neighbour. */
  lemma MovedLeftAt<T>(s: seq<T>, j: nat, i: nat)
    requires 0 < j <= i < |s|
    ensures MovedLeft(s, j, i)[j - 1] == s[j - 1] && MovedLeft(s, j, i)[j] == s[i]
  {
  }

  /** Where the insertion stops, the prefix is sorted, permuted, and each rank keeps its order. */
  lemma MoveLeftDone<T>(s: seq<T>, j: nat, i: nat, rank: T -> int)
    requires j <= i < |s|
    requires SortedBy(s[..i], rank)
    requires forall q :: j <= q < i ==> rank(s[i]) < rank(s[q])
    requires j > 0 ==> rank(s[j - 1]) <= rank(s[i])
    ensures SortedBy(MovedLeft(s, j, i)[..i + 1], rank)
    ensures multiset(MovedLeft(s, j, i)) == multiset(s)
    ensures forall k :: WithRank(MovedLeft(s, j, i), rank, k) == WithRank(s, rank, k)
  {
    MoveLeftSorted(s, j, i, rank);
    MoveLeftPermutes(s, j, i);
    MoveLeftKeepsRankOrder(s, j, i, rank);
  }

  /**
   * One insertion step: the element at `i` moves left past the neighbours of
   * strictly greater rank, so equal ranks never pass each other.
   */
  method InsertLeft<T>(a: array<T>, i: nat, rank: T -> int)
    requires i < a.Length
    requires SortedBy(a[..i], rank)
    modifies a
    ensures SortedBy(a[..i + 1], rank)
    ensures multiset(a[..]) == multiset(old(a[..]))
    ensures forall k :: WithRank(a[..], rank, k) == WithRank(old(a[..]), rank, k)
  {
    ghost var s := a[..];
    var j := i;
    while j > 0 && rank(a[j - 1]) > rank(a[j])
      invariant 0 <= j <= i
      invariant a[..] == MovedLeft(s, j, i)
      invariant forall q :: j <= q < i ==> rank(s[i]) < rank(s[q])
    {
      MovedLeftAt(s, j, i);
      MoveOneMore(s, j, i);
      ghost var before := a[..];
      a[j - 1], a[j] := a[j], a[j - 1];
      assert a[..] == before[j - 1 := s[i]][j := s[j - 1]];
      j := j - 1;
    }
    if j > 0 {
      MovedLeftAt(s, j, i);
    }
    MoveLeftDone(s, j, i, rank);
  }

  method StableSort<T>(a: array<T>, rank: T -> int)
    modifies a
    ensures IsStableSortOf(a[..], old(a[..]), rank)
  {
    var i := 0;
    while i < a.Length
      invariant 0 <= i <= a.Length
      invariant SortedBy(a[..i], rank)
      invariant multiset(a[..]) == multiset(old(a[..]))
      invariant forall k :: WithRank(a[..], rank, k) == WithRank(old(a[..]), rank, k)
    {
      InsertLeft(a, i, rank);
      i := i + 1;
    }
    assert a[..a.Length] == a[..];
  }
}
