/** Order-preserving filtering of sequences, the model of `Array.prototype.filter`. */
module Seqs {

  /** The elements of `s` that satisfy `f`, in their original order. */
  function Keep<T>(s: seq<T>, f: T -> bool): (r: seq<T>)
    ensures |r| <= |s|
  {
    if s == [] then []
    else
      var rest := Keep(s[1..], f);
      if f(s[0]) then [s[0]] + rest else rest
  }

  /** Each element passing the filter is kept as often as it occurs; the others are dropped. */
  lemma {:induction false} KeepCounts<T>(s: seq<T>, f: T -> bool)
    ensures forall x :: multiset(Keep(s, f))[x] == if f(x) then multiset(s)[x] else 0
  {
    if s != [] {
      KeepCounts(s[1..], f);
      assert s == [s[0]] + s[1..];
    }
  }

  /** An element is kept iff it is in `s` and passes the filter. */
  lemma KeepMembers<T>(s: seq<T>, f: T -> bool)
    ensures forall x :: x in Keep(s, f) <==> x in s && f(x)
  {
    KeepCounts(s, f);
    forall x ensures x in Keep(s, f) <==> x in s && f(x) {
      assert x in Keep(s, f) <==> x in multiset(Keep(s, f));
      assert x in s <==> x in multiset(s);
    }
  }

  /**
   * Moving `x` in front of `mid` does not change the filter's result when `x`
   * and the elements of `mid` do not both pass it.
   */
  lemma KeepMoveLeft<T>(a: seq<T>, x: T, mid: seq<T>, b: seq<T>, f: T -> bool)
    requires f(x) ==> forall y :: y in mid ==> !f(y)
    ensures Keep(a + [x] + mid + b, f) == Keep(a + mid + [x] + b, f)
  {
    KeepConcat(a + [x] + mid, b, f);
    KeepConcat(a + [x], mid, f);
    KeepConcat(a, [x], f);
    KeepConcat(a + mid + [x], b, f);
    KeepConcat(a + mid, [x], f);
    KeepConcat(a, mid, f);
    if f(x) {
      KeepNone(mid, f);
    }
  }

  /** Filtering distributes over concatenation. */
  lemma {:induction false} KeepConcat<T>(a: seq<T>, b: seq<T>, f: T -> bool)
    ensures Keep(a + b, f) == Keep(a, f) + Keep(b, f)
  {
    if a == [] {
      assert a + b == b;
    } else {
      assert (a + b)[1..] == a[1..] + b;
      KeepConcat(a[1..], b, f);
    }
  }

  /** A filter that no element passes leaves nothing. */
  lemma {:induction false} KeepNone<T>(s: seq<T>, f: T -> bool)
    requires forall x :: x in s ==> !f(x)
    ensures Keep(s, f) == []
  {
    if s != [] {
      KeepNone(s[1..], f);
    }
  }

  /** A filter that every element passes leaves the sequence as it is. */
  lemma {:induction false} KeepAll<T>(s: seq<T>, f: T -> bool)
    requires forall x :: x in s ==> f(x)
    ensures Keep(s, f) == s
  {
    if s != [] {
      KeepAll(s[1..], f);
    }
  }

  /** Two filters that agree on the elements of `s` select the same elements. */
  lemma {:induction false} KeepSame<T>(s: seq<T>, f: T -> bool, g: T -> bool)
    requires forall x :: x in s ==> f(x) == g(x)
    ensures Keep(s, f) == Keep(s, g)
  {
    if s != [] {
      KeepSame(s[1..], f, g);
    }
  }

  /** Filtering by `f` and then by `g` is filtering once by their conjunction `h`. */
  lemma {:induction false} KeepKeep<T>(s: seq<T>, f: T -> bool, g: T -> bool, h: T -> bool)
    requires forall x :: x in s ==> h(x) == (f(x) && g(x))
    ensures Keep(Keep(s, f), g) == Keep(s, h)
  {
    if s != [] {
      KeepKeep(s[1..], f, g, h);
    }
  }

  /** The order of two filter stages does not matter. */
  lemma KeepCommutes<T>(s: seq<T>, f: T -> bool, g: T -> bool)
    ensures Keep(Keep(s, f), g) == Keep(Keep(s, g), f)
  {
    var h := x => f(x) && g(x);
    KeepKeep(s, f, g, h);
    KeepKeep(s, g, f, h);
  }

  /**
   * A weaker filter keeps more: the result of the stronger filter `f` is the
   * result of the weaker `g` filtered once more, so it is never longer.
   */
  lemma KeepMonotone<T>(s: seq<T>, f: T -> bool, g: T -> bool)
    requires forall x :: x in s && f(x) ==> g(x)
    ensures Keep(Keep(s, g), f) == Keep(s, f)
    ensures |Keep(s, f)| <= |Keep(s, g)|
  {
    KeepKeep(s, g, f, f);
  }
}
