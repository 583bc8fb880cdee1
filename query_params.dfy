/**
 * The key/value list behind `URLSearchParams`: `get`, `getAll`, `set`,
 * `delete` and `append` on an ordered list of pairs. Serialisation to
 * the percent-encoded query string is not part of this model.
 */
module QueryParams {
  import opened Types

  predicate HasKey(q: Query, k: string)
  {
    exists i :: 0 <= i < |q| && q[i].0 == k
  }

  /** `get(k)`: the value of the first pair named `k`, if any. */
  function Get(q: Query, k: string): (r: Option<string>)
    ensures r.None? <==> !HasKey(q, k)
    ensures r.Some? ==> exists i :: 0 <= i < |q| && q[i] == (k, r.value)
                                    && forall j :: 0 <= j < i ==> q[j].0 != k
  {
    if q == [] then None
    else if q[0].0 == k then Some(q[0].1)
    else
      var r := Get(q[1..], k);
      assert forall i :: 1 <= i < |q| ==> q[i] == q[1..][i - 1];
      r
  }

  /** `getAll(k)`: the values of every pair named `k`, in list order. */
  function GetAll(q: Query, k: string): (r: seq<string>)
    ensures |r| <= |q|
    ensures forall v :: v in r <==> (k, v) in q
    ensures r == [] <==> !HasKey(q, k)
  {
    if q == [] then []
    else
      var rest := GetAll(q[1..], k);
      assert q == [q[0]] + q[1..];
      if q[0].0 == k then [q[0].1] + rest else rest
  }

  lemma {:induction false} GetAllConcat(a: Query, b: Query, k: string)
    ensures GetAll(a + b, k) == GetAll(a, k) + GetAll(b, k)
  {
    if a == [] {
      assert a + b == b;
    } else {
      assert (a + b)[1..] == a[1..] + b;
      GetAllConcat(a[1..], b, k);
    }
  }

  /** `delete(k)`: drop every pair named `k`. */
  function Delete(q: Query, k: string): (r: Query)
    ensures !HasKey(r, k)
    ensures forall k' :: k' != k ==> GetAll(r, k') == GetAll(q, k')
  {
    if q == [] then []
    else if q[0].0 == k then Delete(q[1..], k)
    else [q[0]] + Delete(q[1..], k)
  }

  /**
   * `set(k, v)`: the first pair named `k` takes the value `v` and the later
   * ones are dropped; with no pair named `k`, the pair is appended.
   */
  function Set(q: Query, k: string, v: string): (r: Query)
    ensures GetAll(r, k) == [v]
    ensures forall k' :: k' != k ==> GetAll(r, k') == GetAll(q, k')
  {
    if q == [] then [(k, v)]
    else if q[0].0 == k then [(k, v)] + Delete(q[1..], k)
    else [q[0]] + Set(q[1..], k, v)
  }

  /** On a list without `k`, `set` is `append`. */
  lemma {:induction false} SetFresh(q: Query, k: string, v: string)
    requires !HasKey(q, k)
    ensures Set(q, k, v) == q + [(k, v)]
  {
    if q != [] {
      assert !HasKey(q[1..], k) by {
        forall i | 0 <= i < |q[1..]| ensures q[1..][i].0 != k {
          assert q[1..][i] == q[i + 1];
        }
      }
      SetFresh(q[1..], k, v);
    }
  }

  /** On a list without `k`, `delete` changes nothing. */
  lemma {:induction false} DeleteAbsent(q: Query, k: string)
    requires !HasKey(q, k)
    ensures Delete(q, k) == q
  {
    if q != [] {
      assert !HasKey(q[1..], k) by {
        forall i | 0 <= i < |q[1..]| ensures q[1..][i].0 != k {
          assert q[1..][i] == q[i + 1];
        }
      }
      DeleteAbsent(q[1..], k);
    }
  }
}
