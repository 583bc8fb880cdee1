/**
 * The view-state store (`useSearchParams`): the state is decoded from the
 * page query on load, every update merges a partial state over it, re-encodes
 * it and pushes a new history entry, and a back/forward navigation decodes
 * the entry navigated to without pushing anything.
 */
module SearchParamsHook {
  import opened Types
  import opened QueryParams

  /**
   * `getInitialSearchParams`: the single-valued fields take the first value
   * under their key, or "" when it is absent or empty; `specialty` takes every
   * value under its key, in query order.
   */
  function Decode(q: Query): (p: SearchParams)
    ensures IsComplete(p)
  {
    SearchParams(
      Some(TextOf(Get(q, "search"))),
      Some(TextOf(Get(q, "consultationType"))),
      Some(GetAll(q, "specialty")),
      Some(TextOf(Get(q, "sortBy"))))
  }

  /** `{ ...p, ...patch }`: each field the patch defines replaces the old one. */
  function Merge(p: SearchParams, patch: SearchParams): (r: SearchParams)
    ensures IsComplete(p) ==> IsComplete(r)
  {
    SearchParams(
      if patch.search.Some? then patch.search else p.search,
      if patch.consultationType.Some? then patch.consultationType else p.consultationType,
      if patch.specialty.Some? then patch.specialty else p.specialty,
      if patch.sortBy.Some? then patch.sortBy else p.sortBy)
  }

  /** A single-valued field as written to the query: omitted when empty. */
  function PairIfSet(k: string, o: Option<string>): (q: Query)
  {
    if IsSet(o) then [(k, o.value)] else []
  }

  function SpecialtyPairs(names: seq<string>): (q: Query)
    ensures |q| == |names|
    ensures forall i :: 0 <= i < |names| ==> q[i] == ("specialty", names[i])
  {
    seq(|names|, i requires 0 <= i < |names| => ("specialty", names[i]))
  }

  /**
   * The query `updateSearchParams` writes for a state: one entry per
   * single-valued field that is set, one per selected specialty.
   */
  function Encode(p: SearchParams): (q: Query)
    ensures |q| == (if IsSet(p.search) then 1 else 0) + (if IsSet(p.consultationType) then 1 else 0)
                   + |NamesOf(p.specialty)| + (if IsSet(p.sortBy) then 1 else 0)
  {
    PairIfSet("search", p.search)
    + PairIfSet("consultationType", p.consultationType)
    + SpecialtyPairs(NamesOf(p.specialty))
    + PairIfSet("sortBy", p.sortBy)
  }

  /** A state with its undefined fields replaced by "" or []. */
  function Normalize(p: SearchParams): (r: SearchParams)
    ensures IsComplete(r)
    ensures IsComplete(p) ==> r == p
  {
    SearchParams(Some(TextOf(p.search)), Some(TextOf(p.consultationType)),
                 Some(NamesOf(p.specialty)), Some(TextOf(p.sortBy)))
  }

  /** The head of the written query: the non-empty search and consultation mode. */
  function Head(p: SearchParams): Query
  {
    PairIfSet("search", p.search) + PairIfSet("consultationType", p.consultationType)
  }

  /** Neither `specialty` nor `sortBy` occurs before the specialty pairs. */
  lemma HeadKeys(p: SearchParams, names: seq<string>)
    ensures !HasKey(Head(p), "specialty")
    ensures !HasKey(Head(p) + SpecialtyPairs(names), "sortBy")
  {
    var q := Head(p) + SpecialtyPairs(names);
    forall i | 0 <= i < |q| ensures q[i].0 != "sortBy" && (i < |Head(p)| ==> q[i].0 != "specialty") {
      if i >= |Head(p)| {
        assert q[i] == SpecialtyPairs(names)[i - |Head(p)|];
      }
    }
  }

  /** The `forEach` loop appending one `specialty` pair per name. */
  method AppendSpecialties(q0: Query, names: seq<string>) returns (q: Query)
    ensures q == q0 + SpecialtyPairs(names)
  {
    q := q0;
    var i := 0;
    while i < |names|
      invariant 0 <= i <= |names|
      invariant q == q0 + SpecialtyPairs(names[..i])
    {
      assert SpecialtyPairs(names[..i + 1]) == SpecialtyPairs(names[..i]) + [("specialty", names[i])];
      q := q + [("specialty", names[i])];
      i := i + 1;
    }
    assert names[..i] == names;
  }

  /**
   * Lines 23-43 of the hook: a fresh parameter list, `set` for each non-empty
   * single-valued field, `delete` then one `append` per selected specialty.
   */
  method BuildQuery(p: SearchParams) returns (q: Query)
    ensures q == Encode(p)
  {
    q := [];
    if IsSet(p.search) {
      SetFresh(q, "search", p.search.value);
      q := Set(q, "search", p.search.value);
    }
    if IsSet(p.consultationType) {
      SetFresh(q, "consultationType", p.consultationType.value);
      q := Set(q, "consultationType", p.consultationType.value);
    }
    assert q == Head(p);
    HeadKeys(p, NamesOf(p.specialty));
    if p.specialty.Some? && |p.specialty.value| > 0 {
      DeleteAbsent(q, "specialty");
      q := Delete(q, "specialty");
      q := AppendSpecialties(q, p.specialty.value);
    } else {
      assert SpecialtyPairs(NamesOf(p.specialty)) == [];
      assert q == Head(p) + SpecialtyPairs(NamesOf(p.specialty));
    }
    if IsSet(p.sortBy) {
      SetFresh(q, "sortBy", p.sortBy.value);
      q := Set(q, "sortBy", p.sortBy.value);
    }
  }

  lemma GetAllPairIfSet(k: string, o: Option<string>, k': string)
    ensures GetAll(PairIfSet(k, o), k') == if k == k' && IsSet(o) then [o.value] else []
  {
  }

  lemma {:induction false} GetAllSpecialtyPairs(names: seq<string>, k: string)
    ensures GetAll(SpecialtyPairs(names), k) == if k == "specialty" then names else []
  {
    if names != [] {
      var q := SpecialtyPairs(names);
      assert q[1..] == SpecialtyPairs(names[1..]);
      GetAllSpecialtyPairs(names[1..], k);
    }
  }

  /**
   * What the encoded query holds under a key: a non-empty single-valued field
   * once, under its own key, and one `specialty` value per selected name, in
   * list order.
   */
  lemma EncodeGetAll(p: SearchParams, k: string)
    ensures GetAll(Encode(p), k)
            == (if k == "search" && IsSet(p.search) then [p.search.value] else [])
               + (if k == "consultationType" && IsSet(p.consultationType) then [p.consultationType.value] else [])
               + (if k == "specialty" then NamesOf(p.specialty) else [])
               + (if k == "sortBy" && IsSet(p.sortBy) then [p.sortBy.value] else [])
  {
    var a := PairIfSet("search", p.search);
    var b := PairIfSet("consultationType", p.consultationType);
    var c := SpecialtyPairs(NamesOf(p.specialty));
    var d := PairIfSet("sortBy", p.sortBy);
    GetAllConcat(a + b + c, d, k);
    GetAllConcat(a + b, c, k);
    GetAllConcat(a, b, k);
    GetAllSpecialtyPairs(NamesOf(p.specialty), k);
    GetAllPairIfSet("search", p.search, k);
    GetAllPairIfSet("consultationType", p.consultationType, k);
    GetAllPairIfSet("sortBy", p.sortBy, k);
  }

  /** The first value of a key is the head of all its values. */
  lemma {:induction false} GetIsFirstOfGetAll(q: Query, k: string)
    ensures Get(q, k) == if GetAll(q, k) == [] then None else Some(GetAll(q, k)[0])
  {
    if q != [] && q[0].0 != k {
      GetIsFirstOfGetAll(q[1..], k);
    }
  }

  /**
   * Round trip: decoding an encoded state gives the state back, with undefined
   * fields read as "" or []; the specialty list keeps its order and duplicates.
   */
  lemma DecodeEncode(p: SearchParams)
    ensures Decode(Encode(p)) == Normalize(p)
  {
    GetEncoded(p, "search", p.search);
    GetEncoded(p, "consultationType", p.consultationType);
    GetEncoded(p, "sortBy", p.sortBy);
    EncodeGetAll(p, "specialty");
    DecodeFields(Encode(p), p);
  }

  /** A query whose every key reads back as the state's field decodes to the normalized state. */
  lemma DecodeFields(q: Query, p: SearchParams)
    requires TextOf(Get(q, "search")) == TextOf(p.search)
    requires TextOf(Get(q, "consultationType")) == TextOf(p.consultationType)
    requires GetAll(q, "specialty") == NamesOf(p.specialty)
    requires TextOf(Get(q, "sortBy")) == TextOf(p.sortBy)
    ensures Decode(q) == Normalize(p)
  {
  }

  /** A single-valued field reads back as its value when set, and as absent otherwise. */
  lemma GetEncoded(p: SearchParams, k: string, o: Option<string>)
    requires || (k == "search" && o == p.search)
             || (k == "consultationType" && o == p.consultationType)
             || (k == "sortBy" && o == p.sortBy)
    ensures TextOf(Get(Encode(p), k)) == TextOf(o)
  {
    EncodeGetAll(p, k);
    GetIsFirstOfGetAll(Encode(p), k);
  }

  /** The position of each key in the encoded query. */
  function KeyRank(k: string): nat
  {
    if k == "search" then 0
    else if k == "consultationType" then 1
    else if k == "specialty" then 2
    else if k == "sortBy" then 3
    else 4
  }

  /**
   * Keys appear in the order search, consultationType, specialty..., sortBy,
   * and no single-valued field is written with an empty value.
   */
  lemma EncodeShape(p: SearchParams)
    ensures forall i, j :: 0 <= i < j < |Encode(p)| ==> KeyRank(Encode(p)[i].0) <= KeyRank(Encode(p)[j].0)
    ensures forall i :: 0 <= i < |Encode(p)| ==> KeyRank(Encode(p)[i].0) < 4
    ensures forall i :: 0 <= i < |Encode(p)| && Encode(p)[i].0 != "specialty" ==> Encode(p)[i].1 != ""
  {
    var a := PairIfSet("search", p.search);
    var b := PairIfSet("consultationType", p.consultationType);
    var c := SpecialtyPairs(NamesOf(p.specialty));
    var d := PairIfSet("sortBy", p.sortBy);
    var q := Encode(p);
    assert q == a + b + c + d;
    forall i | 0 <= i < |q|
      ensures KeyRank(q[i].0) == (if i < |a| then 0 else if i < |a + b| then 1 else if i < |a + b + c| then 2 else 3)
      ensures q[i].0 != "specialty" ==> q[i].1 != ""
    {
      if i < |a| {
        assert q[i] == a[i];
      } else if i < |a + b| {
        assert q[i] == b[i - |a|];
      } else if i < |a + b + c| {
        assert q[i] == c[i - |a + b|];
      } else {
        assert q[i] == d[i - |a + b + c|];
      }
    }
  }

  /** Applying the same update twice gives the state of applying it once. */
  lemma MergeIdempotent(p: SearchParams, patch: SearchParams)
    ensures Merge(Merge(p, patch), patch) == Merge(p, patch)
  {
  }

  /** Two successive updates are one update with the second patch merged over the first. */
  lemma MergeCompose(p: SearchParams, a: SearchParams, b: SearchParams)
    ensures Merge(Merge(p, a), b) == Merge(p, Merge(a, b))
  {
  }

  /** Fields a patch leaves out keep their value; fields it defines, even as "" or [], replace it. */
  lemma MergeFields(p: SearchParams, patch: SearchParams)
    ensures patch.search.None? ==> Merge(p, patch).search == p.search
    ensures patch.search.Some? ==> Merge(p, patch).search == patch.search
    ensures patch.consultationType.None? ==> Merge(p, patch).consultationType == p.consultationType
    ensures patch.consultationType.Some? ==> Merge(p, patch).consultationType == patch.consultationType
    ensures patch.specialty.None? ==> Merge(p, patch).specialty == p.specialty
    ensures patch.specialty.Some? ==> Merge(p, patch).specialty == patch.specialty
    ensures patch.sortBy.None? ==> Merge(p, patch).sortBy == p.sortBy
    ensures patch.sortBy.Some? ==> Merge(p, patch).sortBy == patch.sortBy
    ensures Merge(p, NoChange) == p
  {
  }

  /**
   * The store: the current state and the session history of queries, with
   * the index of the entry the page is showing.
   */
  class Store {
    var state: SearchParams
    var history: seq<Query>
    var current: nat

    /** The state always agrees with the query of the entry being shown. */
    ghost predicate Valid()
      reads this
    {
      current < |history| && state == Decode(history[current])
    }

    /** Page load: the state is decoded from the query the page was opened with. */
    constructor (location: Query)
      ensures Valid()
      ensures history == [location] && current == 0
      ensures state == Decode(location)
    {
      state := Decode(location);
      history := [location];
      current := 0;
    }

    /**
     * `updateSearchParams`: merge, replace the state, and push one entry with
     * the encoded state (entries after the current one are discarded, as
     * `pushState` does).
     */
    method Update(patch: SearchParams)
      requires Valid()
      modifies this
      ensures Valid()
      ensures state == Merge(old(state), patch)
      ensures current == old(current) + 1
      ensures history == old(history)[..old(current) + 1] + [Encode(state)]
    {
      var updated := Merge(state, patch);
      DecodeEncode(updated);
      assert Decode(Encode(updated)) == updated;
      var q := BuildQuery(updated);
      state := updated;
      history := history[..current + 1] + [q];
      current := current + 1;
      assert history[current] == q;
    }

    /** The `popstate` handler: decode the entry now shown; nothing is pushed. */
    method HandlePopState()
      requires current < |history|
      modifies this`state
      ensures Valid()
      ensures state == Decode(history[current])
    {
      state := Decode(history[current]);
    }

    /**
     * A back (`delta` < 0) or forward (`delta` > 0) navigation by the browser:
     * when the target entry exists it becomes current and `popstate` fires;
     * otherwise nothing happens.
     */
    method Traverse(delta: int)
      requires Valid()
      modifies this
      ensures Valid()
      ensures history == old(history)
      ensures delta != 0 && 0 <= old(current) + delta < |history| ==>
                current == old(current) + delta && state == Decode(history[current])
      ensures !(delta != 0 && 0 <= old(current) + delta < |history|) ==>
                current == old(current) && state == old(state)
    {
      var target := current + delta;
      if delta != 0 && 0 <= target < |history| {
        current := target;
        HandlePopState();
      }
    }
  }
}
