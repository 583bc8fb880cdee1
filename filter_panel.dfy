/**
 * The filter panel: the sorted catalogue of specialty names, the checkbox
 * list editing, the single-field updates of the radio groups, "Clear All",
 * and which controls show as checked.
 */
module FilterPanel {
  import opened Types
  import opened Seqs
  import opened Text
  import opened Sorting
  import opened SearchParamsHook
  import opened DoctorList

  // ---------------------------------------------------------------------------
  // The specialty catalogue
  // ---------------------------------------------------------------------------

  /** Some record lists a specialty called `name`. */
  ghost predicate Offered(doctors: seq<Doctor>, name: string)
  {
    exists d <- doctors, s <- d.specialities :: s.name == name
  }

  /** Every name occurs at most once. */
  ghost predicate NoRepeats(s: seq<string>)
  {
    forall x :: multiset(s)[x] <= 1
  }

  /** Sorted by the default string order with no name twice. */
  ghost predicate StrictlyIncreasing(s: seq<string>)
  {
    forall p, q :: 0 <= p < q < |s| ==> StrLess(s[p], s[q])
  }

  /** No repeated name means no two positions hold the same name. */
  lemma NoRepeatsApart(s: seq<string>, p: nat, q: nat)
    requires NoRepeats(s)
    requires p < q < |s|
    ensures s[p] != s[q]
  {
    assert s == s[..q] + [s[q]] + s[q + 1..];
    assert s[..q][p] == s[p];
    assert multiset(s[..q])[s[p]] >= 1;
    assert multiset(s)[s[q]] >= multiset(s[..q])[s[q]] + 1;
  }

  /**
   * The nested `forEach` loops adding every specialty name to a `Set`: the
   * distinct names, in order of first appearance.
   */
  method CollectNames(doctors: seq<Doctor>) returns (seen: seq<string>)
    ensures NoRepeats(seen)
    ensures forall name :: name in seen <==> Offered(doctors, name)
  {
    seen := [];
    var i := 0;
    while i < |doctors|
      invariant 0 <= i <= |doctors|
      invariant NoRepeats(seen)
      invariant forall name :: name in seen <==> Offered(doctors[..i], name)
    {
      var specs := doctors[i].specialities;
      var j := 0;
      while j < |specs|
        invariant 0 <= j <= |specs|
        invariant NoRepeats(seen)
        invariant forall name :: name in seen <==> Offered(doctors[..i], name) || exists s <- specs[..j] :: s.name == name
      {
        assert specs[..j + 1] == specs[..j] + [specs[j]];
        if specs[j].name !in seen {
          seen := seen + [specs[j].name];
        }
        j := j + 1;
      }
      assert specs[..j] == specs;
      assert doctors[..i + 1] == doctors[..i] + [doctors[i]];
      i := i + 1;
    }
    assert doctors[..i] == doctors;
  }

  /** Moving a name left past greater names, and no further, keeps the prefix increasing. */
  lemma MoveLeftIncreasing(s: seq<string>, j: nat, i: nat)
    requires j <= i < |s|
    requires StrictlyIncreasing(s[..i])
    requires forall q :: j <= q < i ==> StrLess(s[i], s[q])
    requires j > 0 ==> StrLess(s[j - 1], s[i])
    ensures StrictlyIncreasing(MovedLeft(s, j, i)[..i + 1])
  {
    var r := MovedLeft(s, j, i)[..i + 1];
    assert r == s[..j] + [s[i]] + s[j..i];
    forall p, q | 0 <= p < q < i + 1 ensures StrLess(r[p], r[q]) {
      if q < j {
        assert r[p] == s[p] && r[q] == s[q];
      } else if p < j && q == j {
        if p < j - 1 {
          assert StrLess(s[..i][p], s[..i][j - 1]);
          StrLessTransitive(s[p], s[j - 1], s[i]);
        }
      } else if p < j {
        assert r[p] == s[p] && r[q] == s[q - 1];
      } else if p == j {
        assert r[q] == s[q - 1];
      } else {
        assert r[p] == s[p - 1] && r[q] == s[q - 1];
      }
    }
  }

  /** One insertion step of the sort on names that are all different. */
  method InsertName(a: array<string>, i: nat)
    requires i < a.Length
    requires StrictlyIncreasing(a[..i])
    requires forall q :: 0 <= q < i ==> a[q] != a[i]
    modifies a
    ensures StrictlyIncreasing(a[..i + 1])
    ensures multiset(a[..]) == multiset(old(a[..]))
  {
    ghost var s := a[..];
    var j := i;
    while j > 0 && StrLess(a[j], a[j - 1])
      invariant 0 <= j <= i
      invariant a[..] == MovedLeft(s, j, i)
      invariant forall q :: j <= q < i ==> StrLess(s[i], s[q])
    {
      MovedLeftAt(s, j, i);
      MoveOneMore(s, j, i);
      ghost var before := a[..];
      a[j - 1], a[j] := a[j], a[j - 1];
      assert a[..] == before[j - 1 := s[i]][j := s[j - 1]];
      j := j - 1;
    }
    if j > 0 {
      MovedLeftAt(s, j, i);
      StrLessTotal(s[i], s[j - 1]);
    }
    MoveLeftIncreasing(s, j, i);
    MoveLeftPermutes(s, j, i);
  }

  /** `sort()` on an array of different names: it ends strictly increasing. */
  method SortNames(a: array<string>)
    requires NoRepeats(a[..])
    modifies a
    ensures StrictlyIncreasing(a[..])
    ensures multiset(a[..]) == multiset(old(a[..]))
  {
    var i := 0;
    while i < a.Length
      invariant 0 <= i <= a.Length
      invariant StrictlyIncreasing(a[..i])
      invariant multiset(a[..]) == multiset(old(a[..]))
    {
      forall q | 0 <= q < i ensures a[q] != a[i] {
        NoRepeatsApart(a[..], q, i);
      }
      InsertName(a, i);
      i := i + 1;
    }
    assert a[..a.Length] == a[..];
  }

  /**
   * `getAllSpecialties`: every specialty name offered by some record, once
   * each, in the default string order.
   */
  method AllSpecialties(doctors: seq<Doctor>) returns (r: seq<string>)
    ensures StrictlyIncreasing(r)
    ensures forall name :: name in r <==> Offered(doctors, name)
  {
    var seen := CollectNames(doctors);
    var a := new string[|seen|](k requires 0 <= k < |seen| => seen[k]);
    assert a[..] == seen;
    SortNames(a);
    r := a[..];
    forall name ensures name in r <==> name in seen {
      assert name in r <==> name in multiset(r);
      assert name in seen <==> name in multiset(seen);
    }
  }

  /** Checking a catalogue entry alone keeps at least one record. */
  lemma OfferedNameKeepsSomeone(doctors: seq<Doctor>, name: string)
    requires Offered(doctors, name)
    ensures |Filtered(doctors, SearchParams(None, None, Some([name]), None))| > 0
  {
    var d, s :| d in doctors && s in d.specialities && s.name == name;
    assert Matches(SearchParams(None, None, Some([name]), None), d);
    assert d in Filtered(doctors, SearchParams(None, None, Some([name]), None));
  }

  // ---------------------------------------------------------------------------
  // Checkbox list editing
  // ---------------------------------------------------------------------------

  /** The list after checking `name`: the old list with `name` appended. */
  function WithChecked(l: seq<string>, name: string): (r: seq<string>)
    ensures |r| == |l| + 1 && r[..|l|] == l && r[|l|] == name
    ensures forall x :: x in r <==> x in l || x == name
  {
    l + [name]
  }

  /** The list after unchecking `name`: every occurrence dropped, the rest in order. */
  function WithoutChecked(l: seq<string>, name: string): (r: seq<string>)
    ensures name !in r
    ensures forall x :: x != name ==> multiset(r)[x] == multiset(l)[x]
  {
    KeepCounts(l, x => x != name);
    assert name !in multiset(Keep(l, x => x != name));
    Keep(l, x => x != name)
  }

  /** Unchecking works piece by piece, so the remaining names keep their order. */
  lemma UncheckKeepsOrder(a: seq<string>, b: seq<string>, name: string)
    ensures WithoutChecked(a + b, name) == WithoutChecked(a, name) + WithoutChecked(b, name)
    ensures name !in a ==> WithoutChecked(a, name) == a
  {
    KeepConcat(a, b, x => x != name);
    if name !in a {
      KeepAll(a, x => x != name);
    }
  }

  /** Checking and then unchecking a name not in the list restores the list. */
  lemma CheckThenUncheck(l: seq<string>, name: string)
    requires name !in l
    ensures WithoutChecked(WithChecked(l, name), name) == l
  {
    UncheckKeepsOrder(l, [name], name);
  }

  // ---------------------------------------------------------------------------
  // Handlers and checked states
  // ---------------------------------------------------------------------------

  /** `handleSpecialtyChange`: the patch for checking or unchecking `name`. */
  function SpecialtyChange(p: SearchParams, name: string, checked: bool): (patch: SearchParams)
    ensures patch.search.None? && patch.consultationType.None? && patch.sortBy.None?
    ensures patch.specialty.Some? && (name in patch.specialty.value <==> checked)
  {
    var current := NamesOf(p.specialty);
    SearchParams(None, None, Some(if checked then WithChecked(current, name) else WithoutChecked(current, name)), None)
  }

  /** `handleConsultationTypeChange`. */
  function ConsultationTypeChange(t: string): (patch: SearchParams)
    ensures forall p :: Merge(p, patch) == p.(consultationType := Some(t))
  {
    SearchParams(None, Some(t), None, None)
  }

  /** `handleSortChange`. */
  function SortChange(sortBy: string): (patch: SearchParams)
    ensures forall p :: Merge(p, patch) == p.(sortBy := Some(sortBy))
  {
    SearchParams(None, None, None, Some(sortBy))
  }

  /** The "Clear All" patch: it keeps the search and empties every other field. */
  function ClearAll(): (patch: SearchParams)
    ensures forall p :: Merge(p, patch) == SearchParams(p.search, Some(""), Some([]), Some(""))
  {
    SearchParams(None, Some(""), Some([]), Some(""))
  }

  /** A specialty checkbox is checked iff the selection lists its name. */
  predicate IsSpecialtyChecked(p: SearchParams, name: string)
    ensures p.specialty.None? ==> !IsSpecialtyChecked(p, name)
  {
    name in NamesOf(p.specialty)
  }

  /** A radio button is checked iff its field holds exactly its value. */
  predicate IsRadioChecked(field: Option<string>, value: string)
    ensures IsRadioChecked(field, value) ==> TextOf(field) == value
    ensures value != "" ==> (IsRadioChecked(field, value) <==> IsSet(field) && TextOf(field) == value)
  {
    field == Some(value)
  }

  /**
   * A checkbox change touches only the selection: the box clicked takes the
   * new checked state and every other box keeps its own.
   */
  lemma SpecialtyChangeState(p: SearchParams, name: string, checked: bool, other: string)
    ensures var q := Merge(p, SpecialtyChange(p, name, checked));
            && q == p.(specialty := q.specialty)
            && IsSpecialtyChecked(q, name) == checked
            && (other != name ==> IsSpecialtyChecked(q, other) == IsSpecialtyChecked(p, other))
  {
    var l := NamesOf(p.specialty);
    if !checked && other != name {
      assert other in WithoutChecked(l, name) <==> other in multiset(WithoutChecked(l, name));
      assert other in l <==> other in multiset(l);
    }
  }

  /** Checking and then unchecking an unchecked box restores the selection (absent becomes empty). */
  lemma CheckThenUncheckState(p: SearchParams, name: string)
    requires !IsSpecialtyChecked(p, name)
    ensures var q := Merge(p, SpecialtyChange(p, name, true));
            Merge(q, SpecialtyChange(q, name, false)) == p.(specialty := Some(NamesOf(p.specialty)))
  {
    CheckThenUncheck(NamesOf(p.specialty), name);
  }

  /** The radio handlers set only their own field, and exactly the clicked radio shows as checked. */
  lemma RadioChangeState(p: SearchParams, value: string, other: string)
    ensures Merge(p, ConsultationTypeChange(value)) == p.(consultationType := Some(value))
    ensures Merge(p, SortChange(value)) == p.(sortBy := Some(value))
    ensures IsRadioChecked(Merge(p, ConsultationTypeChange(value)).consultationType, other) <==> other == value
    ensures IsRadioChecked(Merge(p, SortChange(value)).sortBy, other) <==> other == value
  {
    MergeFields(p, ConsultationTypeChange(value));
    MergeFields(p, SortChange(value));
  }

  /**
   * "Clear All" keeps the search and clears every other field: no radio or
   * checkbox stays checked, the list is the text filter's result in record
   * order, and it is not sorted.
   */
  lemma ClearAllState(doctors: seq<Doctor>, p: SearchParams, value: string)
    ensures var q := Merge(p, ClearAll());
            && q == SearchParams(p.search, Some(""), Some([]), Some(""))
            && (value != "" ==> !IsRadioChecked(q.consultationType, value) && !IsRadioChecked(q.sortBy, value))
            && !IsSpecialtyChecked(q, value)
            && Filtered(doctors, q) == Keep(doctors, TextFilter(p))
            && SortKeyOf(q).None?
  {
    var q := Merge(p, ClearAll());
    KeepSame(doctors, MatchFilter(q), TextFilter(p));
  }
}
