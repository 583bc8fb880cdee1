/**
 * The projection of the record list through the view state
 * (`getFilteredDoctors`): text, consultation-mode and specialty filters,
 * then an optional stable sort by fee (ascending) or experience (descending).
 */
module DoctorList {
  import opened Types
  import opened Seqs
  import opened Text
  import opened Sorting

  // ---------------------------------------------------------------------------
  // Filter predicates

  /** The text match; `term` is the lower-cased query. */
  predicate TextMatch(d: Doctor, term: string)
    ensures term == "" ==> TextMatch(d, term)
  {
    || Contains(Lower(d.name), term)
    || (exists s <- d.specialities :: Contains(Lower(s.name), term))
    || Contains(Lower(d.clinic.name), term)
  }

  /** The consultation-mode match: the two known modes test their flag, any other value passes. */
  predicate ModeMatch(mode: string, d: Doctor)
    ensures d.videoConsult && d.inClinic ==> ModeMatch(mode, d)
    ensures !d.videoConsult && !d.inClinic ==> (ModeMatch(mode, d) <==> mode != "Video Consult" && mode != "In Clinic")
  {
    if mode == "Video Consult" then d.videoConsult
    else if mode == "In Clinic" then d.inClinic
    else true
  }

  /** Some specialty of the record is named exactly as one of the selected names. */
  predicate SpecialtyMatch(selected: seq<string>, d: Doctor)
    ensures selected == [] || d.specialities == [] ==> !SpecialtyMatch(selected, d)
  {
    exists s <- d.specialities :: s.name in selected
  }

  /** Each stage, including the condition under which it is skipped. */
  predicate TextStage(p: SearchParams, d: Doctor)
  {
    !IsSet(p.search) || TextMatch(d, Lower(p.search.value))
  }

  predicate ModeStage(p: SearchParams, d: Doctor)
  {
    !IsSet(p.consultationType) || ModeMatch(p.consultationType.value, d)
  }

  predicate SpecialtyStage(p: SearchParams, d: Doctor)
  {
    NamesOf(p.specialty) == [] || SpecialtyMatch(NamesOf(p.specialty), d)
  }

  predicate Matches(p: SearchParams, d: Doctor)
  {
    TextStage(p, d) && ModeStage(p, d) && SpecialtyStage(p, d)
  }

  function TextFilter(p: SearchParams): Doctor -> bool { d => TextStage(p, d) }
  function ModeFilter(p: SearchParams): Doctor -> bool { d => ModeStage(p, d) }
  function SpecialtyFilter(p: SearchParams): Doctor -> bool { d => SpecialtyStage(p, d) }
  function MatchFilter(p: SearchParams): Doctor -> bool { d => Matches(p, d) }

  /** The records that pass every active filter, in their original order. */
  function Filtered(doctors: seq<Doctor>, p: SearchParams): (r: seq<Doctor>)
    ensures forall d :: d in r <==> d in doctors && Matches(p, d)
  {
    KeepMembers(doctors, MatchFilter(p));
    Keep(doctors, MatchFilter(p))
  }

  /**
   * The result does not depend on the order of the filter stages: each of
   * the six orders of the three stages gives Filtered.
   */
  lemma StageOrderIrrelevant(s: seq<Doctor>, p: SearchParams)
    ensures Keep(Keep(Keep(s, TextFilter(p)), ModeFilter(p)), SpecialtyFilter(p)) == Filtered(s, p)
    ensures Keep(Keep(Keep(s, TextFilter(p)), SpecialtyFilter(p)), ModeFilter(p)) == Filtered(s, p)
    ensures Keep(Keep(Keep(s, ModeFilter(p)), TextFilter(p)), SpecialtyFilter(p)) == Filtered(s, p)
    ensures Keep(Keep(Keep(s, ModeFilter(p)), SpecialtyFilter(p)), TextFilter(p)) == Filtered(s, p)
    ensures Keep(Keep(Keep(s, SpecialtyFilter(p)), TextFilter(p)), ModeFilter(p)) == Filtered(s, p)
    ensures Keep(Keep(Keep(s, SpecialtyFilter(p)), ModeFilter(p)), TextFilter(p)) == Filtered(s, p)
  {
    var t, m, c := TextFilter(p), ModeFilter(p), SpecialtyFilter(p);
    var tm := d => TextStage(p, d) && ModeStage(p, d);
    var tc := d => TextStage(p, d) && SpecialtyStage(p, d);
    var mt := d => ModeStage(p, d) && TextStage(p, d);
    var mc := d => ModeStage(p, d) && SpecialtyStage(p, d);
    var ct := d => SpecialtyStage(p, d) && TextStage(p, d);
    var cm := d => SpecialtyStage(p, d) && ModeStage(p, d);
    KeepKeep(s, t, m, tm);
    KeepKeep(s, tm, c, MatchFilter(p));
    KeepKeep(s, t, c, tc);
    KeepKeep(s, tc, m, MatchFilter(p));
    KeepKeep(s, m, t, mt);
    KeepKeep(s, mt, c, MatchFilter(p));
    KeepKeep(s, m, c, mc);
    KeepKeep(s, mc, t, MatchFilter(p));
    KeepKeep(s, c, t, ct);
    KeepKeep(s, ct, m, MatchFilter(p));
    KeepKeep(s, c, m, cm);
    KeepKeep(s, cm, t, MatchFilter(p));
  }

  /** A mode other than the two known ones filters nothing out (fail open). */
  lemma UnknownModeFailsOpen(s: seq<Doctor>, p: SearchParams)
    requires p.consultationType.Some?
    requires p.consultationType.value != "Video Consult" && p.consultationType.value != "In Clinic"
    ensures Filtered(s, p) == Filtered(s, p.(consultationType := None))
  {
    KeepSame(s, MatchFilter(p), MatchFilter(p.(consultationType := None)));
  }

  /** The two known modes keep exactly the records with the matching flag. */
  lemma KnownModesTestTheirFlag(s: seq<Doctor>, p: SearchParams, d: Doctor)
    ensures p.consultationType == Some("Video Consult") ==>
              (d in Filtered(s, p) <==> d in s && d.videoConsult && TextStage(p, d) && SpecialtyStage(p, d))
    ensures p.consultationType == Some("In Clinic") ==>
              (d in Filtered(s, p) <==> d in s && d.inClinic && TextStage(p, d) && SpecialtyStage(p, d))
  {
  }

  /**
   * With at least one specialty selected, selecting one more never removes a
   * record: the old result is the new result filtered once more. (From an
   * empty selection the first name switches the filter on, see
   * FirstSpecialtyCanShrink.)
   */
  lemma AddingSpecialtyNeverShrinks(s: seq<Doctor>, p: SearchParams, name: string)
    requires NamesOf(p.specialty) != []
    ensures Keep(Filtered(s, p.(specialty := Some(NamesOf(p.specialty) + [name]))), MatchFilter(p)) == Filtered(s, p)
    ensures |Filtered(s, p)| <= |Filtered(s, p.(specialty := Some(NamesOf(p.specialty) + [name])))|
  {
    var p' := p.(specialty := Some(NamesOf(p.specialty) + [name]));
    forall d | d in s && Matches(p, d) ensures Matches(p', d) {
      var sp :| sp in d.specialities && sp.name in NamesOf(p.specialty);
      assert sp.name in NamesOf(p'.specialty);
    }
    KeepMonotone(s, MatchFilter(p), MatchFilter(p'));
  }

  /** A record with no specialty at all. */
  function Unlisted(): Doctor
  {
    Doctor("1", "Dr. A", "DA", "", "", [], "500", "5 Years", [], Clinic("", ClinicAddress("", "", "", "", "")), true, true)
  }

  /** From an empty selection, selecting one name can shrink the result. */
  lemma FirstSpecialtyCanShrink()
    ensures |Filtered([Unlisted()], SearchParams(None, None, Some(["Cardiology"]), None))|
            < |Filtered([Unlisted()], SearchParams(None, None, Some([]), None))|
  {
    var d := Unlisted();
    var p := SearchParams(None, None, Some([]), None);
    var p' := SearchParams(None, None, Some(["Cardiology"]), None);
    assert Matches(p, d) && !Matches(p', d);
    assert Filtered([d], p) == [d];
    assert Filtered([d], p') == [];
  }

  // ---------------------------------------------------------------------------
  // Sort keys

  predicate IsDigit(c: char) { '0' <= c <= '9' }

  /** `s.replace(/[^\d]/g, '')`: the digits of `s`, in order. */
  function DigitsOf(s: string): (r: string)
    ensures forall i :: 0 <= i < |r| ==> IsDigit(r[i])
    ensures |r| <= |s|
    ensures forall c :: multiset(r)[c] == if IsDigit(c) then multiset(s)[c] else 0
  {
    assert s != [] ==> s == [s[0]] + s[1..];
    if s == [] then []
    else if IsDigit(s[0]) then [s[0]] + DigitsOf(s[1..])
    else DigitsOf(s[1..])
  }

  /** The digit string is the generic filter with the digit test, so it keeps the digits' order. */
  lemma {:induction false} DigitsOfIsKeep(s: string)
    ensures DigitsOf(s) == Keep(s, IsDigit)
  {
    if s != [] {
      DigitsOfIsKeep(s[1..]);
    }
  }

  function DigitValue(c: char): nat
    requires IsDigit(c)
  {
    c as int - '0' as int
  }

  /** The decimal number a string of digits denotes. */
  function DecimalValue(ds: string): nat
    requires forall i :: 0 <= i < |ds| ==> IsDigit(ds[i])
  {
    if ds == [] then 0
    else DecimalValue(ds[..|ds| - 1]) * 10 + DigitValue(ds[|ds| - 1])
  }

  /** The longest run of decimal digits at the start of `s`. */
  function LeadingDigits(s: string): (r: string)
    ensures |r| <= |s| && r == s[..|r|]
    ensures forall i :: 0 <= i < |r| ==> IsDigit(r[i])
    ensures |r| < |s| ==> !IsDigit(s[|r|])
  {
    if s == [] || !IsDigit(s[0]) then [] else [s[0]] + LeadingDigits(s[1..])
  }

  /**
   * `parseInt(s)` in base 10: leading whitespace, an optional sign, then the
   * longest run of digits; None (the source's NaN) when there is no digit.
   */
  function ParseInt(s: string): (r: Option<int>)
    ensures (forall i :: 0 <= i < |s| ==> !IsDigit(s[i])) ==> r.None?
    ensures r.Some? && r.value < 0 ==> '-' in s
  {
    var t := TrimStart(s);
    var negative := t != [] && t[0] == '-';
    var sign := if t != [] && (t[0] == '-' || t[0] == '+') then 1 else 0;
    var body := t[sign..];
    var ds := LeadingDigits(body);
    if ds == [] then None
    else
      assert s[|s| - |t| + sign] == ds[0];
      assert negative ==> s[|s| - |t|] == '-';
      var n: int := DecimalValue(ds);
      Some(if negative then -n else n)
  }

  /** `s.split(' ')[0]`: everything before the first space. */
  function FirstToken(s: string): (r: string)
    ensures |r| <= |s| && r == s[..|r|] && ' ' !in r
    ensures |r| < |s| ==> s[|r|] == ' '
  {
    if s == [] || s[0] == ' ' then [] else [s[0]] + FirstToken(s[1..])
  }

  /** The fee amount: `parseInt` of the fee string with every non-digit removed. */
  function FeeAmount(fees: string): (r: Option<int>)
    ensures r.None? <==> DigitsOf(fees) == []
    ensures r.Some? ==> r.value == DecimalValue(DigitsOf(fees)) >= 0
  {
    if DigitsOf(fees) != [] then
      ParseDigits(DigitsOf(fees));
      ParseInt(DigitsOf(fees))
    else ParseInt(DigitsOf(fees))
  }

  /** A string of digits only is parsed as its decimal value. */
  lemma {:induction false} ParseDigits(ds: string)
    requires ds != []
    requires forall i :: 0 <= i < |ds| ==> IsDigit(ds[i])
    ensures ParseInt(ds) == Some(DecimalValue(ds))
  {
    assert !IsWhitespace(ds[0]) && ds[0] != '-' && ds[0] != '+';
    assert TrimStart(ds) == ds;
    AllLeadingDigits(ds);
    assert LeadingDigits(ds) == ds;
  }

  lemma {:induction false} AllLeadingDigits(ds: string)
    requires forall i :: 0 <= i < |ds| ==> IsDigit(ds[i])
    ensures LeadingDigits(ds) == ds
  {
    if ds != [] {
      AllLeadingDigits(ds[1..]);
    }
  }

  /** The years of experience: the first space-delimited token, parsed. */
  function ExperienceYears(experience: string): (r: Option<int>)
    ensures var t := FirstToken(experience);
            t != [] && (forall i :: 0 <= i < |t| ==> IsDigit(t[i])) ==> r == Some(DecimalValue(t))
    ensures (forall i :: 0 <= i < |experience| ==> !IsDigit(experience[i])) ==> r.None?
  {
    var t := FirstToken(experience);
    if t != [] && (forall i :: 0 <= i < |t| ==> IsDigit(t[i])) then
      ParseDigits(t);
      ParseInt(t)
    else ParseInt(t)
  }

  datatype SortKey = Fees | Experience

  /** The sort the state asks for; any other `sortBy` value leaves the order as it is. */
  function SortKeyOf(p: SearchParams): (r: Option<SortKey>)
    ensures r == Some(Fees) <==> p.sortBy == Some("fees")
    ensures r == Some(Experience) <==> p.sortBy == Some("experience")
  {
    if IsSet(p.sortBy) then
      if p.sortBy.value == "fees" then Some(Fees)
      else if p.sortBy.value == "experience" then Some(Experience)
      else None
    else None
  }

  function OrZero(o: Option<int>): int
  {
    match o
    case Some(n) => n
    case None => 0
  }

  /**
   * The value the comparator orders by, ascending: the fee amount, or the
   * negated years of experience (the comparator is `bExp - aExp`). A value
   * with no digits counts as 0.
   */
  function Rank(key: SortKey, d: Doctor): (r: int)
    ensures key == Fees ==> r == (if DigitsOf(d.fees) == [] then 0 else DecimalValue(DigitsOf(d.fees))) >= 0
    ensures key == Experience && ExperienceYears(d.experience).Some? ==> r == -ExperienceYears(d.experience).value
    ensures key == Experience && ExperienceYears(d.experience).None? ==> r == 0
  {
    match key
    case Fees => OrZero(FeeAmount(d.fees))
    case Experience => -OrZero(ExperienceYears(d.experience))
  }

  function RankOf(key: SortKey): Doctor -> int { d => Rank(key, d) }

  /**
   * `getFilteredDoctors`: the filter stages in the source's order, each run
   * only when its field is set, then the sort the state asks for. Without a
   * recognised sort key the result is exactly Filtered; with one it is a
   * stable sort of Filtered. Either way a record is in the result iff it is
   * in the input and passes every active filter.
   */
  method GetFilteredDoctors(doctors: seq<Doctor>, p: SearchParams) returns (r: seq<Doctor>)
    ensures SortKeyOf(p).None? ==> r == Filtered(doctors, p)
    ensures SortKeyOf(p).Some? ==> IsStableSortOf(r, Filtered(doctors, p), RankOf(SortKeyOf(p).value))
    ensures forall d :: d in r <==> d in doctors && Matches(p, d)
  {
    // `filter` returns new arrays and the record list is a value here, so the
    // input cannot be changed by the in-place sort below.
    var f := doctors;
    if IsSet(p.search) {
      var term := Lower(p.search.value);
      var keep := (d: Doctor) => TextMatch(d, term);
      KeepSame(f, keep, TextFilter(p));
      f := Keep(f, keep);
    } else {
      KeepAll(f, TextFilter(p));
    }
    if IsSet(p.consultationType) {
      var mode := p.consultationType.value;
      var keep := (d: Doctor) => ModeMatch(mode, d);
      KeepSame(f, keep, ModeFilter(p));
      f := Keep(f, keep);
    } else {
      KeepAll(f, ModeFilter(p));
    }
    if p.specialty.Some? && |p.specialty.value| > 0 {
      var selected := p.specialty.value;
      var keep := (d: Doctor) => SpecialtyMatch(selected, d);
      KeepSame(f, keep, SpecialtyFilter(p));
      f := Keep(f, keep);
    } else {
      KeepAll(f, SpecialtyFilter(p));
    }
    StageOrderIrrelevant(doctors, p);
    r := f;
    if IsSet(p.sortBy) {
      if p.sortBy.value == "fees" {
        r := SortedCopy(f, Fees);
      } else if p.sortBy.value == "experience" {
        r := SortedCopy(f, Experience);
      }
    }
    SameMembers(r, f);
  }

  /** The in-place `sort` of lines 44 and 50, applied to a fresh array holding `f`. */
  method SortedCopy(f: seq<Doctor>, key: SortKey) returns (r: seq<Doctor>)
    ensures IsStableSortOf(r, f, RankOf(key))
  {
    var a := new Doctor[|f|](i requires 0 <= i < |f| => f[i]);
    assert a[..] == f;
    StableSort(a, RankOf(key));
    r := a[..];
  }

  /** A permutation has the same members. */
  lemma SameMembers(r: seq<Doctor>, f: seq<Doctor>)
    requires multiset(r) == multiset(f)
    ensures forall d :: d in r <==> d in f
  {
    forall d ensures d in r <==> d in f {
      assert d in r <==> d in multiset(r);
      assert d in f <==> d in multiset(f);
    }
  }
}
