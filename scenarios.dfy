/** Worked examples of the store and the list pipeline on small concrete inputs. */
module Scenarios {
  import opened Types
  import opened Seqs
  import opened Text
  import opened QueryParams
  import opened SearchParamsHook
  import opened Sorting
  import opened DoctorList

  function Record(name: string, fees: string, specialty: string, video: bool, clinic: bool): Doctor
  {
    Doctor(name, name, "", "", "", [Specialty(specialty)], fees, "", [],
           Clinic("", ClinicAddress("", "", "", "", "")), video, clinic)
  }

  function DrA(): Doctor { Record("Dr. A", "₹500", "Cardiology", true, false) }
  function DrB(): Doctor { Record("Dr. B", "₹300", "Dermatology", false, true) }

  /** A fee written as the rupee sign followed by digits is read as the number they spell. */
  lemma RupeeFee(ds: string)
    requires ds != [] && forall i :: 0 <= i < |ds| ==> IsDigit(ds[i])
    ensures FeeAmount(['₹'] + ds) == Some(DecimalValue(ds))
  {
    RupeeDigits(ds);
  }

  /** The rupee sign contributes nothing to the digit string. */
  lemma RupeeDigits(ds: string)
    requires forall i :: 0 <= i < |ds| ==> IsDigit(ds[i])
    ensures DigitsOf(['₹'] + ds) == ds
  {
    SkipNonDigit('₹', ds);
    OnlyDigits(ds);
  }

  /** A leading non-digit contributes nothing to the digit string. */
  lemma SkipNonDigit(c: char, s: string)
    requires !IsDigit(c)
    ensures DigitsOf([c] + s) == DigitsOf(s)
  {
    assert ([c] + s)[1..] == s;
  }

  lemma Hundreds(c: char)
    requires IsDigit(c)
    ensures DecimalValue([c, '0', '0']) == DigitValue(c) * 100
  {
    assert [c][..0] == [] && [c, '0'][..1] == [c] && [c, '0', '0'][..2] == [c, '0'];
    assert DecimalValue([c]) == DigitValue(c);
    assert DecimalValue([c, '0']) == DigitValue(c) * 10;
  }

  /** A string of digits only is its own digit string. */
  lemma {:induction false} OnlyDigits(ds: string)
    requires forall i :: 0 <= i < |ds| ==> IsDigit(ds[i])
    ensures DigitsOf(ds) == ds
  {
    if ds != [] {
      OnlyDigits(ds[1..]);
    }
  }

  lemma FeeRanks()
    ensures Rank(Fees, DrA()) == 500 && Rank(Fees, DrB()) == 300
  {
    RankA();
    RankB();
  }

  lemma RankA()
    ensures Rank(Fees, DrA()) == 500
  {
    assert DrA().fees == ['₹', '5', '0', '0'];
    RupeeHundreds(DrA(), '5');
  }

  lemma RankB()
    ensures Rank(Fees, DrB()) == 300
  {
    assert DrB().fees == ['₹', '3', '0', '0'];
    RupeeHundreds(DrB(), '3');
  }

  /** A fee of the rupee sign, a digit and two zeros ranks as that many hundreds. */
  lemma RupeeHundreds(d: Doctor, c: char)
    requires IsDigit(c) && d.fees == ['₹', c, '0', '0']
    ensures Rank(Fees, d) == DigitValue(c) * 100
  {
    assert d.fees == ['₹'] + [c, '0', '0'];
    RupeeRank(d, [c, '0', '0']);
    Hundreds(c);
  }

  /** A record whose fee is the rupee sign followed by digits ranks by the number they spell. */
  lemma RupeeRank(d: Doctor, ds: string)
    requires ds != [] && forall i :: 0 <= i < |ds| ==> IsDigit(ds[i])
    requires d.fees == ['₹'] + ds
    ensures Rank(Fees, d) == DecimalValue(ds)
  {
    RupeeFee(ds);
  }

  /** Two different elements with different ranks have one sorted order. */
  lemma SortedPair<T>(r: seq<T>, x: T, y: T, rank: T -> int)
    requires multiset(r) == multiset([x, y])
    requires rank(x) < rank(y)
    requires SortedBy(r, rank)
    ensures r == [x, y]
  {
    assert |r| == |multiset(r)| == 2;
    assert r[0] in multiset(r) && r[1] in multiset(r);
    assert rank(r[0]) <= rank(r[1]);
  }

  /** Sorting the two records by fee puts the cheaper one first, whatever stable sort is used. */
  lemma SortByFees(r: seq<Doctor>)
    requires IsStableSortOf(r, Filtered([DrA(), DrB()], SearchParams(None, None, None, Some("fees"))), RankOf(Fees))
    ensures r == [DrB(), DrA()]
  {
    FeesStateKeepsBoth();
    FeeRanks();
    var rank := RankOf(Fees);
    assert rank(DrB()) < rank(DrA());
    StableSortOfPair(r, DrB(), DrA(), rank);
  }

  /** Asking only for the fee sort filters nothing out. */
  lemma FeesStateKeepsBoth()
    ensures Filtered([DrA(), DrB()], SearchParams(None, None, None, Some("fees"))) == [DrA(), DrB()]
  {
    var p := SearchParams(None, None, None, Some("fees"));
    assert Matches(p, DrA()) && Matches(p, DrB());
  }

  /** A stable sort of two elements with different ranks puts the lower rank first. */
  lemma StableSortOfPair<T>(r: seq<T>, x: T, y: T, rank: T -> int)
    requires IsStableSortOf(r, [y, x], rank)
    requires rank(x) < rank(y)
    ensures r == [x, y]
  {
    assert multiset([y, x]) == multiset([x, y]);
    SortedPair(r, x, y, rank);
  }

  /** "Video Consult" keeps only the record offering video consultations. */
  lemma VideoConsultOnly()
    ensures Filtered([DrA(), DrB()], SearchParams(None, Some("Video Consult"), None, None)) == [DrA()]
  {
    var p := SearchParams(None, Some("Video Consult"), None, None);
    assert Matches(p, DrA()) && !Matches(p, DrB());
  }

  /** A query with two specialties and a sort decodes to a complete state. */
  lemma DecodeSpecialtiesAndSort()
    ensures Decode([("specialty", "Cardiology"), ("specialty", "Dermatology"), ("sortBy", "experience")])
            == SearchParams(Some(""), Some(""), Some(["Cardiology", "Dermatology"]), Some("experience"))
  {
    var q: Query := [("specialty", "Cardiology"), ("specialty", "Dermatology"), ("sortBy", "experience")];
    assert q[1..] == [("specialty", "Dermatology"), ("sortBy", "experience")];
    assert q[1..][1..] == [("sortBy", "experience")];
    assert GetAll(q, "specialty") == ["Cardiology", "Dermatology"];
    assert !HasKey(q, "search") && !HasKey(q, "consultationType");
    assert Get(q, "sortBy") == Some("experience");
  }

  /** Clearing the selection leaves no `specialty` pair in the written query. */
  lemma ClearingSpecialtiesDropsKey(p: SearchParams)
    ensures var q := Encode(Merge(p, SearchParams(None, None, Some([]), None)));
            !HasKey(q, "specialty") && Decode(q).specialty == Some([])
  {
    var q := Encode(Merge(p, SearchParams(None, None, Some([]), None)));
    EncodeGetAll(Merge(p, SearchParams(None, None, Some([]), None)), "specialty");
  }

  /** "cardio" finds a record through its specialty name. */
  lemma SearchMatchesSpecialty()
    ensures TextStage(SearchParams(Some("cardio"), None, None, None), DrA())
  {
    assert Lower("Cardiology")[..6] == "cardio";
    assert OccursAt(Lower("Cardiology"), "cardio", 0);
    assert Lower("cardio") == "cardio";
  }
}
