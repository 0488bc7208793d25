/** The gap check of the source preflight on the numbers of one stream. */
module SequenceGaps {
  predicate IsMinimum(values: set<int>, m: int) {
    m in values && forall v :: v in values ==> m <= v
  }

  lemma {:induction false} MinimumUpTo(values: set<int>, some: int)
    requires some in values
    ensures exists m :: IsMinimum(values, m)
    decreases |values|
  {
    if v :| v in values && v < some {
      var rest := values - {some};
      MinimumUpTo(rest, v);
      var m :| IsMinimum(rest, m);
      assert v in rest;
      forall x | x in values
        ensures m <= x
      {
        assert x == some || x in rest;
      }
      assert IsMinimum(values, m);
    } else {
      assert IsMinimum(values, some);
    }
  }

  lemma SomeElement<T>(values: set<T>) returns (some: T)
    requires values != {}
    ensures some in values
  {
    some :| some in values;
  }

  lemma HasMinimum(values: set<int>)
    requires values != {}
    ensures exists m :: IsMinimum(values, m)
  {
    var some := SomeElement(values);
    MinimumUpTo(values, some);
  }

  /** `sorted` over distinct numbers. */
  function Sorted(values: set<int>): seq<int>
    decreases |values|
  {
    if values == {} then []
    else
      HasMinimum(values);
      var m :| IsMinimum(values, m);
      [m] + Sorted(values - {m})
  }

  predicate Rising(s: seq<int>) {
    forall i, j :: 0 <= i < j < |s| ==> s[i] < s[j]
  }

  lemma SortedSplits(values: set<int>) returns (m: int)
    requires values != {}
    ensures IsMinimum(values, m) && Sorted(values) == [m] + Sorted(values - {m})
  {
    HasMinimum(values);
    m := Sorted(values)[0];
  }

  lemma {:induction false} SortedRises(values: set<int>)
    ensures Rising(Sorted(values)) && forall v :: v in Sorted(values) <==> v in values
    decreases |values|
  {
    if values != {} {
      var m := SortedSplits(values);
      SortedRises(values - {m});
      var rest := Sorted(values - {m});
      assert forall j :: 0 <= j < |rest| ==> rest[j] in values - {m};
    }
  }

  /** The numbers 1 to n. */
  ghost predicate IsUpTo(values: set<int>, n: nat) {
    forall q :: q in values <==> 1 <= q <= n
  }

  ghost predicate IsInitial(values: set<int>) {
    exists n: nat :: IsUpTo(values, n)
  }

  /** The next number follows without a gap. */
  predicate Follows(s: seq<int>, i: nat)
    requires i < |s|
  {
    s[i] == (if i == 0 then 0 else s[i - 1]) + 1
  }

  predicate Stepwise(s: seq<int>) {
    forall i :: 0 <= i < |s| ==> Follows(s, i)
  }

  lemma {:induction false} StepwiseCounts(s: seq<int>, i: nat)
    requires Stepwise(s) && i < |s|
    ensures s[i] == i + 1
  {
    assert Follows(s, i);
    if i > 0 {
      StepwiseCounts(s, i - 1);
    }
  }

  lemma InitialFollows(s: seq<int>, n: nat, i: nat)
    requires Rising(s) && i < |s| && forall q :: q in s <==> 1 <= q <= n
    ensures Follows(s, i)
  {
    var before := if i == 0 then 0 else s[i - 1];
    assert i > 0 ==> s[i - 1] in s;
    assert s[i] in s;
    assert before + 1 in s;
    var j :| 0 <= j < |s| && s[j] == before + 1;
    assert j == i;
  }

  /** Comparing neighbours in order finds a gap exactly if the numbers are not 1 to some n. */
  lemma StepwiseMeansInitial(values: set<int>)
    ensures Stepwise(Sorted(values)) <==> IsInitial(values)
  {
    SortedRises(values);
    var s := Sorted(values);
    if Stepwise(s) {
      forall q
        ensures q in values <==> 1 <= q <= |s|
      {
        if 1 <= q <= |s| {
          StepwiseCounts(s, q - 1);
          assert s[q - 1] in s;
        }
        if q in s {
          var i :| 0 <= i < |s| && s[i] == q;
          StepwiseCounts(s, i);
        }
      }
      assert IsUpTo(values, |s|);
    }
    if IsInitial(values) {
      var n: nat :| IsUpTo(values, n);
      forall i | 0 <= i < |s|
        ensures Follows(s, i)
      {
        InitialFollows(s, n, i);
      }
    }
  }

  /** The gaps of one stream, each as the number before it and the number after it. */
  method FindSteps(values: set<int>) returns (gaps: seq<(int, int)>)
    ensures gaps == [] <==> IsInitial(values)
  {
    StepwiseMeansInitial(values);
    var ordered := Sorted(values);
    gaps := [];
    if ordered != [] && ordered[0] != 1 {
      gaps := gaps + [(0, ordered[0])];
    }
    assert ordered != [] ==> (Follows(ordered, 0) <==> ordered[0] == 1);
    var i := 1;
    while i < |ordered|
      invariant 1 <= i && (ordered != [] ==> i <= |ordered|)
      invariant gaps == [] <==> forall j :: 0 <= j < i && j < |ordered| ==> Follows(ordered, j)
    {
      if ordered[i] != ordered[i - 1] + 1 {
        assert !Follows(ordered, i);
        gaps := gaps + [(ordered[i - 1], ordered[i])];
      }
      i := i + 1;
    }
  }
}
