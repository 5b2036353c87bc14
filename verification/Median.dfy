/** The median of a list, and how many values can exceed it. */
module Median {
  function Insert(x: real, s: seq<real>): seq<real>
  {
    if s == [] || x <= s[0] then [x] + s else [s[0]] + Insert(x, s[1..])
  }

  function Sort(values: seq<real>): (s: seq<real>)
    ensures |s| == |values|
    decreases |values|
  {
    if values == [] then [] else InsertKeepsLength(values[0], Sort(values[1..])); Insert(values[0], Sort(values[1..]))
  }

  lemma {:induction false} InsertKeepsLength(x: real, s: seq<real>)
    ensures |Insert(x, s)| == |s| + 1
  {
    if s != [] {
      InsertKeepsLength(x, s[1..]);
    }
  }

  ghost predicate Sorted(s: seq<real>)
  {
    forall i, j :: 0 <= i < j < |s| ==> s[i] <= s[j]
  }

  lemma {:induction false} InsertPermutes(x: real, s: seq<real>)
    ensures multiset(Insert(x, s)) == multiset(s) + multiset{x}
  {
    if s != [] && x > s[0] {
      InsertPermutes(x, s[1..]);
      assert s == [s[0]] + s[1..];
    }
  }

  lemma {:induction false} InsertSorts(x: real, s: seq<real>)
    requires Sorted(s)
    ensures Sorted(Insert(x, s))
  {
    if s == [] || x <= s[0] {
      ConsSorted(x, s);
    } else {
      InsertSorts(x, s[1..]);
      InsertPermutes(x, s[1..]);
      var tail := Insert(x, s[1..]);
      hide Insert;
      forall j | 0 <= j < |tail|
        ensures s[0] <= tail[j]
      {
        assert tail[j] in multiset(tail);
        assert tail[j] == x || tail[j] in s[1..];
      }
      ConsSorted(s[0], tail);
    }
  }

  lemma ConsSorted(x: real, s: seq<real>)
    requires Sorted(s) && forall j :: 0 <= j < |s| ==> x <= s[j]
    ensures Sorted([x] + s)
  {
  }

  /** Sort orders its argument and only rearranges it. */
  lemma {:induction false} SortSorts(values: seq<real>)
    ensures Sorted(Sort(values)) && multiset(Sort(values)) == multiset(values)
    decreases |values|
  {
    if values != [] {
      SortSorts(values[1..]);
      InsertSorts(values[0], Sort(values[1..]));
      InsertPermutes(values[0], Sort(values[1..]));
      assert values == [values[0]] + values[1..];
    }
  }

  function MedianOf(values: seq<real>): real
    requires values != []
  {
    var s := Sort(values);
    var mid := |s| / 2;
    if |s| % 2 == 1 then s[mid] else (s[mid - 1] + s[mid]) / 2.0
  }

  // ---------- How many values exceed it ----------

  function Above(values: seq<real>, m: real): nat
  {
    if values == [] then 0 else Above(values[1..], m) + if values[0] > m then 1 else 0
  }

  lemma {:induction false} AboveInsert(x: real, s: seq<real>, m: real)
    ensures Above(Insert(x, s), m) == Above(s, m) + if x > m then 1 else 0
  {
    if s != [] && x > s[0] {
      AboveInsert(x, s[1..], m);
    }
  }

  lemma {:induction false} AboveSort(values: seq<real>, m: real)
    ensures Above(Sort(values), m) == Above(values, m)
    decreases |values|
  {
    if values != [] {
      AboveSort(values[1..], m);
      AboveInsert(values[0], Sort(values[1..]), m);
    }
  }

  lemma {:induction false} AboveSuffix(s: seq<real>, m: real, k: nat)
    requires k <= |s| && forall i :: 0 <= i < k ==> s[i] <= m
    ensures Above(s, m) <= |s| - k
  {
    if s != [] {
      AboveSuffix(s[1..], m, if k == 0 then 0 else k - 1);
    }
  }

  /** At most half of the values are strictly above the median; an odd one never counts. */
  lemma AtMostHalfAboveMedian(values: seq<real>)
    requires values != []
    ensures Above(values, MedianOf(values)) <= |values| / 2
  {
    var s, m := Sort(values), MedianOf(values);
    SortSorts(values);
    AboveSort(values, m);
    var mid := |s| / 2;
    AboveSuffix(s, m, if |s| % 2 == 1 then mid + 1 else mid);
  }

  function Below(values: seq<real>, m: real): nat
  {
    if values == [] then 0 else Below(values[1..], m) + if values[0] < m then 1 else 0
  }

  lemma {:induction false} BelowInsert(x: real, s: seq<real>, m: real)
    ensures Below(Insert(x, s), m) == Below(s, m) + if x < m then 1 else 0
  {
    if s != [] && x > s[0] {
      BelowInsert(x, s[1..], m);
    }
  }

  lemma {:induction false} BelowSort(values: seq<real>, m: real)
    ensures Below(Sort(values), m) == Below(values, m)
    decreases |values|
  {
    if values != [] {
      BelowSort(values[1..], m);
      BelowInsert(values[0], Sort(values[1..]), m);
    }
  }

  lemma {:induction false} BelowPrefix(s: seq<real>, m: real, k: nat)
    requires k <= |s| && forall i :: k <= i < |s| ==> s[i] >= m
    ensures Below(s, m) <= k
  {
    if s != [] {
      BelowPrefix(s[1..], m, if k == 0 then 0 else k - 1);
    }
  }

  /** Where the median lies among the sorted values. */
  lemma MedianBetween(values: seq<real>)
    requires values != []
    ensures var s, m, mid := Sort(values), MedianOf(values), |values| / 2;
            && |s| == |values| && Sorted(s) && multiset(s) == multiset(values)
            && (|s| % 2 == 1 ==> m == s[mid])
            && (|s| % 2 == 0 ==> s[mid - 1] <= m <= s[mid] && (s[mid - 1] < s[mid] ==> m < s[mid]))
  {
    SortSorts(values);
    hide Sort;
  }

  /** The two middle ones of an even number of values: less than half are below the lower one or above
      the higher one, and at most half above the lower one or below the higher one. */
  ghost predicate MiddlePair(values: seq<real>, low: real, high: real)
  {
    && low in values && high in values
    && Below(values, low) < |values| / 2 && Above(values, low) <= |values| / 2
    && Above(values, high) < |values| / 2 && Below(values, high) <= |values| / 2
  }

  lemma MedianIsAMean(values: seq<real>)
    requires values != [] && |values| % 2 == 0
    ensures exists low, high :: MiddlePair(values, low, high) && MedianOf(values) == (low + high) / 2.0
  {
    hide Below, Above, Sort;
    var s, mid := Sort(values), |values| / 2;
    SortSorts(values);
    var low, high := s[mid - 1], s[mid];
    assert low in multiset(s) && high in multiset(s);
    assert low in multiset(values) && high in multiset(values);
    BelowSort(values, low);
    BelowSort(values, high);
    AboveSort(values, low);
    AboveSort(values, high);
    BelowPrefix(s, low, mid - 1);
    BelowPrefix(s, high, mid);
    AboveSuffix(s, low, mid);
    AboveSuffix(s, high, mid + 1);
    assert MiddlePair(values, low, high);
  }

  /** The median lies in the middle: at most half of the values are on either side of it; of an odd number
      of values it is one, of an even number the mean of the two middle ones. */
  lemma MedianIsInTheMiddle(values: seq<real>)
    requires values != []
    ensures Below(values, MedianOf(values)) <= |values| / 2 && Above(values, MedianOf(values)) <= |values| / 2
    ensures |values| % 2 == 1 ==> MedianOf(values) in values
    ensures |values| % 2 == 0 ==> exists low, high :: MiddlePair(values, low, high) && MedianOf(values) == (low + high) / 2.0
  {
    hide Sort, Below, Above, MedianOf, MiddlePair;
    var s, m := Sort(values), MedianOf(values);
    MedianBetween(values);
    BelowSort(values, m);
    AtMostHalfAboveMedian(values);
    BelowPrefix(s, m, |s| / 2);
    if |values| % 2 == 1 {
      assert m == s[|s| / 2] && m in multiset(s);
      assert m in multiset(values);
    } else {
      MedianIsAMean(values);
    }
  }

  ghost predicate Distinct(values: seq<real>)
  {
    forall i, j :: 0 <= i < j < |values| ==> values[i] != values[j]
  }

  lemma {:induction false} DistinctOccurOnce(values: seq<real>)
    ensures Distinct(values) <==> forall x :: x in multiset(values) ==> multiset(values)[x] == 1
    decreases |values|
  {
    if values != [] {
      var n := |values| - 1;
      var front, last := values[..n], values[n];
      assert values == front + [last];
      assert multiset(values) == multiset(front) + multiset{last};
      DistinctOccurOnce(front);
      if last in front {
        var i :| 0 <= i < n && front[i] == last;
        assert values[i] == values[n];
        assert multiset(values)[last] >= 2;
      } else {
        assert last !in multiset(front);
        if Distinct(values) {
          assert Distinct(front);
        }
        if forall x :: x in multiset(values) ==> multiset(values)[x] == 1 {
          forall x | x in multiset(front)
            ensures multiset(front)[x] == 1
          {
            assert x in multiset(values);
          }
        }
      }
    }
  }

  lemma {:induction false} AboveFrom(s: seq<real>, m: real, k: nat)
    requires k <= |s| && (forall i :: 0 <= i < k ==> s[i] <= m) && forall i :: k <= i < |s| ==> s[i] > m
    ensures Above(s, m) == |s| - k
  {
    if s != [] {
      AboveFrom(s[1..], m, if k == 0 then 0 else k - 1);
    }
  }

  /** Of values that are all different, exactly half - rounded down - exceed the median. */
  lemma HalfOfDistinctExceedTheMedian(values: seq<real>)
    requires values != [] && Distinct(values)
    ensures Above(values, MedianOf(values)) == |values| / 2
  {
    hide Sort, Above, MedianOf, Distinct, Sorted;
    var s, m := Sort(values), MedianOf(values);
    MedianBetween(values);
    AboveSort(values, m);
    DistinctOccurOnce(values);
    DistinctOccurOnce(s);
    Strictly(s);
    var mid := |s| / 2;
    AboveFrom(s, m, if |s| % 2 == 1 then mid + 1 else mid);
  }

  lemma Strictly(s: seq<real>)
    requires Sorted(s) && Distinct(s)
    ensures forall i, j :: 0 <= i < j < |s| ==> s[i] < s[j]
  {
  }

  // ---------- Brightness and contrast ----------

  function Adjust(x: real, a: real, b: real): real { a * x + b }

  function Affine(values: seq<real>, a: real, b: real): (r: seq<real>)
    ensures |r| == |values|
  {
    seq(|values|, i requires 0 <= i < |values| => Adjust(values[i], a, b))
  }

  lemma AdjustKeepsOrder(a: real, b: real, x: real, y: real)
    requires a > 0.0
    ensures x <= y <==> Adjust(x, a, b) <= Adjust(y, a, b)
  {
    if x < y {
      assert a * (y - x) > 0.0;
    } else if y < x {
      assert a * (x - y) > 0.0;
    }
  }

  lemma AffineCons(x: real, s: seq<real>, a: real, b: real)
    ensures Affine([x] + s, a, b) == [Adjust(x, a, b)] + Affine(s, a, b)
  {
    hide Adjust;
  }

  lemma {:induction false} InsertAffine(x: real, s: seq<real>, a: real, b: real)
    requires a > 0.0
    ensures Insert(Adjust(x, a, b), Affine(s, a, b)) == Affine(Insert(x, s), a, b)
  {
    hide Adjust;
    AffineCons(x, s, a, b);
    if s != [] {
      AdjustKeepsOrder(a, b, x, s[0]);
      InsertAffine(x, s[1..], a, b);
      AffineCons(s[0], s[1..], a, b);
      AffineCons(s[0], Insert(x, s[1..]), a, b);
      assert s == [s[0]] + s[1..];
    }
  }

  lemma {:induction false} SortAffine(values: seq<real>, a: real, b: real)
    requires a > 0.0
    ensures Sort(Affine(values, a, b)) == Affine(Sort(values), a, b)
    decreases |values|
  {
    hide Adjust, Insert;
    if values != [] {
      AffineCons(values[0], values[1..], a, b);
      assert values == [values[0]] + values[1..];
      SortAffine(values[1..], a, b);
      InsertAffine(values[0], Sort(values[1..]), a, b);
    }
  }

  /** The median moves with its values. */
  lemma MedianAffine(values: seq<real>, a: real, b: real)
    requires a > 0.0 && values != []
    ensures Affine(values, a, b) != []
    ensures MedianOf(Affine(values, a, b)) == Adjust(MedianOf(values), a, b)
  {
    hide Adjust, Sort;
    assert |Affine(values, a, b)| == |values|;
    SortAffine(values, a, b);
    var s := Sort(values);
    var mid := |s| / 2;
    if |s| % 2 == 0 {
      MeanAffine(s[mid - 1], s[mid], a, b);
    }
  }

  lemma MeanAffine(x: real, y: real, a: real, b: real)
    ensures (Adjust(x, a, b) + Adjust(y, a, b)) / 2.0 == Adjust((x + y) / 2.0, a, b)
  {
  }
}
