/** Sums over finite sets. */
module SetSum {
  ghost function Sum<T(!new)>(s: set<T>, f: T -> int): int
  {
    if s == {} then 0 else var x :| x in s; f(x) + Sum(s - {x}, f)
  }

  lemma {:induction false} SumSplit<T(!new)>(s: set<T>, f: T -> int, x: T)
    requires x in s
    ensures Sum(s, f) == f(x) + Sum(s - {x}, f)
  {
    var y :| y in s && Sum(s, f) == f(y) + Sum(s - {y}, f);
    if y != x {
      SumSplit(s - {y}, f, x);
      SumSplit(s - {x}, f, y);
      assert s - {y} - {x} == s - {x} - {y};
    }
  }

  /** Adding values one by one along an injection gives the sum over the image. */
  lemma {:induction false} SumImage<T(!new), U(!new)>(s: set<T>, f: T -> int, h: T -> U, t: set<U>, g: U -> int)
    requires forall x :: x in s ==> h(x) in t && f(x) == g(h(x))
    requires forall x, y :: x in s && y in s && h(x) == h(y) ==> x == y
    requires forall u :: u in t ==> exists x :: x in s && h(x) == u
    ensures Sum(s, f) == Sum(t, g)
    decreases s
  {
    if s == {} {
      assert t == {};
    } else {
      var x :| x in s;
      SumSplit(s, f, x);
      SumSplit(t, g, h(x));
      forall u | u in t - {h(x)}
        ensures exists y :: y in s - {x} && h(y) == u
      {
        var y :| y in s && h(y) == u;
        assert y in s - {x};
      }
      SumImage(s - {x}, f, h, t - {h(x)}, g);
    }
  }

  lemma {:induction false} SumDifference<T(!new)>(s: set<T>, f: T -> int, g: T -> int, d: T -> int)
    requires forall x :: x in s ==> d(x) == f(x) - g(x)
    ensures Sum(s, d) == Sum(s, f) - Sum(s, g)
    decreases s
  {
    if s != {} {
      var x :| x in s;
      SumSplit(s, f, x); SumSplit(s, g, x); SumSplit(s, d, x);
      SumDifference(s - {x}, f, g, d);
    }
  }

  lemma {:induction false} SumNonNegative<T(!new)>(s: set<T>, f: T -> int)
    requires forall x :: x in s ==> f(x) >= 0
    ensures Sum(s, f) >= 0
    ensures forall x :: x in s ==> f(x) <= Sum(s, f)
    decreases s
  {
    forall x | x in s
      ensures f(x) <= Sum(s, f) && Sum(s, f) >= 0
    {
      SumSplit(s, f, x);
      SumNonNegative(s - {x}, f);
    }
  }
}
