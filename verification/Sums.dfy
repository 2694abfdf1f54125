/** Sums of integer weights over finite sets and sequences. */
module Sums {

  ghost function Total<T>(items: set<T>, weight: T -> int): int {
    if items == {} then 0
    else var x :| x in items; weight(x) + Total(items - {x}, weight)
  }

  lemma {:induction false} TotalRemove<T>(items: set<T>, weight: T -> int, x: T)
    requires x in items
    ensures Total(items, weight) == weight(x) + Total(items - {x}, weight)
  {
    var y :| y in items && Total(items, weight) == weight(y) + Total(items - {y}, weight);
    if y != x {
      TotalRemove(items - {y}, weight, x);
      TotalRemove(items - {x}, weight, y);
      assert items - {y} - {x} == items - {x} - {y};
    }
  }

  lemma {:induction false} TotalAgrees<T>(items: set<T>, weight: T -> int, other: T -> int)
    requires forall x :: x in items ==> weight(x) == other(x)
    ensures Total(items, weight) == Total(items, other)
  {
    if items != {} {
      var x :| x in items;
      TotalRemove(items, weight, x);
      TotalRemove(items, other, x);
      TotalAgrees(items - {x}, weight, other);
    }
  }

  lemma {:induction false} TotalUnion<T>(a: set<T>, b: set<T>, weight: T -> int)
    requires a !! b
    ensures Total(a + b, weight) == Total(a, weight) + Total(b, weight)
  {
    if b == {} {
      assert a + b == a;
    } else {
      var x :| x in b;
      TotalRemove(a + b, weight, x);
      TotalRemove(b, weight, x);
      assert a + b - {x} == a + (b - {x});
      TotalUnion(a, b - {x}, weight);
    }
  }

  lemma {:induction false} TotalConstant<T>(items: set<T>, weight: T -> int, each: int)
    requires forall x :: x in items ==> weight(x) == each
    ensures Total(items, weight) == |items| * each
  {
    if items != {} {
      var x :| x in items;
      TotalRemove(items, weight, x);
      TotalConstant(items - {x}, weight, each);
      assert |items| == |items - {x}| + 1;
      assert |items| * each == |items - {x}| * each + each;
    }
  }

  lemma {:induction false} TotalNonNegative<T>(items: set<T>, weight: T -> int)
    requires forall x :: x in items ==> weight(x) >= 0
    ensures Total(items, weight) >= 0
  {
    if items != {} {
      var x :| x in items;
      TotalRemove(items, weight, x);
      TotalNonNegative(items - {x}, weight);
    }
  }

  lemma TotalSubset<T>(part: set<T>, whole: set<T>, weight: T -> int)
    requires part <= whole
    requires forall x :: x in whole ==> weight(x) >= 0
    ensures Total(part, weight) <= Total(whole, weight)
  {
    TotalUnion(part, whole - part, weight);
    assert part + (whole - part) == whole;
    TotalNonNegative(whole - part, weight);
  }

  lemma {:induction false} TotalBelow<T>(items: set<T>, weight: T -> int, other: T -> int)
    requires forall x :: x in items ==> weight(x) <= other(x)
    ensures Total(items, weight) <= Total(items, other)
  {
    if items != {} {
      var x :| x in items;
      TotalRemove(items, weight, x);
      TotalRemove(items, other, x);
      TotalBelow(items - {x}, weight, other);
    }
  }

  /** A sum drops when one weight shrinks or leaves and the others stay. */
  lemma TotalDrops<T>(before: set<T>, after: set<T>, a: T -> int, b: T -> int, x: T)
    requires after <= before && before - {x} <= after
    requires x in before && a(x) >= 1 && (x in after ==> b(x) == a(x) - 1)
    requires forall y :: y in before - {x} ==> a(y) == b(y)
    ensures Total(after, b) < Total(before, a)
  {
    hide Total;
    var others := before - {x};
    TotalRemove(before, a, x);
    TotalAgrees(others, a, b);
    if x in after {
      assert after - {x} == others;
      TotalRemove(after, b, x);
    } else {
      assert after == others;
    }
  }

  lemma SubsetSize<T>(part: set<T>, whole: set<T>)
    requires part <= whole
    ensures |part| <= |whole| && (|part| == |whole| ==> part == whole)
  {
    assert whole == part + (whole - part) && |whole| == |part| + |whole - part|;
  }
}
