/** Three-way comparison and the total order on strings that the ordered maps
    of the emulator use for their keys. */
module Order {

  datatype Ordering = Less | Equal | Greater {
    function Reverse(): Ordering {
      match this
      case Less => Greater
      case Equal => Equal
      case Greater => Less
    }

    /** Keeps this ordering unless it is Equal: the lexicographic combinator. */
    function Then(next: Ordering): Ordering {
      if Equal? then next else this
    }
  }

  /** What transitivity of a three-way comparison says about x-y, y-z and x-z. */
  predicate Chain(xy: Ordering, yz: Ordering, xz: Ordering) {
    && (xy.Equal? ==> xz == yz)
    && (yz.Equal? ==> xz == xy)
    && (xy == yz ==> xz == xy)
  }

  function CompareInt(a: int, b: int): Ordering {
    if a < b then Less else if a == b then Equal else Greater
  }

  function CompareReal(a: real, b: real): Ordering {
    if a < b then Less else if a == b then Equal else Greater
  }

  /** Code-point order, which is also the byte order of the UTF-8 encodings. */
  function CompareString(a: string, b: string): Ordering {
    if a == [] || b == [] then CompareInt(|a|, |b|)
    else CompareInt(a[0] as int, b[0] as int).Then(CompareString(a[1..], b[1..]))
  }

  lemma {:induction false} CompareStringEqual(a: string, b: string)
    ensures CompareString(a, b) == Equal <==> a == b
  {
    if a != [] && b != [] {
      CompareStringEqual(a[1..], b[1..]);
      assert a == [a[0]] + a[1..] && b == [b[0]] + b[1..];
    }
  }

  lemma {:induction false} CompareStringReverse(a: string, b: string)
    ensures CompareString(b, a) == CompareString(a, b).Reverse()
  {
    if a != [] && b != [] {
      CompareStringReverse(a[1..], b[1..]);
    }
  }

  lemma {:induction false} CompareStringChain(a: string, b: string, c: string)
    ensures Chain(CompareString(a, b), CompareString(b, c), CompareString(a, c))
  {
    if a != [] && b != [] && c != [] {
      CompareStringChain(a[1..], b[1..], c[1..]);
    }
  }

  predicate Before(a: string, b: string) {
    CompareString(a, b) == Less
  }

  /** The ascending enumeration an ordered map gives of its keys. */
  predicate Ascending(names: seq<string>) {
    forall i, j :: 0 <= i < j < |names| ==> Before(names[i], names[j])
  }

  predicate IsLeast(x: string, names: set<string>) {
    x in names && forall y :: y in names && y != x ==> Before(x, y)
  }

  lemma {:induction false} LeastExists(names: set<string>)
    requires names != {}
    ensures exists x :: IsLeast(x, names)
  {
    var x :| x in names;
    var rest := names - {x};
    if rest == {} {
      assert names == {x};
      assert IsLeast(x, names);
    } else {
      LeastExists(rest);
      var least :| IsLeast(least, rest);
      CompareStringEqual(x, least);
      CompareStringReverse(x, least);
      if Before(x, least) {
        forall y | y in names && y != x ensures Before(x, y) {
          assert y in rest;
          CompareStringChain(x, least, y);
        }
        assert IsLeast(x, names);
      } else {
        assert IsLeast(least, names);
      }
    }
  }

  lemma LeastUnique(x: string, y: string, names: set<string>)
    requires IsLeast(x, names) && IsLeast(y, names)
    ensures x == y
  {
    CompareStringReverse(x, y);
  }

  function SortedKeys(names: set<string>): (keys: seq<string>)
    ensures Ascending(keys)
    ensures forall x :: x in keys <==> x in names
    ensures |keys| == |names|
  {
    if names == {} then []
    else
      LeastExists(names);
      assert forall x, y :: IsLeast(x, names) && IsLeast(y, names) ==> x == y by {
        forall x, y | IsLeast(x, names) && IsLeast(y, names) ensures x == y { LeastUnique(x, y, names); }
      }
      var least :| IsLeast(least, names);
      [least] + SortedKeys(names - {least})
  }

  lemma AscendingDistinct(keys: seq<string>, i: nat, j: nat)
    requires Ascending(keys) && i < |keys| && j < |keys| && keys[i] == keys[j]
    ensures i == j
  {
    CompareStringEqual(keys[i], keys[j]);
  }

  /** An ascending list is determined by its members. */
  lemma {:induction false} AscendingUnique(a: seq<string>, b: seq<string>)
    requires Ascending(a) && Ascending(b)
    requires forall x :: x in a <==> x in b
    ensures a == b
  {
    assert a == [] ==> forall x :: x !in b;
    assert b == [] || b[0] in b;
    assert a == [] || a[0] in a;
    if a != [] {
      assert a[0] in b && b[0] in a;
      var i :| 0 <= i < |a| && a[i] == b[0];
      var j :| 0 <= j < |b| && b[j] == a[0];
      CompareStringReverse(a[0], b[0]);
      CompareStringEqual(a[0], b[0]);
      assert a[0] == b[0];
      forall x ensures x in a[1..] <==> x in b[1..] {
        if x in a[1..] {
          var k :| 1 <= k < |a| && a[k] == x;
          CompareStringEqual(a[0], a[k]);
          assert x in b;
          var l :| 0 <= l < |b| && b[l] == x;
          assert b[1..][l-1] == x;
        }
        if x in b[1..] {
          var k :| 1 <= k < |b| && b[k] == x;
          CompareStringEqual(b[0], b[k]);
          assert x in a;
          var l :| 0 <= l < |a| && a[l] == x;
          assert a[1..][l-1] == x;
        }
      }
      AscendingUnique(a[1..], b[1..]);
      assert a == [a[0]] + a[1..] && b == [b[0]] + b[1..];
    }
  }

  /** No name is listed twice. */
  predicate Distinct(names: seq<string>) {
    forall i, j :: 0 <= i < j < |names| ==> names[i] != names[j]
  }

  /** One page of a list: at most limit entries from the offset on. */
  function Slice<T>(entries: seq<T>, offset: nat, limit: nat): seq<T> {
    var rest := if offset <= |entries| then entries[offset..] else [];
    if limit <= |rest| then rest[..limit] else rest
  }
}
