/** Key order of the source's `BTreeMap`s: fixed-size byte strings, compared lexicographically. */
module Order {
  import opened Base

  predicate Le(a: Bytes, b: Bytes) {
    a == [] || (b != [] && (a[0] < b[0] || (a[0] == b[0] && Le(a[1..], b[1..]))))
  }

  lemma {:induction false} LeTotal(a: Bytes, b: Bytes)
    ensures Le(a, b) || Le(b, a)
  {
    if a != [] && b != [] {
      LeTotal(a[1..], b[1..]);
    }
  }

  lemma {:induction false} LeAntisymmetric(a: Bytes, b: Bytes)
    requires Le(a, b) && Le(b, a)
    ensures a == b
  {
    if a != [] {
      LeAntisymmetric(a[1..], b[1..]);
    }
  }

  lemma {:induction false} LeTransitive(a: Bytes, b: Bytes, c: Bytes)
    requires Le(a, b) && Le(b, c)
    ensures Le(a, c)
  {
    if a != [] && a[0] == b[0] == c[0] {
      LeTransitive(a[1..], b[1..], c[1..]);
    }
  }

  predicate Least(m: Bytes, s: set<Bytes>) {
    m in s && forall k | k in s :: Le(m, k)
  }

  lemma HasLeast(s: set<Bytes>)
    requires s != {}
    ensures exists m :: Least(m, s)
  {
    var x :| x in s;
    var rest := s - {x};
    LeTotal(x, x);
    if rest == {} {
      assert s == {x};
      assert Least(x, s);
    } else {
      HasLeast(rest);
      var m :| Least(m, rest);
      LeTotal(x, m);
      if Le(m, x) {
        assert Least(m, s);
      } else {
        forall k | k in rest ensures Le(x, k) { LeTransitive(x, m, k); }
        assert Least(x, s);
      }
    }
  }

  lemma LeastUnique(a: Bytes, b: Bytes, s: set<Bytes>)
    requires Least(a, s) && Least(b, s)
    ensures a == b
  {
    LeAntisymmetric(a, b);
  }

  function LeastKey(s: set<Bytes>): (m: Bytes)
    requires s != {}
    ensures Least(m, s)
  {
    HasLeast(s);
    assert forall a, b | Least(a, s) && Least(b, s) :: a == b by {
      forall a, b | Least(a, s) && Least(b, s) ensures a == b { LeastUnique(a, b, s); }
    }
    var m :| m in s && Least(m, s);
    m
  }

  /** The iteration order of a map with these keys. */
  function Sorted(s: set<Bytes>): (r: seq<Bytes>)
    ensures forall k :: k in r <==> k in s
    ensures |r| == |s|
  {
    if s == {} then [] else
      var m := LeastKey(s);
      [m] + Sorted(s - {m})
  }

  /** The iteration order is ascending. */
  lemma {:induction false} SortedAscends(s: set<Bytes>, i: nat, j: nat)
    requires i <= j < |Sorted(s)|
    ensures Le(Sorted(s)[i], Sorted(s)[j])
  {
    hide Le;
    var m := LeastKey(s);
    if i == 0 {
      assert Sorted(s)[j] in s;
    } else {
      SortedAscends(s - {m}, i - 1, j - 1);
    }
  }

  /** No key comes twice. */
  lemma {:induction false} SortedOnce(s: set<Bytes>, i: nat)
    requires i < |Sorted(s)|
    ensures Sorted(s)[i] !in Sorted(s)[..i]
  {
    hide Least;
    var m := LeastKey(s);
    if i > 0 {
      SortedOnce(s - {m}, i - 1);
      var rest := Sorted(s - {m});
      assert Sorted(s) == [m] + rest;
      assert Sorted(s)[..i] == [m] + rest[..i - 1];
      assert rest[i - 1] in s - {m};
    }
  }
}
