/**
 * `sorted()` over the names a glob returns. Python orders `str` values
 * by comparing code points from the left; a proper prefix comes first.
 */
module Sorting {

  /** Python's `a < b` on `str`. */
  predicate Less(a: string, b: string)
    ensures a < b ==> Less(a, b)
    ensures Less(a, b) ==> !(b <= a)
  {
    if a == [] then b != []
    else if b == [] then false
    else if a[0] == b[0] then Less(a[1..], b[1..])
    else a[0] < b[0]
  }

  lemma {:induction false} LessIrreflexive(a: string)
    ensures !Less(a, a)
  {
    if a != [] {
      LessIrreflexive(a[1..]);
    }
  }

  lemma {:induction false} LessAsymmetric(a: string, b: string)
    requires Less(a, b)
    ensures !Less(b, a)
  {
    if a != [] && b != [] && a[0] == b[0] {
      LessAsymmetric(a[1..], b[1..]);
    }
  }

  lemma LessNotBoth(a: string, b: string)
    ensures !(Less(a, b) && Less(b, a))
  {
    if Less(a, b) {
      LessAsymmetric(a, b);
    }
  }

  lemma {:induction false} LessTransitive(a: string, b: string, c: string)
    requires Less(a, b) && Less(b, c)
    ensures Less(a, c)
  {
    if a != [] && a[0] == b[0] && b[0] == c[0] {
      LessTransitive(a[1..], b[1..], c[1..]);
    }
  }

  /** Any two different strings are ordered one way or the other. */
  lemma {:induction false} LessTotal(a: string, b: string)
    ensures a == b || Less(a, b) || Less(b, a)
  {
    if a != [] && b != [] && a[0] == b[0] {
      assert a == [a[0]] + a[1..] && b == [b[0]] + b[1..];
      LessTotal(a[1..], b[1..]);
    }
  }

  /** A common prefix does not change the order: sorting the full paths of one directory sorts the names. */
  lemma {:induction false} LessCommonPrefix(p: string, a: string, b: string)
    ensures Less(p + a, p + b) <==> Less(a, b)
  {
    if p != [] {
      assert (p + a)[0] == p[0] == (p + b)[0];
      assert (p + a)[1..] == p[1..] + a;
      assert (p + b)[1..] == p[1..] + b;
      LessCommonPrefix(p[1..], a, b);
    } else {
      assert p + a == a && p + b == b;
    }
  }

  /** Strictly ascending, and so without repetitions. */
  predicate Sorted(r: seq<string>)
  {
    forall i, j :: 0 <= i < j < |r| ==> Less(r[i], r[j])
  }

  /** `m` is the smallest element of `s`. */
  predicate IsMin(m: string, s: set<string>)
  {
    m in s && forall x :: x in s && x != m ==> Less(m, x)
  }

  lemma {:induction false} MinExists(s: set<string>)
    requires s != {}
    ensures exists m :: IsMin(m, s)
    decreases s
  {
    var x :| x in s;
    if s != {x} {
      var t := s - {x};
      MinExists(t);
      var m :| IsMin(m, t);
      if Less(x, m) {
        forall y | y in s && y != x
          ensures Less(x, y)
        {
          if y != m {
            LessTransitive(x, m, y);
          }
        }
        assert IsMin(x, s);
      } else {
        LessTotal(x, m);
        assert IsMin(m, s);
      }
    } else {
      assert IsMin(x, s);
    }
  }

  /** The names of `s` in ascending order: what `sorted()` returns for them. */
  ghost function SortedOf(s: set<string>): (r: seq<string>)
    ensures Sorted(r)
    ensures |r| == |s|
    ensures forall x :: x in r <==> x in s
    decreases s
  {
    if s == {} then []
    else
      MinExists(s);
      var m :| IsMin(m, s);
      var rest := SortedOf(s - {m});
      assert forall j :: 0 <= j < |rest| ==> rest[j] in s - {m};
      [m] + rest
  }

  /** Only one strictly ascending sequence holds exactly the given names. */
  lemma {:induction false} SortedUnique(r: seq<string>, q: seq<string>)
    requires Sorted(r) && Sorted(q)
    requires forall x :: x in r <==> x in q
    ensures r == q
    decreases |r|
  {
    assert r != [] ==> r[0] in q;
    assert q != [] ==> q[0] in r;
    if r != [] && q != [] {
      LessTotal(r[0], q[0]);
      LessNotBoth(r[0], q[0]);
      LessIrreflexive(r[0]);
      LessIrreflexive(q[0]);
      assert r[0] == q[0];
      forall x
        ensures x in r[1..] <==> x in q[1..]
      {
        if x in r[1..] {
          var i :| 1 <= i < |r| && r[i] == x;
          assert Less(r[0], x);
          LessIrreflexive(x);
          assert x in q;
        }
        if x in q[1..] {
          var i :| 1 <= i < |q| && q[i] == x;
          assert Less(q[0], x);
          LessIrreflexive(x);
          assert x in r;
        }
      }
      SortedUnique(r[1..], q[1..]);
      assert r == [r[0]] + r[1..] && q == [q[0]] + q[1..];
    }
  }

  /** `sorted(names)`: repeatedly takes the smallest remaining name. */
  method Sort(s: set<string>) returns (r: seq<string>)
    ensures r == SortedOf(s)
  {
    r := [];
    var rest := s;
    while rest != {}
      invariant rest <= s
      invariant Sorted(r)
      invariant forall x :: x in r <==> x in s && x !in rest
      invariant forall i, y :: 0 <= i < |r| && y in rest ==> Less(r[i], y)
      decreases rest
    {
      MinExists(rest);
      var m :| m in rest && IsMin(m, rest);
      r := r + [m];
      rest := rest - {m};
    }
    SortedUnique(r, SortedOf(s));
  }

  /** The names are sorted in the order their first differing code points give. */
  lemma SortedOfPair(a: string, b: string)
    requires Less(a, b)
    ensures SortedOf({a, b}) == [a, b]
  {
    LessIrreflexive(a);
    SortedUnique([a, b], SortedOf({a, b}));
  }
}
