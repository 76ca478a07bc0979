/** Sequence helpers shared by the models: filtering, duplicate-freedom and removal. */
module Seqs {

  datatype Option<+T> = None | Some(value: T)

  ghost predicate NoDup<T>(s: seq<T>) {
    forall i, j :: 0 <= i < j < |s| ==> s[i] != s[j]
  }

  lemma NoDupCons<T>(x: T, s: seq<T>)
    requires NoDup(s) && x !in s
    ensures NoDup([x] + s) && forall y :: y in [x] + s <==> y == x || y in s
  {}

  function Filter<T>(p: T -> bool, s: seq<T>): (r: seq<T>)
    ensures |r| <= |s|
  {
    if s == [] then []
    else (if p(s[0]) then [s[0]] else []) + Filter(p, s[1..])
  }

  lemma {:induction false} FilterAppend<T>(p: T -> bool, a: seq<T>, b: seq<T>)
    ensures Filter(p, a + b) == Filter(p, a) + Filter(p, b)
  {
    if a == [] {
      assert a + b == b;
    } else {
      var head := if p(a[0]) then [a[0]] else [];
      FilterAppend(p, a[1..], b);
      assert (a + b)[0] == a[0] && (a + b)[1..] == a[1..] + b;
      assert head + (Filter(p, a[1..]) + Filter(p, b)) == (head + Filter(p, a[1..])) + Filter(p, b);
    }
  }

  lemma {:induction false} FilterMember<T>(p: T -> bool, s: seq<T>, x: T)
    ensures x in Filter(p, s) <==> x in s && p(x)
  {
    if s != [] {
      assert x in s <==> x == s[0] || x in s[1..];
      FilterMember(p, s[1..], x);
    }
  }

  lemma {:induction false} FilterAll<T>(p: T -> bool, s: seq<T>)
    requires forall x :: x in s ==> p(x)
    ensures Filter(p, s) == s
  {
    if s != [] {
      assert s[0] in s && forall x :: x in s[1..] ==> x in s;
      FilterAll(p, s[1..]);
      assert [s[0]] + s[1..] == s;
    }
  }

  lemma {:induction false} FilterNone<T>(p: T -> bool, s: seq<T>)
    requires forall x :: x in s ==> !p(x)
    ensures Filter(p, s) == []
  {
    if s != [] {
      assert s[0] in s && forall x :: x in s[1..] ==> x in s;
      FilterNone(p, s[1..]);
    }
  }

  /** s with every occurrence of x removed. */
  function Without<T(==)>(s: seq<T>, x: T): (r: seq<T>)
    ensures |r| <= |s|
  {
    if s == [] then []
    else (if s[0] == x then [] else [s[0]]) + Without(s[1..], x)
  }

  lemma {:induction false} WithoutAbsent<T>(s: seq<T>, x: T)
    requires x !in s
    ensures Without(s, x) == s
  {
    if s != [] {
      WithoutAbsent(s[1..], x);
      assert [s[0]] + s[1..] == s;
    }
  }

  /** Removing the last element of a duplicate-free sequence drops it. */
  lemma {:induction false} WithoutLast<T>(s: seq<T>)
    requires NoDup(s) && s != []
    ensures Without(s, s[|s| - 1]) == s[..|s| - 1]
  {
    var x := s[|s| - 1];
    if |s| == 1 {
      assert s[1..] == [];
    } else {
      WithoutLast(s[1..]);
      assert s[1..][|s| - 2] == x;
      assert [s[0]] + s[1..][..|s| - 2] == s[..|s| - 1];
    }
  }

  /** Removal keeps the other elements, their order and their distinctness. */
  lemma {:induction false} WithoutProps<T>(s: seq<T>, x: T)
    requires NoDup(s)
    ensures NoDup(Without(s, x))
    ensures forall y :: y in Without(s, x) <==> y in s && y != x
  {
    if s != [] {
      WithoutProps(s[1..], x);
      var rest := Without(s[1..], x);
      assert s == [s[0]] + s[1..];
      assert forall y :: y in s <==> y == s[0] || y in s[1..];
      if s[0] != x {
        assert Without(s, x) == [s[0]] + rest;
        assert s[0] !in s[1..];
      }
    }
  }

  // ---- Positions of a predicate -----------------------------------------------------

  /** The positions below n that satisfy p, in order. */
  function Positions(p: nat -> bool, n: nat): seq<nat> {
    if n == 0 then [] else Positions(p, n - 1) + (if p(n - 1) then [n - 1] else [])
  }

  lemma {:induction false} PositionsAre(p: nat -> bool, n: nat)
    ensures forall u: nat :: u in Positions(p, n) <==> u < n && p(u)
    ensures forall i, j :: 0 <= i < j < |Positions(p, n)| ==> Positions(p, n)[i] < Positions(p, n)[j]
  {
    if n > 0 {
      PositionsAre(p, n - 1);
      var before := Positions(p, n - 1);
      assert forall i :: 0 <= i < |before| ==> before[i] in before;
    }
  }

  lemma {:induction false} PositionsNone(p: nat -> bool, n: nat)
    requires forall u: nat :: u < n ==> !p(u)
    ensures Positions(p, n) == []
  {
    if n > 0 { PositionsNone(p, n - 1); }
  }

  /** Equal positions mean equal predicates. */
  lemma {:induction false} PositionsSame(p: nat -> bool, q: nat -> bool, n: nat)
    ensures Positions(p, n) == Positions(q, n) <==> forall u: nat :: u < n ==> p(u) == q(u)
  {
    if n > 0 {
      PositionsSame(p, q, n - 1);
      PositionsAre(p, n);
      PositionsAre(q, n);
      if Positions(p, n) == Positions(q, n) {
        forall u: nat | u < n ensures p(u) == q(u) {
          assert u in Positions(p, n) <==> u in Positions(q, n);
        }
      }
    }
  }

  /** A weaker predicate has at least as many positions. */
  lemma {:induction false} PositionsMore(p: nat -> bool, q: nat -> bool, n: nat)
    requires forall u: nat :: u < n && p(u) ==> q(u)
    ensures |Positions(p, n)| <= |Positions(q, n)|
  {
    if n > 0 { PositionsMore(p, q, n - 1); }
  }

  /** Positions from n on add to the count. */
  lemma {:induction false} PositionsGrow(p: nat -> bool, n: nat, m: nat)
    requires n <= m
    ensures |Positions(p, n)| <= |Positions(p, m)|
    ensures |Positions(p, n)| == |Positions(p, m)| <==> forall u: nat :: n <= u < m ==> !p(u)
  {
    if n < m { PositionsGrow(p, n, m - 1); }
  }

  // ---- Concatenation ----------------------------------------------------------------

  function Concat<T>(parts: seq<seq<T>>): seq<T> {
    if parts == [] then [] else parts[0] + Concat(parts[1..])
  }

  lemma {:induction false} ConcatAppend<T>(parts: seq<seq<T>>, last: seq<T>)
    ensures Concat(parts + [last]) == Concat(parts) + last
  {
    if parts == [] {
      assert parts + [last] == [last] && last + [] == last;
    } else {
      assert (parts + [last])[1..] == parts[1..] + [last];
      ConcatAppend(parts[1..], last);
    }
  }

  // ---- Orders -------------------------------------------------------------------------

  /** The byte string of a text. */
  function Codes(s: string): (r: seq<int>)
    ensures |r| == |s| && forall i :: 0 <= i < |s| ==> r[i] == s[i] as int
  {
    seq(|s|, i requires 0 <= i < |s| => s[i] as int)
  }

  lemma CodesDiffer(a: string, b: string)
    requires a != b
    ensures Codes(a) != Codes(b)
  {
    if |a| == |b| {
      var i :| 0 <= i < |a| && a[i] != b[i];
      assert Codes(a)[i] != Codes(b)[i];
    }
  }

  /** Lexicographic order, as Go compares strings. */
  predicate Less(a: seq<int>, b: seq<int>) {
    if b == [] then false else if a == [] then true
    else if a[0] != b[0] then a[0] < b[0] else Less(a[1..], b[1..])
  }

  lemma {:induction false} LessTotal(a: seq<int>, b: seq<int>)
    requires a != b
    ensures Less(a, b) != Less(b, a)
  {
    if a != [] && b != [] && a[0] == b[0] {
      assert a == [a[0]] + a[1..] && b == [b[0]] + b[1..];
      LessTotal(a[1..], b[1..]);
    }
  }

  lemma {:induction false} LessTransitive(a: seq<int>, b: seq<int>, c: seq<int>)
    requires Less(a, b) && Less(b, c)
    ensures Less(a, c)
  {
    if a != [] && a[0] == b[0] && b[0] == c[0] { LessTransitive(a[1..], b[1..], c[1..]); }
  }

  lemma {:induction false} LessIrreflexive(a: seq<int>)
    ensures !Less(a, a)
  {
    if a != [] { LessIrreflexive(a[1..]); }
  }

  ghost predicate Arranged<T(!new)>(before: (T, T) -> bool, s: seq<T>) {
    forall i, j :: 0 <= i < j < |s| ==> before(s[i], s[j])
  }

  lemma ArrangedTail<T(!new)>(before: (T, T) -> bool, s: seq<T>)
    requires Arranged(before, s) && s != [] && forall x :: !before(x, x)
    ensures Arranged(before, s[1..]) && s[0] !in s[1..] && forall x :: x in s[1..] ==> before(s[0], x)
  {
    var tail := s[1..];
    assert forall i :: 0 <= i < |tail| ==> tail[i] == s[i + 1] && before(s[0], s[i + 1]);
  }

  /** Elements have at most one arrangement in a strict order. */
  lemma {:induction false} ArrangementIsUnique<T(!new)>(before: (T, T) -> bool, a: seq<T>, b: seq<T>)
    requires forall x, y :: !(before(x, y) && before(y, x))
    requires Arranged(before, a) && Arranged(before, b) && forall x :: x in a <==> x in b
    ensures a == b
  {
    assert a != [] ==> a[0] in a;
    assert b != [] ==> b[0] in b;
    if a != [] && b != [] {
      ArrangedTail(before, a);
      ArrangedTail(before, b);
      assert a == [a[0]] + a[1..] && b == [b[0]] + b[1..];
      assert a[0] == b[0];
      assert forall x :: x in a[1..] <==> x in a && x != a[0];
      assert forall x :: x in b[1..] <==> x in b && x != b[0];
      ArrangementIsUnique(before, a[1..], b[1..]);
    }
  }

  // ---- Map sizes ----------------------------------------------------------------------

  lemma OneMore<K, V>(m: map<K, V>, k: K, v: V)
    requires k !in m
    ensures |m[k := v]| == |m| + 1
  {
    assert m[k := v].Keys == m.Keys + {k};
    assert |m| == |m.Keys| && |m[k := v]| == |m[k := v].Keys|;
  }

  lemma OneLess<K, V>(m: map<K, V>, k: K)
    requires k in m
    ensures |m - {k}| == |m| - 1
  {
    assert (m - {k}).Keys == m.Keys - {k};
    assert |m| == |m.Keys| && |m - {k}| == |(m - {k}).Keys|;
  }

  lemma AtMostOneMore<K, V>(m: map<K, V>, k: K, v: V)
    ensures |m[k := v]| <= |m| + 1
  {
    if k in m {
      assert m[k := v].Keys == m.Keys;
      assert |m| == |m.Keys| && |m[k := v]| == |m[k := v].Keys|;
    } else {
      OneMore(m, k, v);
    }
  }
}
