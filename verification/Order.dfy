/** The order in which a std::map of strings is walked. */
module Order {
  import opened Bytes

  predicate AtMost(a: Text, b: Text) {
    a == [] || (b != [] && (a[0] < b[0] || (a[0] == b[0] && AtMost(a[1..], b[1..]))))
  }

  /** At place n the first text has the smaller byte, and up to it they are the same. */
  ghost predicate SmallerAt(a: Text, b: Text, n: nat) {
    n < |a| && n < |b| && a[..n] == b[..n] && a[n] < b[n]
  }

  ghost predicate Below(a: Text, b: Text) {
    a <= b || exists n: nat :: SmallerAt(a, b, n)
  }

  lemma SmallerAtNext(a: Text, b: Text, n: nat)
    requires a != [] && b != [] && a[0] == b[0]
    ensures SmallerAt(a[1..], b[1..], n) <==> SmallerAt(a, b, n + 1)
  {
    if n < |a[1..]| && n < |b[1..]| {
      assert a[..n + 1] == [a[0]] + a[1..][..n];
      assert b[..n + 1] == [b[0]] + b[1..][..n];
      assert a[..n + 1][1..] == a[1..][..n] && b[..n + 1][1..] == b[1..][..n];
    }
  }

  lemma BelowNext(a: Text, b: Text)
    requires a != [] && b != [] && a[0] == b[0]
    ensures Below(a[1..], b[1..]) <==> Below(a, b)
  {
    assert a == [a[0]] + a[1..] && b == [b[0]] + b[1..];
    assert a <= b <==> a[1..] <= b[1..];
    assert !SmallerAt(a, b, 0);
    forall n: nat ensures SmallerAt(a[1..], b[1..], n) <==> SmallerAt(a, b, n + 1) {
      SmallerAtNext(a, b, n);
    }
    hide SmallerAt;
    if n: nat :| SmallerAt(a, b, n) {
      assert SmallerAt(a[1..], b[1..], n - 1);
    }
    if n: nat :| SmallerAt(a[1..], b[1..], n) {
      assert SmallerAt(a, b, n + 1);
    }
  }

  lemma BelowFirst(a: Text, b: Text)
    requires a != [] && b != [] && a[0] != b[0]
    ensures Below(a, b) <==> a[0] < b[0]
  {
    assert a[..0] == b[..0];
    assert SmallerAt(a, b, 0) <==> a[0] < b[0];
    forall n: nat | n > 0 ensures !SmallerAt(a, b, n) {
      if n < |a| && n < |b| {
        assert a[..n][0] == a[0] && b[..n][0] == b[0];
      }
    }
  }

  lemma {:induction false} AtMostIsBelow(a: Text, b: Text)
    ensures AtMost(a, b) <==> Below(a, b)
    decreases |a|
  {
    if a != [] && b != [] {
      if a[0] == b[0] {
        AtMostIsBelow(a[1..], b[1..]);
        BelowNext(a, b);
      } else {
        BelowFirst(a, b);
      }
    }
  }

  /** The order by bytes: a prefix comes first, and otherwise the first byte that differs decides. */
  lemma AtMostIs(a: Text, b: Text)
    ensures AtMost(a, b) <==>
      a <= b || exists n :: 0 <= n < |a| && n < |b| && a[..n] == b[..n] && a[n] < b[n]
  {
    AtMostIsBelow(a, b);
    hide AtMost;
    if n :| 0 <= n < |a| && n < |b| && a[..n] == b[..n] && a[n] < b[n] {
      assert SmallerAt(a, b, n);
    }
  }

  lemma {:induction false} Total(a: Text, b: Text)
    ensures AtMost(a, b) || AtMost(b, a)
    decreases |a|
  {
    if a != [] && b != [] {
      Total(a[1..], b[1..]);
    }
  }

  lemma {:induction false} Antisymmetric(a: Text, b: Text)
    requires AtMost(a, b) && AtMost(b, a)
    ensures a == b
    decreases |a|
  {
    if a != [] {
      Antisymmetric(a[1..], b[1..]);
      assert a == [a[0]] + a[1..] && b == [b[0]] + b[1..];
    }
  }

  lemma {:induction false} Transitive(a: Text, b: Text, c: Text)
    requires AtMost(a, b) && AtMost(b, c)
    ensures AtMost(a, c)
    decreases |a|
  {
    if a != [] && a[0] == b[0] == c[0] {
      Transitive(a[1..], b[1..], c[1..]);
    }
  }

  ghost predicate IsLeast(k: Text, s: set<Text>) {
    k in s && forall j | j in s :: AtMost(k, j)
  }

  /** The key a walk over the map meets first. */
  method First(s: set<Text>) returns (k: Text)
    requires s != {}
    ensures IsLeast(k, s)
  {
    k :| k in s;
    Total(k, k);
    var todo := s - {k};
    while todo != {}
      invariant todo <= s && k in s - todo
      invariant forall j | j in s - todo :: AtMost(k, j)
      decreases |todo|
    {
      var j :| j in todo;
      if AtMost(j, k) {
        forall i | i in s - todo ensures AtMost(j, i) {
          Transitive(j, k, i);
        }
        Total(j, j);
        k := j;
      } else {
        Total(k, j);
      }
      todo := todo - {j};
    }
  }

  lemma {:induction false} LeastExists(s: set<Text>) returns (k: Text)
    requires s != {}
    ensures IsLeast(k, s)
    decreases |s|
  {
    k :| k in s;
    Total(k, k);
    var rest := s - {k};
    if rest != {} {
      var j := LeastExists(rest);
      if AtMost(j, k) {
        k := j;
      } else {
        Total(k, j);
        forall i | i in rest ensures AtMost(k, i) {
          Transitive(k, j, i);
        }
      }
    }
  }

  lemma LeastUnique(k: Text, j: Text, s: set<Text>)
    requires IsLeast(k, s) && IsLeast(j, s)
    ensures k == j
  {
    Antisymmetric(k, j);
  }
}
