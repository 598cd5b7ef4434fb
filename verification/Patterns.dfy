/** The matcher on texts, spelt out in bytes: 47 separates levels, 43 stands for one level and 42
    for any number of them. */
module Patterns {
  import opened Bytes
  import opened Matcher
  import opened Segments

  // ---------------------------------------------------------------- levels one by one

  lemma MatchOfRests(t: seq<Text>, p: seq<Text>, i: nat, j: nat)
    requires i <= |t| && j <= |p|
    ensures MatchesFrom(t, p, i, j) <==> Matches(t[i..], p[j..])
  {
    hide Cuts, MatchesFrom;
    if MatchesFrom(t, p, i, j) {
      var pieces := MatchToCuts(t, p, i, j);
    }
    if Matches(t[i..], p[j..]) {
      var pieces :| Cuts(t[i..], p[j..], pieces);
      CutsToMatch(t, p, i, j, pieces);
    }
  }

  lemma LevelsTaken(a: Text, t: seq<Text>, b: Text, p: seq<Text>)
    ensures Matches([a] + t, [b] + p) <==>
      if b == [42] then Matches([a] + t, p) || Matches(t, [b] + p)
      else (b == [43] || b == a) && Matches(t, p)
  {
    var ts, ps := [a] + t, [b] + p;
    MatchOfRests(ts, ps, 0, 0);
    MatchOfRests(ts, ps, 0, 1);
    MatchOfRests(ts, ps, 1, 0);
    MatchOfRests(ts, ps, 1, 1);
    assert ts[0..] == ts && ts[1..] == t && ps[0..] == ps && ps[1..] == p;
    hide Matches;
  }

  lemma NothingLeft(p: seq<Text>)
    ensures Matches([], p) <==> forall k | 0 <= k < |p| :: p[k] == [42]
  {
    TailOfStars([], p, 0);
    RecursionIsCutting([], p);
  }

  lemma {:induction false} StarsMatchAll(t: seq<Text>, p: seq<Text>)
    requires p != [] && forall k | 0 <= k < |p| :: p[k] == [42]
    ensures Matches(t, p)
    decreases |t|
  {
    if t == [] {
      NothingLeft(p);
    } else {
      StarsMatchAll(t[1..], p);
      LevelsTaken(t[0], t[1..], p[0], p[1..]);
      assert [t[0]] + t[1..] == t && [p[0]] + p[1..] == p;
    }
  }

  // ---------------------------------------------------------------- the meaning, on texts

  /** A topic and a pattern of at least two levels each: the first levels decide how to go on. */
  lemma MeansByLevels(a: Text, topic: Text, b: Text, pattern: Text)
    requires 47 !in a && 47 !in b
    ensures Means(a + [47] + topic, b + [47] + pattern) <==>
      if b == [42] then Means(a + [47] + topic, pattern) || Means(topic, b + [47] + pattern)
      else (b == [43] || b == a) && Means(topic, pattern)
  {
    SplitAtSlash(a, topic);
    SplitAtSlash(b, pattern);
    LevelsTaken(a, Split(topic), b, Split(pattern));
  }

  /** A topic of one level: a '*' is the level or nothing, and behind anything else in the
      pattern only '*' may follow. */
  lemma MeansOfOneLevel(a: Text, b: Text, pattern: Text)
    requires 47 !in a && 47 !in b
    ensures Means(a, b + [47] + pattern) <==>
      if b == [42] then Means(a, pattern)
      else (b == [43] || b == a) && forall k | 0 <= k < |Split(pattern)| :: Split(pattern)[k] == [42]
  {
    SplitNoSlash(a);
    SplitAtSlash(b, pattern);
    var p := Split(pattern);
    LevelsTaken(a, [], b, p);
    assert [a] + [] == [a];
    NothingLeft(p);
    NothingLeft([b] + p);
    if b == [42] && Matches([], [b] + p) {
      assert forall k | 0 <= k < |p| :: p[k] == ([b] + p)[k + 1];
      StarsMatchAll([a], p);
    }
  }

  /** A pattern of one level. */
  lemma MeansByOneLevel(topic: Text, b: Text)
    requires 47 !in b
    ensures Means(topic, b) <==> b == [42] || (47 !in topic && (b == [43] || b == topic))
  {
    SplitNoSlash(b);
    var t := Split(topic);
    LevelsTaken(t[0], t[1..], b, []);
    assert [t[0]] + t[1..] == t && [b] + [] == [b];
    if b == [42] {
      StarsMatchAll(t, [b]);
    } else {
      SplitThenJoin(topic);
      NoLevels(t[1..]);
      if 47 !in topic {
        SplitNoSlash(topic);
      }
    }
  }

  lemma NoLevels(t: seq<Text>)
    ensures Matches(t, []) <==> t == []
  {
    RecursionIsCutting(t, []);
  }

  // ---------------------------------------------------------------- the answer, on texts

  /** A cursor in lists that have one level more in front. */
  function Ahead(c: Cursor): Cursor {
    if c.backtrack then Cursor(c.t + 1, c.p + 1, c.tBack + 1, c.pBack + 1, true)
    else Cursor(c.t + 1, c.p + 1, 0, 0, false)
  }

  lemma {:induction false} ScanBehind(a: Text, t: seq<Text>, b: Text, p: seq<Text>, c: Cursor)
    requires InRange(c, |t|, |p|) && (!c.backtrack ==> c.tBack == 0 && c.pBack == 0)
    ensures InRange(Ahead(c), |t| + 1, |p| + 1)
    ensures Scan([a] + t, [b] + p, Ahead(c)) == Scan(t, p, c)
    decreases |t| - c.tBack, |p| - c.p
  {
    var ts, ps := [a] + t, [b] + p;
    if c.t == |t| {
      assert forall k | c.p <= k < |p| :: p[k] == ps[k + 1];
      assert forall k | c.p + 1 <= k < |ps| :: ps[k] == p[k - 1];
    } else {
      assert ts[c.t + 1] == t[c.t] && (c.p < |p| ==> ps[c.p + 1] == p[c.p]);
      var move := Advance(t, p, c);
      if move.Continue? {
        assert Advance(ts, ps, Ahead(c)) == Continue(Ahead(move.next));
        ScanBehind(a, t, b, p, move.next);
      }
    }
  }

  /** Where the pattern does not begin with a '*' level, the matcher goes level by level as well. */
  lemma RoutesByLevels(a: Text, topic: Text, b: Text, pattern: Text)
    requires 47 !in a && 47 !in b && (b != [42] || a == [42])
    ensures Routes(a + [47] + topic, b + [47] + pattern) <==> (b == [43] || b == a) && Routes(topic, pattern)
  {
    SplitAtSlash(a, topic);
    SplitAtSlash(b, pattern);
    var t, p := Split(topic), Split(pattern);
    ScanBehind(a, t, b, p, START);
    hide Split, Scan;
    var ts, ps := [a] + t, [b] + p;
    assert ts[0] == a && ps[0] == b;
    if b == [43] || b == a {
      assert Advance(ts, ps, START) == Continue(Ahead(START));
    } else {
      assert Advance(ts, ps, START) == GiveUp;
    }
    OneStep(ts, ps, START);
  }

  lemma OneStep(t: seq<Text>, p: seq<Text>, c: Cursor)
    requires InRange(c, |t|, |p|) && c.t < |t|
    ensures Scan(t, p, c) == (Advance(t, p, c).Continue? && Scan(t, p, Advance(t, p, c).next))
  {
  }

  /** A pattern of one level: '*' takes everything but a longer topic that begins with a level "*",
      '+' and any other text take a topic of one level. */
  lemma RoutesByOneLevel(topic: Text, b: Text)
    requires 47 !in b
    ensures Routes(topic, b) <==>
      if b == [42] then !([42, 47] <= topic) else 47 !in topic && (b == [43] || b == topic)
  {
    SplitNoSlash(b);
    if b == [42] {
      StarAlone(topic);
    } else {
      VerdictExact(Split(topic), [b]);
      MeansByOneLevel(topic, b);
    }
  }

  /** The one-level wildcard by itself, and as the last level. */
  lemma PlusIsOneLevel(topic: Text, a: Text, b: Text)
    requires 47 !in a && 47 !in b
    ensures Routes(topic, [43]) <==> 47 !in topic
    ensures Means(topic, [43]) <==> 47 !in topic
    ensures Routes(a + [47] + b, a + [47, 43]) && Means(a + [47] + b, a + [47, 43])
  {
    RoutesByOneLevel(topic, [43]);
    MeansByOneLevel(topic, [43]);
    RoutesByOneLevel(b, [43]);
    RoutesByLevels(a, b, a, [43]);
    assert a + [47] + [43] == a + [47, 43];
    RoutesSound(a + [47] + b, a + [47, 43]);
  }

  lemma StarThenMore(topic: Text)
    ensures [42, 47] <= topic <==> Split(topic)[0] == [42] && |Split(topic)| > 1
  {
    var end := Find(topic, 0);
    FirstCut(topic);
    hide Split;
    if |topic| > 1 && topic[0] == 42 && topic[1] == 47 {
      FindFromStart(topic, 0, 1);
      assert topic[..1] == [42];
    }
  }

  lemma StarAlone(topic: Text)
    ensures Routes(topic, [42]) <==> !([42, 47] <= topic)
  {
    StarThenMore(topic);
    SplitNoSlash([42]);
    var t, p := Split(topic), [[42]];
    OneStep(t, p, START);
    hide Scan, Split;
    if t[0] == [42] {
      var c := Cursor(1, 1, 0, 0, false);
      assert Advance(t, p, START) == Continue(c);
      StopsAfterPattern(t, p, c);
    } else {
      RestIsTaken(t, p, Cursor(0, 1, 0, 0, true));
    }
  }

  /** Without a saved '*' nothing can follow the end of the pattern. */
  lemma StopsAfterPattern(t: seq<Text>, p: seq<Text>, c: Cursor)
    requires InRange(c, |t|, |p|) && !c.backtrack && c.p == |p|
    ensures Scan(t, p, c) <==> c.t == |t|
  {
  }

  /** A saved last '*' takes level after level. */
  lemma {:induction false} RestIsTaken(t: seq<Text>, p: seq<Text>, c: Cursor)
    requires InRange(c, |t|, |p|) && c.backtrack && c.p == |p| && c.pBack + 1 == |p| && c.t == c.tBack
    ensures Scan(t, p, c)
    decreases |t| - c.t
  {
    if c.t < |t| {
      RestIsTaken(t, p, Cursor(c.t + 1, c.p, c.t + 1, c.pBack, true));
    }
  }
}
