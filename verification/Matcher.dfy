/** The wildcard matcher (server.cpp:14-81): an iterative scan that remembers only the last
    '*' it passed, against the definition that tries every expansion of every '*'. */
module Matcher {
  import opened Bytes
  import Segments

  const PLUS: Text := [43]
  const STAR: Text := [42]

  // ---------------------------------------------------------------- the meaning of a pattern

  /** The levels one pattern level can stand for. */
  ghost predicate Covers(piece: seq<Text>, level: Text) {
    if level == STAR then true
    else if level == PLUS then |piece| == 1
    else piece == [level]
  }

  ghost function Concat(pieces: seq<seq<Text>>): seq<Text> {
    if pieces == [] then [] else pieces[0] + Concat(pieces[1..])
  }

  ghost predicate Cuts(t: seq<Text>, p: seq<Text>, pieces: seq<seq<Text>>) {
    && |pieces| == |p|
    && Concat(pieces) == t
    && forall j | 0 <= j < |p| :: Covers(pieces[j], p[j])
  }

  /** A topic matches when it can be cut into one piece for each pattern level. */
  ghost predicate Matches(t: seq<Text>, p: seq<Text>) {
    exists pieces :: Cuts(t, p, pieces)
  }

  /** The recursive matcher that tries every expansion of every '*': to no level, or to one
      level more. */
  ghost predicate MatchesFrom(t: seq<Text>, p: seq<Text>, i: nat, j: nat)
    requires i <= |t| && j <= |p|
    decreases |p| - j + |t| - i
  {
    if j == |p| then i == |t|
    else if p[j] == STAR then
      MatchesFrom(t, p, i, j + 1) || (i < |t| && MatchesFrom(t, p, i + 1, j))
    else i < |t| && (p[j] == PLUS || p[j] == t[i]) && MatchesFrom(t, p, i + 1, j + 1)
  }

  /** A '*' that takes more levels can also be entered earlier. */
  lemma {:induction false} StarEntersEarlier(t: seq<Text>, p: seq<Text>, i: nat, k: nat, j: nat)
    requires i <= k <= |t| && j < |p| && p[j] == STAR
    requires MatchesFrom(t, p, k, j)
    ensures MatchesFrom(t, p, i, j)
    decreases k - i
  {
    if i < k {
      StarEntersEarlier(t, p, i + 1, k, j);
    }
  }

  /** A match at a '*' leaves it at some later level. */
  lemma {:induction false} StarLeavesLater(t: seq<Text>, p: seq<Text>, i: nat, j: nat) returns (k: nat)
    requires i <= |t| && j < |p| && p[j] == STAR
    requires MatchesFrom(t, p, i, j)
    ensures i <= k <= |t| && MatchesFrom(t, p, k, j + 1)
    decreases |t| - i
  {
    if MatchesFrom(t, p, i, j + 1) {
      k := i;
    } else {
      k := StarLeavesLater(t, p, i + 1, j);
    }
  }

  lemma {:induction false} CutsToMatch(t: seq<Text>, p: seq<Text>, i: nat, j: nat, pieces: seq<seq<Text>>)
    requires i <= |t| && j <= |p|
    requires Cuts(t[i..], p[j..], pieces)
    ensures MatchesFrom(t, p, i, j)
    decreases |p| - j
  {
    if j < |p| {
      var k := i + |pieces[0]|;
      assert t[i..] == pieces[0] + Concat(pieces[1..]);
      assert t[k..] == t[i..][|pieces[0]|..] == Concat(pieces[1..]);
      assert p[j..][1..] == p[j + 1..];
      assert Covers(pieces[0], p[j..][0]);
      CutsToMatch(t, p, k, j + 1, pieces[1..]);
      if p[j] == STAR {
        assert MatchesFrom(t, p, k, j);
        StarEntersEarlier(t, p, i, k, j);
      } else {
        assert t[i] == t[i..][0] == pieces[0][0];
      }
    }
  }

  lemma {:induction false} MatchToCuts(t: seq<Text>, p: seq<Text>, i: nat, j: nat) returns (pieces: seq<seq<Text>>)
    requires i <= |t| && j <= |p|
    requires MatchesFrom(t, p, i, j)
    ensures Cuts(t[i..], p[j..], pieces)
    decreases |p| - j
  {
    if j == |p| {
      pieces := [];
    } else {
      var k: nat := i + 1;
      if p[j] == STAR {
        k := StarLeavesLater(t, p, i, j);
      }
      var rest := MatchToCuts(t, p, k, j + 1);
      pieces := [t[i..k]] + rest;
      assert pieces[1..] == rest;
      assert t[i..] == t[i..k] + t[k..];
      assert p[j..] == [p[j]] + p[j + 1..];
    }
  }

  /** Trying every expansion finds a match exactly when some cutting of the topic exists. */
  lemma RecursionIsCutting(t: seq<Text>, p: seq<Text>)
    ensures MatchesFrom(t, p, 0, 0) <==> Matches(t, p)
  {
    assert t[0..] == t && p[0..] == p;
    if MatchesFrom(t, p, 0, 0) {
      var pieces := MatchToCuts(t, p, 0, 0);
    }
    if Matches(t, p) {
      var pieces :| Cuts(t, p, pieces);
      CutsToMatch(t, p, 0, 0, pieces);
    }
  }

  // ---------------------------------------------------------------- the scan of the source

  /** The five variables of the loop. */
  datatype Cursor = Cursor(t: nat, p: nat, tBack: nat, pBack: nat, backtrack: bool)

  const START := Cursor(0, 0, 0, 0, false)

  predicate InRange(c: Cursor, n: nat, m: nat) {
    && c.tBack <= c.t <= n
    && c.p <= m
    && c.pBack <= c.p
    && (c.backtrack ==> c.pBack < m)
  }

  datatype Move = Continue(next: Cursor) | GiveUp

  /** One iteration of the loop, its cases in the order of the source: equality is tried
      before '*'. */
  function Advance(t: seq<Text>, p: seq<Text>, c: Cursor): (r: Move)
    requires InRange(c, |t|, |p|) && c.t < |t|
    ensures r.Continue? ==> InRange(r.next, |t|, |p|)
    ensures r.Continue? ==>
      r.next.tBack > c.tBack || (r.next.tBack == c.tBack && r.next.p > c.p)
  {
    if c.p < |p| && (p[c.p] == PLUS || p[c.p] == t[c.t]) then
      Continue(c.(t := c.t + 1, p := c.p + 1))
    else if c.p < |p| && p[c.p] == STAR then
      Continue(Cursor(c.t, c.p + 1, c.t, c.p, true))
    else if c.backtrack && c.pBack < |p| then
      Continue(c.(t := c.tBack + 1, p := c.pBack + 1, tBack := c.tBack + 1))
    else
      GiveUp
  }

  predicate StarsFrom(p: seq<Text>, j: nat)
    requires j <= |p|
  {
    forall k | j <= k < |p| :: p[k] == STAR
  }

  /** What the loop answers when it is entered with the given variables. */
  function Scan(t: seq<Text>, p: seq<Text>, c: Cursor): bool
    requires InRange(c, |t|, |p|)
    decreases |t| - c.tBack, |p| - c.p
  {
    if c.t == |t| then StarsFrom(p, c.p)
    else
      var move := Advance(t, p, c);
      move.Continue? && Scan(t, p, move.next)
  }

  function Verdict(t: seq<Text>, p: seq<Text>): bool {
    Scan(t, p, START)
  }

  predicate NoStar(s: seq<Text>) {
    forall k | 0 <= k < |s| :: s[k] != STAR
  }

  // ---------------------------------------------------------------- soundness

  /** What a cursor may still use without leaving the pattern's meaning: the match from here,
      and the matches that start at the last '*'. */
  ghost predicate Honest(t: seq<Text>, p: seq<Text>, c: Cursor)
    requires InRange(c, |t|, |p|)
  {
    && (MatchesFrom(t, p, c.t, c.p) ==> MatchesFrom(t, p, 0, 0))
    && (c.backtrack ==>
          && p[c.pBack] == STAR
          && (MatchesFrom(t, p, c.tBack, c.pBack) ==> MatchesFrom(t, p, 0, 0)))
  }

  lemma {:induction false} TailOfStars(t: seq<Text>, p: seq<Text>, j: nat)
    requires j <= |p|
    ensures MatchesFrom(t, p, |t|, j) <==> StarsFrom(p, j)
    decreases |p| - j
  {
    if j < |p| {
      TailOfStars(t, p, j + 1);
    }
  }

  lemma StepIsHonest(t: seq<Text>, p: seq<Text>, c: Cursor)
    requires InRange(c, |t|, |p|) && c.t < |t|
    requires Advance(t, p, c).Continue?
    requires Honest(t, p, c)
    ensures Honest(t, p, Advance(t, p, c).next)
  {
    if c.p < |p| && (p[c.p] == PLUS || p[c.p] == t[c.t]) {
      if MatchesFrom(t, p, c.t + 1, c.p + 1) {
        // a "*" level met by a '*' is the expansion to one level
        assert p[c.p] == STAR ==> MatchesFrom(t, p, c.t + 1, c.p);
        assert MatchesFrom(t, p, c.t, c.p);
      }
    } else if c.p < |p| && p[c.p] == STAR {
    } else {
      var i, j := c.tBack, c.pBack;
      if MatchesFrom(t, p, i + 1, j + 1) || MatchesFrom(t, p, i + 1, j) {
        assert MatchesFrom(t, p, i + 1, j);
        assert MatchesFrom(t, p, i, j);
      }
    }
  }

  lemma {:induction false} ScanSound(t: seq<Text>, p: seq<Text>, c: Cursor)
    requires InRange(c, |t|, |p|)
    requires Honest(t, p, c)
    requires Scan(t, p, c)
    ensures MatchesFrom(t, p, 0, 0)
    decreases |t| - c.tBack, |p| - c.p
  {
    if c.t == |t| {
      TailOfStars(t, p, c.p);
    } else {
      StepIsHonest(t, p, c);
      ScanSound(t, p, Advance(t, p, c).next);
    }
  }

  /** A true answer is right, for every topic and pattern. */
  lemma VerdictSound(t: seq<Text>, p: seq<Text>)
    requires Verdict(t, p)
    ensures Matches(t, p)
  {
    ScanSound(t, p, START);
    RecursionIsCutting(t, p);
  }

  // ---------------------------------------------------------------- completeness

  /** The levels since the last '*' were consumed one for one. */
  ghost predicate Aligned(t: seq<Text>, p: seq<Text>, c: Cursor)
    requires InRange(c, |t|, |p|)
  {
    c.backtrack ==>
      && c.pBack < c.p
      && p[c.pBack] == STAR
      && c.t - c.tBack == c.p - c.pBack - 1
      && forall k | c.pBack < k < c.p :: p[k] != STAR
  }

  /** Every match of the whole topic is still reachable from here: at the cursor, or by a
      longer expansion of the last '*'. */
  ghost predicate NothingLost(t: seq<Text>, p: seq<Text>, c: Cursor)
    requires InRange(c, |t|, |p|)
  {
    MatchesFrom(t, p, 0, 0) ==>
      || MatchesFrom(t, p, c.t, c.p)
      || (c.backtrack && c.tBack < |t| && MatchesFrom(t, p, c.tBack + 1, c.pBack))
  }

  /** A pattern stretch without '*' takes exactly one topic level for each of its levels. */
  lemma {:induction false} StarFreeStretch(t: seq<Text>, p: seq<Text>, i: nat, j: nat, j': nat)
    requires i <= |t| && j <= j' <= |p|
    requires forall k | j <= k < j' :: p[k] != STAR
    requires MatchesFrom(t, p, i, j)
    ensures i + (j' - j) <= |t| && MatchesFrom(t, p, i + (j' - j), j')
    decreases j' - j
  {
    if j < j' {
      StarFreeStretch(t, p, i + 1, j + 1, j');
    }
  }

  /** The exchange argument: once a further '*' is reached, any match through the earlier one
      can be had by expanding the later one, so the earlier one can be forgotten. */
  lemma LaterStarSuffices(t: seq<Text>, p: seq<Text>, c: Cursor)
    requires InRange(c, |t|, |p|) && Aligned(t, p, c)
    requires c.backtrack && c.p < |p| && p[c.p] == STAR
    requires c.tBack < |t| && MatchesFrom(t, p, c.tBack + 1, c.pBack)
    ensures MatchesFrom(t, p, c.t, c.p)
  {
    var k := StarLeavesLater(t, p, c.tBack + 1, c.pBack);
    StarFreeStretch(t, p, k, c.pBack + 1, c.p);
    StarEntersEarlier(t, p, c.t, k + (c.p - c.pBack - 1), c.p);
  }

  lemma StepStaysAligned(t: seq<Text>, p: seq<Text>, c: Cursor)
    requires InRange(c, |t|, |p|) && c.t < |t|
    requires NoStar(t) || NoStar(p)
    requires Aligned(t, p, c)
    ensures Advance(t, p, c).Continue? ==> Aligned(t, p, Advance(t, p, c).next)
  {
    if c.p < |p| && (p[c.p] == PLUS || p[c.p] == t[c.t]) {
      assert p[c.p] != STAR;
    }
  }

  lemma StepLosesNothing(t: seq<Text>, p: seq<Text>, c: Cursor)
    requires InRange(c, |t|, |p|) && c.t < |t|
    requires NoStar(t) || NoStar(p)
    requires Aligned(t, p, c) && NothingLost(t, p, c)
    ensures Advance(t, p, c).Continue? ==>
      var c' := Advance(t, p, c).next;
      Aligned(t, p, c') && NothingLost(t, p, c')
    ensures Advance(t, p, c).GiveUp? ==> !MatchesFrom(t, p, 0, 0)
  {
    StepStaysAligned(t, p, c);
    hide Aligned;
    if c.p < |p| && (p[c.p] == PLUS || p[c.p] == t[c.t]) {
      assert p[c.p] != STAR;
    } else if c.p < |p| && p[c.p] == STAR {
      if c.backtrack && c.tBack < |t| && MatchesFrom(t, p, c.tBack + 1, c.pBack) {
        LaterStarSuffices(t, p, c);
      }
    } else {
      assert !MatchesFrom(t, p, c.t, c.p);
    }
  }

  lemma {:induction false} ScanComplete(t: seq<Text>, p: seq<Text>, c: Cursor)
    requires InRange(c, |t|, |p|)
    requires NoStar(t) || NoStar(p)
    requires Aligned(t, p, c) && NothingLost(t, p, c)
    requires MatchesFrom(t, p, 0, 0)
    ensures Scan(t, p, c)
    decreases |t| - c.tBack, |p| - c.p
  {
    if c.t == |t| {
      if c.backtrack {
        // a longer expansion would leave too few levels for the stretch already matched
        if c.tBack < |t| && MatchesFrom(t, p, c.tBack + 1, c.pBack) {
          var k := StarLeavesLater(t, p, c.tBack + 1, c.pBack);
          StarFreeStretch(t, p, k, c.pBack + 1, c.p);
        }
      }
      TailOfStars(t, p, c.p);
    } else {
      StepLosesNothing(t, p, c);
      ScanComplete(t, p, Advance(t, p, c).next);
    }
  }

  /** The scan is exact as soon as the topic or the pattern holds no level "*". */
  lemma VerdictExact(t: seq<Text>, p: seq<Text>)
    requires NoStar(t) || NoStar(p)
    ensures Verdict(t, p) <==> Matches(t, p)
  {
    RecursionIsCutting(t, p);
    if Matches(t, p) {
      ScanComplete(t, p, START);
    } else if Verdict(t, p) {
      VerdictSound(t, p);
    }
  }

  // ---------------------------------------------------------------- where it fails

  /** Level by level the pattern is '+' or equal, as far as the topic goes. */
  ghost predicate InStep(t: seq<Text>, p: seq<Text>) {
    |t| <= |p| && forall k | 0 <= k < |t| :: p[k] == PLUS || p[k] == t[k]
  }

  /** Without a saved '*' the scan walks both lists in step. */
  lemma {:induction false} WalkInStep(t: seq<Text>, p: seq<Text>, c: Cursor)
    requires InRange(c, |t|, |p|) && !c.backtrack
    requires InStep(t[c.t..], p[c.p..])
    ensures Scan(t, p, c) == StarsFrom(p, c.p + (|t| - c.t))
    decreases |t| - c.t
  {
    if c.t < |t| {
      assert p[c.p] == p[c.p..][0] && t[c.t] == t[c.t..][0];
      assert t[c.t..][1..] == t[c.t + 1..] && p[c.p..][1..] == p[c.p + 1..];
      WalkInStep(t, p, c.(t := c.t + 1, p := c.p + 1));
    }
  }

  /** Over a stretch where both lists are equal, '*' included, the scan just moves on. */
  lemma {:induction false} WalkEqual(t: seq<Text>, p: seq<Text>, k: nat, upTo: nat)
    requires k <= upTo <= |t| && upTo <= |p|
    requires t[..upTo] == p[..upTo]
    ensures Scan(t, p, Cursor(k, k, 0, 0, false)) == Scan(t, p, Cursor(upTo, upTo, 0, 0, false))
    decreases upTo - k
  {
    if k < upTo {
      assert t[k] == t[..upTo][k] == p[k];
      WalkEqual(t, p, k + 1, upTo);
    }
  }

  /** With no '*' saved and none ahead, only equally long rests can match. */
  lemma {:induction false} StarFreeRest(t: seq<Text>, p: seq<Text>, c: Cursor)
    requires InRange(c, |t|, |p|) && !c.backtrack
    requires forall k | c.p <= k < |p| :: p[k] != STAR
    requires |t| - c.t != |p| - c.p
    ensures !Scan(t, p, c)
    decreases |p| - c.p
  {
    if c.t < |t| && c.p < |p| && (p[c.p] == PLUS || p[c.p] == t[c.t]) {
      StarFreeRest(t, p, c.(t := c.t + 1, p := c.p + 1));
    } else if c.t < |t| {
      assert Advance(t, p, c).GiveUp?;
    } else {
      assert p[c.p] != STAR;
    }
  }

  /** A pattern the scan wrongly rejects for a topic whose level i is "*". */
  function MissedPattern(t: seq<Text>, i: nat): seq<Text>
    requires i < |t|
  {
    t[..i] + [STAR] + seq(|t| - i, _ => PLUS)
  }

  /** A topic the scan wrongly rejects for a pattern whose last '*' is level j. */
  function MissedTopic(p: seq<Text>, j: nat): seq<Text>
    requires j < |p|
  {
    p[..j + 1] + [[]] + p[j + 1..]
  }

  /** From equal prefixes, a match of the rests is a match of the whole. */
  lemma {:induction false} EqualPrefixMatches(t: seq<Text>, p: seq<Text>, k: nat, upTo: nat)
    requires k <= upTo <= |t| && upTo <= |p|
    requires t[..upTo] == p[..upTo]
    requires MatchesFrom(t, p, upTo, upTo)
    ensures MatchesFrom(t, p, k, k)
    decreases upTo - k
  {
    if k < upTo {
      assert t[k] == t[..upTo][k] == p[k];
      EqualPrefixMatches(t, p, k + 1, upTo);
    }
  }

  /** Levels that are '+' or equal match one for one. */
  lemma {:induction false} MatchInStep(t: seq<Text>, p: seq<Text>, i: nat, j: nat)
    requires i <= |t| && j <= |p| && |t| - i == |p| - j
    requires InStep(t[i..], p[j..])
    requires forall k | j <= k < |p| :: p[k] != STAR
    ensures MatchesFrom(t, p, i, j)
    decreases |t| - i
  {
    if i < |t| {
      assert p[j] == p[j..][0] && t[i] == t[i..][0];
      assert t[i..][1..] == t[i + 1..] && p[j..][1..] == p[j + 1..];
      MatchInStep(t, p, i + 1, j + 1);
    }
  }

  lemma TopicMissesPattern(t: seq<Text>, i: nat)
    requires i < |t| && t[i] == STAR
    ensures Matches(t, MissedPattern(t, i))
    ensures !Verdict(t, MissedPattern(t, i))
  {
    var p := MissedPattern(t, i);
    assert t[..i] == p[..i];
    WalkInStep(t, p, START);
    assert p[|t|] == PLUS;
    MatchInStep(t, p, i, i + 1);
    assert MatchesFrom(t, p, i, i);
    EqualPrefixMatches(t, p, 0, i);
    RecursionIsCutting(t, p);
  }

  lemma PatternMissesTopic(p: seq<Text>, j: nat)
    requires j < |p| && p[j] == STAR
    requires forall k | j < k < |p| :: p[k] != STAR
    ensures Matches(MissedTopic(p, j), p)
    ensures !Verdict(MissedTopic(p, j), p)
  {
    var t := MissedTopic(p, j);
    assert t[..j + 1] == p[..j + 1];
    WalkEqual(t, p, 0, j + 1);
    StarFreeRest(t, p, Cursor(j + 1, j + 1, 0, 0, false));
    MatchInStep(t, p, j + 2, j + 1);
    assert MatchesFrom(t, p, j, j);
    assert t[..j] == p[..j];
    EqualPrefixMatches(t, p, 0, j);
    RecursionIsCutting(t, p);
  }

  lemma {:induction false} LastStar(p: seq<Text>) returns (j: nat)
    requires !NoStar(p)
    ensures j < |p| && p[j] == STAR && forall k | j < k < |p| :: p[k] != STAR
  {
    var n := |p| - 1;
    if p[n] == STAR {
      j := n;
    } else {
      j := LastStar(p[..n]);
    }
  }

  // ---------------------------------------------------------------- whole texts

  /** What topic_matches_pattern answers. */
  predicate Routes(topic: Text, pattern: Text) {
    Verdict(Segments.Split(topic), Segments.Split(pattern))
  }

  ghost predicate Means(topic: Text, pattern: Text) {
    Matches(Segments.Split(topic), Segments.Split(pattern))
  }

  predicate HasStarLevel(s: Text) {
    !NoStar(Segments.Split(s))
  }

  /** A topic is routed by the documented rules against every pattern if and only if none of
      its levels is the single character '*'. */
  lemma TopicRoutedExactlyIff(topic: Text)
    ensures (forall pattern :: Routes(topic, pattern) <==> Means(topic, pattern)) <==> !HasStarLevel(topic)
  {
    var t := Segments.Split(topic);
    if NoStar(t) {
      forall pattern ensures Routes(topic, pattern) <==> Means(topic, pattern) {
        VerdictExact(t, Segments.Split(pattern));
      }
    } else {
      var i :| 0 <= i < |t| && t[i] == STAR;
      TopicMissesPattern(t, i);
      var p := MissedPattern(t, i);
      Segments.SplitThenJoin(topic);
      Segments.JoinThenSplit(p);
      assert Routes(topic, Segments.Join(p)) != Means(topic, Segments.Join(p));
    }
  }

  /** A pattern is applied by the documented rules to every topic if and only if it holds no
      '*' level; what rescues the others is the topics they meet (TopicRoutedExactlyIff). */
  lemma PatternAppliedExactlyIff(pattern: Text)
    ensures (forall topic :: Routes(topic, pattern) <==> Means(topic, pattern)) <==> !HasStarLevel(pattern)
  {
    var p := Segments.Split(pattern);
    if NoStar(p) {
      forall topic ensures Routes(topic, pattern) <==> Means(topic, pattern) {
        VerdictExact(Segments.Split(topic), p);
      }
    } else {
      var j := LastStar(p);
      PatternMissesTopic(p, j);
      var t := MissedTopic(p, j);
      Segments.SplitThenJoin(pattern);
      Segments.JoinThenSplit(t);
      assert Routes(Segments.Join(t), pattern) != Means(Segments.Join(t), pattern);
    }
  }

  const SHORT_TOPIC: Text := [42, 47, 97, 47, 98]
  const SHORT_PATTERN: Text := [42, 47, 98]

  /** The two conditions speak of all strings. A topic and a pattern short enough to be received
      show the difference as well: the topic that reads star, a, b and the pattern star, b. */
  lemma ShortWitness()
    ensures Means(SHORT_TOPIC, SHORT_PATTERN) && !Routes(SHORT_TOPIC, SHORT_PATTERN)
  {
    var a, b: Text := [97], [98];
    var t, p := [STAR, a, b], [STAR, b];
    Segments.JoinThenSplit(t);
    Segments.JoinThenSplit(p);
    ShortJoins();
    var pieces := [[STAR, a], [b]];
    ConcatTwo([STAR, a], [b]);
    hide Segments.Split, Segments.Join, Concat;
    assert [STAR, a] + [b] == t;
    assert Cuts(t, p, pieces);
    assert Advance(t, p, Cursor(0, 0, 0, 0, false)) == Continue(Cursor(1, 1, 0, 0, false));
    assert Advance(t, p, Cursor(1, 1, 0, 0, false)) == GiveUp;
  }

  lemma ShortJoins()
    ensures
      var a, b: Text := [97], [98];
      && Segments.SlashFree([STAR, a, b]) && Segments.Join([STAR, a, b]) == SHORT_TOPIC
      && Segments.SlashFree([STAR, b]) && Segments.Join([STAR, b]) == SHORT_PATTERN
  {
    var a, b: Text := [97], [98];
    Segments.JoinFirst(a, [b]);
    Segments.JoinFirst(STAR, [a, b]);
    Segments.JoinFirst(STAR, [b]);
    assert [STAR] + [a, b] == [STAR, a, b] && [a] + [b] == [a, b] && [STAR] + [b] == [STAR, b];
  }

  /** A true answer is right whatever the topic holds. */
  lemma RoutesSound(topic: Text, pattern: Text)
    requires Routes(topic, pattern)
    ensures Means(topic, pattern)
  {
    VerdictSound(Segments.Split(topic), Segments.Split(pattern));
  }

  // ---------------------------------------------------------------- generalising patterns

  /** On topics without a "*" level, widening any level of a pattern to '*' loses no match. */
  lemma WideningKeepsMatches(t: seq<Text>, p: seq<Text>, j: nat)
    requires NoStar(t) && j < |p|
    requires Verdict(t, p)
    ensures Verdict(t, p[j := STAR])
  {
    VerdictExact(t, p);
    var pieces :| Cuts(t, p, pieces);
    assert Cuts(t, p[j := STAR], pieces);
    VerdictExact(t, p[j := STAR]);
  }

  lemma {:induction false} ConcatSplice(pre: seq<seq<Text>>, mid: seq<seq<Text>>, post: seq<seq<Text>>)
    ensures Concat(pre + mid + post) == Concat(pre) + Concat(mid) + Concat(post)
    decreases |pre| + |mid|
  {
    if pre != [] {
      ConcatSplice(pre[1..], mid, post);
      assert (pre + mid + post)[1..] == pre[1..] + mid + post;
    } else if mid != [] {
      ConcatSplice([], mid[1..], post);
      assert (pre + mid + post)[1..] == [] + mid[1..] + post;
    } else {
      assert pre + mid + post == post;
    }
  }

  lemma ConcatOne(x: seq<Text>)
    ensures Concat([x]) == x
  {
    assert Concat([x][1..]) == [];
  }

  lemma ConcatTwo(x: seq<Text>, y: seq<Text>)
    ensures Concat([x, y]) == x + y
  {
    ConcatOne(y);
    assert [x, y][1..] == [y];
  }

  lemma MergeStars(t: seq<Text>, pre: seq<Text>, post: seq<Text>)
    requires Matches(t, pre + [STAR, STAR] + post)
    ensures Matches(t, pre + [STAR] + post)
  {
    var two, one, n := pre + [STAR, STAR] + post, pre + [STAR] + post, |pre|;
    var a :| Cuts(t, two, a);
    var x, y := a[n], a[n + 1];
    var b := a[..n] + [x + y] + a[n + 2..];
    ConcatSplice(a[..n], [x, y], a[n + 2..]);
    ConcatSplice(a[..n], [x + y], a[n + 2..]);
    assert a == a[..n] + [x, y] + a[n + 2..];
    ConcatTwo(x, y);
    ConcatOne(x + y);
    forall k | 0 <= k < |one| ensures Covers(b[k], one[k]) {
      if k > n {
        assert one[k] == two[k + 1] && b[k] == a[k + 1];
      } else if k < n {
        assert one[k] == two[k] && b[k] == a[k];
      }
    }
    assert Cuts(t, one, b);
  }

  lemma DoubleStar(t: seq<Text>, pre: seq<Text>, post: seq<Text>)
    requires Matches(t, pre + [STAR] + post)
    ensures Matches(t, pre + [STAR, STAR] + post)
  {
    var two, one, n := pre + [STAR, STAR] + post, pre + [STAR] + post, |pre|;
    var a :| Cuts(t, one, a);
    var x, none: seq<Text> := a[n], [];
    var b := a[..n] + [x, none] + a[n + 1..];
    ConcatSplice(a[..n], [x, none], a[n + 1..]);
    ConcatSplice(a[..n], [x], a[n + 1..]);
    assert a == a[..n] + [x] + a[n + 1..];
    ConcatTwo(x, none);
    ConcatOne(x);
    forall k | 0 <= k < |two| ensures Covers(b[k], two[k]) {
      if k > n + 1 {
        assert two[k] == one[k - 1] && b[k] == a[k - 1];
      } else if k < n {
        assert two[k] == one[k] && b[k] == a[k];
      }
    }
    assert Cuts(t, two, b);
  }

  /** On the same topics two adjacent '*' levels say no more than one. */
  lemma AdjacentStarsCollapse(t: seq<Text>, pre: seq<Text>, post: seq<Text>)
    requires NoStar(t)
    ensures Verdict(t, pre + [STAR, STAR] + post) <==> Verdict(t, pre + [STAR] + post)
  {
    VerdictExact(t, pre + [STAR, STAR] + post);
    VerdictExact(t, pre + [STAR] + post);
    if Matches(t, pre + [STAR, STAR] + post) {
      MergeStars(t, pre, post);
    }
    if Matches(t, pre + [STAR] + post) {
      DoubleStar(t, pre, post);
    }
  }

  // ---------------------------------------------------------------- the loop

  /** Iterations still possible: one for each pattern level and each restart. */
  function Budget(n: nat, m: nat, c: Cursor): (r: int)
    requires InRange(c, n, m)
    ensures r >= 0
  {
    (n - c.tBack) * (m + 1) + (m - c.p)
  }

  /** The iterations of the main loop from given variables on. */
  function Iterations(t: seq<Text>, p: seq<Text>, c: Cursor): nat
    requires InRange(c, |t|, |p|)
    decreases |t| - c.tBack, |p| - c.p
  {
    if c.t == |t| then 0
    else
      var move := Advance(t, p, c);
      if move.GiveUp? then 0 else 1 + Iterations(t, p, move.next)
  }

  lemma {:induction false} RestartsPay(a: nat, b: nat, w: nat)
    requires b <= a
    ensures b < a ==> b * w + w <= a * w
    decreases a
  {
    if b < a {
      var d := a - b - 1;
      assert a == b + 1 + d;
      assert (b + 1 + d) * w == b * w + w + d * w;
      assert d * w >= 0;
    }
  }

  lemma {:induction false} IterationsWithinBudget(t: seq<Text>, p: seq<Text>, c: Cursor)
    requires InRange(c, |t|, |p|)
    ensures Iterations(t, p, c) <= Budget(|t|, |p|, c)
    decreases |t| - c.tBack, |p| - c.p
  {
    if c.t < |t| && Advance(t, p, c).Continue? {
      var c' := Advance(t, p, c).next;
      IterationsWithinBudget(t, p, c');
      RestartsPay(|t| - c.tBack, |t| - c'.tBack, |p| + 1);
    }
  }

  /** The main loop runs fewer than (n + 1) * (m + 1) times for n topic and m pattern levels. */
  lemma IterationsBounded(t: seq<Text>, p: seq<Text>)
    ensures Iterations(t, p, START) < (|t| + 1) * (|p| + 1)
  {
    IterationsWithinBudget(t, p, START);
  }

  /** server.cpp:37-80, counting the iterations of the main loop. */
  method MatchLoop(t: seq<Text>, p: seq<Text>) returns (r: bool, ghost iterations: nat)
    ensures r == Verdict(t, p)
    ensures iterations < (|t| + 1) * (|p| + 1)
  {
    IterationsBounded(t, p);
    var tIdx, pIdx, tBack, pBack, backtrack := 0, 0, 0, 0, false;
    iterations := 0;
    ghost var c := START;
    while tIdx < |t|
      invariant c == Cursor(tIdx, pIdx, tBack, pBack, backtrack)
      invariant InRange(c, |t|, |p|)
      invariant Scan(t, p, c) == Verdict(t, p)
      invariant iterations + Iterations(t, p, c) == Iterations(t, p, START)
      decreases |t| - tBack, |p| - pIdx
    {
      if pIdx < |p| && (p[pIdx] == PLUS || p[pIdx] == t[tIdx]) {
        tIdx, pIdx := tIdx + 1, pIdx + 1;
      } else if pIdx < |p| && p[pIdx] == STAR {
        tBack, pBack, pIdx, backtrack := tIdx, pIdx, pIdx + 1, true;
      } else if backtrack && pBack < |p| {
        tBack := tBack + 1;
        tIdx, pIdx := tBack, pBack + 1;
      } else {
        return false, iterations;
      }
      c := Cursor(tIdx, pIdx, tBack, pBack, backtrack);
      iterations := iterations + 1;
    }
    ghost var stop := pIdx;
    while pIdx < |p| && p[pIdx] == STAR
      invariant stop <= pIdx <= |p|
      invariant forall k | stop <= k < pIdx :: p[k] == STAR
    {
      pIdx := pIdx + 1;
    }
    r := tIdx == |t| && pIdx == |p|;
  }

  /** topic_matches_pattern. Its answer is sound for every topic and pattern, and exact when
      one of the two has no "*" level. */
  method TopicMatchesPattern(topic: Text, pattern: Text) returns (r: bool)
    ensures r == Routes(topic, pattern)
    ensures r ==> Means(topic, pattern)
    ensures !HasStarLevel(topic) || !HasStarLevel(pattern) ==> (r <==> Means(topic, pattern))
  {
    var t := Segments.SplitLoop(topic);
    var p := Segments.SplitLoop(pattern);
    ghost var iterations;
    r, iterations := MatchLoop(t, p);
    if r {
      RoutesSound(topic, pattern);
    } else if NoStar(t) || NoStar(p) {
      VerdictExact(t, p);
    }
  }
}
