/** The splitting of topics and patterns into levels (server.cpp:19-35). */
module Segments {
  import opened Bytes

  const SLASH: Byte := 47

  /** The levels of a '/'-separated text. */
  function Split(s: Text): (parts: seq<Text>)
    ensures |parts| >= 1
    decreases |s|
  {
    var end := Find(s, 0);
    if end == |s| then [s] else [s[..end]] + Split(s[end + 1..])
  }

  predicate ClearOf(s: Text, start: nat, end: nat)
    requires start <= end <= |s|
  {
    forall i | start <= i < end :: s[i] != SLASH
  }

  /** The first slash at or after start, or the length when there is none. */
  function Find(s: Text, start: nat): (end: nat)
    requires start <= |s|
    ensures start <= end <= |s| && ClearOf(s, start, end)
    ensures end < |s| ==> s[end] == SLASH
    decreases |s| - start
  {
    if start == |s| || s[start] == SLASH then start else Find(s, start + 1)
  }

  function Join(parts: seq<Text>): Text
    requires |parts| >= 1
  {
    if |parts| == 1 then parts[0] else parts[0] + [SLASH] + Join(parts[1..])
  }

  function Slashes(s: Text): nat {
    if s == [] then 0 else (if s[0] == SLASH then 1 else 0) + Slashes(s[1..])
  }

  ghost predicate SlashFree(parts: seq<Text>) {
    forall i | 0 <= i < |parts| :: SLASH !in parts[i]
  }

  lemma {:induction false} FindFromStart(s: Text, start: nat, end: nat)
    requires start <= end <= |s| && ClearOf(s, start, end)
    requires end < |s| ==> s[end] == SLASH
    ensures Find(s, start) == end
    decreases end - start
  {
    if start < end {
      FindFromStart(s, start + 1, end);
    }
  }

  lemma {:induction false} SlashesUpTo(s: Text, end: nat)
    requires end <= |s| && ClearOf(s, 0, end)
    ensures Slashes(s) == Slashes(s[end..])
    decreases end
  {
    if end == 0 {
      assert s[end..] == s;
    } else {
      assert s[0] != SLASH;
      forall i | 0 <= i < end - 1 ensures s[1..][i] != SLASH {
        assert s[1..][i] == s[i + 1];
      }
      SlashesUpTo(s[1..], end - 1);
      assert s[1..][end - 1..] == s[end..];
    }
  }

  lemma JoinFirst(a: Text, parts: seq<Text>)
    requires |parts| >= 1
    ensures Join([a] + parts) == a + [SLASH] + Join(parts)
  {
    assert ([a] + parts)[1..] == parts;
  }

  lemma SlashFreeFirst(a: Text, parts: seq<Text>)
    requires SLASH !in a && SlashFree(parts)
    ensures SlashFree([a] + parts)
  {
  }

  lemma Pieces(s: Text, end: nat)
    requires end < |s|
    ensures s == s[..end] + [s[end]] + s[end + 1..]
  {
  }

  /** The first slash cuts a text into its first level and the rest. */
  lemma FirstCut(s: Text)
    ensures
      var end := Find(s, 0);
      && SLASH !in s[..end]
      && (end < |s| ==> s == s[..end] + [SLASH] + s[end + 1..])
      && Split(s) == if end == |s| then [s] else [s[..end]] + Split(s[end + 1..])
  {
    var end := Find(s, 0);
    hide Find, Slashes;
    if end < |s| {
      Pieces(s, end);
    }
  }

  lemma SlashesAfterCut(s: Text)
    ensures
      var end := Find(s, 0);
      Slashes(s) == if end == |s| then 0 else 1 + Slashes(s[end + 1..])
  {
    var end := Find(s, 0);
    SlashesUpTo(s, end);
    hide Find, Split;
    var tail := s[end..];
    if end < |s| {
      assert tail[0] == SLASH && tail[1..] == s[end + 1..];
    } else {
      assert tail == [];
    }
  }

  /** Splitting loses nothing: joining the levels gives the text back, no level holds a
      slash, and there is one level more than there are slashes. */
  lemma {:induction false} SplitThenJoin(s: Text)
    ensures Join(Split(s)) == s
    ensures SlashFree(Split(s))
    ensures |Split(s)| == Slashes(s) + 1
    decreases |s|
  {
    var end := Find(s, 0);
    FirstCut(s);
    SlashesAfterCut(s);
    hide Find, Split, Slashes;
    if end < |s| {
      var a, rest := s[..end], s[end + 1..];
      SplitThenJoin(rest);
      JoinFirst(a, Split(rest));
      SlashFreeFirst(a, Split(rest));
    } else {
      assert s[..end] == s;
    }
  }

  lemma SplitAtSlash(a: Text, rest: Text)
    requires SLASH !in a
    ensures Split(a + [SLASH] + rest) == [a] + Split(rest)
  {
    var s := a + [SLASH] + rest;
    FindFromStart(s, 0, |a|);
    assert s[..|a|] == a && s[|a| + 1..] == rest;
  }

  lemma SplitNoSlash(a: Text)
    requires SLASH !in a
    ensures Split(a) == [a]
  {
    FindFromStart(a, 0, |a|);
  }

  /** Joining and splitting again gives the levels back, so a slash-free list of levels with
      a given text is unique. */
  lemma {:induction false} JoinThenSplit(parts: seq<Text>)
    requires |parts| >= 1
    requires SlashFree(parts)
    ensures Split(Join(parts)) == parts
    decreases |parts|
  {
    if |parts| > 1 {
      JoinThenSplit(parts[1..]);
      SplitAtSlash(parts[0], Join(parts[1..]));
      assert parts == [parts[0]] + parts[1..];
    } else {
      SplitNoSlash(parts[0]);
      assert parts == [parts[0]];
    }
  }

  /** The splitting loop of server.cpp:19-35. */
  method SplitLoop(s: Text) returns (parts: seq<Text>)
    ensures parts == Split(s)
  {
    hide Split, Find;
    parts := [];
    var start: nat := 0;
    var end := FindSlash(s, start);
    assert s[0..] == s && [] + Split(s) == Split(s);
    while end < |s|
      invariant start <= end <= |s|
      invariant end == Find(s, start)
      invariant parts + Split(s[start..]) == Split(s)
      decreases |s| - start
    {
      SplitStep(s, start);
      Regroup(parts, s[start..end], Split(s[end + 1..]));
      parts := parts + [s[start..end]];
      start := end + 1;
      end := FindSlash(s, start);
    }
    SplitStep(s, start);
    parts := parts + [s[start..]];
  }

  lemma Regroup(done: seq<Text>, part: Text, rest: seq<Text>)
    ensures done + ([part] + rest) == done + [part] + rest
  {
  }

  lemma SplitStep(s: Text, start: nat)
    requires start <= |s|
    ensures
      var end := Find(s, start);
      Split(s[start..]) ==
        if end < |s| then [s[start..end]] + Split(s[end + 1..]) else [s[start..]]
  {
    var end := Find(s, start);
    var tail := s[start..];
    var n := end - start;
    forall i | 0 <= i < n ensures tail[i] != SLASH {
      assert tail[i] == s[start + i];
    }
    FindFromStart(tail, 0, n);
    if end < |s| {
      assert tail[n + 1..] == s[end + 1..];
      assert tail[..n] == s[start..end];
    }
  }

  /** std::string::find for the delimiter. */
  method FindSlash(s: Text, start: nat) returns (end: nat)
    requires start <= |s|
    ensures end == Find(s, start)
  {
    end := start;
    while end < |s| && s[end] != SLASH
      invariant start <= end <= |s| && ClearOf(s, start, end)
    {
      end := end + 1;
    }
    FindFromStart(s, start, end);
  }
}
