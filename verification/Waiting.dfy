/** How long a client that has something to say may have to wait: an entry is passed over only
    when one before it goes, and new connections go to the end of the list. */
module Waiting {
  import opened Machine
  import opened Rounds

  /** The place of a descriptor in the poll list, or -1. */
  ghost predicate Stands(s: State, i: nat, fd: int) {
    FIXED <= i < |s.polls| && s.polls[i] == fd
  }

  /** What one event does to the poll list. */
  lemma EventMoves(s: State, e: Event)
    requires Enabled(s, e)
    ensures
      var p := Step(s, e).polls;
      || (!Throws(s, e) && s.polls <= p)
      || ((e.Ask? || e.Hangup?) && FIXED <= e.index < |s.polls| && p == Without(s.polls, e.index))
  {
    hide Broadcast, OpOf;
  }

  /** Where a descriptor and the one that was just before it stand in the middle of a scan: still
      side by side, or the other one is gone and the descriptor has moved up. */
  ghost predicate Progressed(s: State, fd: int, before: int, i: nat, gone: bool, at: nat) {
    && Stands(s, at, fd)
    && (if gone then at < i else at <= i && s.polls[at - 1] == before)
  }

  lemma OneEventOn(io: Sockets, s: State, e: Event, fd: int, before: int, i: nat, gone: bool, at: nat)
    returns (gone': bool, at': nat)
    requires TablesAgree(s) && Enabled(s, e) && Progressed(s, fd, before, i, gone, at)
    requires Subject(io, s, e) != fd
    ensures Progressed(Step(s, e), fd, before, i, gone', at')
    ensures gone' <== gone || (Throws(s, e) && Subject(io, s, e) == before)
  {
    EventMoves(s, e);
    gone', at' := gone, at;
    var p := Step(s, e).polls;
    if !(!Throws(s, e) && s.polls <= p) {
      var index := e.index;
      assert Subject(io, s, e) == s.polls[index] && index != at;
      if index < at {
        at' := at - 1;
        gone' := gone || index == at - 1;
        assert p[at'] == s.polls[at];
      } else {
        assert p[at] == s.polls[at] && p[at - 1] == s.polls[at - 1];
      }
      if Throws(s, e) && Subject(io, s, e) == before && !gone {
        assert s.polls[index] == s.polls[at - 1];
        assert index == at - 1;
      }
    }
  }

  /** A descriptor that is not handled since the n-th event keeps its place or moves up, and moves
      up for certain if the one before it was closed on request. */
  lemma {:induction false} Moves(io: Sockets, es: seq<Event>, n: nat, fd: int, before: int, i: nat)
    returns (gone: bool, at: nat)
    requires ThreeApart(io) && Legal(Start(io), es) && n <= |es| && Legal(Start(io), es[..n])
    requires Stands(After(Start(io), es[..n]), i, fd) && After(Start(io), es[..n]).polls[i - 1] == before
    requires fd !in Handled(io, es, n)
    ensures Progressed(After(Start(io), es), fd, before, i, gone, at)
    ensures before in Thrown(io, es, n) ==> gone
    decreases |es|
  {
    if |es| == n {
      assert es[..n] == es;
      gone, at := false, i;
    } else {
      var earlier, e := es[..|es| - 1], es[|es| - 1];
      LastHandled(io, es, n);
      TablesAlwaysAgree(io.udp, io.listen, STDIN, earlier);
      hide Handled, Thrown, Legal, After, TablesAgree, Progressed, Subject, Throws, Step, Enabled, Stands;
      assert earlier[..n] == es[..n];
      gone, at := Moves(io, earlier, n, fd, before, i);
      gone, at := OneEventOn(io, After(Start(io), earlier), e, fd, before, i, gone, at);
    }
  }

  // ---------------------------------------------------------------- round after round

  /** Successive rounds of a running server, none of which stops it. */
  ghost predicate Chain(io: Sockets, rounds: seq<Round>, runs: seq<seq<Event>>) {
    && |runs| == |rounds| + 1
    && forall j | 0 <= j < |rounds| :: Goes(io, rounds[j], runs[j], runs[j + 1])
  }

  ghost predicate Goes(io: Sockets, r: Round, before: seq<Event>, es: seq<Event>) {
    OneRound(io, r, before, es) && !Stops(io, r, before)
  }

  /** Poll reports something for the descriptor. */
  predicate Calls(r: Round, fd: int) {
    fd in r.hangups || fd in r.readable
  }

  ghost predicate IsHandled(io: Sockets, before: seq<Event>, es: seq<Event>, fd: int) {
    Legal(Start(io), es) && |before| <= |es| && fd in Handled(io, es, |before|)
  }

  /** One round: the descriptor is handled, or it moves up. */
  lemma HandledOrCloser(io: Sockets, r: Round, before: seq<Event>, es: seq<Event>, fd: int, i: nat)
    returns (at: nat)
    requires ThreeApart(io) && Goes(io, r, before, es) && Calls(r, fd)
    requires Stands(After(Start(io), before), i, fd)
    ensures Legal(Start(io), es)
    ensures !IsHandled(io, before, es, fd) ==> i > FIXED && Stands(After(Start(io), es), at, fd) && at < i
  {
    at := 0;
    var s, n := After(Start(io), before), |before|;
    var polled := Polled(s.polls, r);
    if !IsHandled(io, before, es, fd) {
      TablesAlwaysAgree(io.udp, io.listen, STDIN, before);
      assert Distinct(s.polls);
      hide Legal, After, TablesAgree;
      RoundIsFair(io, r, es, n, polled, i);
      assert polled[i].fd == fd && Eventful(polled[i]);
      var g := s.polls[i - 1];
      assert polled[i - 1].fd == g;
      assert i > FIXED && g in Thrown(io, es, n);
      assert es[..n] == before;
      var gone;
      gone, at := Moves(io, es, n, fd, g, i);
    }
  }

  lemma ChainRest(io: Sockets, rounds: seq<Round>, runs: seq<seq<Event>>, fd: int)
    requires Chain(io, rounds, runs) && rounds != []
    requires forall k | 0 <= k < |rounds| :: Calls(rounds[k], fd)
    ensures Goes(io, rounds[0], runs[0], runs[1]) && Chain(io, rounds[1..], runs[1..])
    ensures forall k | 0 <= k < |rounds[1..]| :: Calls(rounds[1..][k], fd)
  {
    hide Goes, Calls;
    forall j | 0 <= j < |rounds[1..]| ensures Goes(io, rounds[1..][j], runs[1..][j], runs[1..][j + 1]) {
      assert Goes(io, rounds[j + 1], runs[j + 1], runs[j + 2]);
    }
  }

  /** Bounded waiting: a client entry at position i that has something to report in every round is
      handled within i - FIXED + 1 rounds, unless the server stops first. */
  lemma {:induction false} HandledInTime(io: Sockets, rounds: seq<Round>, runs: seq<seq<Event>>, fd: int, i: nat)
    returns (j: nat)
    requires ThreeApart(io) && Chain(io, rounds, runs)
    requires Legal(Start(io), runs[0]) && Stands(After(Start(io), runs[0]), i, fd)
    requires |rounds| > i - FIXED
    requires forall k | 0 <= k < |rounds| :: Calls(rounds[k], fd)
    ensures j <= i - FIXED && j < |rounds| && IsHandled(io, runs[j], runs[j + 1], fd)
    decreases i
  {
    ChainRest(io, rounds, runs, fd);
    assert |runs| == |rounds| + 1 && (i >= FIXED);
    hide Chain, Goes, Calls, Stands, IsHandled, Legal, After;
    var at := HandledOrCloser(io, rounds[0], runs[0], runs[1], fd, i);
    if IsHandled(io, runs[0], runs[1], fd) {
      j := 0;
    } else {
      var k := HandledInTime(io, rounds[1..], runs[1..], fd, at);
      j := k + 1;
    }
  }

  lemma ChainOneMore(io: Sockets, rounds: seq<Round>, r: Round, runs: seq<seq<Event>>, es: seq<Event>)
    requires Chain(io, rounds, runs) && Goes(io, r, runs[|rounds|], es)
    ensures |runs| == |rounds| + 1 && Chain(io, rounds + [r], runs + [es])
    ensures (runs + [es])[0] == runs[0] && (runs + [es])[|rounds| + 1] == es
  {
    hide Goes;
    var rounds', runs' := rounds + [r], runs + [es];
    forall j | 0 <= j < |rounds'| ensures Goes(io, rounds'[j], runs'[j], runs'[j + 1]) {
      if j < |rounds| {
        assert Goes(io, rounds[j], runs[j], runs[j + 1]);
      }
    }
  }

  lemma ServedLast(io: Sockets, rounds: seq<Round>, es: seq<Event>) returns (before: seq<Event>)
    requires Served(io, rounds, es, false) && rounds != []
    ensures Served(io, rounds[..|rounds| - 1], before, false)
    ensures Goes(io, rounds[|rounds| - 1], before, es)
  {
    var earlier, last := rounds[..|rounds| - 1], rounds[|rounds| - 1];
    before :| Served(io, earlier, before, false) && OneRound(io, last, before, es)
      && (false <==> Stops(io, last, before));
  }

  /** Every run the server makes without stopping is such a chain of rounds. */
  lemma {:induction false} RunsAreChains(io: Sockets, rounds: seq<Round>, es: seq<Event>)
    returns (runs: seq<seq<Event>>)
    requires Served(io, rounds, es, false)
    ensures |runs| == |rounds| + 1 && Chain(io, rounds, runs)
    ensures runs[0] == [] && runs[|rounds|] == es
    decreases |rounds|
  {
    hide Served, Goes, Chain;
    if rounds == [] {
      NoRounds(io, es);
      runs := [es];
    } else {
      var n := |rounds| - 1;
      var before := ServedLast(io, rounds, es);
      var firsts := RunsAreChains(io, rounds[..n], before);
      ChainOneMore(io, rounds[..n], rounds[n], firsts, es);
      assert rounds[..n] + [rounds[n]] == rounds;
      runs := firsts + [es];
    }
  }

  lemma NoRounds(io: Sockets, es: seq<Event>)
    requires Served(io, [], es, false)
    ensures es == [] && Chain(io, [], [es])
  {
  }
}
