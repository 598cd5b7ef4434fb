/** What a round answers to what poll reported and the clients sent, without the bookkeeping of the
    scan: which entry brings an event about, which event, and in which order. */
module Answers {
  import opened Machine
  import opened Rounds

  /** The event at a place of the run comes from the entry with that descriptor. */
  ghost predicate About(io: Sockets, es: seq<Event>, k: nat, fd: int) {
    && k < |es| && Legal(Start(io), es[..k]) && Enabled(After(Start(io), es[..k]), es[k])
    && match es[k]
       case Accept(_, _) => fd == io.listen
       case Datagram(_, _, _, _) => fd == io.udp
       case Ask(index, _) => fd == After(Start(io), es[..k]).polls[index]
       case Hangup(index) => fd == After(Start(io), es[..k]).polls[index]
  }

  /** It is an EXIT, or a CONNECT of a client that is connected: the server closes the connection. */
  ghost predicate ClosedBy(io: Sockets, es: seq<Event>, k: nat, fd: int) {
    && About(io, es, k, fd) && es[k].Ask?
    && var q := es[k].request;
       q.kind == 0 || (q.kind == 3 && IsOnline(After(Start(io), es[..k]), ClientId(q)))
  }

  /** From the n-th event on there is one of this kind. */
  ghost predicate SomeAbout(io: Sockets, es: seq<Event>, n: nat, fd: int) {
    exists k :: n <= k && About(io, es, k, fd)
  }

  ghost predicate SomeClosedBy(io: Sockets, es: seq<Event>, n: nat, fd: int) {
    exists k :: n <= k && ClosedBy(io, es, k, fd)
  }

  // ---------------------------------------------------------------- event by event

  lemma {:induction false} FaithfulAt(io: Sockets, es: seq<Event>, n: nat, r: Round, k: nat)
    requires Legal(Start(io), es) && n <= k < |es| && Faithful(io, es, n, r)
    ensures Legal(Start(io), es[..k]) && Enabled(After(Start(io), es[..k]), es[k])
    ensures Reports(After(Start(io), es[..k]), es[k], r)
    decreases |es|
  {
    hide Reports, Enabled, Step, Start;
    var last := |es| - 1;
    if k < last {
      FaithfulAt(io, es[..last], n, r, k);
      assert es[..last][..k] == es[..k];
    }
  }

  lemma AboutLast(io: Sockets, es: seq<Event>, n: nat) returns (fd: int, thrown: set<int>)
    requires Legal(Start(io), es) && n < |es|
    ensures
      var last := |es| - 1;
      && Legal(Start(io), es[..last])
      && Handled(io, es, n) == Handled(io, es[..last], n) + [fd] && About(io, es, last, fd)
      && Thrown(io, es, n) == Thrown(io, es[..last], n) + thrown
    ensures forall f :: f in thrown <==> ClosedBy(io, es, |es| - 1, f)
  {
    LastHandled(io, es, n);
    var last := |es| - 1;
    var s, e := After(Start(io), es[..last]), es[last];
    hide Handled, Thrown, Legal, After, Enabled, Step, Start, IsOnline;
    fd := Subject(io, s, e);
    thrown := if Throws(s, e) then {fd} else {};
  }

  lemma {:induction false} HandledAt(io: Sockets, es: seq<Event>, n: nat, k: nat)
    requires Legal(Start(io), es) && n <= k < |es|
    ensures |Handled(io, es, n)| == |es| - n && About(io, es, k, Handled(io, es, n)[k - n])
    decreases |es|
  {
    hide Handled, Thrown, Legal, After, Start, About, ClosedBy;
    var last := |es| - 1;
    var earlier := es[..last];
    var fd, thrown := AboutLast(io, es, n);
    if n < last {
      HandledAt(io, earlier, n, if k < last then k else n);
      if k < last {
        AboutEarlier(io, es, last, k, Handled(io, earlier, n)[k - n]);
      }
    } else {
      NoneHandled(io, earlier);
    }
  }

  lemma NoneHandled(io: Sockets, es: seq<Event>)
    requires Legal(Start(io), es)
    ensures Handled(io, es, |es|) == [] && Thrown(io, es, |es|) == {}
  {
  }

  lemma AboutEarlier(io: Sockets, es: seq<Event>, m: nat, k: nat, fd: int)
    requires k < m <= |es|
    ensures About(io, es[..m], k, fd) <==> About(io, es, k, fd)
    ensures ClosedBy(io, es[..m], k, fd) <==> ClosedBy(io, es, k, fd)
  {
    assert es[..m][..k] == es[..k] && es[..m][k] == es[k];
    hide Legal, After, Enabled, Start, IsOnline;
  }

  lemma {:induction false} ThrownExactly(io: Sockets, es: seq<Event>, n: nat, fd: int)
    requires Legal(Start(io), es) && n <= |es|
    ensures fd in Thrown(io, es, n) <==> SomeClosedBy(io, es, n, fd)
    decreases |es|
  {
    hide Handled, Thrown, Legal, After, Start, About, ClosedBy;
    if n == |es| {
      NoneHandled(io, es);
      assert forall k :: n <= k ==> !ClosedBy(io, es, k, fd) by {
        forall k: nat | n <= k ensures !ClosedBy(io, es, k, fd) {
          NotAfterEnd(io, es, k, fd);
        }
      }
    } else {
      var last := |es| - 1;
      var f, thrown := AboutLast(io, es, n);
      ThrownExactly(io, es[..last], n, fd);
      forall k: nat | k < last ensures ClosedBy(io, es[..last], k, fd) <==> ClosedBy(io, es, k, fd) {
        AboutEarlier(io, es, last, k, fd);
      }
      forall k: nat | k >= last ensures !ClosedBy(io, es[..last], k, fd) {
        NotAfterEnd(io, es[..last], k, fd);
      }
      forall k: nat | k > last ensures !ClosedBy(io, es, k, fd) {
        NotAfterEnd(io, es, k, fd);
      }
    }
  }

  lemma NotAfterEnd(io: Sockets, es: seq<Event>, k: nat, fd: int)
    requires |es| <= k
    ensures !About(io, es, k, fd) && !ClosedBy(io, es, k, fd)
  {
  }

  /** The descriptors handled are those the events are about, one after the other. */
  lemma HandledExactly(io: Sockets, es: seq<Event>, n: nat, fd: int)
    requires Legal(Start(io), es) && n <= |es|
    ensures fd in Handled(io, es, n) <==> SomeAbout(io, es, n, fd)
  {
    hide Legal, After, Start;
    var h := Handled(io, es, n);
    if n == |es| {
      NoneHandled(io, es);
    } else {
      HandledAt(io, es, n, n);
    }
    hide Handled;
    if fd in h {
      var x :| 0 <= x < |h| && h[x] == fd;
      HandledAt(io, es, n, n + x);
      assert About(io, es, n + x, fd);
    }
    if k :| n <= k && About(io, es, k, fd) {
      HandledAt(io, es, n, k);
      OneDescriptor(io, es, k, fd, h[k - n]);
    }
  }

  lemma OneDescriptor(io: Sockets, es: seq<Event>, k: nat, f: int, g: int)
    requires About(io, es, k, f) && About(io, es, k, g)
    ensures f == g
  {
  }

  // ---------------------------------------------------------------- the answers of a round

  /** The descriptors of the poll list after a run. */
  ghost predicate Listed(io: Sockets, es: seq<Event>, polls: seq<int>) {
    Legal(Start(io), es) && After(Start(io), es).polls == polls
  }

  /** The console says exit. */
  predicate SaysExit(r: Round) {
    0 in r.readable && 0 !in r.hangups && r.line == [[101, 120, 105, 116]]
  }

  lemma ListedTables(io: Sockets, before: seq<Event>, polls: seq<int>)
    requires ThreeApart(io) && Listed(io, before, polls)
    ensures 3 <= |polls| && polls[0] == io.udp && polls[1] == io.listen && polls[2] == 0
    ensures Distinct(polls)
  {
    TablesAlwaysAgree(io.udp, io.listen, STDIN, before);
    hide Legal, After;
    assert polls[0] == polls[..3][0] && polls[1] == polls[..3][1] && polls[2] == polls[..3][2];
  }

  lemma ExitsIs(polls: seq<int>, r: Round)
    requires 3 <= |polls| && polls[2] == 0
    ensures Exits(Polled(polls, r), r) <==> SaysExit(r)
  {
    assert Polled(polls, r)[2] == PollFd(0, 0 in r.hangups, 0 in r.readable);
  }

  /** The server stops in a round exactly if the console is readable, has no error, and its line is the
      one word "exit". */
  lemma StopsExactlyIff(io: Sockets, r: Round, before: seq<Event>)
    requires ThreeApart(io) && Legal(Start(io), before)
    ensures Stops(io, r, before) <==> 0 in r.readable && 0 !in r.hangups && r.line == [[101, 120, 105, 116]]
  {
    var polls := After(Start(io), before).polls;
    ListedTables(io, before, polls);
    ExitsIs(polls, r);
  }

  /** A round can be any: only the datagram with its sender has the sizes recvfrom can return. */
  lemma FeasibleExactlyIff(r: Round)
    ensures Feasible(r) <==> |r.ip| == 4 && |r.port| == 2 && |r.data| <= 2999 && |r.data| + |r.residue| >= 50
  {
  }

  /** The events of a round, one after the other, are those of the entries that get their turn. */
  lemma RoundTurns(io: Sockets, r: Round, before: seq<Event>, es: seq<Event>, polls: seq<int>)
    returns (done: nat, thrown: set<int>)
    requires OneRound(io, r, before, es) && Listed(io, before, polls)
    ensures Legal(Start(io), es) && |before| <= |es|
    ensures done == if Exits(Polled(polls, r), r) then 2 else |polls|
    ensures done <= |polls| && thrown == Thrown(io, es, |before|)
    ensures Handled(io, es, |before|) == Turns(Polled(polls, r), done, thrown)
  {
    done := if Exits(Polled(polls, r), r) then 2 else |polls|;
    hide Legal, After, Start, Faithful, Handled, Thrown, Turns;
    thrown := Thrown(io, es, |before|);
  }

  /** Which entries bring an event about. The datagram socket and the listening socket: if they are
      readable without an error. A client entry: if poll reported anything for it, unless the entry just
      before it was closed because of a request, or the server stops. */
  lemma EntryAnswered(io: Sockets, r: Round, before: seq<Event>, es: seq<Event>, polls: seq<int>, i: nat)
    requires ThreeApart(io) && OneRound(io, r, before, es) && Listed(io, before, polls) && i < |polls|
    ensures 3 <= |polls| && polls[0] == io.udp && polls[1] == io.listen && polls[2] == 0
    ensures SomeAbout(io, es, |before|, polls[i]) <==>
      if i < 2 then polls[i] in r.readable && polls[i] !in r.hangups
      else
        && i > 2 && !SaysExit(r) && (polls[i] in r.readable || polls[i] in r.hangups)
        && (i > 3 ==> !SomeClosedBy(io, es, |before|, polls[i - 1]))
  {
    hide OneRound, Legal, After, Start, Listed, Handled, Thrown, SomeAbout, SomeClosedBy, Turns, Exits, SaysExit;
    ListedTables(io, before, polls);
    ExitsIs(polls, r);
    var done, thrown := RoundTurns(io, r, before, es, polls);
    var polled := Polled(polls, r);
    TurnsExactlyIff(polled, done, thrown, i);
    HandledExactly(io, es, |before|, polls[i]);
    assert polled[i] == PollFd(polls[i], polls[i] in r.hangups, polls[i] in r.readable);
    if i > 3 {
      assert polled[i - 1].fd == polls[i - 1];
      ThrownExactly(io, es, |before|, polls[i - 1]);
    }
  }

  /** What the event is: the datagram, the connection, or what was read from the client. */
  lemma AnswerIs(io: Sockets, r: Round, before: seq<Event>, es: seq<Event>, k: nat)
    requires OneRound(io, r, before, es) && |before| <= k < |es|
    ensures Legal(Start(io), es[..k])
    ensures es[k].Datagram? ==> es[k] == Datagram(r.ip, r.port, r.data, r.residue)
    ensures es[k].Accept? ==>
      es[k].address == r.address && (r.conn !in After(Start(io), es[..k]).polls ==> es[k].fd == r.conn)
    ensures es[k].Ask? || es[k].Hangup? ==>
      var polls, index := After(Start(io), es[..k]).polls, es[k].index;
      && 3 <= index < |polls|
      && es[k] == if polls[index] !in r.hangups && polls[index] in r.inbox && r.inbox[polls[index]].Got?
           then Ask(index, r.inbox[polls[index]].request) else Hangup(index)
  {
    FaithfulAt(io, es, |before|, r, k);
    hide Legal, After, Start, Faithful, Handled, Thrown;
  }

  lemma PolledInOrder(polls: seq<int>, r: Round, done: nat, thrown: set<int>, x: nat, y: nat)
    returns (a: nat, b: nat)
    requires done <= |polls| && x < y < |Turns(Polled(polls, r), done, thrown)|
    ensures a < b < |polls|
    ensures Turns(Polled(polls, r), done, thrown)[x] == polls[a] && Turns(Polled(polls, r), done, thrown)[y] == polls[b]
  {
    a, b := TurnsInOrder(Polled(polls, r), done, thrown, x, y);
  }

  /** The events come in the order of the list, and none of them is about an entry that was not polled. */
  lemma AnswersInOrder(io: Sockets, r: Round, before: seq<Event>, es: seq<Event>, polls: seq<int>, j: nat, k: nat)
    returns (a: nat, b: nat)
    requires OneRound(io, r, before, es) && Listed(io, before, polls) && |before| <= j < k < |es|
    ensures a < b < |polls| && About(io, es, j, polls[a]) && About(io, es, k, polls[b])
  {
    hide OneRound, Listed, Legal, After, Start, Handled, About, Turns, Polled, Exits;
    var done, thrown := RoundTurns(io, r, before, es, polls);
    HandledAt(io, es, |before|, j);
    HandledAt(io, es, |before|, k);
    a, b := PolledInOrder(polls, r, done, thrown, j - |before|, k - |before|);
  }

  /** No entry brings two events about. */
  lemma OneAnswer(io: Sockets, r: Round, before: seq<Event>, es: seq<Event>, polls: seq<int>, j: nat, k: nat, fd: int)
    requires ThreeApart(io) && OneRound(io, r, before, es) && Listed(io, before, polls)
    requires |before| <= j < |es| && |before| <= k < |es| && About(io, es, j, fd) && About(io, es, k, fd)
    ensures j == k
  {
    hide OneRound, Listed, About;
    if j != k {
      ListedTables(io, before, polls);
      var first, second := if j < k then j else k, if j < k then k else j;
      var a, b := AnswersInOrder(io, r, before, es, polls, first, second);
      OneDescriptor(io, es, first, fd, polls[a]);
      OneDescriptor(io, es, second, fd, polls[b]);
    }
  }

  /** A client that sent a whole request and is not passed over has it answered, once, and nothing
      else happens to its entry in the round. */
  lemma RequestAnswered(io: Sockets, r: Round, before: seq<Event>, es: seq<Event>, polls: seq<int>, i: nat, q: Request)
    returns (k: nat)
    requires ThreeApart(io) && OneRound(io, r, before, es) && Listed(io, before, polls) && 3 <= i < |polls|
    requires !SaysExit(r) && (i > 3 ==> !SomeClosedBy(io, es, |before|, polls[i - 1]))
    requires polls[i] in r.readable && polls[i] !in r.hangups && polls[i] in r.inbox && r.inbox[polls[i]] == Got(q)
    ensures |before| <= k < |es| && About(io, es, k, polls[i])
    ensures es[k].Ask? && es[k].request == q
    ensures forall j | |before| <= j < |es| && About(io, es, j, polls[i]) :: j == k
  {
    hide OneRound, Legal, After, Start, SomeClosedBy, Listed, SaysExit;
    ListedTables(io, before, polls);
    EntryAnswered(io, r, before, es, polls, i);
    k :| |before| <= k && About(io, es, k, polls[i]);
    assert k < |es|;
    AnswerIs(io, r, before, es, k);
    ClientAnswer(io, es, k, polls[i]);
    forall j: nat | |before| <= j < |es| && About(io, es, j, polls[i]) ensures j == k {
      OneAnswer(io, r, before, es, polls, j, k, polls[i]);
    }
  }

  lemma ClientAnswer(io: Sockets, es: seq<Event>, k: nat, fd: int)
    requires About(io, es, k, fd) && fd != io.udp && fd != io.listen
    ensures es[k].Ask? || es[k].Hangup?
    ensures fd == After(Start(io), es[..k]).polls[es[k].index]
  {
  }
}
