/** Which behaviour keeps descriptors and sessions together. Descriptor numbers may be reused as
    the operating system likes; what matters is what each connection says and whether a
    hang-up finds the right record. The condition is exact, event by event and run by run. */
module Conduct {
  import opened Bytes
  import opened Broker
  import opened Machine
  import Order

  // ---------------------------------------------------------------- claims

  /** A connection that starts has claimed nothing; a CONNECT claims its id, accepted or not. */
  ghost function ClaimsAfter(s: State, claims: map<int, Text>, e: Event): map<int, Text>
    requires Enabled(s, e)
  {
    match e
    case Accept(fd, _) => claims - {fd}
    case Ask(index, r) => if r.kind == MESSAGE then claims[s.polls[index] := ClientId(r)] else claims
    case _ => claims
  }

  ghost function Claims(s: State, es: seq<Event>): map<int, Text>
    requires Legal(s, es)
  {
    if es == [] then map[]
    else
      var n := |es| - 1;
      ClaimsAfter(After(s, es[..n]), Claims(s, es[..n]), es[n])
  }

  // ---------------------------------------------------------------- harmless events

  /** A connection says CONNECT once; it says EXIT for the client it claimed, or, if it claimed
      none, for nobody who is connected. What it subscribes to and for whom does not matter. */
  ghost predicate Mannered(s: State, claims: map<int, Text>, e: Event)
    requires Enabled(s, e)
  {
    e.Ask? ==>
      var fd, id := s.polls[e.index], ClientId(e.request);
      && (e.request.kind == MESSAGE ==> fd !in claims)
      && (e.request.kind == EXIT ==> if fd in claims then claims[fd] == id else !IsOnline(s, id))
  }

  /** Besides, a hang-up finds the client that the connection claimed. */
  ghost predicate Harmless(s: State, claims: map<int, Text>, e: Event)
    requires Enabled(s, e)
  {
    && Mannered(s, claims, e)
    && (e.Hangup? ==> var fd := s.polls[e.index]; fd in claims ==> FoundFirst(s.fds, claims[fd], fd))
  }

  ghost predicate Orderly(s: State, es: seq<Event>)
    requires Legal(s, es)
    decreases |es|
  {
    es == [] ||
    var n := |es| - 1;
    Orderly(s, es[..n]) && Mannered(After(s, es[..n]), Claims(s, es[..n]), es[n])
  }

  ghost predicate WellBehaved(s: State, es: seq<Event>)
    requires Legal(s, es)
    decreases |es|
  {
    es == [] ||
    var n := |es| - 1;
    WellBehaved(s, es[..n]) && Harmless(After(s, es[..n]), Claims(s, es[..n]), es[n])
  }

  // ---------------------------------------------------------------- descriptors and sessions

  ghost predicate IsOpen(s: State, fd: int) {
    FIXED <= |s.polls| && fd in s.polls[FIXED..]
  }

  /** An open connection that claimed an id is the one its connected client is bound to. */
  ghost predicate OpenServed(s: State, claims: map<int, Text>) {
    forall f | f in claims && IsOpen(s, f) :: IsOnline(s, claims[f]) && claims[f] in s.fds && s.fds[claims[f]] == f
  }

  /** A connected client is bound to an open connection that claimed its id. */
  ghost predicate OnlineOpen(s: State, claims: map<int, Text>) {
    forall k | IsOnline(s, k) ::
      k in s.fds && IsOpen(s, s.fds[k]) && s.fds[k] in claims && claims[s.fds[k]] == k
  }

  ghost predicate SessionsBound(s: State, claims: map<int, Text>) {
    OpenServed(s, claims) && OnlineOpen(s, claims)
  }

  lemma OpenAt(s: State, index: nat)
    requires FIXED <= index < |s.polls|
    ensures IsOpen(s, s.polls[index])
  {
    assert s.polls[index] == s.polls[FIXED..][index - FIXED];
  }

  lemma OpenAfterDrop(s: State, index: nat)
    requires TablesAgree(s) && FIXED <= index < |s.polls|
    ensures forall f :: IsOpen(Drop(s, index), f) <==> IsOpen(s, f) && f != s.polls[index]
  {
    forall f ensures IsOpen(Drop(s, index), f) <==> IsOpen(s, f) && f != s.polls[index] {
      WithoutHolds(s.polls, index, f);
    }
  }

  lemma OpenAfterAccept(s: State, fd: int, address: Address)
    requires Enabled(s, Accept(fd, address))
    ensures forall f :: IsOpen(Step(s, Accept(fd, address)), f) <==> IsOpen(s, f) || f == fd
    ensures !IsOpen(s, fd)
  {
    assert (s.polls + [fd])[FIXED..] == s.polls[FIXED..] + [fd];
  }

  // ---------------------------------------------------------------- one event

  lemma AcceptServes(s: State, claims: map<int, Text>, fd: int, address: Address)
    requires Enabled(s, Accept(fd, address))
    ensures OpenServed(s, claims) ==> OpenServed(Step(s, Accept(fd, address)), claims - {fd})
    ensures OnlineOpen(s, claims) ==> OnlineOpen(Step(s, Accept(fd, address)), claims - {fd})
  {
    OpenAfterAccept(s, fd, address);
    hide IsOpen;
  }

  /** Whatever changes neither descriptors nor who is connected. */
  lemma SameServes(s: State, claims: map<int, Text>, s': State)
    requires s'.fds == s.fds && s'.polls == s.polls
    requires forall k :: IsOnline(s', k) <==> IsOnline(s, k)
    ensures OpenServed(s, claims) <==> OpenServed(s', claims)
    ensures OnlineOpen(s, claims) <==> OnlineOpen(s', claims)
  {
    assert forall f :: IsOpen(s', f) <==> IsOpen(s, f);
    hide IsOpen, IsOnline;
  }

  lemma QuietStep(s: State, e: Event)
    requires Enabled(s, e)
    requires e.Datagram? || (e.Ask? && e.request.kind != MESSAGE && e.request.kind != EXIT)
    ensures
      var s' := Step(s, e);
      s'.fds == s.fds && s'.polls == s.polls && forall k :: IsOnline(s', k) <==> IsOnline(s, k)
  {
  }

  lemma AttachMeans(s: State, id: Text, fd: int)
    requires !IsOnline(s, id)
    ensures
      var s' := Attach(s, id, fd);
      && s'.fds == s.fds[id := fd] && s'.polls == s.polls && s'.past == s.past
      && s'.frames == s.frames[fd := FramesOf(s.frames, fd) + Queue(s.sessions, id)]
      && forall k :: IsOnline(s', k) <==> IsOnline(s, k) || k == id
  {
  }

  /** An accepted CONNECT on a connection that has claimed nothing. */
  lemma AttachServes(s: State, claims: map<int, Text>, index: nat, id: Text)
    requires FIXED <= index < |s.polls| && !IsOnline(s, id) && s.polls[index] !in claims
    ensures
      var fd := s.polls[index];
      var s' := Attach(s, id, fd);
      && (OpenServed(s, claims) ==> OpenServed(s', claims[fd := id]))
      && (OnlineOpen(s, claims) ==> OnlineOpen(s', claims[fd := id]))
  {
    var fd := s.polls[index];
    AttachMeans(s, id, fd);
    OpenAt(s, index);
    var s' := Attach(s, id, fd);
    assert forall f :: IsOpen(s', f) <==> IsOpen(s, f);
    hide Attach, IsOpen, IsOnline;
  }

  /** A connection closed while its own client, if it has one, is marked as gone. */
  lemma DropServes(s: State, claims: map<int, Text>, index: nat, s': State)
    requires TablesAgree(s) && FIXED <= index < |s.polls|
    requires s'.polls == Without(s.polls, index) && s'.fds == s.fds
    requires forall k | IsOnline(s', k) :: IsOnline(s, k)
    requires forall k | IsOnline(s, k) && !IsOnline(s', k) :: k in s.fds && s.fds[k] == s.polls[index]
    ensures OpenServed(s, claims) ==> OpenServed(s', claims)
    ensures OnlineOpen(s, claims) && (s.polls[index] in claims ==> !IsOnline(s', claims[s.polls[index]]))
      ==> OnlineOpen(s', claims)
  {
    OpenAfterDrop(s, index);
    assert forall f :: IsOpen(s', f) <==> IsOpen(Drop(s, index), f);
    hide IsOpen, IsOnline, TablesAgree, Drop;
  }

  lemma HangupMarks(s: State, index: nat)
    requires Enabled(s, Hangup(index))
    ensures
      var s' := Step(s, Hangup(index));
      && s'.polls == Without(s.polls, index) && s'.fds == s.fds && s'.past == s.past && s'.frames == s.frames
      && (forall k | IsOnline(s', k) :: IsOnline(s, k))
      && (forall k | IsOnline(s, k) && !IsOnline(s', k) :: k in s.fds && s.fds[k] == s.polls[index])
  {
  }

  lemma ExitMarks(s: State, index: nat, r: Request)
    requires Enabled(s, Ask(index, r)) && r.kind == EXIT
    ensures
      var s' := Step(s, Ask(index, r));
      && s'.polls == Without(s.polls, index) && s'.fds == s.fds && s'.past == s.past && s'.frames == s.frames
      && forall k :: IsOnline(s', k) <==> IsOnline(s, k) && k != ClientId(r)
  {
  }

  lemma ConnectMeans(s: State, index: nat, r: Request)
    requires Enabled(s, Ask(index, r)) && r.kind == MESSAGE
    ensures Step(s, Ask(index, r)) ==
      if IsOnline(s, ClientId(r)) then Drop(s, index) else Attach(s, ClientId(r), s.polls[index])
  {
  }

  /** Rejected on a connection that had claimed nothing: the connection is closed. */
  lemma RejectServes(s: State, claims: map<int, Text>, index: nat, id: Text)
    requires TablesAgree(s) && FIXED <= index < |s.polls| && s.polls[index] !in claims
    ensures
      var s', claims' := Drop(s, index), claims[s.polls[index] := id];
      && (OpenServed(s, claims) ==> OpenServed(s', claims'))
      && (OnlineOpen(s, claims) ==> OnlineOpen(s', claims'))
  {
    OpenAfterDrop(s, index);
    assert forall k :: IsOnline(Drop(s, index), k) <==> IsOnline(s, k);
    assert Drop(s, index).fds == s.fds;
    hide IsOpen, IsOnline, TablesAgree, Drop;
  }

  /** Good manners alone keep every open connection served, whatever hang-ups go astray: a
      hang-up never marks a client whose own connection is still open. */
  lemma StepServes(s: State, claims: map<int, Text>, e: Event)
    requires TablesAgree(s) && OpenServed(s, claims)
    requires Enabled(s, e) && Mannered(s, claims, e)
    ensures OpenServed(Step(s, e), ClaimsAfter(s, claims, e))
  {
    match e
    case Accept(fd, address) =>
      AcceptServes(s, claims, fd, address);
    case Datagram(_, _, _, _) =>
      QuietStep(s, e);
      SameServes(s, claims, Step(s, e));
    case Hangup(index) =>
      HangupMarks(s, index);
      hide Step, OpenServed, TablesAgree;
      DropServes(s, claims, index, Step(s, e));
    case Ask(index, r) =>
      AskServes(s, claims, index, r);
  }

  lemma AskServes(s: State, claims: map<int, Text>, index: nat, r: Request)
    requires TablesAgree(s) && OpenServed(s, claims)
    requires Enabled(s, Ask(index, r)) && Mannered(s, claims, Ask(index, r))
    ensures OpenServed(Step(s, Ask(index, r)), ClaimsAfter(s, claims, Ask(index, r)))
  {
    var e := Ask(index, r);
    if r.kind == MESSAGE {
      ConnectMeans(s, index, r);
      hide Step, OpenServed, TablesAgree, IsOnline;
      if IsOnline(s, ClientId(r)) {
        RejectServes(s, claims, index, ClientId(r));
      } else {
        AttachServes(s, claims, index, ClientId(r));
      }
    } else if r.kind == EXIT {
      ExitMarks(s, index, r);
      OpenAt(s, index);
      assert IsOnline(s, ClientId(r)) ==> ClientId(r) in s.fds && s.fds[ClientId(r)] == s.polls[index];
      hide Step, OpenServed, TablesAgree, IsOnline;
      DropServes(s, claims, index, Step(s, e));
    } else {
      QuietStep(s, e);
      SameServes(s, claims, Step(s, e));
    }
  }

  /** Harmless events keep descriptors and sessions together. */
  lemma HarmlessKeepsOnline(s: State, claims: map<int, Text>, e: Event)
    requires TablesAgree(s) && SessionsBound(s, claims)
    requires Enabled(s, e) && Harmless(s, claims, e)
    ensures OnlineOpen(Step(s, e), ClaimsAfter(s, claims, e))
  {
    match e
    case Accept(fd, address) =>
      AcceptServes(s, claims, fd, address);
    case Datagram(_, _, _, _) =>
      QuietStep(s, e);
      SameServes(s, claims, Step(s, e));
    case Hangup(index) =>
      HangupMarks(s, index);
      OpenAt(s, index);
      var fd := s.polls[index];
      if fd in claims {
        HangupMarksExactly(s, index, claims[fd]);
      }
      hide Step, OnlineOpen, TablesAgree, IsOnline;
      DropServes(s, claims, index, Step(s, e));
    case Ask(index, r) =>
      AskKeepsOnline(s, claims, index, r);
  }

  lemma AskKeepsOnline(s: State, claims: map<int, Text>, index: nat, r: Request)
    requires TablesAgree(s) && SessionsBound(s, claims)
    requires Enabled(s, Ask(index, r)) && Mannered(s, claims, Ask(index, r))
    ensures OnlineOpen(Step(s, Ask(index, r)), ClaimsAfter(s, claims, Ask(index, r)))
  {
    var e := Ask(index, r);
    if r.kind == MESSAGE {
      ConnectMeans(s, index, r);
      hide Step, OnlineOpen, OpenServed, TablesAgree, IsOnline;
      if IsOnline(s, ClientId(r)) {
        RejectServes(s, claims, index, ClientId(r));
      } else {
        AttachServes(s, claims, index, ClientId(r));
      }
    } else if r.kind == EXIT {
      ExitMarks(s, index, r);
      OpenAt(s, index);
      assert IsOnline(s, ClientId(r)) ==> ClientId(r) in s.fds && s.fds[ClientId(r)] == s.polls[index];
      hide Step, OnlineOpen, OpenServed, TablesAgree, IsOnline;
      DropServes(s, claims, index, Step(s, e));
    } else {
      QuietStep(s, e);
      SameServes(s, claims, Step(s, e));
    }
  }

  /** Whatever closes a connection and leaves its client marked as connected breaks the bond. */
  lemma LeftBehind(s: State, claims: map<int, Text>, index: nat, s': State, claims': map<int, Text>)
    requires TablesAgree(s) && OpenServed(s, claims) && FIXED <= index < |s.polls|
    requires s.polls[index] in claims
    requires s'.polls == Without(s.polls, index) && s'.fds == s.fds && IsOnline(s', claims[s.polls[index]])
    ensures !OnlineOpen(s', claims')
  {
    var fd := s.polls[index];
    OpenAt(s, index);
    OpenAfterDrop(s, index);
    assert IsOpen(s', fd) <==> IsOpen(Drop(s, index), fd);
    assert s.fds[claims[fd]] == fd;
  }

  lemma SecondConnectHarms(s: State, claims: map<int, Text>, index: nat, r: Request)
    requires TablesAgree(s) && OpenServed(s, claims)
    requires Enabled(s, Ask(index, r)) && r.kind == MESSAGE && s.polls[index] in claims
    ensures !OnlineOpen(Step(s, Ask(index, r)), ClaimsAfter(s, claims, Ask(index, r)))
  {
    var fd, id := s.polls[index], ClientId(r);
    var claims' := ClaimsAfter(s, claims, Ask(index, r));
    ConnectMeans(s, index, r);
    OpenAt(s, index);
    if IsOnline(s, id) {
      LeftBehind(s, claims, index, Step(s, Ask(index, r)), claims');
    } else {
      AttachMeans(s, id, fd);
      assert IsOnline(Attach(s, id, fd), claims[fd]) && Attach(s, id, fd).fds[claims[fd]] == fd;
      assert claims[fd] != id && claims'[fd] == id;
    }
  }

  lemma ForeignExitHarms(s: State, claims: map<int, Text>, index: nat, r: Request)
    requires TablesAgree(s) && SessionsBound(s, claims)
    requires Enabled(s, Ask(index, r)) && r.kind == EXIT && !Mannered(s, claims, Ask(index, r))
    ensures !SessionsBound(Step(s, Ask(index, r)), claims)
  {
    var fd, id := s.polls[index], ClientId(r);
    var s' := Step(s, Ask(index, r));
    ExitMarks(s, index, r);
    OpenAt(s, index);
    if fd in claims {
      LeftBehind(s, claims, index, s', claims);
    } else {
      var own := s.fds[id];
      OpenAfterDrop(s, index);
      assert IsOpen(s', own) <==> IsOpen(Drop(s, index), own);
      assert own in claims && claims[own] == id && !IsOnline(s', id);
    }
  }

  lemma MissedHangupHarms(s: State, claims: map<int, Text>, index: nat)
    requires TablesAgree(s) && OpenServed(s, claims)
    requires Enabled(s, Hangup(index)) && !Harmless(s, claims, Hangup(index))
    ensures !OnlineOpen(Step(s, Hangup(index)), claims)
  {
    var fd := s.polls[index];
    OpenAt(s, index);
    HangupMarks(s, index);
    HangupMarksExactly(s, index, claims[fd]);
    LeftBehind(s, claims, index, Step(s, Hangup(index)), claims);
  }

  /** The condition is exact: from a state in which descriptors and sessions belong together, an
      event leads to such a state if and only if it is harmless. */
  lemma StepBoundExactlyIff(s: State, claims: map<int, Text>, e: Event)
    requires TablesAgree(s) && SessionsBound(s, claims) && Enabled(s, e)
    ensures SessionsBound(Step(s, e), ClaimsAfter(s, claims, e)) <==> Harmless(s, claims, e)
  {
    hide TablesAgree, OpenServed, OnlineOpen, Step, Enabled, FoundFirst;
    if Harmless(s, claims, e) {
      StepServes(s, claims, e);
      HarmlessKeepsOnline(s, claims, e);
    } else if e.Hangup? {
      MissedHangupHarms(s, claims, e.index);
    } else if e.request.kind == MESSAGE {
      SecondConnectHarms(s, claims, e.index, e.request);
    } else {
      ForeignExitHarms(s, claims, e.index, e.request);
    }
  }

  // ---------------------------------------------------------------- whole runs

  ghost predicate Fresh(s: State) {
    exists udp, listen, stdin :: udp != listen && udp != stdin && listen != stdin && s == Initial(udp, listen, stdin)
  }

  lemma ReachableTables(s: State, es: seq<Event>)
    requires Fresh(s) && Legal(s, es)
    ensures TablesAgree(After(s, es))
  {
    var udp, listen, stdin :|
      udp != listen && udp != stdin && listen != stdin && s == Initial(udp, listen, stdin);
    TablesAlwaysAgree(udp, listen, stdin, es);
  }

  lemma {:induction false} OrderlyServes(s: State, es: seq<Event>)
    requires Fresh(s) && Legal(s, es) && Orderly(s, es)
    ensures OpenServed(After(s, es), Claims(s, es))
    decreases |es|
  {
    if es != [] {
      var n := |es| - 1;
      OrderlyServes(s, es[..n]);
      ReachableTables(s, es[..n]);
      hide TablesAgree, OpenServed, Mannered, Step, Enabled, ClaimsAfter;
      StepServes(After(s, es[..n]), Claims(s, es[..n]), es[n]);
    }
  }

  /** In every orderly run, however numbers are reused: the client an open connection claimed is
      connected, and a hang-up of the connection marks it as gone if and only if its id is not
      empty and no smaller id stores the number at that moment. */
  lemma HangupMarksItsClientExactlyIff(s: State, es: seq<Event>, index: nat)
    requires Fresh(s) && Legal(s, es) && Orderly(s, es)
    requires Enabled(After(s, es), Hangup(index))
    requires After(s, es).polls[index] in Claims(s, es)
    ensures
      var before := After(s, es);
      var fd := before.polls[index];
      var id := Claims(s, es)[fd];
      && IsOnline(before, id)
      && (!IsOnline(Step(before, Hangup(index)), id) <==> FoundFirst(before.fds, id, fd))
  {
    OrderlyServes(s, es);
    var before := After(s, es);
    var fd := before.polls[index];
    hide Legal, After, Orderly, Claims, Step;
    OpenAt(before, index);
    HangupMarksExactly(before, index, Claims(s, es)[fd]);
  }

  lemma {:induction false} ReachableBound(s: State, es: seq<Event>)
    requires Fresh(s) && Legal(s, es) && WellBehaved(s, es)
    ensures SessionsBound(After(s, es), Claims(s, es))
    decreases |es|
  {
    if es != [] {
      var n := |es| - 1;
      ReachableBound(s, es[..n]);
      ReachableTables(s, es[..n]);
      hide TablesAgree, SessionsBound, Harmless, Step, Enabled, ClaimsAfter;
      StepBoundExactlyIff(After(s, es[..n]), Claims(s, es[..n]), es[n]);
    }
  }

  /** Descriptors and sessions belonged together all along. */
  ghost predicate BoundThroughout(s: State, es: seq<Event>)
    requires Legal(s, es)
    decreases |es|
  {
    && SessionsBound(After(s, es), Claims(s, es))
    && (es == [] || BoundThroughout(s, es[..|es| - 1]))
  }

  /** A run keeps descriptors and sessions together throughout if and only if it is well behaved. */
  lemma {:induction false} RunBoundExactlyIff(s: State, es: seq<Event>)
    requires Fresh(s) && Legal(s, es)
    ensures BoundThroughout(s, es) <==> WellBehaved(s, es)
    decreases |es|
  {
    hide TablesAgree, SessionsBound, Harmless, Step, Enabled, ClaimsAfter;
    if es != [] {
      var n := |es| - 1;
      RunBoundExactlyIff(s, es[..n]);
      if WellBehaved(s, es[..n]) {
        ReachableBound(s, es[..n]);
        ReachableTables(s, es[..n]);
        StepBoundExactlyIff(After(s, es[..n]), Claims(s, es[..n]), es[n]);
      }
    } else {
      ReachableBound(s, es);
    }
  }

  /** In every well-behaved run a hang-up does to the sessions what the client's leaving would:
      it marks the client the connection claimed, and nobody if it claimed none. */
  lemma HangupLeavesClaimed(s: State, es: seq<Event>, index: nat)
    requires Fresh(s) && Legal(s, es) && WellBehaved(s, es)
    requires Enabled(After(s, es), Hangup(index)) && Harmless(After(s, es), Claims(s, es), Hangup(index))
    ensures
      var before := After(s, es);
      var fd := before.polls[index];
      Step(before, Hangup(index)).sessions ==
        Apply(before.sessions, if fd in Claims(s, es) then Leave(Claims(s, es)[fd]) else Skip)
  {
    ReachableBound(s, es);
    var before, claims := After(s, es), Claims(s, es);
    hide Legal, After, WellBehaved, Claims;
    HangupLeaves(before, claims, index);
  }

  lemma HangupLeaves(s: State, claims: map<int, Text>, index: nat)
    requires SessionsBound(s, claims)
    requires Enabled(s, Hangup(index)) && Harmless(s, claims, Hangup(index))
    ensures
      var fd := s.polls[index];
      Apply(s.sessions, OpOf(s, Hangup(index))) == Apply(s.sessions, if fd in claims then Leave(claims[fd]) else Skip)
  {
    var fd := s.polls[index];
    var c := Bound(s.fds, fd);
    OpenAt(s, index);
    if fd in claims {
      assert Order.IsLeast(claims[fd], c);
      Order.LeastUnique(OwnerOf(s.fds, fd).value, claims[fd], c);
    } else {
      assert forall k | k in c :: !IsOnline(s, k);
    }
  }

  /** In every well-behaved run connected clients have different descriptors, all of them open;
      another record that stores the number of one of them belongs to a client that is away. */
  lemma SessionSafety(s: State, es: seq<Event>, k: Text, j: Text)
    requires Fresh(s) && Legal(s, es) && WellBehaved(s, es)
    requires IsOnline(After(s, es), k)
    ensures k in After(s, es).fds && IsOpen(After(s, es), After(s, es).fds[k])
    ensures j in After(s, es).fds && After(s, es).fds[j] == After(s, es).fds[k] && j != k
      ==> !IsOnline(After(s, es), j)
  {
    ReachableBound(s, es);
  }

  /** A duplicate CONNECT closes the connection it came on and nothing else: the client it named
      stays connected, on another descriptor, which stays open. */
  lemma RejectionSparesOwner(s: State, es: seq<Event>, index: nat, r: Request)
    requires Fresh(s) && Legal(s, es) && WellBehaved(s, es)
    requires Enabled(After(s, es), Ask(index, r)) && r.kind == MESSAGE
    requires Harmless(After(s, es), Claims(s, es), Ask(index, r))
    requires IsOnline(After(s, es), ClientId(r))
    ensures
      var before := After(s, es);
      var after := Step(before, Ask(index, r));
      var rejected := before.polls[index];
      && after.sessions == before.sessions && after.fds == before.fds
      && after.frames == before.frames && after.past == before.past
      && forall f :: IsOpen(after, f) <==> IsOpen(before, f) && f != rejected
    ensures
      var before := After(s, es);
      && ClientId(r) in before.fds
      && var own := before.fds[ClientId(r)];
      own != before.polls[index] && IsOpen(Step(before, Ask(index, r)), own)
  {
    ReachableBound(s, es);
    ReachableTables(s, es);
    var before := After(s, es);
    hide Legal, After, WellBehaved, TablesAgree, Claims;
    ConnectMeans(before, index, r);
    OpenAfterDrop(before, index);
    hide Step, IsOpen;
    assert before.fds[ClientId(r)] in Claims(s, es);
  }

  // ---------------------------------------------------------------- a condition at CONNECT

  /** Every accepted CONNECT came on a number that no smaller id stores, and names an id. */
  ghost predicate CleanConnects(s: State, es: seq<Event>)
    requires Legal(s, es)
    decreases |es|
  {
    es == [] ||
    var n := |es| - 1;
    var before := After(s, es[..n]);
    && CleanConnects(s, es[..n])
    && (es[n].Ask? && es[n].request.kind == MESSAGE && !IsOnline(before, ClientId(es[n].request)) ==>
        FoundFirst(before.fds, ClientId(es[n].request), before.polls[es[n].index]))
  }

  /** The clients of open connections are the first ones the walk would find. */
  ghost predicate AllFirst(s: State, claims: map<int, Text>) {
    forall f | f in claims && IsOpen(s, f) :: FoundFirst(s.fds, claims[f], f)
  }

  lemma AttachKeepsFirst(s: State, claims: map<int, Text>, index: nat, id: Text)
    requires AllFirst(s, claims) && FIXED <= index < |s.polls| && !IsOnline(s, id)
    requires s.polls[index] !in claims && FoundFirst(s.fds, id, s.polls[index])
    ensures AllFirst(Attach(s, id, s.polls[index]), claims[s.polls[index] := id])
  {
    var fd := s.polls[index];
    AttachMeans(s, id, fd);
    Order.Total(id, id);
    var s' := Attach(s, id, fd);
    assert forall f :: IsOpen(s', f) <==> IsOpen(s, f);
    hide Attach, IsOpen, IsOnline;
  }

  lemma DropKeepsFirst(s: State, claims: map<int, Text>, index: nat, s': State, id: Text)
    requires TablesAgree(s) && AllFirst(s, claims) && FIXED <= index < |s.polls|
    requires s'.polls == Without(s.polls, index) && s'.fds == s.fds
    ensures AllFirst(s', claims) && AllFirst(s', claims[s.polls[index] := id])
  {
    OpenAfterDrop(s, index);
    assert forall f :: IsOpen(s', f) <==> IsOpen(Drop(s, index), f);
    hide IsOpen, TablesAgree, Drop, FoundFirst;
  }

  lemma StepKeepsFirst(s: State, claims: map<int, Text>, e: Event)
    requires TablesAgree(s) && AllFirst(s, claims) && Enabled(s, e) && Mannered(s, claims, e)
    requires e.Ask? && e.request.kind == MESSAGE && !IsOnline(s, ClientId(e.request)) ==>
      FoundFirst(s.fds, ClientId(e.request), s.polls[e.index])
    ensures AllFirst(Step(s, e), ClaimsAfter(s, claims, e))
  {
    if e.Accept? {
      OpenAfterAccept(s, e.fd, e.address);
      hide IsOpen, FoundFirst;
    } else if e.Hangup? {
      HangupMarks(s, e.index);
      hide Step, AllFirst, TablesAgree;
      DropKeepsFirst(s, claims, e.index, Step(s, e), []);
    } else if e.Ask? && e.request.kind == MESSAGE {
      ConnectMeans(s, e.index, e.request);
      hide Step, AllFirst, TablesAgree, FoundFirst;
      if IsOnline(s, ClientId(e.request)) {
        DropKeepsFirst(s, claims, e.index, Drop(s, e.index), ClientId(e.request));
      } else {
        AttachKeepsFirst(s, claims, e.index, ClientId(e.request));
      }
    } else if e.Ask? && e.request.kind == EXIT {
      ExitMarks(s, e.index, e.request);
      hide Step, AllFirst, TablesAgree;
      DropKeepsFirst(s, claims, e.index, Step(s, e), []);
    } else {
      QuietStep(s, e);
      hide Step, FoundFirst;
      assert forall f :: IsOpen(Step(s, e), f) <==> IsOpen(s, f);
    }
  }

  /** Enough at the time of each CONNECT: in an orderly run in which no accepted CONNECT comes on
      a number that a smaller id still stores, every hang-up finds its client. */
  lemma {:induction false} CleanConnectsSuffice(s: State, es: seq<Event>)
    requires Fresh(s) && Legal(s, es) && Orderly(s, es) && CleanConnects(s, es)
    ensures WellBehaved(s, es) && AllFirst(After(s, es), Claims(s, es))
    decreases |es|
  {
    if es != [] {
      var n := |es| - 1;
      var before := After(s, es[..n]);
      CleanConnectsSuffice(s, es[..n]);
      ReachableTables(s, es[..n]);
      StepKeepsFirst(before, Claims(s, es[..n]), es[n]);
      hide TablesAgree, Mannered, Step, ClaimsAfter, FoundFirst;
      if es[n].Hangup? {
        OpenAt(before, es[n].index);
      }
    }
  }
}
