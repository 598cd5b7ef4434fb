/** What the rest of the world must leave alone for one client to be served well. Other clients
    may behave as they like, and hang-ups of theirs may go astray. */
module OneClient {
  import opened Bytes
  import opened Broker
  import opened Machine
  import opened Conduct

  // ---------------------------------------------------------------- one event

  ghost predicate ClaimedBy(claims: map<int, Text>, fd: int, id: Text) {
    fd in claims && claims[fd] == id
  }

  /** No other connected record stores the number. */
  ghost predicate Solo(s: State, id: Text, fd: int) {
    forall k | k != id && IsOnline(s, k) && k in s.fds :: s.fds[k] != fd
  }

  /** A connection that nobody spoke on, nothing was written to, and no other connected record
      has the number of. */
  ghost predicate Untouched(s: State, claims: map<int, Text>, id: Text, fd: int) {
    fd !in claims && FramesOf(s.frames, fd) == [] && Solo(s, id, fd)
  }

  /** The event respects one client: its connections say CONNECT once, on an untouched connection
      if it is accepted; nobody else says EXIT for it while it is connected, nor does it say EXIT
      for others; and a hang-up of one of its connections finds it. */
  ghost predicate Spares(s: State, claims: map<int, Text>, id: Text, e: Event)
    requires Enabled(s, e)
  {
    match e
    case Ask(index, r) =>
      var fd := s.polls[index];
      && (r.kind == MESSAGE ==> !ClaimedBy(claims, fd, id))
      && (r.kind == MESSAGE && ClientId(r) == id && !IsOnline(s, id) ==> Untouched(s, claims, id, fd))
      && (r.kind == EXIT && ClientId(r) == id && IsOnline(s, id) ==> ClaimedBy(claims, fd, id))
      && (r.kind == EXIT && ClientId(r) != id ==> !ClaimedBy(claims, fd, id))
    case Hangup(index) => ClaimedBy(claims, s.polls[index], id) ==> FoundFirst(s.fds, id, s.polls[index])
    case _ => true
  }

  ghost predicate Undisturbed(s: State, es: seq<Event>, id: Text)
    requires Legal(s, es)
    decreases |es|
  {
    es == [] ||
    var n := |es| - 1;
    Undisturbed(s, es[..n], id) && Spares(After(s, es[..n]), Claims(s, es[..n]), id, es[n])
  }

  // ---------------------------------------------------------------- the client and its descriptor

  /** The open connections that claimed the id are the one the connected client is bound to. */
  ghost predicate IdBound(s: State, claims: map<int, Text>, id: Text) {
    && (forall f | IsOpen(s, f) && ClaimedBy(claims, f, id) :: IsOnline(s, id) && id in s.fds && s.fds[id] == f)
    && (IsOnline(s, id) ==> id in s.fds && IsOpen(s, s.fds[id]) && ClaimedBy(claims, s.fds[id], id))
  }

  /** Descriptors as before, and this client as connected as before. */
  lemma SameId(s: State, claims: map<int, Text>, id: Text, s': State)
    requires IdBound(s, claims, id)
    requires s'.fds == s.fds && s'.polls == s.polls && (IsOnline(s', id) <==> IsOnline(s, id))
    ensures IdBound(s', claims, id)
  {
    assert forall f :: IsOpen(s', f) <==> IsOpen(s, f);
    hide IsOpen, IsOnline;
  }

  lemma AcceptKeepsId(s: State, claims: map<int, Text>, id: Text, fd: int, address: Address)
    requires IdBound(s, claims, id) && Enabled(s, Accept(fd, address))
    ensures IdBound(Step(s, Accept(fd, address)), claims - {fd}, id)
  {
    OpenAfterAccept(s, fd, address);
    hide IsOpen;
  }

  /** A connection is closed that is not the client's. */
  lemma DropKeepsId(s: State, claims: map<int, Text>, id: Text, index: nat, s': State, k: Text)
    requires TablesAgree(s) && IdBound(s, claims, id) && FIXED <= index < |s.polls|
    requires !ClaimedBy(claims, s.polls[index], id)
    requires s'.polls == Without(s.polls, index) && s'.fds == s.fds && (IsOnline(s', id) <==> IsOnline(s, id))
    ensures IdBound(s', claims, id) && IdBound(s', claims[s.polls[index] := k], id)
  {
    OpenAfterDrop(s, index);
    assert forall f :: IsOpen(s', f) <==> IsOpen(Drop(s, index), f);
    hide IsOpen, IsOnline, TablesAgree, Drop;
  }

  /** The client's own connection is closed, and the client marked as gone. */
  lemma LeaveKeepsId(s: State, claims: map<int, Text>, id: Text, index: nat, s': State)
    requires TablesAgree(s) && IdBound(s, claims, id) && FIXED <= index < |s.polls|
    requires ClaimedBy(claims, s.polls[index], id)
    requires s'.polls == Without(s.polls, index) && !IsOnline(s', id)
    ensures IdBound(s', claims, id)
  {
    OpenAt(s, index);
    OpenAfterDrop(s, index);
    assert forall f :: IsOpen(s', f) <==> IsOpen(Drop(s, index), f);
    hide IsOpen, IsOnline, TablesAgree, Drop;
  }

  lemma AttachKeepsId(s: State, claims: map<int, Text>, id: Text, index: nat, k: Text)
    requires IdBound(s, claims, id) && FIXED <= index < |s.polls| && !IsOnline(s, k)
    requires !ClaimedBy(claims, s.polls[index], id)
    ensures IdBound(Attach(s, k, s.polls[index]), claims[s.polls[index] := k], id)
  {
    var fd := s.polls[index];
    AttachMeans(s, k, fd);
    OpenAt(s, index);
    assert forall f :: IsOpen(Attach(s, k, fd), f) <==> IsOpen(s, f);
    hide Attach, IsOpen, IsOnline;
  }

  lemma StepKeepsId(s: State, claims: map<int, Text>, id: Text, e: Event)
    requires TablesAgree(s) && IdBound(s, claims, id)
    requires Enabled(s, e) && Spares(s, claims, id, e)
    ensures IdBound(Step(s, e), ClaimsAfter(s, claims, e), id)
  {
    match e
    case Accept(fd, address) =>
      AcceptKeepsId(s, claims, id, fd, address);
    case Datagram(_, _, _, _) =>
      QuietStep(s, e);
      SameId(s, claims, id, Step(s, e));
    case Hangup(index) =>
      HangupKeepsId(s, claims, id, index);
    case Ask(index, r) =>
      AskKeepsId(s, claims, id, index, r);
  }

  lemma HangupKeepsId(s: State, claims: map<int, Text>, id: Text, index: nat)
    requires TablesAgree(s) && IdBound(s, claims, id)
    requires Enabled(s, Hangup(index)) && Spares(s, claims, id, Hangup(index))
    ensures IdBound(Step(s, Hangup(index)), claims, id)
  {
    var fd := s.polls[index];
    HangupMarks(s, index);
    OpenAt(s, index);
    if ClaimedBy(claims, fd, id) {
      HangupMarksExactly(s, index, id);
      hide Step, IdBound, TablesAgree, IsOnline, FoundFirst;
      LeaveKeepsId(s, claims, id, index, Step(s, Hangup(index)));
    } else {
      assert IsOnline(s, id) ==> s.fds[id] != fd;
      hide Step, IdBound, TablesAgree, IsOnline;
      DropKeepsId(s, claims, id, index, Step(s, Hangup(index)), []);
    }
  }

  lemma AskKeepsId(s: State, claims: map<int, Text>, id: Text, index: nat, r: Request)
    requires TablesAgree(s) && IdBound(s, claims, id)
    requires Enabled(s, Ask(index, r)) && Spares(s, claims, id, Ask(index, r))
    ensures IdBound(Step(s, Ask(index, r)), ClaimsAfter(s, claims, Ask(index, r)), id)
  {
    var e, fd, k := Ask(index, r), s.polls[index], ClientId(r);
    if r.kind == MESSAGE {
      ConnectMeans(s, index, r);
      assert IsOnline(Drop(s, index), id) <==> IsOnline(s, id);
      assert Drop(s, index).polls == Without(s.polls, index) && Drop(s, index).fds == s.fds;
      hide Step, IdBound, TablesAgree, IsOnline, Drop, Attach;
      if IsOnline(s, k) {
        DropKeepsId(s, claims, id, index, Drop(s, index), k);
      } else {
        AttachKeepsId(s, claims, id, index, k);
      }
    } else if r.kind == EXIT {
      ExitMarks(s, index, r);
      OpenAt(s, index);
      assert ClaimedBy(claims, fd, id) ==> IsOnline(s, id);
      hide Step, IdBound, TablesAgree, IsOnline;
      if ClaimedBy(claims, fd, id) {
        LeaveKeepsId(s, claims, id, index, Step(s, e));
      } else {
        DropKeepsId(s, claims, id, index, Step(s, e), []);
      }
    } else {
      QuietStep(s, e);
      SameId(s, claims, id, Step(s, e));
    }
  }

  lemma {:induction false} UndisturbedBound(s: State, es: seq<Event>, id: Text)
    requires Fresh(s) && Legal(s, es) && Undisturbed(s, es, id)
    ensures IdBound(After(s, es), Claims(s, es), id)
    decreases |es|
  {
    if es != [] {
      var n := |es| - 1;
      UndisturbedBound(s, es[..n], id);
      ReachableTables(s, es[..n]);
      hide TablesAgree, IdBound, Spares, Step, Enabled, ClaimsAfter;
      StepKeepsId(After(s, es[..n]), Claims(s, es[..n]), id, es[n]);
    }
  }

  // ---------------------------------------------------------------- well-behaved runs

  /** Nothing is written to an open connection before it claims an id. */
  ghost predicate SilentUntilClaimed(s: State, claims: map<int, Text>) {
    forall f | IsOpen(s, f) && f !in claims :: FramesOf(s.frames, f) == []
  }

  lemma AcceptStaysSilent(s: State, claims: map<int, Text>, fd: int, address: Address)
    requires Enabled(s, Accept(fd, address)) && SilentUntilClaimed(s, claims)
    ensures SilentUntilClaimed(Step(s, Accept(fd, address)), claims - {fd})
  {
    OpenAfterAccept(s, fd, address);
    hide IsOpen;
  }

  lemma DatagramMeans(s: State, e: Event)
    requires Enabled(s, e) && e.Datagram?
    ensures
      var s', op := Step(s, e), OpOf(s, e);
      && op.Publish? && s'.past == s.past && s'.fds == s.fds && s'.polls == s.polls
      && s'.frames == Broadcast(s.frames, s.fds, Recipients(s.sessions, op.topic), op.msg)
      && forall k :: IsOnline(s', k) <==> IsOnline(s, k)
  {
  }

  lemma DatagramStaysSilent(s: State, claims: map<int, Text>, e: Event)
    requires OnlineOpen(s, claims) && SilentUntilClaimed(s, claims)
    requires Enabled(s, e) && e.Datagram?
    ensures SilentUntilClaimed(Step(s, e), claims)
  {
    var op := OpOf(s, e);
    DatagramMeans(s, e);
    var ids := Recipients(s.sessions, op.topic);
    assert forall k | k in ids :: IsOnline(s, k);
    assert forall f :: IsOpen(Step(s, e), f) <==> IsOpen(s, f);
    hide Step, OpOf, IsOpen;
    forall f | IsOpen(s, f) && f !in claims ensures FramesOf(Step(s, e).frames, f) == [] {
      assert At(s.fds, ids, f) == {};
    }
  }

  lemma ConnectStaysSilent(s: State, claims: map<int, Text>, index: nat, r: Request)
    requires TablesAgree(s) && SilentUntilClaimed(s, claims)
    requires Enabled(s, Ask(index, r)) && r.kind == MESSAGE
    ensures SilentUntilClaimed(Step(s, Ask(index, r)), ClaimsAfter(s, claims, Ask(index, r)))
  {
    var id, fd := ClientId(r), s.polls[index];
    ConnectMeans(s, index, r);
    if IsOnline(s, id) {
      OpenAfterDrop(s, index);
      hide IsOpen, TablesAgree;
    } else {
      AttachMeans(s, id, fd);
      assert forall f :: IsOpen(Attach(s, id, fd), f) <==> IsOpen(s, f);
      hide Step, Attach, IsOpen;
    }
  }

  lemma OtherMeans(s: State, e: Event, id: Text)
    requires Enabled(s, e) && (e.Hangup? || (e.Ask? && e.request.kind != MESSAGE))
    ensures
      var s' := Step(s, e);
      && s'.past == s.past && s'.frames == s.frames && s'.fds == s.fds
      && (s'.polls == s.polls || s'.polls == Without(s.polls, e.index))
      && (forall k :: IsOnline(s', k) ==> IsOnline(s, k))
      && Output(s.sessions, OpOf(s, e), id) == []
  {
    OtherSendsNothing(s, e, id);
    if e.Hangup? {
      HangupMarks(s, e.index);
    } else if e.request.kind == EXIT {
      ExitMarks(s, e.index, e.request);
    } else {
      QuietStep(s, e);
      QuietStreams(s, e.index, e.request);
    }
    hide Step, OpOf, Output, IsOnline, Enabled;
  }

  lemma OtherSendsNothing(s: State, e: Event, id: Text)
    requires Enabled(s, e) && (e.Hangup? || (e.Ask? && e.request.kind != MESSAGE))
    ensures Output(s.sessions, OpOf(s, e), id) == []
  {
    assert !OpOf(s, e).Publish? && !OpOf(s, e).Join?;
    hide OpOf;
  }

  lemma QuietStreams(s: State, index: nat, r: Request)
    requires Enabled(s, Ask(index, r)) && r.kind != MESSAGE && r.kind != EXIT
    ensures Step(s, Ask(index, r)).past == s.past && Step(s, Ask(index, r)).frames == s.frames
  {
  }

  /** Nothing opens when anything but a connection happens. */
  lemma OtherOpens(s: State, e: Event)
    requires TablesAgree(s)
    requires Enabled(s, e) && (e.Hangup? || (e.Ask? && e.request.kind != MESSAGE))
    ensures forall f | IsOpen(Step(s, e), f) :: IsOpen(s, f)
  {
    OtherMeans(s, e, []);
    OpenAfterDrop(s, e.index);
    var s' := Step(s, e);
    hide Step, TablesAgree;
    if s'.polls != s.polls {
      assert forall f :: IsOpen(s', f) <==> IsOpen(Drop(s, e.index), f);
    }
  }

  lemma OtherStaysSilent(s: State, claims: map<int, Text>, e: Event)
    requires TablesAgree(s) && SilentUntilClaimed(s, claims)
    requires Enabled(s, e) && (e.Hangup? || (e.Ask? && e.request.kind != MESSAGE))
    ensures SilentUntilClaimed(Step(s, e), claims)
  {
    OtherMeans(s, e, []);
    OtherOpens(s, e);
    hide Step, TablesAgree, IsOpen;
  }

  lemma StepStaysSilent(s: State, claims: map<int, Text>, e: Event)
    requires TablesAgree(s) && OnlineOpen(s, claims) && SilentUntilClaimed(s, claims) && Enabled(s, e)
    ensures SilentUntilClaimed(Step(s, e), ClaimsAfter(s, claims, e))
  {
    hide TablesAgree, OnlineOpen, SilentUntilClaimed, Step;
    match e
    case Accept(fd, address) => AcceptStaysSilent(s, claims, fd, address);
    case Datagram(_, _, _, _) => DatagramStaysSilent(s, claims, e);
    case Hangup(_) => OtherStaysSilent(s, claims, e);
    case Ask(index, r) =>
      if r.kind == MESSAGE {
        ConnectStaysSilent(s, claims, index, r);
      } else {
        OtherStaysSilent(s, claims, e);
      }
  }

  lemma HarmlessSpares(s: State, claims: map<int, Text>, id: Text, e: Event)
    requires SessionsBound(s, claims) && SilentUntilClaimed(s, claims)
    requires Enabled(s, e) && Harmless(s, claims, e)
    ensures Spares(s, claims, id, e)
  {
    if e.Ask? || e.Hangup? {
      OpenAt(s, e.index);
    }
    hide IsOpen, FoundFirst;
  }

  /** A well-behaved run leaves every client undisturbed. */
  lemma {:induction false} WellBehavedSparesAll(s: State, es: seq<Event>, id: Text)
    requires Fresh(s) && Legal(s, es) && WellBehaved(s, es)
    ensures Undisturbed(s, es, id) && SilentUntilClaimed(After(s, es), Claims(s, es))
    decreases |es|
  {
    if es != [] {
      var n := |es| - 1;
      var before, claims := After(s, es[..n]), Claims(s, es[..n]);
      WellBehavedSparesAll(s, es[..n], id);
      ReachableTables(s, es[..n]);
      ReachableBound(s, es[..n]);
      assert OnlineOpen(before, claims);
      hide TablesAgree, SessionsBound, OnlineOpen, SilentUntilClaimed, Harmless, Spares, Step, Enabled, ClaimsAfter;
      HarmlessSpares(before, claims, id, es[n]);
      StepStaysSilent(before, claims, es[n]);
    }
  }
}
