/** What a subscriber shows: each buffer its parser is given is the sender, the topic, the type and the
    payload of a datagram that concerned the client when the server received it. */
module Displays {
  import opened Bytes
  import opened Broker
  import opened Connections
  import opened EndToEnd
  import opened Guarantees
  import opened Machine
  import opened OneClient
  import opened Rounds
  import opened Server
  import opened ServerLoop
  import opened Wire
  import Envelope
  import Matcher

  /** The client holds a pattern that matches the topic, and is connected or asked for the pattern's
      messages to be stored. */
  ghost predicate Concerns(s: State, e: Event, id: Text) {
    && e.Datagram? && |e.data| + |e.residue| >= 50 && id in s.sessions
    && exists p :: p in s.sessions[id].topics
         && Matcher.Routes(Envelope.RoutedTopic(e.data, e.residue), p)
         && (s.sessions[id].online || s.sessions[id].topics[p])
  }

  /** The places of the datagrams in a run that concerned a client when they came. */
  ghost function DueEvents(s: State, es: seq<Event>, id: Text): seq<nat>
    requires Legal(s, es)
    decreases |es|
  {
    if es == [] then []
    else
      var n := |es| - 1;
      DueEvents(s, es[..n], id) + if Concerns(After(s, es[..n]), es[n], id) then [n] else []
  }

  ghost predicate ConcernsAt(s: State, es: seq<Event>, id: Text, n: nat) {
    n < |es| && Legal(s, es[..n]) && Concerns(After(s, es[..n]), es[n], id)
  }

  lemma ConcernsEarlier(s: State, es: seq<Event>, id: Text, m: nat, n: nat)
    requires n < m <= |es|
    ensures ConcernsAt(s, es[..m], id, n) <==> ConcernsAt(s, es, id, n)
  {
    assert es[..m][..n] == es[..n];
    hide Legal, After, Concerns;
  }

  lemma DueEventsStep(s: State, es: seq<Event>, id: Text)
    requires Legal(s, es) && es != []
    ensures
      var n := |es| - 1;
      && Legal(s, es[..n]) && Enabled(After(s, es[..n]), es[n])
      && (ConcernsAt(s, es, id, n) <==> Concerns(After(s, es[..n]), es[n], id))
      && DueEvents(s, es, id) == DueEvents(s, es[..n], id) + if ConcernsAt(s, es, id, n) then [n] else []
  {
    hide Concerns, Enabled, Step;
  }

  lemma NotAfterEnd(s: State, es: seq<Event>, id: Text, n: nat)
    requires Legal(s, es) && |es| <= n
    ensures !ConcernsAt(s, es, id, n) && (es == [] ==> DueEvents(s, es, id) == [])
  {
  }

  /** All the places at which a datagram concerned the client are among them, and no others. */
  lemma {:induction false} DueEventsExactly(s: State, es: seq<Event>, id: Text, n: nat)
    requires Legal(s, es)
    ensures n in DueEvents(s, es, id) <==> ConcernsAt(s, es, id, n)
    decreases |es|
  {
    hide DueEvents, Legal, After, ConcernsAt;
    if |es| <= n {
      NotAfterEnd(s, es, id, n);
    }
    if es != [] {
      var last := |es| - 1;
      DueEventsStep(s, es, id);
      DueEventsExactly(s, es[..last], id, n);
      if n < last {
        ConcernsEarlier(s, es, id, last, n);
      } else {
        NotAfterEnd(s, es[..last], id, n);
      }
    }
  }

  ghost predicate Increasing(due: seq<nat>, bound: nat) {
    && (forall i, j | 0 <= i < j < |due| :: due[i] < due[j])
    && forall i | 0 <= i < |due| :: due[i] < bound
  }

  /** They are in the order in which the datagrams came. */
  lemma {:induction false} DueEventsIncrease(s: State, es: seq<Event>, id: Text)
    requires Legal(s, es)
    ensures Increasing(DueEvents(s, es, id), |es|)
    decreases |es|
  {
    if es != [] {
      DueEventsStep(s, es, id);
      hide DueEvents, Legal, After, ConcernsAt;
      DueEventsIncrease(s, es[..|es| - 1], id);
    }
  }

  lemma ConcernsIsEligible(s: State, e: Event, id: Text)
    requires Enabled(s, e)
    ensures Concerns(s, e, id) <==> Eligible(s.sessions, OpOf(s, e), id)
    ensures Concerns(s, e, id) ==>
      e.Datagram? && OpOf(s, e).Publish? && OpOf(s, e).msg.buff == Envelope.Build(e.ip, e.port, e.data)
  {
    hide Matcher.Routes;
  }

  ghost predicate Envelopes(es: seq<Event>, due: seq<nat>, ms: seq<Msg>) {
    && |ms| == |due|
    && forall i | 0 <= i < |due| ::
         && due[i] < |es| && es[due[i]].Datagram?
         && ms[i].buff == Envelope.Build(es[due[i]].ip, es[due[i]].port, es[due[i]].data)
  }

  lemma EnvelopesLonger(es: seq<Event>, due: seq<nat>, ms: seq<Msg>, m: nat)
    requires m <= |es| && Envelopes(es[..m], due, ms)
    ensures Envelopes(es, due, ms)
  {
  }

  lemma EnvelopesMore(es: seq<Event>, due: seq<nat>, ms: seq<Msg>, n: nat, msg: Msg)
    requires Envelopes(es, due, ms) && n < |es| && es[n].Datagram?
    requires msg.buff == Envelope.Build(es[n].ip, es[n].port, es[n].data)
    ensures Envelopes(es, due + [n], ms + [msg])
  {
  }

  lemma DueStep(s: State, es: seq<Event>, id: Text)
    requires Legal(s, es) && s.sessions == map[] && es != []
    ensures
      var n := |es| - 1;
      var before := After(s, es[..n]);
      var op := OpOf(before, es[n]);
      Due(map[], Ops(s, es), id)
        == Due(map[], Ops(s, es[..n]), id) + if Eligible(before.sessions, op, id) then [op.msg] else []
  {
    var n := |es| - 1;
    RunIsBrokerRun(s, es[..n]);
    hide Eligible, Enabled, OpOf, Step, Run;
    assert Ops(s, es)[..n] == Ops(s, es[..n]);
  }

  /** What a client is due are the envelopes of these datagrams. */
  lemma {:induction false} DueAreEnvelopes(s: State, es: seq<Event>, id: Text)
    requires Legal(s, es) && s.sessions == map[]
    ensures Envelopes(es, DueEvents(s, es, id), Due(map[], Ops(s, es), id))
    decreases |es|
  {
    if es != [] {
      var n := |es| - 1;
      DueEventsStep(s, es, id);
      DueStep(s, es, id);
      hide DueEvents, Legal, After, Concerns, ConcernsAt, Eligible, Enabled, OpOf, Due, Ops, Envelopes;
      DueAreEnvelopes(s, es[..n], id);
      var before := After(s, es[..n]);
      var due, ms := DueEvents(s, es[..n], id), Due(map[], Ops(s, es[..n]), id);
      ConcernsIsEligible(before, es[n], id);
      EnvelopesLonger(es, due, ms, n);
      if Concerns(before, es[n], id) {
        EnvelopesMore(es, due, ms, n, OpOf(before, es[n]).msg);
      }
    }
  }

  // ---------------------------------------------------------------- what is shown

  /** Buffer by buffer, what parse_input makes of it is what was sent: nothing if the datagram has no
      byte behind the topic, and otherwise the sender's address and port, the topic the server
      routed by, the type and the payload. */
  ghost predicate Shows(es: seq<Event>, due: seq<nat>, buffs: seq<Text>) {
    && |buffs| == |due|
    && forall i | 0 <= i < |due| ::
         && due[i] < |es| && es[due[i]].Datagram? && |es[due[i]].data| + |es[due[i]].residue| >= 50
         && |buffs[i]| >= 6
         && Envelope.Parse(buffs[i]) == (
           var e := es[due[i]];
           if |e.data| <= 50 then Envelope.Nothing
           else Envelope.Shown(e.ip, e.port, Envelope.RoutedTopic(e.data, e.residue), e.data[50], e.data[51..]))
  }

  lemma EnvelopeShows(s: State, es: seq<Event>, n: nat, buff: Text)
    requires Legal(s, es) && n < |es| && es[n].Datagram?
    requires buff == Envelope.Build(es[n].ip, es[n].port, es[n].data)
    ensures |es[n].data| + |es[n].residue| >= 50 && |buff| >= 6
    ensures Envelope.Parse(buff) ==
      if |es[n].data| <= 50 then Envelope.Nothing
      else Envelope.Shown(es[n].ip, es[n].port, Envelope.RoutedTopic(es[n].data, es[n].residue),
                          es[n].data[50], es[n].data[51..])
  {
    PrefixLegal(s, es, n);
    hide Legal, After, Envelope.Build, Envelope.Parse, Envelope.RoutedTopic;
    Envelope.RoutingAndDisplayAgree(es[n].ip, es[n].port, es[n].data, es[n].residue);
  }

  lemma EnvelopesShow(s: State, es: seq<Event>, due: seq<nat>, ms: seq<Msg>)
    requires Legal(s, es) && Envelopes(es, due, ms)
    ensures Shows(es, due, Buffs(ms))
  {
    hide Legal, Envelope.Build, Envelope.Parse, Envelope.RoutedTopic;
    forall i | 0 <= i < |due|
      ensures |es[due[i]].data| + |es[due[i]].residue| >= 50 && |Buffs(ms)[i]| >= 6
      ensures Envelope.Parse(Buffs(ms)[i]) == (
        var e := es[due[i]];
        if |e.data| <= 50 then Envelope.Nothing
        else Envelope.Shown(e.ip, e.port, Envelope.RoutedTopic(e.data, e.residue), e.data[50], e.data[51..]))
    {
      EnvelopeShows(s, es, due[i], ms[i].buff);
    }
  }

  lemma DueShown(io: Sockets, es: seq<Event>, id: Text)
    requires Legal(Start(io), es)
    ensures Shows(es, DueEvents(Start(io), es, id), Buffs(Due(map[], Operations(io, es), id)))
  {
    assert Start(io).sessions == map[];
    hide Legal, After, Start, Due, DueEvents, Ops, Shows, Envelopes;
    DueAreEnvelopes(Start(io), es, id);
    EnvelopesShow(Start(io), es, DueEvents(Start(io), es, id), Due(map[], Operations(io, es), id));
  }

  /** From the datagram to the screen, while the server runs: the buffers that an undisturbed client's
      parser is given, connection after connection, followed by those stored for it, show one by one
      the datagrams that concerned the client when they came, all of them, in order. */
  lemma EndToEndDisplay(s: ServerState, io: Sockets, es: seq<Event>, id: Text, peeks: Link -> seq<nat>)
    requires ThreeApart(io) && HasRun(s, io, es) && Undisturbed(Start(io), es, id)
    requires NeverMistaken(After(Start(io), es), Links(Start(io), es, id), peeks)
    ensures Shows(es, DueEvents(Start(io), es, id),
                  Heard(CablesOf(s), Links(Start(io), es, id), peeks) + Buffs(Queue(s.Sessions(), id)))
  {
    EndToEndDelivery(s, io, es, id, peeks);
    hide Legal, After, Start, Shows, Heard, Due, DueEvents, Links, Undisturbed, NeverMistaken;
    DueShown(io, es, id);
  }

  /** The same after the shutdown: what was stored then is lost. */
  lemma EndToEndDisplayShutdown(s: ServerState, io: Sockets, es: seq<Event>, id: Text, peeks: Link -> seq<nat>)
    requires ThreeApart(io) && ShutDown(s, io, es) && Undisturbed(Start(io), es, id)
    requires NeverMistaken(After(Start(io), es), Links(Start(io), es, id), peeks)
    ensures Shows(es, DueEvents(Start(io), es, id),
                  Heard(CablesOf(s), Links(Start(io), es, id), peeks) + Buffs(Queue(After(Start(io), es).sessions, id)))
  {
    EndToEndShutdown(s, io, es, id, peeks);
    hide Legal, After, Start, Shows, Heard, Due, DueEvents, Links, Undisturbed, NeverMistaken;
    DueShown(io, es, id);
  }
}
