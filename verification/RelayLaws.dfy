// What an event of the relay does to every single socket, and what a socket that is up has been sent when
// no send fails: all of it, not only nothing else.

module RelayLaws {
  import opened Wrappers
  import opened Sequences
  import opened Relay
  import opened RelayInvariant
  import opened RelayDelivery

  // ---- One event ----

  predicate ListedClient(ws: Socket, c: string)
  {
    ws.listed && ws.role == Client && ws.connectionId == c
  }

  predicate ListedData(ws: Socket, c: string)
  {
    ws.listed && ws.role == ServerData && ws.connectionId == c
  }

  // A frame of a daemon goes to every client socket of its connection that can be sent to, and nothing else changes.
  lemma DaemonFrameReachesClients(s: State, i: nat, data: Payload, broken: set<nat>)
    requires i < |s.sockets| && s.sockets[i].listed && s.sockets[i].role == ServerData
    ensures var t := Next(s, Message(i, data, broken));
            var c := s.sockets[i].connectionId;
            && |t.sockets| == |s.sockets| && t.pending == s.pending && t.arrivals == s.arrivals
            && t.served == s.served + [Arrival(c, data)]
            && (forall k :: 0 <= k < |s.sockets| ==>
                 t.sockets[k] == if ListedClient(s.sockets[k], c) && !s.sockets[k].closing && k !in broken
                                 then s.sockets[k].(outbox := s.sockets[k].outbox + [Frame(data)]) else s.sockets[k])
  {
  }

  // A frame of a client goes to every data socket of its connection that can be sent to, if one is listed, and
  // is otherwise the last in the buffer; and nothing else changes.
  lemma ClientFrameReachesDaemon(s: State, i: nat, data: Payload, broken: set<nat>)
    requires i < |s.sockets| && s.sockets[i].listed && s.sockets[i].role == Client
    ensures var t := Next(s, Message(i, data, broken));
            var c := s.sockets[i].connectionId;
            var attached := exists k :: 0 <= k < |s.sockets| && ListedData(s.sockets[k], c);
            && |t.sockets| == |s.sockets| && t.served == s.served
            && t.arrivals == s.arrivals + [Arrival(c, data)]
            && (forall k :: 0 <= k < |s.sockets| ==>
                 t.sockets[k] == if ListedData(s.sockets[k], c) && !s.sockets[k].closing && k !in broken
                                 then s.sockets[k].(outbox := s.sockets[k].outbox + [Frame(data)]) else s.sockets[k])
            && (attached ==> t.pending == s.pending)
            && (!attached ==>
                  && (forall d :: d != c ==> (d in t.pending <==> d in s.pending) && Buffered(t.pending, d) == Buffered(s.pending, d))
                  && Buffered(t.pending, c) != [] && Buffered(t.pending, c)[|Buffered(t.pending, c)| - 1] == data
                  && (|Buffered(s.pending, c)| < 200 ==> Buffered(t.pending, c) == Buffered(s.pending, c) + [data])
                  && (|Buffered(s.pending, c)| == 200 ==> Buffered(t.pending, c) == Buffered(s.pending, c)[1..] + [data]))
  {
    hide BufferFrame, Buffered, FlushPending, ConnectedIds, OnClose;
    var c := s.sockets[i].connectionId;
    ListedTags(s.sockets, c);
    BufferGrows(s.pending, c, data);
    if Has(s.sockets, DataOf(c)) {
      SentToData(s.sockets, c, data, broken);
    } else {
      assert forall k :: 0 <= k < |s.sockets| ==> !ListedData(s.sockets[k], c);
    }
  }

  lemma SentToData(sockets: seq<Socket>, c: string, data: Payload, broken: set<nat>)
    ensures var r := SendAll(sockets, DataOf(c), Frame(data), broken);
            && |r| == |sockets|
            && forall k :: 0 <= k < |sockets| ==>
                 r[k] == if ListedData(sockets[k], c) && !sockets[k].closing && k !in broken
                         then sockets[k].(outbox := sockets[k].outbox + [Frame(data)]) else sockets[k]
  {
  }

  lemma BufferGrows(pending: map<string, seq<Payload>>, c: string, data: Payload)
    ensures var r := BufferFrame(pending, c, data);
            && (forall d :: d != c ==> (d in r <==> d in pending) && Buffered(r, d) == Buffered(pending, d))
            && Buffered(r, c) != [] && Buffered(r, c)[|Buffered(r, c)| - 1] == data
            && (|Buffered(pending, c)| < 200 ==> Buffered(r, c) == Buffered(pending, c) + [data])
            && (|Buffered(pending, c)| == 200 ==> Buffered(r, c) == Buffered(pending, c)[1..] + [data])
  {
  }

  // A control socket that talks, and a socket that is no longer listed, change nothing.
  lemma OtherMessages(s: State, i: nat, data: Payload, broken: set<nat>)
    requires i >= |s.sockets| || !s.sockets[i].listed || s.sockets[i].role == Control
    ensures Next(s, Message(i, data, broken)) == s
  {
  }

  // A daemon that goes takes the client sockets of its connection with it: they are closed, so that they
  // reconnect; no other socket and no buffer changes.
  lemma DaemonGone(s: State, i: nat, broken: set<nat>)
    requires i < |s.sockets| && s.sockets[i].listed && s.sockets[i].role == ServerData
    ensures var t := Next(s, CloseEvent(i, broken));
            var c := s.sockets[i].connectionId;
            && |t.sockets| == |s.sockets| && t.pending == s.pending && t.arrivals == s.arrivals && t.served == s.served
            && t.sockets[i] == s.sockets[i].(listed := false)
            && (forall k :: 0 <= k < |s.sockets| && k != i ==>
                 t.sockets[k] == if ListedClient(s.sockets[k], c) then s.sockets[k].(closing := true) else s.sockets[k])
  {
  }

  // A client that goes while others of its connection are listed leaves everything else as it is.
  lemma OneClientGone(s: State, i: nat, j: nat, broken: set<nat>)
    requires i < |s.sockets| && s.sockets[i].listed && s.sockets[i].role == Client
    requires j < |s.sockets| && j != i && ListedClient(s.sockets[j], s.sockets[i].connectionId)
    ensures Next(s, CloseEvent(i, broken)) == s.(sockets := s.sockets[i := s.sockets[i].(listed := false)])
  {
    assert Tagged(Delist(s.sockets, i)[j], ClientsOf(s.sockets[i].connectionId));
  }

  // The last client that goes takes the buffer and the data sockets of its connection with it, and every control
  // socket is told or closed.
  lemma LastClientGone(s: State, i: nat, broken: set<nat>)
    requires i < |s.sockets| && s.sockets[i].listed && s.sockets[i].role == Client
    requires forall j :: 0 <= j < |s.sockets| && j != i ==> !ListedClient(s.sockets[j], s.sockets[i].connectionId)
    ensures var t := Next(s, CloseEvent(i, broken));
            var c := s.sockets[i].connectionId;
            && |t.sockets| == |s.sockets| && t.pending == s.pending - {c} && t.arrivals == s.arrivals && t.served == s.served
            && t.sockets[i] == s.sockets[i].(listed := false)
            && (forall k :: 0 <= k < |s.sockets| && k != i ==>
                 var ws := s.sockets[k];
                 t.sockets[k] ==
                   if ListedData(ws, c) then ws.(closing := true)
                   else if ws.listed && ws.role == Control then
                     (if !ws.closing && k !in broken then ws.(outbox := ws.outbox + [Disconnected(c)]) else ws.(closing := true))
                   else ws)
  {
    var c := s.sockets[i].connectionId;
    var rest := Delist(s.sockets, i);
    forall k | 0 <= k < |rest|
      ensures !Tagged(rest[k], ClientsOf(c))
    {
      assert k != i ==> rest[k] == s.sockets[k] && !ListedClient(s.sockets[k], c);
    }
    assert !Has(rest, ClientsOf(c));
  }

  // A control socket that goes is only no longer listed.
  lemma ControlGone(s: State, i: nat, broken: set<nat>)
    requires i < |s.sockets| && s.sockets[i].listed && s.sockets[i].role == Control
    ensures Next(s, CloseEvent(i, broken)) == s.(sockets := s.sockets[i := s.sockets[i].(listed := false)])
  {
  }

  // The new socket of a server takes the place of those with its identity, which are closed; a data socket has
  // been sent the buffer up to the first frame that throws, and a control socket the list, if it could be sent.
  lemma ServerAccepted(s: State, c: string, failsAt: Option<nat>, syncFails: bool)
    requires c != ""
    ensures var t := Next(s, AcceptData(c, failsAt));
            var frames := Buffered(s.pending, c);
            && |t.sockets| == |s.sockets| + 1
            && (forall k :: 0 <= k < |s.sockets| ==>
                 t.sockets[k] == if ListedData(s.sockets[k], c) then s.sockets[k].(closing := true) else s.sockets[k])
            && var ws := t.sockets[|s.sockets|];
               && ListedData(ws, c) && !ws.closing
               && FramesOf(ws.outbox) == if failsAt.Some? && failsAt.value < |frames| then frames[..failsAt.value] else frames
    ensures var t := Next(s, AcceptControl(syncFails));
            && |t.sockets| == |s.sockets| + 1 && t.pending == s.pending
            && (forall k :: 0 <= k < |s.sockets| ==>
                 t.sockets[k] == if s.sockets[k].listed && s.sockets[k].role == Control then s.sockets[k].(closing := true)
                                 else s.sockets[k])
            && t.sockets[|s.sockets|].Live() && t.sockets[|s.sockets|].role == Control
            && t.sockets[|s.sockets|].outbox == if syncFails then [] else [Sync(ConnectedIds(s.sockets))]
  {
    hide ConnectedIds, FlushPending;
    var frames := Buffered(s.pending, c);
    FramesOfFrames(frames[..FlushCount(|frames|, failsAt)]);
    assert frames[..|frames|] == frames;
  }

  // A client is accepted beside those there are, and every control socket is told or closed.
  lemma ClientAccepted(s: State, c: string, broken: set<nat>)
    requires c != ""
    ensures var t := Next(s, AcceptClient(c, broken));
            && |t.sockets| == |s.sockets| + 1 && t.pending == s.pending
            && t.sockets[|s.sockets|] == Socket(Client, c, true, false, [])
            && (forall k :: 0 <= k < |s.sockets| ==>
                 var ws := s.sockets[k];
                 t.sockets[k] ==
                   if ws.listed && ws.role == Control then
                     (if !ws.closing && k !in broken then ws.(outbox := ws.outbox + [Connected(c)]) else ws.(closing := true))
                   else ws)
  {
  }

  // The two nudges act only while a client waits for its daemon; the second closes every control socket.
  lemma NudgesAct(s: State, c: string, broken: set<nat>)
    ensures var waits := (exists k :: 0 <= k < |s.sockets| && ListedClient(s.sockets[k], c)) &&
                         !exists k :: 0 <= k < |s.sockets| && ListedData(s.sockets[k], c);
            var t, u := Next(s, ResetControls(c)), Next(s, NudgeSync(c, broken));
            && (!waits ==> t == s && u == s)
            && (waits ==>
                  && |t.sockets| == |s.sockets| == |u.sockets| && t.pending == s.pending == u.pending
                  && forall k :: 0 <= k < |s.sockets| ==>
                       var ws := s.sockets[k];
                       && t.sockets[k] == (if ws.listed && ws.role == Control then ws.(closing := true) else ws)
                       && u.sockets[k] ==
                            if ws.listed && ws.role == Control then
                              (if !ws.closing && k !in broken then ws.(outbox := ws.outbox + [Sync(ConnectedIds(s.sockets))])
                               else ws.(closing := true))
                            else ws)
  {
    hide ConnectedIds;
    ListedTags(s.sockets, c);
  }

  lemma ListedTags(sockets: seq<Socket>, c: string)
    ensures Has(sockets, ClientsOf(c)) <==> exists k :: 0 <= k < |sockets| && ListedClient(sockets[k], c)
    ensures Has(sockets, DataOf(c)) <==> exists k :: 0 <= k < |sockets| && ListedData(sockets[k], c)
  {
    if Has(sockets, ClientsOf(c)) {
      var k :| 0 <= k < |sockets| && Tagged(sockets[k], ClientsOf(c));
      assert ListedClient(sockets[k], c);
    }
    if Has(sockets, DataOf(c)) {
      var k :| 0 <= k < |sockets| && Tagged(sockets[k], DataOf(c));
      assert ListedData(sockets[k], c);
    }
    if exists k :: 0 <= k < |sockets| && ListedClient(sockets[k], c) {
      var k :| 0 <= k < |sockets| && ListedClient(sockets[k], c);
      assert Tagged(sockets[k], ClientsOf(c));
    }
    if exists k :: 0 <= k < |sockets| && ListedData(sockets[k], c) {
      var k :| 0 <= k < |sockets| && ListedData(sockets[k], c);
      assert Tagged(sockets[k], DataOf(c));
    }
  }

  // ---- Runs in which no send of a frame fails ----

  predicate SendsWork(events: seq<Event>)
  {
    forall k :: 0 <= k < |events| ==>
      && (events[k].Message? ==> events[k].broken == {})
      && (events[k].AcceptData? ==> events[k].failsAt.None?)
  }

  // The frame that an event brings in for a socket: for a client from a data socket of its connection, for a
  // data socket from a client of it.
  function BroughtIn(s: State, e: Event, ws: Socket): seq<Payload>
  {
    if e.Message? && e.i < |s.sockets| &&
       ((ws.role == Client && ListedData(s.sockets[e.i], ws.connectionId)) ||
        (ws.role == ServerData && ListedClient(s.sockets[e.i], ws.connectionId)))
    then [e.data] else []
  }

  // All that came in for the k-th socket since it was accepted; a data socket starts with the buffer.
  function Due(events: seq<Event>, k: nat): seq<Payload>
  {
    if k >= |Run(events).sockets| || events == [] then []
    else
      var before, e := events[..|events| - 1], events[|events| - 1];
      if k >= |Run(before).sockets| then (if e.AcceptData? then Buffered(Run(before).pending, e.c) else [])
      else Due(before, k) + BroughtIn(Run(before), e, Run(before).sockets[k])
  }

  // What an event leaves of a socket that is still up behind it.
  predicate SocketStep(s: State, e: Event, t: State, k: nat)
    requires k < |s.sockets|
  {
    && k < |t.sockets|
    && t.sockets[k].role == s.sockets[k].role && t.sockets[k].connectionId == s.sockets[k].connectionId
    && (t.sockets[k].Live() ==> s.sockets[k].Live())
    && (t.sockets[k].Live() && t.sockets[k].role != Control ==>
          FramesOf(t.sockets[k].outbox) == FramesOf(s.sockets[k].outbox) + BroughtIn(s, e, s.sockets[k]))
  }

  lemma MessageSocket(s: State, e: Event, k: nat)
    requires e.Message? && e.broken == {} && k < |s.sockets|
    ensures SocketStep(s, e, Next(s, e), k)
  {
    hide FramesOf, Has, BufferFrame;
    var ws := s.sockets[k];
    assert FramesOf(ws.outbox) + [] == FramesOf(ws.outbox);
    FramesSnoc(ws.outbox, Frame(e.data));
    if e.i < |s.sockets| && s.sockets[e.i].listed {
      if s.sockets[e.i].role == ServerData {
        DaemonFrameReachesClients(s, e.i, e.data, e.broken);
      } else if s.sockets[e.i].role == Client {
        ClientFrameReachesDaemon(s, e.i, e.data, e.broken);
      }
    }
  }

  lemma OtherSocket(s: State, e: Event, k: nat)
    requires !e.Message? && k < |s.sockets|
    ensures SocketStep(s, e, Next(s, e), k)
  {
    hide FramesOf, Has, FlushPending, AsFrames, ConnectedIds, Buffered;
    assert FramesOf(s.sockets[k].outbox) + [] == FramesOf(s.sockets[k].outbox);
  }

  lemma NewSocket(s: State, e: Event)
    requires |Next(s, e).sockets| > |s.sockets| && (e.AcceptData? ==> e.failsAt.None?)
    ensures |Next(s, e).sockets| == |s.sockets| + 1
    ensures var ws := Next(s, e).sockets[|s.sockets|];
            ws.role != Control ==> FramesOf(ws.outbox) == if e.AcceptData? then Buffered(s.pending, e.c) else []
  {
    hide Has, FlushPending, ConnectedIds, OnMessage, OnClose, FramesOf;
    match e
    case AcceptClient(c, _) => assert FramesOf([]) == [] by { NoFrames(); }
    case AcceptControl(_) =>
    case AcceptData(c, _) =>
      var frames := Buffered(s.pending, c);
      FramesOfFrames(frames);
      assert frames[..|frames|] == frames;
    case Message(i, data, broken) => SameNumber(s, e);
    case CloseEvent(i, broken) => SameNumber(s, e);
    case _ =>
  }

  lemma NoFrames()
    ensures FramesOf([]) == []
  {
  }

  lemma SameNumber(s: State, e: Event)
    requires e.Message? || e.CloseEvent?
    ensures |Next(s, e).sockets| == |s.sockets|
  {
    hide Has, BufferFrame;
  }

  lemma SendsInit(events: seq<Event>)
    requires events != [] && SendsWork(events)
    ensures SendsWork(events[..|events| - 1])
    ensures var e := events[|events| - 1]; (e.Message? ==> e.broken == {}) && (e.AcceptData? ==> e.failsAt.None?)
  {
  }

  // A client or data socket that is up has been sent exactly what came in for it since it was accepted, in order:
  // everything from the other side of its connection and, for a data socket, first the buffer.
  lemma {:induction false} LiveSocketsGetAll(events: seq<Event>, k: nat)
    requires SendsWork(events) && k < |Run(events).sockets|
    requires Run(events).sockets[k].Live() && Run(events).sockets[k].role != Control
    ensures FramesOf(Run(events).sockets[k].outbox) == Due(events, k)
  {
    hide SendsWork, FramesOf, Next, BroughtIn, Buffered;
    var before, e := events[..|events| - 1], events[|events| - 1];
    SendsInit(events);
    var s := Run(before);
    if k < |s.sockets| {
      if e.Message? {
        MessageSocket(s, e, k);
      } else {
        OtherSocket(s, e, k);
      }
      LiveSocketsGetAll(before, k);
    } else {
      NewSocket(s, e);
    }
  }
}
