// What no failing send can break: in every run a frame of a client goes only to data sockets of its own
// connection, at most once, and buffers stay bounded; and when exactly a failing flush breaks the order.

module RelayRouting {
  import opened Wrappers
  import opened Sequences
  import opened Relay
  import opened RelayInvariant
  import opened RelayDelivery

  // Of the frames that arrived on c each is delivered or buffered at most once, and nothing else is.
  ghost predicate Own(s: State, c: string)
  {
    multiset(Delivered(s.sockets, c)) + multiset(Buffered(s.pending, c)) <= multiset(ArrivedOn(s.arrivals, c))
  }

  // A buffer is bounded, not empty, and exists only while a client is listed.
  predicate Kept(s: State, c: string)
  {
    c in s.pending ==> 0 < |s.pending[c]| <= MAX_BUFFERED && Has(s.sockets, ClientsOf(c))
  }

  predicate FrameFree(outbox: seq<Out>)
  {
    forall k :: 0 <= k < |outbox| ==> !outbox[k].Frame?
  }

  predicate ControlsFrameFree(sockets: seq<Socket>)
  {
    forall i :: 0 <= i < |sockets| && sockets[i].role == Control ==> FrameFree(sockets[i].outbox)
  }

  ghost predicate RoutingInv(s: State)
  {
    ControlInv(s) && ControlsFrameFree(s.sockets) && forall c :: Own(s, c) && Kept(s, c)
  }

  // ---- Each frame at most once, on its own connection ----

  lemma AcceptDataOwn(s: State, d: string, failsAt: Option<nat>, c: string)
    requires Own(s, c)
    ensures Own(OnAcceptData(s, d, failsAt), c)
  {
    hide OnAcceptData, Delivered, ArrivedOn;
    AcceptDataDelivers(s, d, failsAt, c);
    var frames := Buffered(s.pending, d);
    var n := FlushCount(|frames|, failsAt);
    if n < |frames| {
      HeadAndNext(frames, n);
    } else {
      assert frames[..n] == frames;
    }
    assert Delivered(s.sockets, c) + [] == Delivered(s.sockets, c);
  }

  lemma HeadAndNext(frames: seq<Payload>, n: nat)
    requires n < |frames|
    ensures multiset(frames[..n]) + multiset([frames[n]]) <= multiset(frames)
  {
    assert frames == frames[..n] + [frames[n]] + frames[n + 1..];
  }

  lemma LastPart(whole: seq<Payload>, n: nat)
    ensures multiset(LastN(whole, n)) <= multiset(whole)
  {
    assert whole == whole[..|whole| - |LastN(whole, n)|] + LastN(whole, n);
  }

  lemma ClientMessageOwn(s: State, ws: Socket, data: Payload, broken: set<nat>, c: string)
    requires ControlInv(s) && Own(s, c) && ws.role == Client
    ensures Own(OnMessage(s, ws, data, broken), c)
  {
    hide ControlInv, Delivered, ArrivedOn, Has, LastN;
    var w := ws.connectionId;
    ArrivedSnoc(s.arrivals, Arrival(w, data), c);
    var arrived := ArrivedOn(s.arrivals, c);
    assert arrived + [] == arrived;
    if Has(s.sockets, DataOf(w)) {
      OneLiveOf(s);
      SendDelivered(s.sockets, w, data, broken, c);
    } else if c == w {
      LastPart(Buffered(s.pending, c) + [data], MAX_BUFFERED);
    }
  }

  lemma NextOwn(s: State, e: Event, c: string)
    requires ControlInv(s) && Own(s, c)
    ensures Own(Next(s, e), c)
  {
    hide ControlInv, FramesOf, SameFrames, OnMessage, OnClose, OnAcceptData, Delivered;
    var t := Next(s, e);
    if Quiet(s, e) {
      QuietFrames(s, e, c);
      DeliveredSame(s.sockets, t.sockets, c);
    } else {
      match e
      case AcceptClient(_, broken) =>
        var ws := Socket(Client, e.c, true, false, []);
        NotifyFrames(s.sockets + [ws], Connected(e.c), broken, c);
        SameFramesRefl(s.sockets, c);
        if e.c != "" {
          AcceptQuietDelivered(s, s.sockets, ws, t, c);
        }
      case AcceptControl(_) =>
        CloseFrames(s.sockets, Controls, c);
        SameFramesRefl(t.sockets, c);
        AcceptQuietDelivered(s, CloseAll(s.sockets, Controls), t.sockets[|s.sockets|], t, c);
      case AcceptData(d, failsAt) => AcceptDataOwn(s, d, failsAt, c);
      case Message(i, data, broken) =>
        if i < |s.sockets| && s.sockets[i].listed {
          ClientMessageOwn(s, s.sockets[i], data, broken, c);
        }
    }
  }

  // ---- Bounded buffers, of listed clients ----

  lemma AcceptKept(s: State, e: Event, c: string)
    requires Kept(s, c) && (e.AcceptClient? || e.AcceptControl? || e.AcceptData?)
    ensures Kept(Next(s, e), c)
  {
    hide Has, ConnectedIds, AsFrames;
    var t := Next(s, e);
    match e
    case AcceptClient(d, broken) =>
      if d != "" {
        ListedAfterAccept(s.sockets, s.sockets, Socket(Client, d, true, false, []), t.sockets, c, Connected(d), broken);
      }
    case AcceptControl(_) =>
      CloseAged(s.sockets, Controls);
      AgedListing(s.sockets, CloseAll(s.sockets, Controls), t.sockets[|s.sockets|], c);
    case AcceptData(d, _) =>
      if d != "" {
        CloseAged(s.sockets, DataOf(d));
        AgedListing(s.sockets, CloseAll(s.sockets, DataOf(d)), t.sockets[|s.sockets|], c);
      }
  }

  lemma MessageKept(s: State, e: Event, c: string)
    requires Kept(s, c) && e.Message?
    ensures Kept(Next(s, e), c)
  {
    hide Has;
    var t := Next(s, e);
    if e.i < |s.sockets| && s.sockets[e.i].listed {
      var ws := s.sockets[e.i];
      var tag := if ws.role == Client then DataOf(ws.connectionId) else ClientsOf(ws.connectionId);
      SendAged(s.sockets, tag, Frame(e.data), e.broken);
      SameListingRefl(s.sockets);
      SameListingTags(s.sockets, t.sockets, ClientsOf(c));
      TaggedHas(s.sockets, e.i, ClientsOf(c));
    }
  }

  lemma CloseKept(s: State, i: nat, broken: set<nat>, c: string)
    requires Kept(s, c) && i < |s.sockets|
    ensures Kept(OnClose(s, i, broken), c)
  {
    hide Has;
    var rest := Delist(s.sockets, i);
    CloseListing(s, i, broken);
    SameListingTags(rest, OnClose(s, i, broken).sockets, ClientsOf(c));
    HasDelisted(s.sockets, i, ClientsOf(c));
  }

  lemma NextKept(s: State, e: Event, c: string)
    requires Kept(s, c)
    ensures Kept(Next(s, e), c)
  {
    hide Kept, OnMessage, OnClose, OnAcceptClient, OnAcceptControl, OnAcceptData, Has;
    match e
    case Message(_, _, _) => MessageKept(s, e, c);
    case CloseEvent(i, broken) =>
      if i < |s.sockets| && s.sockets[i].listed {
        CloseKept(s, i, broken, c);
      }
    case NudgeSync(d, broken) => NudgeKept(s, e, c);
    case ResetControls(d) => NudgeKept(s, e, c);
    case _ => AcceptKept(s, e, c);
  }

  lemma NudgeKept(s: State, e: Event, c: string)
    requires Kept(s, c) && (e.NudgeSync? || e.ResetControls?)
    ensures Kept(Next(s, e), c)
  {
    hide Has, ConnectedIds;
    if e.NudgeSync? {
      NotifyAged(s.sockets, Sync(ConnectedIds(s.sockets)), e.broken);
    }
    CloseAged(s.sockets, Controls);
    SameListingRefl(s.sockets);
    SameListingTags(s.sockets, Next(s, e).sockets, ClientsOf(c));
  }

  // ---- Control sockets are sent no frames ----

  lemma FrameFreeSnoc(outbox: seq<Out>, x: Out)
    requires FrameFree(outbox) && !x.Frame?
    ensures FrameFree(outbox + [x])
  {
  }

  lemma NotifyFrameFree(s: seq<Socket>, x: Out, broken: set<nat>)
    requires ControlsFrameFree(s) && !x.Frame?
    ensures ControlsFrameFree(NotifyControls(s, x, broken))
  {
    hide FrameFree;
    forall i | 0 <= i < |s| && s[i].role == Control
      ensures FrameFree(NotifyControls(s, x, broken)[i].outbox)
    {
      FrameFreeSnoc(s[i].outbox, x);
    }
  }

  lemma NextFrameFree(s: State, e: Event)
    requires ControlsFrameFree(s.sockets)
    ensures ControlsFrameFree(Next(s, e).sockets)
  {
    hide Has, ConnectedIds, FlushPending, AsFrames, NotifyControls, FrameFree;
    match e
    case AcceptClient(c, broken) => NotifyFrameFree(s.sockets + [Socket(Client, c, true, false, [])], Connected(c), broken);
    case AcceptControl(_) => assert FrameFree([]) && FrameFree([Sync(ConnectedIds(s.sockets))]) by { ListsFrameFree(ConnectedIds(s.sockets)); }
    case NudgeSync(_, broken) => NotifyFrameFree(s.sockets, Sync(ConnectedIds(s.sockets)), broken);
    case CloseEvent(i, broken) =>
      if i < |s.sockets| {
        var c := s.sockets[i].connectionId;
        NotifyFrameFree(CloseAll(Delist(s.sockets, i), DataOf(c)), Disconnected(c), broken);
      }
    case _ =>
  }

  lemma ListsFrameFree(ids: set<string>)
    ensures FrameFree([]) && FrameFree([Sync(ids)])
  {
  }

  // ---- Every run ----

  // In every run, whatever sends fail, flushes included.
  lemma {:induction false} RunRouting(events: seq<Event>)
    ensures RoutingInv(Run(events))
  {
    hide Next, Own, Kept, ControlsFrameFree, ControlInv;
    if events == [] {
      InitRouting();
    } else {
      var s, e := Run(events[..|events| - 1]), events[|events| - 1];
      RunRouting(events[..|events| - 1]);
      NextControl(s, e);
      NextFrameFree(s, e);
      forall c
        ensures Own(Run(events), c) && Kept(Run(events), c)
      {
        NextOwn(s, e, c);
        NextKept(s, e, c);
      }
    }
  }

  lemma InitRouting()
    ensures RoutingInv(Init())
  {
  }

  // ---- A flush that throws ----

  // Buffers exist only while no data socket is listed, until and only until a flush throws on a buffered frame.
  lemma BuffersLostIff(s: State, e: Event)
    requires BuffersInv(s) && BoundedBuffers(s)
    ensures BuffersInv(Next(s, e)) <==> !FlushThrows(s, e)
  {
    var t := Next(s, e);
    if FlushThrows(s, e) {
      assert Tagged(t.sockets[|s.sockets|], DataOf(e.c));
      assert e.c in t.pending;
    } else {
      hide Next, Has, BuffersInv;
      forall c | c in t.pending
        ensures t.pending[c] != [] && !Has(t.sockets, DataOf(c)) && Has(t.sockets, ClientsOf(c))
      {
        NextBuffers(s, e, c);
      }
      assert BuffersInv(t) by { BuffersAre(t); }
    }
  }

  lemma BuffersAre(t: State)
    requires forall c :: c in t.pending ==> t.pending[c] != [] && !Has(t.sockets, DataOf(c)) && Has(t.sockets, ClientsOf(c))
    ensures BuffersInv(t)
  {
    hide Has;
  }

  lemma LiveLastDelivers(s: seq<Socket>, ws: Socket, c: string, data: Payload)
    requires OneLive(s + [ws]) && ws == Socket(ServerData, c, true, false, ws.outbox)
    ensures Delivered(SendAll(s + [ws], DataOf(c), Frame(data), {}), c) == Delivered(s + [ws], c) + [data]
  {
    hide FramesOf;
    var all := s + [ws];
    var t := SendAll(all, DataOf(c), Frame(data), {});
    forall i | 0 <= i < |s|
      ensures t[i] == s[i]
    {
      assert all[i] == s[i];
      if Tagged(s[i], DataOf(c)) {
        assert SameServerSide(all[i], all[|s|]);
      }
    }
    assert t == s + [t[|s|]];
    DeliveredSnoc(s, ws, c);
    DeliveredSnoc(s, t[|s|], c);
    FramesSnoc(ws.outbox, Frame(data));
  }

  // After a throw the buffered frame is behind every later one: any frame that a client of the connection sends
  // now is delivered before it.
  lemma ThrowReorders(s: State, e: Event, y: Payload) returns (i: nat)
    requires DeliveryInv(s) && FlushThrows(s, e)
    ensures var x := Buffered(s.pending, e.c)[e.failsAt.value];
            var t := Next(s, e);
            var u := Next(Next(t, Message(i, y, {})), AcceptData(e.c, None));
            && x in ArrivedOn(s.arrivals, e.c)
            && Delivered(u.sockets, e.c) == Delivered(t.sockets, e.c) + [y, x]
            && ArrivedOn(u.arrivals, e.c) == ArrivedOn(s.arrivals, e.c) + [y]
            && (y !in ArrivedOn(s.arrivals, e.c) ==> !InOrder(u, e.c))
  {
    hide FramesOf, InOrder, BuffersInv, Delivered, ArrivedOn, ControlInv, OnAcceptData, OnMessage;
    var c := e.c;
    var frames := Buffered(s.pending, c);
    var x := frames[e.failsAt.value];
    var t := Next(s, e);
    i := ClientOf(s, c);
    AcceptDataDelivers(s, c, e.failsAt, c);
    AfterAccept(s, c, e.failsAt);
    NextControl(s, e);
    OneLiveOf(t);
    var v := Next(t, Message(i, y, {}));
    SendsToLast(t, i, c, y);
    AcceptDataDelivers(v, c, None, c);
    var u := Next(v, AcceptData(c, None));
    assert Buffered(v.pending, c) == [x];
    assert [x][..1] == [x];
    assert Delivered(t.sockets, c) + [y] + [x] == Delivered(t.sockets, c) + [y, x];
    ArrivedSnoc(s.arrivals, Arrival(c, y), c);
    BufferedArrived(s, c, x);
    if y !in ArrivedOn(s.arrivals, c) {
      OutOfOrder(Delivered(t.sockets, c), y, x, ArrivedOn(s.arrivals, c));
      assert !InOrder(u, c) by { NotInOrder(u, c, Delivered(t.sockets, c) + [y, x], ArrivedOn(s.arrivals, c) + [y]); }
    }
  }

  lemma NotInOrder(u: State, c: string, d: seq<Payload>, a: seq<Payload>)
    requires Delivered(u.sockets, c) == d && Buffered(u.pending, c) == [] && ArrivedOn(u.arrivals, c) == a
    requires !Subsequence(d, a)
    ensures !InOrder(u, c)
  {
    assert d + [] == d;
  }

  lemma ClientOf(s: State, c: string) returns (i: nat)
    requires BuffersInv(s) && c in s.pending
    ensures i < |s.sockets| && Tagged(s.sockets[i], ClientsOf(c))
  {
    assert Has(s.sockets, ClientsOf(c));
    i :| 0 <= i < |s.sockets| && Tagged(s.sockets[i], ClientsOf(c));
  }

  lemma AfterAccept(s: State, c: string, failsAt: Option<nat>)
    ensures var t := OnAcceptData(s, c, failsAt);
            && |t.sockets| == |s.sockets| + 1
            && t.sockets[|s.sockets|] == Socket(ServerData, c, true, false, t.sockets[|s.sockets|].outbox)
            && (forall k :: 0 <= k < |s.sockets| ==> Tagged(s.sockets[k], ClientsOf(c)) ==> Tagged(t.sockets[k], ClientsOf(c)))
  {
  }

  lemma SendsToLast(t: State, i: nat, c: string, y: Payload)
    requires i < |t.sockets| && Tagged(t.sockets[i], ClientsOf(c)) && OneLive(t.sockets)
    requires var n := |t.sockets| - 1; t.sockets[n] == Socket(ServerData, c, true, false, t.sockets[n].outbox)
    ensures var v := Next(t, Message(i, y, {}));
            && Delivered(v.sockets, c) == Delivered(t.sockets, c) + [y] && v.pending == t.pending
            && v.arrivals == t.arrivals + [Arrival(c, y)]
  {
    hide Delivered;
    var n := |t.sockets| - 1;
    assert Tagged(t.sockets[n], DataOf(c));
    assert t.sockets == t.sockets[..n] + [t.sockets[n]];
    LiveLastDelivers(t.sockets[..n], t.sockets[n], c, y);
  }

  lemma {:induction false} SubsequenceMember<T>(sub: seq<T>, s: seq<T>, x: T)
    requires Subsequence(sub, s) && x in sub
    ensures x in s
    decreases |s|
  {
    if sub[|sub| - 1] == s[|s| - 1] {
      if x != s[|s| - 1] {
        assert sub == sub[..|sub| - 1] + [sub[|sub| - 1]];
        SubsequenceMember(sub[..|sub| - 1], s[..|s| - 1], x);
      }
    } else {
      SubsequenceMember(sub, s[..|s| - 1], x);
    }
  }

  lemma BufferedArrived(s: State, c: string, x: Payload)
    requires InOrder(s, c) && x in Buffered(s.pending, c)
    ensures x in ArrivedOn(s.arrivals, c)
  {
    SubsequenceMember(Delivered(s.sockets, c) + Buffered(s.pending, c), ArrivedOn(s.arrivals, c), x);
  }

  lemma OutOfOrder(d: seq<Payload>, y: Payload, x: Payload, a: seq<Payload>)
    requires x in a && y !in a
    ensures !Subsequence(d + [y, x], a + [y])
  {
    var sub, s := d + [y, x], a + [y];
    assert sub[|sub| - 1] == x && s[..|s| - 1] == a;
    if Subsequence(sub, a) {
      assert y in sub;
      SubsequenceMember(sub, a, y);
    }
  }

  predicate Swapped(s: State, x: Payload, y: Payload)
  {
    ArrivedOn(s.arrivals, "c") == [x, y] && Delivered(s.sockets, "c") == [y, x]
  }

  // And a throw can happen: then the first frame of a client is delivered last.
  lemma FailedFlushReorders(x: Payload, y: Payload)
    requires x != y
    ensures exists events :: Swapped(Run(events), x, y)
  {
    var before := OneBuffered(x);
    hide Run, DeliveryInv, Next, Swapped, Delivered, ArrivedOn, Buffered;
    var e, last := AcceptData("c", Some(0)), AcceptData("c", None);
    var i := OneThrow(Run(before), x, y);
    var m := Message(i, y, {});
    ThreeMore(before, e, m, last);
    var events := before + [e] + [m] + [last];
    assert Swapped(Run(events), x, y);
  }

  lemma ThreeMore(before: seq<Event>, a: Event, b: Event, c: Event)
    ensures Run(before + [a] + [b] + [c]) == Next(Next(Next(Run(before), a), b), c)
  {
    hide Next;
    RunSnoc(before, a);
    RunSnoc(before + [a], b);
    RunSnoc(before + [a] + [b], c);
  }

  lemma OneThrow(s: State, x: Payload, y: Payload) returns (i: nat)
    requires DeliveryInv(s) && Buffered(s.pending, "c") == [x]
    requires Delivered(s.sockets, "c") == [] && ArrivedOn(s.arrivals, "c") == [x]
    ensures Swapped(Next(Next(Next(s, AcceptData("c", Some(0))), Message(i, y, {})), AcceptData("c", None)), x, y)
  {
    hide DeliveryInv, Next, Delivered, ArrivedOn, OnAcceptData;
    var e := AcceptData("c", Some(0));
    i := ThrowReorders(s, e, y);
    NextAccept(s, "c", Some(0));
    AcceptDataDelivers(s, "c", Some(0), "c");
    assert Delivered(Next(s, e).sockets, "c") == [] + [x][..0] == [];
    assert [] + [y, x] == [y, x] && [x] + [y] == [x, y];
  }

  // A client has sent one frame, and no data socket is there yet.
  lemma OneBuffered(x: Payload) returns (events: seq<Event>)
    ensures DeliveryInv(Run(events))
    ensures var s := Run(events);
            && Buffered(s.pending, "c") == [x] && Delivered(s.sockets, "c") == [] && ArrivedOn(s.arrivals, "c") == [x]
  {
    var first := [AcceptClient("c", {})];
    OneClient(first, Socket(Client, "c", true, false, []));
    FirstIsQuiet(first);
    hide Run, DeliveryInv, Next, Delivered, ArrivedOn, Buffered, ControlView;
    events := first + [Message(0, x, {})];
    NoneAccepted(events);
    RunSnoc(first, Message(0, x, {}));
    FirstMessage(Run(first), x);
  }

  lemma FirstMessage(s: State, x: Payload)
    requires s.sockets == [Socket(Client, "c", true, false, [])] && s.arrivals == [] && s.pending == map[]
    ensures var t := Next(s, Message(0, x, {}));
            && Buffered(t.pending, "c") == [x] && Delivered(t.sockets, "c") == [] && ArrivedOn(t.arrivals, "c") == [x]
  {
    var client := Socket(Client, "c", true, false, []);
    assert !Has([client], DataOf("c"));
    assert LastN([] + [x], MAX_BUFFERED) == [x];
    ArrivedSnoc([], Arrival("c", x), "c");
    assert [] + [Arrival("c", x)] == [Arrival("c", x)];
    DeliveredSnoc([], client, "c");
    assert [] + [client] == [client];
  }

  lemma FirstIsQuiet(first: seq<Event>)
    requires first == [AcceptClient("c", {})]
    ensures Run(first).arrivals == [] && Run(first).pending == map[]
  {
    assert first[..0] == [] && Run([]) == Init();
  }

  lemma NoneAccepted(events: seq<Event>)
    requires forall k :: 0 <= k < |events| ==> !events[k].AcceptData?
    ensures DeliveryInv(Run(events))
  {
    hide Run, DeliveryInv, BoundedBuffers;
    assert FlushesSucceed(events);
    RunDelivery(events);
  }

  lemma NextAccept(s: State, c: string, failsAt: Option<nat>)
    requires c != ""
    ensures Next(s, AcceptData(c, failsAt)) == OnAcceptData(s, c, failsAt)
  {
  }

  lemma RunSnoc(events: seq<Event>, e: Event)
    ensures Run(events + [e]) == Next(Run(events), e)
  {
    assert (events + [e])[..|events|] == events;
  }
}
