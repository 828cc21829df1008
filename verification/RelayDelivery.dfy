// Where the frames of the clients go: to data sockets of their own connection, in order,
// with a buffer that is exactly what arrived since a daemon or no client was attached.

module RelayDelivery {
  import opened Wrappers
  import opened Sequences
  import opened Relay
  import opened RelayInvariant

  function FramesOf(outbox: seq<Out>): seq<Payload>
  {
    if outbox == [] then []
    else FramesOf(outbox[..|outbox| - 1]) + if outbox[|outbox| - 1].Frame? then [outbox[|outbox| - 1].data] else []
  }

  // What the data sockets of c were sent, in the order they were accepted; as only the last
  // of them can be up, this is the order of sending.
  function Delivered(sockets: seq<Socket>, c: string): seq<Payload>
  {
    if sockets == [] then []
    else
      var ws := sockets[|sockets| - 1];
      Delivered(sockets[..|sockets| - 1], c) +
      if ws.role == ServerData && ws.connectionId == c then FramesOf(ws.outbox) else []
  }

  function ArrivedOn(arrivals: seq<Arrival>, c: string): seq<Payload>
  {
    if arrivals == [] then []
    else
      ArrivedOn(arrivals[..|arrivals| - 1], c) +
      if arrivals[|arrivals| - 1].connectionId == c then [arrivals[|arrivals| - 1].data] else []
  }

  lemma FramesSnoc(outbox: seq<Out>, x: Out)
    ensures FramesOf(outbox + [x]) == FramesOf(outbox) + if x.Frame? then [x.data] else []
  {
    assert (outbox + [x])[..|outbox|] == outbox;
  }

  lemma {:induction false} FramesOfFrames(data: seq<Payload>)
    ensures FramesOf(AsFrames(data)) == data
  {
    if data != [] {
      var init, last := data[..|data| - 1], data[|data| - 1];
      assert AsFrames(data)[..|data| - 1] == AsFrames(init);
      FramesOfFrames(init);
      assert init + [last] == data;
    }
  }

  // Sockets that keep role, connection and, if data sockets of c, what they were sent.
  ghost predicate SameFrames(s: seq<Socket>, t: seq<Socket>, c: string)
  {
    && |t| == |s|
    && forall i :: 0 <= i < |s| ==>
         && t[i].role == s[i].role && t[i].connectionId == s[i].connectionId
         && (s[i].role == ServerData && s[i].connectionId == c ==> FramesOf(t[i].outbox) == FramesOf(s[i].outbox))
  }

  lemma {:induction false} DeliveredSame(s: seq<Socket>, t: seq<Socket>, c: string)
    requires SameFrames(s, t, c)
    ensures Delivered(t, c) == Delivered(s, c)
  {
    if s != [] {
      DeliveredSame(s[..|s| - 1], t[..|t| - 1], c);
    }
  }

  lemma DeliveredSnoc(s: seq<Socket>, ws: Socket, c: string)
    ensures Delivered(s + [ws], c)
         == Delivered(s, c) + if ws.role == ServerData && ws.connectionId == c then FramesOf(ws.outbox) else []
  {
    assert (s + [ws])[..|s|] == s;
  }

  lemma SendAllSnoc(s: seq<Socket>, ws: Socket, c: string, data: Payload, broken: set<nat>)
    ensures SendAll(s + [ws], DataOf(c), Frame(data), broken) ==
            SendAll(s, DataOf(c), Frame(data), broken) +
            [if Tagged(ws, DataOf(c)) then SendTo(ws, Frame(data), |s| !in broken) else ws]
  {
  }

  // Of the data sockets of c only the last can be sent to.
  lemma SendSkips(s: seq<Socket>, ws: Socket, c: string, data: Payload, broken: set<nat>)
    requires OneLive(s + [ws]) && ws.role == ServerData && ws.connectionId == c
    ensures SendAll(s, DataOf(c), Frame(data), broken) == s
  {
    var all := s + [ws];
    forall i | 0 <= i < |s|
      ensures SendAll(s, DataOf(c), Frame(data), broken)[i] == s[i]
    {
      assert all[i] == s[i] && all[|s|] == ws;
      if Tagged(s[i], DataOf(c)) {
        assert SameServerSide(all[i], all[|s|]);
      }
    }
  }

  lemma OneLiveInit(s: seq<Socket>, ws: Socket)
    requires OneLive(s + [ws])
    ensures OneLive(s)
  {
    var all := s + [ws];
    assert forall i :: 0 <= i < |s| ==> all[i] == s[i];
  }

  // A frame sent to the data sockets of c goes out at most once, behind everything sent before, and nowhere else.
  lemma {:induction false} SendDelivered(s: seq<Socket>, c: string, data: Payload, broken: set<nat>, d: string)
    requires OneLive(s)
    ensures var t := SendAll(s, DataOf(c), Frame(data), broken);
            Delivered(t, d) == Delivered(s, d) || (d == c && Delivered(t, d) == Delivered(s, d) + [data])
  {
    if d != c {
      SendElsewhere(s, c, data, broken, d);
    } else if s != [] {
      hide FramesOf, OneLive, SendAll, Delivered;
      var init, ws := s[..|s| - 1], s[|s| - 1];
      assert s == init + [ws];
      OneLiveInit(init, ws);
      SendDelivered(init, c, data, broken, c);
      SendAllSnoc(init, ws, c, data, broken);
      DeliveredSnoc(init, ws, c);
      var sent := if Tagged(ws, DataOf(c)) then SendTo(ws, Frame(data), |init| !in broken) else ws;
      DeliveredSnoc(SendAll(init, DataOf(c), Frame(data), broken), sent, c);
      if ws.role == ServerData && ws.connectionId == c {
        SendSkips(init, ws, c, data, broken);
        FramesSnoc(ws.outbox, Frame(data));
      } else {
        assert Delivered(init, c) + [] == Delivered(init, c) && Delivered(init, c) + [data] + [] == Delivered(init, c) + [data];
      }
    }
  }

  lemma SendElsewhere(s: seq<Socket>, c: string, data: Payload, broken: set<nat>, d: string)
    requires d != c
    ensures Delivered(SendAll(s, DataOf(c), Frame(data), broken), d) == Delivered(s, d)
  {
    hide FramesOf, Delivered;
    DeliveredSame(s, SendAll(s, DataOf(c), Frame(data), broken), d);
  }

  // ---- Order ----

  // The send of a buffered frame throws while the buffer is flushed to a new data socket.
  predicate FlushThrows(s: State, e: Event)
  {
    e.AcceptData? && e.c != "" && e.failsAt.Some? && e.failsAt.value < |Buffered(s.pending, e.c)|
  }

  predicate FlushesSucceed(events: seq<Event>)
  {
    forall k :: 0 <= k < |events| ==> !FlushThrows(Run(events[..k]), events[k])
  }

  // The frames delivered and then those still buffered, among the arrivals of the connection.
  ghost predicate InOrder(s: State, c: string)
  {
    Subsequence(Delivered(s.sockets, c) + Buffered(s.pending, c), ArrivedOn(s.arrivals, c))
  }

  // A buffer is never empty, and it exists only while no data socket and some client of its connection is listed.
  ghost predicate BuffersInv(s: State)
  {
    forall c :: c in s.pending ==>
      s.pending[c] != [] && !Has(s.sockets, DataOf(c)) && Has(s.sockets, ClientsOf(c))
  }

  ghost predicate DeliveryInv(s: State)
  {
    ControlInv(s) && BuffersInv(s) && forall c :: InOrder(s, c)
  }

  // Steps that move no client frame.
  lemma QuietOrder(s: State, t: State, c: string)
    requires InOrder(s, c) && SameFrames(s.sockets, t.sockets, c) && t.arrivals == s.arrivals
    requires Buffered(t.pending, c) == Buffered(s.pending, c) || Buffered(t.pending, c) == []
    ensures InOrder(t, c)
  {
    DeliveredSame(s.sockets, t.sockets, c);
    if Buffered(t.pending, c) == [] {
      var d, b := Delivered(s.sockets, c), Buffered(s.pending, c);
      assert d + b == d + b + [];
      SubsequenceDrop(d, b, [], ArrivedOn(s.arrivals, c));
      assert d + [] == Delivered(t.sockets, c) + Buffered(t.pending, c);
    }
  }

  lemma ArrivedSnoc(arrivals: seq<Arrival>, a: Arrival, c: string)
    ensures ArrivedOn(arrivals + [a], c) == ArrivedOn(arrivals, c) + if a.connectionId == c then [a.data] else []
  {
    assert (arrivals + [a])[..|arrivals|] == arrivals;
  }

  lemma ClientMessageOrder(s: State, ws: Socket, data: Payload, broken: set<nat>, c: string)
    requires DeliveryInv(s) && ws.role == Client
    ensures InOrder(OnMessage(s, ws, data, broken), c)
  {
    hide Subsequence, ControlInv, Delivered, ArrivedOn, LastN, Has;
    var w := ws.connectionId;
    var t := OnMessage(s, ws, data, broken);
    ArrivedSnoc(s.arrivals, Arrival(w, data), c);
    var d, b, a := Delivered(s.sockets, c), Buffered(s.pending, c), ArrivedOn(s.arrivals, c);
    assert InOrder(s, c);
    if c != w {
      assert a + [] == a;
      if Has(s.sockets, DataOf(w)) {
        OneLiveOf(s);
        SendDelivered(s.sockets, w, data, broken, c);
      }
    } else if Has(s.sockets, DataOf(w)) {
      OneLiveOf(s);
      SendDelivered(s.sockets, w, data, broken, c);
      assert b == [] && d + b == d;
      SubsequenceSnoc(d, a, data);
      SubsequenceSkip(d, a, data);
      assert Delivered(t.sockets, c) + Buffered(t.pending, c) == Delivered(t.sockets, c);
    } else {
      SubsequenceSnoc(d + b, a, data);
      BufferDrops(d, b, data, ArrivedOn(t.arrivals, c));
    }
  }

  lemma OneLiveOf(s: State)
    requires ControlInv(s)
    ensures OneLive(s.sockets)
  {
  }

  // Bounding the buffer drops from the middle of what was delivered and buffered.
  lemma BufferDrops(d: seq<Payload>, b: seq<Payload>, data: Payload, a: seq<Payload>)
    requires Subsequence(d + b + [data], a)
    ensures Subsequence(d + LastN(b + [data], MAX_BUFFERED), a)
  {
    var whole := b + [data];
    var n := if |whole| <= MAX_BUFFERED then 0 else |whole| - MAX_BUFFERED;
    assert whole[..n] + whole[n..] == whole;
    assert d + b + [data] == d + whole[..n] + whole[n..];
    SubsequenceDrop(d, whole[..n], whole[n..], a);
  }

  lemma AcceptDataDelivers(s: State, d: string, failsAt: Option<nat>, c: string)
    ensures var t := OnAcceptData(s, d, failsAt);
            var frames := Buffered(s.pending, d);
            var n := FlushCount(|frames|, failsAt);
            && t.arrivals == s.arrivals
            && Delivered(t.sockets, c) == Delivered(s.sockets, c) + (if c == d then frames[..n] else [])
            && Buffered(t.pending, c)
            == if c != d then Buffered(s.pending, c) else if n < |frames| then [frames[n]] else []
  {
    var t := OnAcceptData(s, d, failsAt);
    var closed := CloseAll(s.sockets, DataOf(d));
    CloseFrames(s.sockets, DataOf(d), c);
    DeliveredSame(s.sockets, closed, c);
    DeliveredSnoc(closed, t.sockets[|closed|], c);
    var frames := Buffered(s.pending, d);
    FramesOfFrames(frames[..FlushCount(|frames|, failsAt)]);
  }

  lemma AcceptDataOrder(s: State, e: string, failsAt: Option<nat>, c: string)
    requires DeliveryInv(s) && FlushCount(|Buffered(s.pending, e)|, failsAt) == |Buffered(s.pending, e)|
    ensures InOrder(OnAcceptData(s, e, failsAt), c)
  {
    hide Subsequence, OnAcceptData, Delivered, ArrivedOn, ControlInv, BuffersInv;
    AcceptDataDelivers(s, e, failsAt, c);
    assert InOrder(s, c);
    var d, frames := Delivered(s.sockets, c), Buffered(s.pending, e);
    assert frames[..|frames|] == frames;
    assert d + [] == d && d + frames + [] == d + frames;
  }

  lemma NotifyFrames(s: seq<Socket>, x: Out, broken: set<nat>, c: string)
    ensures SameFrames(s, NotifyControls(s, x, broken), c)
  {
  }

  // Events that accept nothing and bring no frame of a client.
  predicate Quiet(s: State, e: Event)
  {
    match e
    case Message(i, _, _) => i < |s.sockets| && s.sockets[i].role != Client
    case CloseEvent(_, _) => true
    case NudgeSync(_, _) => true
    case ResetControls(_) => true
    case _ => false
  }

  lemma CloseEventFrames(s: State, i: nat, broken: set<nat>, c: string)
    requires i < |s.sockets|
    ensures SameFrames(s.sockets, OnClose(s, i, broken).sockets, c)
  {
    hide Has, FramesOf;
  }

  lemma QuietFrames(s: State, e: Event, c: string)
    requires Quiet(s, e)
    ensures SameFrames(s.sockets, Next(s, e).sockets, c) && Next(s, e).arrivals == s.arrivals
    ensures Buffered(Next(s, e).pending, c) == Buffered(s.pending, c) || Buffered(Next(s, e).pending, c) == []
  {
    hide Has, FramesOf, OnClose;
    if e.CloseEvent? {
      if e.i < |s.sockets| && s.sockets[e.i].listed {
        CloseEventFrames(s, e.i, e.broken, c);
        CloseEventBuffers(s, e.i, e.broken, c);
      }
    }
  }

  lemma CloseEventBuffers(s: State, i: nat, broken: set<nat>, c: string)
    requires i < |s.sockets|
    ensures var t := OnClose(s, i, broken);
            t.arrivals == s.arrivals && (Buffered(t.pending, c) == Buffered(s.pending, c) || Buffered(t.pending, c) == [])
  {
    hide Has;
  }

  lemma NextOrder(s: State, e: Event, c: string)
    requires DeliveryInv(s) && !FlushThrows(s, e)
    ensures InOrder(Next(s, e), c)
  {
    hide Subsequence, ControlInv, BuffersInv, FramesOf, InOrder, SameFrames, OnMessage, OnClose;
    assert InOrder(s, c);
    var t := Next(s, e);
    if Quiet(s, e) {
      QuietFrames(s, e, c);
      QuietOrder(s, t, c);
    } else {
      match e
      case AcceptClient(_, broken) =>
        if e.c != "" {
          var ws := Socket(Client, e.c, true, false, []);
          NotifyFrames(s.sockets + [ws], Connected(e.c), broken, c);
          SameFramesRefl(s.sockets, c);
          AcceptQuietOrder(s, s.sockets, ws, t, c);
        }
      case AcceptControl(_) =>
        CloseFrames(s.sockets, Controls, c);
        SameFramesRefl(t.sockets, c);
        AcceptQuietOrder(s, CloseAll(s.sockets, Controls), t.sockets[|s.sockets|], t, c);
      case AcceptData(_, _) =>
        if e.c != "" {
          AcceptDataOrder(s, e.c, e.failsAt, c);
        }
      case Message(i, data, broken) =>
        if i < |s.sockets| && s.sockets[i].listed {
          ClientMessageOrder(s, s.sockets[i], data, broken, c);
        }
    }
  }

  lemma SameFramesRefl(s: seq<Socket>, c: string)
    ensures SameFrames(s, s, c)
  {
  }

  lemma CloseFrames(s: seq<Socket>, tag: Tag, c: string)
    ensures SameFrames(s, CloseAll(s, tag), c)
  {
  }

  lemma AcceptQuietOrder(s: State, aged: seq<Socket>, ws: Socket, t: State, c: string)
    requires InOrder(s, c) && SameFrames(s.sockets, aged, c) && ws.role != ServerData
    requires SameFrames(aged + [ws], t.sockets, c) && t.pending == s.pending && t.arrivals == s.arrivals
    ensures InOrder(t, c)
  {
    hide Subsequence;
    AcceptQuietDelivered(s, aged, ws, t, c);
  }

  lemma AcceptQuietDelivered(s: State, aged: seq<Socket>, ws: Socket, t: State, c: string)
    requires SameFrames(s.sockets, aged, c) && ws.role != ServerData && SameFrames(aged + [ws], t.sockets, c)
    ensures Delivered(t.sockets, c) == Delivered(s.sockets, c)
  {
    assert Delivered(aged, c) + [] == Delivered(aged, c);
    DeliveredSame(s.sockets, aged, c);
    DeliveredSnoc(aged, ws, c);
    DeliveredSame(aged + [ws], t.sockets, c);
  }

  // ---- The buffer ----

  lemma HasSnoc(s: seq<Socket>, ws: Socket, tag: Tag)
    ensures Has(s + [ws], tag) <==> Has(s, tag) || Tagged(ws, tag)
  {
    var t := s + [ws];
    assert t[|s|] == ws;
    if Has(s, tag) {
      var i :| 0 <= i < |s| && Tagged(s[i], tag);
      assert Tagged(t[i], tag);
    }
  }

  lemma HasDelisted(s: seq<Socket>, i: nat, tag: Tag)
    requires i < |s|
    ensures Has(Delist(s, i), tag) ==> Has(s, tag)
    ensures !Tagged(s[i], tag) ==> (Has(Delist(s, i), tag) <==> Has(s, tag))
  {
    var t := Delist(s, i);
    if Has(t, tag) {
      var k :| 0 <= k < |t| && Tagged(t[k], tag);
      assert Tagged(s[k], tag);
    }
    if Has(s, tag) && !Tagged(s[i], tag) {
      var k :| 0 <= k < |s| && Tagged(s[k], tag);
      assert Tagged(t[k], tag);
    }
  }

  // What an event does to the sockets listed for c and to the arrivals on c.
  predicate DataListed(s: State, c: string)
  {
    Has(s.sockets, DataOf(c))
  }

  predicate ClientListed(s: State, c: string)
  {
    Has(s.sockets, ClientsOf(c))
  }

  // The frame an event brings in on c.
  function ArrivedNow(s: State, e: Event, c: string): seq<Payload>
  {
    if e.Message? && e.i < |s.sockets| && Tagged(s.sockets[e.i], ClientsOf(c)) then [e.data] else []
  }

  // The arrivals on c since a data socket for c was last listed or no client was.
  function Since(events: seq<Event>, c: string): seq<Payload>
  {
    if events == [] || DataListed(Run(events), c) || !ClientListed(Run(events), c) then []
    else
      var before := events[..|events| - 1];
      Since(before, c) + ArrivedNow(Run(before), events[|events| - 1], c)
  }

  // The buffer an event leaves for c, from the buffer before it and the sockets listed after it.
  ghost predicate BufferStep(s: State, e: Event, c: string)
  {
    var t := Next(s, e);
    var grown := Buffered(s.pending, c) + ArrivedNow(s, e, c);
    && (if DataListed(t, c) || !ClientListed(t, c) then c !in t.pending
        else Buffered(t.pending, c) == LastN(grown, MAX_BUFFERED))
    && (c in t.pending ==> t.pending[c] != [])
  }

  lemma AcceptBuffers(s: State, e: Event, c: string)
    requires BuffersInv(s) && !FlushThrows(s, e) && (e.AcceptClient? || e.AcceptControl? || e.AcceptData?)
    requires |Buffered(s.pending, c)| <= MAX_BUFFERED
    ensures BufferStep(s, e, c)
  {
    hide Has, ConnectedIds, AsFrames;
    match e
    case AcceptClient(d, broken) =>
      var ws := Socket(Client, d, true, false, []);
      if d != "" {
        ListedAfterAccept(s.sockets, s.sockets, ws, Next(s, e).sockets, c, Connected(d), broken);
      }
    case AcceptControl(_) =>
      var ws := Next(s, e).sockets[|s.sockets|];
      CloseAged(s.sockets, Controls);
      AgedListing(s.sockets, CloseAll(s.sockets, Controls), ws, c);
    case AcceptData(d, _) =>
      if d != "" {
        var ws := Next(s, e).sockets[|s.sockets|];
        CloseAged(s.sockets, DataOf(d));
        AgedListing(s.sockets, CloseAll(s.sockets, DataOf(d)), ws, c);
      }
  }

  lemma AgedListing(s: seq<Socket>, aged: seq<Socket>, ws: Socket, c: string)
    requires SameListing(s, aged)
    ensures Has(aged + [ws], DataOf(c)) <==> Has(s, DataOf(c)) || Tagged(ws, DataOf(c))
    ensures Has(aged + [ws], ClientsOf(c)) <==> Has(s, ClientsOf(c)) || Tagged(ws, ClientsOf(c))
  {
    SameListingTags(s, aged, DataOf(c));
    SameListingTags(s, aged, ClientsOf(c));
    HasSnoc(aged, ws, DataOf(c));
    HasSnoc(aged, ws, ClientsOf(c));
  }

  lemma ListedAfterAccept(s: seq<Socket>, aged: seq<Socket>, ws: Socket, t: seq<Socket>, c: string, x: Out, broken: set<nat>)
    requires SameListing(s, aged) && t == NotifyControls(aged + [ws], x, broken)
    ensures Has(t, DataOf(c)) <==> Has(s, DataOf(c)) || Tagged(ws, DataOf(c))
    ensures Has(t, ClientsOf(c)) <==> Has(s, ClientsOf(c)) || Tagged(ws, ClientsOf(c))
  {
    AgedListing(s, aged, ws, c);
    NotifyAged(aged + [ws], x, broken);
    SameListingTags(aged + [ws], t, DataOf(c));
    SameListingTags(aged + [ws], t, ClientsOf(c));
  }

  lemma MessageBuffers(s: State, e: Event, c: string)
    requires BuffersInv(s) && e.Message?
    requires |Buffered(s.pending, c)| <= MAX_BUFFERED
    ensures BufferStep(s, e, c)
  {
    hide Has;
    var t := Next(s, e);
    if e.i < |s.sockets| && s.sockets[e.i].listed {
      var ws := s.sockets[e.i];
      var tag := if ws.role == Client then DataOf(ws.connectionId) else ClientsOf(ws.connectionId);
      SendAged(s.sockets, tag, Frame(e.data), e.broken);
      SameListingTags(s.sockets, t.sockets, DataOf(c)) by { SameListingRefl(s.sockets); }
      SameListingTags(s.sockets, t.sockets, ClientsOf(c)) by { SameListingRefl(s.sockets); }
      TaggedHas(s.sockets, e.i, ClientsOf(c));
    }
  }

  lemma SameListingRefl(s: seq<Socket>)
    ensures SameListing(s, s)
  {
  }

  lemma TaggedHas(s: seq<Socket>, i: nat, tag: Tag)
    requires i < |s|
    ensures Tagged(s[i], tag) ==> Has(s, tag)
  {
  }

  lemma CloseBuffers(s: State, e: Event, c: string)
    requires BuffersInv(s) && e.CloseEvent?
    requires |Buffered(s.pending, c)| <= MAX_BUFFERED
    ensures BufferStep(s, e, c)
  {
    hide Has;
    var i := e.i;
    if i < |s.sockets| && s.sockets[i].listed {
      var ws := s.sockets[i];
      var d := ws.connectionId;
      var rest := Delist(s.sockets, i);
      var t := OnClose(s, i, e.broken);
      CloseListing(s, i, e.broken);
      SameListingTags(rest, t.sockets, DataOf(c));
      SameListingTags(rest, t.sockets, ClientsOf(c));
      HasDelisted(s.sockets, i, DataOf(c));
      HasDelisted(s.sockets, i, ClientsOf(c));
    }
  }

  lemma CloseListing(s: State, i: nat, broken: set<nat>)
    requires i < |s.sockets|
    ensures SameListing(Delist(s.sockets, i), OnClose(s, i, broken).sockets)
  {
    hide Has;
    var rest := Delist(s.sockets, i);
    var c := s.sockets[i].connectionId;
    CloseAged(rest, ClientsOf(c));
    CloseAged(rest, DataOf(c));
    NotifyAged(CloseAll(rest, DataOf(c)), Disconnected(c), broken);
  }

  lemma NudgeBuffers(s: State, e: Event, c: string)
    requires BuffersInv(s) && (e.NudgeSync? || e.ResetControls?)
    requires |Buffered(s.pending, c)| <= MAX_BUFFERED
    ensures BufferStep(s, e, c)
  {
    hide Has, ConnectedIds;
    var t := Next(s, e);
    if e.NudgeSync? {
      NotifyAged(s.sockets, Sync(ConnectedIds(s.sockets)), e.broken);
    }
    CloseAged(s.sockets, Controls);
    SameListingRefl(s.sockets);
    SameListingTags(s.sockets, t.sockets, DataOf(c));
    SameListingTags(s.sockets, t.sockets, ClientsOf(c));
  }

  lemma NextBuffers(s: State, e: Event, c: string)
    requires BuffersInv(s) && !FlushThrows(s, e)
    requires |Buffered(s.pending, c)| <= MAX_BUFFERED
    ensures BufferStep(s, e, c)
  {
    hide BuffersInv, BufferStep;
    match e
    case Message(_, _, _) => MessageBuffers(s, e, c);
    case CloseEvent(_, _) => CloseBuffers(s, e, c);
    case NudgeSync(_, _) => NudgeBuffers(s, e, c);
    case ResetControls(_) => NudgeBuffers(s, e, c);
    case _ => AcceptBuffers(s, e, c);
  }

  lemma FlushesInit(events: seq<Event>)
    requires events != [] && FlushesSucceed(events)
    ensures FlushesSucceed(events[..|events| - 1]) && !FlushThrows(Run(events[..|events| - 1]), events[|events| - 1])
  {
    hide Run, FlushThrows;
    var init := events[..|events| - 1];
    forall k | 0 <= k < |init|
      ensures !FlushThrows(Run(init[..k]), init[k])
    {
      assert init[..k] == events[..k];
    }
  }

  ghost predicate BoundedBuffers(s: State)
  {
    forall c :: |Buffered(s.pending, c)| <= MAX_BUFFERED
  }

  lemma NextDelivery(s: State, e: Event)
    requires DeliveryInv(s) && BoundedBuffers(s) && !FlushThrows(s, e)
    ensures DeliveryInv(Next(s, e)) && BoundedBuffers(Next(s, e))
  {
    hide Next, InOrder, ControlInv, Has;
    NextControl(s, e);
    forall c
      ensures InOrder(Next(s, e), c)
    {
      NextOrder(s, e, c);
    }
    var t := Next(s, e);
    forall c | c in t.pending
      ensures t.pending[c] != [] && !Has(t.sockets, DataOf(c)) && Has(t.sockets, ClientsOf(c))
    {
      NextBuffers(s, e, c);
    }
    forall c
      ensures |Buffered(t.pending, c)| <= MAX_BUFFERED
    {
      NextBuffers(s, e, c);
    }
  }

  // In every run in which no flush throws on a buffered frame: what was delivered and is buffered for a connection is a subsequence of
  // what its clients sent, in order; and a buffer exists only while a client and no data socket is listed.
  lemma {:induction false} RunDelivery(events: seq<Event>)
    requires FlushesSucceed(events)
    ensures DeliveryInv(Run(events)) && BoundedBuffers(Run(events))
  {
    hide Next, FlushesSucceed, DeliveryInv, BoundedBuffers;
    if events == [] {
      InitDelivery();
    } else {
      FlushesInit(events);
      RunDelivery(events[..|events| - 1]);
      NextDelivery(Run(events[..|events| - 1]), events[|events| - 1]);
    }
  }

  lemma InitDelivery()
    ensures DeliveryInv(Init()) && BoundedBuffers(Init())
  {
  }

  // The buffer is exactly the last at most 200 frames that arrived since a data socket or no client was listed.
  lemma {:induction false} BufferExact(events: seq<Event>, c: string)
    requires FlushesSucceed(events)
    ensures Buffered(Run(events).pending, c) == LastN(Since(events, c), MAX_BUFFERED)
    ensures c in Run(events).pending <==> Since(events, c) != []
  {
    hide Next, FlushesSucceed, InOrder, ControlInv, Has, DataListed, ClientListed, ArrivedNow, BuffersInv;
    if events != [] {
      var before, e := events[..|events| - 1], events[|events| - 1];
      FlushesInit(events);
      BufferExact(before, c);
      RunDelivery(before);
      NextBuffers(Run(before), e, c);
      if !DataListed(Run(events), c) && ClientListed(Run(events), c) {
        LastNGrows(Since(before, c), ArrivedNow(Run(before), e, c));
        AtMostOne(Run(before), e, c);
      }
    }
  }

  lemma AtMostOne(s: State, e: Event, c: string)
    ensures |ArrivedNow(s, e, c)| <= 1
  {
  }

  lemma LastNGrows(a: seq<Payload>, b: seq<Payload>)
    ensures LastN(LastN(a, MAX_BUFFERED) + b, MAX_BUFFERED) == LastN(a + b, MAX_BUFFERED)
  {
  }

  // ---- The other direction ----

  // What a client socket was sent came from data sockets of its own connection, in order.
  ghost predicate ClientsServed(s: State)
  {
    forall i :: 0 <= i < |s.sockets| && s.sockets[i].role == Client ==> ServedTo(s, s.sockets[i])
  }

  predicate ServedTo(s: State, ws: Socket)
  {
    Subsequence(FramesOf(ws.outbox), ArrivedOn(s.served, ws.connectionId))
  }

  // Events other than a frame of a data socket leave the client sockets' frames alone.
  ghost predicate ClientsKept(s: State, t: State)
  {
    && t.served == s.served
    && forall i :: 0 <= i < |t.sockets| && t.sockets[i].role == Client ==>
         if i < |s.sockets| then
           s.sockets[i].role == Client && t.sockets[i].connectionId == s.sockets[i].connectionId &&
           t.sockets[i].outbox == s.sockets[i].outbox
         else t.sockets[i].outbox == []
  }

  lemma KeptServed(s: State, t: State)
    requires ClientsServed(s) && ClientsKept(s, t)
    ensures ClientsServed(t)
  {
    hide ArrivedOn;
    forall i | 0 <= i < |t.sockets| && t.sockets[i].role == Client
      ensures ServedTo(t, t.sockets[i])
    {
      if i < |s.sockets| {
        assert ServedTo(s, s.sockets[i]);
      }
    }
  }

  lemma OnCloseKeeps(s: State, i: nat, broken: set<nat>)
    requires i < |s.sockets|
    ensures ClientsKept(s, OnClose(s, i, broken))
  {
    hide Has;
  }

  lemma OtherEventsKeep(s: State, e: Event)
    requires !(e.Message? && e.i < |s.sockets| && s.sockets[e.i].listed && s.sockets[e.i].role == ServerData)
    ensures ClientsKept(s, Next(s, e))
  {
    hide Has, OnClose, ConnectedIds, AsFrames, FlushPending, BufferFrame;
    if e.CloseEvent? && e.i < |s.sockets| && s.sockets[e.i].listed {
      OnCloseKeeps(s, e.i, e.broken);
    }
  }

  lemma ServerMessageServed(s: State, ws: Socket, data: Payload, broken: set<nat>)
    requires ClientsServed(s) && ws.role == ServerData
    ensures ClientsServed(OnMessage(s, ws, data, broken))
  {
    hide Subsequence, ArrivedOn, FramesOf;
    var c := ws.connectionId;
    var t := OnMessage(s, ws, data, broken);
    forall i | 0 <= i < |t.sockets| && t.sockets[i].role == Client
      ensures ServedTo(t, t.sockets[i])
    {
      var w := s.sockets[i];
      assert ServedTo(s, w);
      var arrived := ArrivedOn(s.served, w.connectionId);
      ArrivedSnoc(s.served, Arrival(c, data), w.connectionId);
      assert arrived + [] == arrived;
      SubsequenceSnoc(FramesOf(w.outbox), arrived, data);
      SubsequenceSkip(FramesOf(w.outbox), arrived, data);
      FramesSnoc(w.outbox, Frame(data));
    }
  }

  lemma {:induction false} RunServed(events: seq<Event>)
    ensures ClientsServed(Run(events))
  {
    hide ClientsServed, OnMessage, OnClose, OnAcceptClient, OnAcceptControl, OnAcceptData;
    if events == [] {
      InitServed();
    } else {
      var s, e := Run(events[..|events| - 1]), events[|events| - 1];
      RunServed(events[..|events| - 1]);
      if e.Message? && e.i < |s.sockets| && s.sockets[e.i].listed && s.sockets[e.i].role == ServerData {
        ServerMessageServed(s, s.sockets[e.i], e.data, e.broken);
      } else {
        OtherEventsKeep(s, e);
        KeptServed(s, Next(s, e));
      }
    }
  }

  lemma InitServed()
    ensures ClientsServed(Init())
  {
  }

  // ---- A flush that fails ----

  // A flush keeps every frame, sent or buffered, exactly when no send throws before the last frame.
  lemma FlushConservesIff(pending: map<string, seq<Payload>>, c: string, failsAt: Option<nat>)
    ensures var frames := Buffered(pending, c);
            var sent := frames[..FlushCount(|frames|, failsAt)];
            sent + Buffered(FlushPending(pending, c, failsAt), c) == frames <==>
            failsAt.None? || failsAt.value + 1 >= |frames|
  {
    var frames := Buffered(pending, c);
    var n := FlushCount(|frames|, failsAt);
    if n < |frames| {
      assert Buffered(FlushPending(pending, c, failsAt), c) == [frames[n]];
      if n + 1 == |frames| {
        assert frames[..n] + [frames[n]] == frames;
      }
    } else {
      assert frames[..n] == frames;
    }
  }
}
