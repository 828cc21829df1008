// packages/relay/src/cloudflare-adapter.ts, protocol version 2: the sockets of one
// Durable Object, the frames buffered for daemons that have not attached yet, and the
// notifications on the control socket. Every step is one event the runtime delivers.

module Relay {
  import opened Wrappers
  import opened Sequences
  import Messages

  // A relayed frame, text or binary; the relay never looks into it.
  type Payload = Messages.Data

  const MAX_BUFFERED: nat := 200

  datatype Role = Client | Control | ServerData

  // What a socket has been sent: a relayed frame or a notification.
  datatype Out =
    | Frame(data: Payload)
    | Sync(connectionIds: set<string>)
    | Connected(connectionId: string)
    | Disconnected(connectionId: string)

  // listed: returned by getWebSockets, from accept until after its close event.
  // closing: close has been called on it, so that sends to it throw.
  datatype Socket = Socket(role: Role, connectionId: string, listed: bool, closing: bool, outbox: seq<Out>)
  {
    predicate Live()
    {
      listed && !closing
    }
  }

  datatype Tag = ClientsOf(connectionId: string) | Controls | DataOf(connectionId: string)

  predicate Tagged(ws: Socket, tag: Tag)
  {
    ws.listed &&
    match tag
    case ClientsOf(c) => ws.role == Client && ws.connectionId == c
    case Controls => ws.role == Control
    case DataOf(c) => ws.role == ServerData && ws.connectionId == c
  }

  // A frame that came in on a socket of a connection.
  datatype Arrival = Arrival(connectionId: string, data: Payload)

  // arrivals and served are history, read by no step: the frames that came in on client and on data sockets.
  datatype State = State(
    sockets: seq<Socket>,
    pending: map<string, seq<Payload>>,
    arrivals: seq<Arrival>,
    served: seq<Arrival>
  )

  function Init(): State
  {
    State([], map[], [], [])
  }

  predicate Has(sockets: seq<Socket>, tag: Tag)
  {
    exists i :: 0 <= i < |sockets| && Tagged(sockets[i], tag)
  }

  function ConnectedIds(sockets: seq<Socket>): set<string>
  {
    set i | 0 <= i < |sockets| && sockets[i].listed && sockets[i].role == Client :: sockets[i].connectionId
  }

  // ---- Loops over getWebSockets ----

  // send, with an exception swallowed: broken holds the sockets whose send throws although they are not closing.
  function SendTo(ws: Socket, x: Out, ok: bool): Socket
  {
    if !ws.closing && ok then ws.(outbox := ws.outbox + [x]) else ws
  }

  function SendAll(sockets: seq<Socket>, tag: Tag, x: Out, broken: set<nat>): (r: seq<Socket>)
    ensures |r| == |sockets|
  {
    seq(|sockets|, i requires 0 <= i < |sockets| =>
      if Tagged(sockets[i], tag) then SendTo(sockets[i], x, i !in broken) else sockets[i])
  }

  function CloseAll(sockets: seq<Socket>, tag: Tag): (r: seq<Socket>)
    ensures |r| == |sockets|
  {
    seq(|sockets|, i requires 0 <= i < |sockets| =>
      if Tagged(sockets[i], tag) then sockets[i].(closing := true) else sockets[i])
  }

  // A control socket that cannot be sent to is closed, so that the daemon reconnects.
  function Notify(ws: Socket, x: Out, ok: bool): Socket
  {
    if !ws.closing && ok then ws.(outbox := ws.outbox + [x]) else ws.(closing := true)
  }

  function NotifyControls(sockets: seq<Socket>, x: Out, broken: set<nat>): (r: seq<Socket>)
    ensures |r| == |sockets|
  {
    seq(|sockets|, i requires 0 <= i < |sockets| =>
      if Tagged(sockets[i], Controls) then Notify(sockets[i], x, i !in broken) else sockets[i])
  }

  // ---- Buffering ----

  function Buffered(pending: map<string, seq<Payload>>, c: string): seq<Payload>
  {
    if c in pending then pending[c] else []
  }

  function BufferFrame(pending: map<string, seq<Payload>>, c: string, data: Payload): map<string, seq<Payload>>
  {
    pending[c := LastN(Buffered(pending, c) + [data], MAX_BUFFERED)]
  }

  function AsFrames(data: seq<Payload>): (r: seq<Out>)
    ensures |r| == |data|
  {
    seq(|data|, i requires 0 <= i < |data| => Frame(data[i]))
  }

  // How many of n frames a flush gets out when the send of frame number failsAt throws.
  function FlushCount(n: nat, failsAt: Option<nat>): nat
  {
    if failsAt.Some? && failsAt.value < n then failsAt.value else n
  }

  // flushFrames: the buffer is dropped, the frames are sent in order, and the first that throws is all that is kept.
  function FlushPending(pending: map<string, seq<Payload>>, c: string, failsAt: Option<nat>): map<string, seq<Payload>>
  {
    var frames := Buffered(pending, c);
    var sent := FlushCount(|frames|, failsAt);
    if frames == [] then pending
    else if sent == |frames| then pending - {c}
    else BufferFrame(pending - {c}, c, frames[sent])
  }

  // ---- Events ----

  datatype Event =
    | AcceptClient(c: string, broken: set<nat>)
    | AcceptControl(syncFails: bool)
    | AcceptData(c: string, failsAt: Option<nat>)
    | Message(i: nat, data: Payload, broken: set<nat>)
    | CloseEvent(i: nat, broken: set<nat>)
    | NudgeSync(c: string, broken: set<nat>)
    | ResetControls(c: string)

  function OnAcceptClient(s: State, c: string, broken: set<nat>): State
  {
    var accepted := s.sockets + [Socket(Client, c, true, false, [])];
    s.(sockets := NotifyControls(accepted, Connected(c), broken))
  }

  function OnAcceptControl(s: State, syncFails: bool): State
  {
    var outbox := if syncFails then [] else [Sync(ConnectedIds(s.sockets))];
    s.(sockets := CloseAll(s.sockets, Controls) + [Socket(Control, "", true, false, outbox)])
  }

  function OnAcceptData(s: State, c: string, failsAt: Option<nat>): State
  {
    var frames := Buffered(s.pending, c);
    var outbox := AsFrames(frames[..FlushCount(|frames|, failsAt)]);
    s.(sockets := CloseAll(s.sockets, DataOf(c)) + [Socket(ServerData, c, true, false, outbox)],
       pending := FlushPending(s.pending, c, failsAt))
  }

  function OnMessage(s: State, ws: Socket, data: Payload, broken: set<nat>): State
  {
    var c := ws.connectionId;
    match ws.role
    case Control => s
    case ServerData =>
      s.(sockets := SendAll(s.sockets, ClientsOf(c), Frame(data), broken), served := s.served + [Arrival(c, data)])
    case Client =>
      var t := s.(arrivals := s.arrivals + [Arrival(c, data)]);
      if !Has(s.sockets, DataOf(c)) then t.(pending := BufferFrame(s.pending, c, data))
      else t.(sockets := SendAll(s.sockets, DataOf(c), Frame(data), broken))
  }

  function Delist(sockets: seq<Socket>, i: nat): seq<Socket>
    requires i < |sockets|
  {
    sockets[i := sockets[i].(listed := false)]
  }

  // webSocketClose, after which the runtime no longer lists the socket.
  function OnClose(s: State, i: nat, broken: set<nat>): State
    requires i < |s.sockets|
  {
    var ws := s.sockets[i];
    var c := ws.connectionId;
    var rest := Delist(s.sockets, i);
    match ws.role
    case Control => s.(sockets := rest)
    case ServerData => s.(sockets := CloseAll(rest, ClientsOf(c)))
    case Client =>
      if Has(rest, ClientsOf(c)) then s.(sockets := rest)
      else
        s.(pending := s.pending - {c}, sockets := NotifyControls(CloseAll(rest, DataOf(c)), Disconnected(c), broken))
  }

  function Next(s: State, e: Event): State
  {
    match e
    case AcceptClient(c, broken) => if c == "" then s else OnAcceptClient(s, c, broken)
    case AcceptControl(syncFails) => OnAcceptControl(s, syncFails)
    case AcceptData(c, failsAt) => if c == "" then s else OnAcceptData(s, c, failsAt)
    case Message(i, data, broken) =>
      if i < |s.sockets| && s.sockets[i].listed then OnMessage(s, s.sockets[i], data, broken) else s
    case CloseEvent(i, broken) =>
      if i < |s.sockets| && s.sockets[i].listed then OnClose(s, i, broken) else s
    case NudgeSync(c, broken) =>
      if Has(s.sockets, ClientsOf(c)) && !Has(s.sockets, DataOf(c)) then
        s.(sockets := NotifyControls(s.sockets, Sync(ConnectedIds(s.sockets)), broken))
      else s
    case ResetControls(c) =>
      if Has(s.sockets, ClientsOf(c)) && !Has(s.sockets, DataOf(c)) then s.(sockets := CloseAll(s.sockets, Controls)) else s
  }

  function Run(events: seq<Event>): State
  {
    if events == [] then Init() else Next(Run(events[..|events| - 1]), events[|events| - 1])
  }

  // ---- The daemon's view ----

  // How a daemon takes one notification into the set of connections it holds.
  function FoldOne(held: set<string>, x: Out): set<string>
  {
    match x
    case Sync(ids) => ids
    case Connected(c) => held + {c}
    case Disconnected(c) => held - {c}
    case Frame(_) => held
  }

  function Fold(outbox: seq<Out>): set<string>
  {
    if outbox == [] then {} else FoldOne(Fold(outbox[..|outbox| - 1]), outbox[|outbox| - 1])
  }

  lemma FoldSnoc(outbox: seq<Out>, x: Out)
    ensures Fold(outbox + [x]) == FoldOne(Fold(outbox), x)
  {
    assert (outbox + [x])[..|outbox|] == outbox;
  }

  // The daemon has been sent a full list.
  predicate Told(ws: Socket)
  {
    exists k :: 0 <= k < |ws.outbox| && ws.outbox[k].Sync?
  }

  // What a daemon holds are ids with a listed client, and all of them: always when its control socket has been
  // sent a list, and with all set also when it has not.
  ghost predicate Views(sockets: seq<Socket>, all: bool)
  {
    forall i :: 0 <= i < |sockets| && sockets[i].role == Control && sockets[i].Live() ==>
      && Fold(sockets[i].outbox) <= ConnectedIds(sockets)
      && (all || Told(sockets[i]) ==> Fold(sockets[i].outbox) == ConnectedIds(sockets))
  }

  predicate SameServerSide(v: Socket, w: Socket)
  {
    v.role != Client && w.role == v.role && w.connectionId == v.connectionId
  }

  // Of the sockets with one server-side identity only the last accepted can be up.
  ghost predicate OneLive(sockets: seq<Socket>)
  {
    forall i, j :: 0 <= i < j < |sockets| && SameServerSide(sockets[i], sockets[j]) ==> !sockets[i].Live()
  }

  ghost predicate ControlsUnnamed(sockets: seq<Socket>)
  {
    forall i :: 0 <= i < |sockets| && sockets[i].role == Control ==> sockets[i].connectionId == ""
  }

  // t has the sockets of s, each possibly closing, delisted or with more sent.
  predicate Aged(s: seq<Socket>, t: seq<Socket>)
  {
    && |t| == |s|
    && forall i :: 0 <= i < |s| ==>
         t[i].role == s[i].role && t[i].connectionId == s[i].connectionId && (t[i].Live() ==> s[i].Live())
  }

  lemma AgedOneLive(s: seq<Socket>, t: seq<Socket>)
    requires OneLive(s) && ControlsUnnamed(s) && Aged(s, t)
    ensures OneLive(t) && ControlsUnnamed(t)
  {
  }

  lemma AcceptOneLive(s: seq<Socket>, tag: Tag, ws: Socket)
    requires OneLive(s) && ControlsUnnamed(s)
    requires (tag == Controls && ws.role == Control && ws.connectionId == "") ||
             (tag.DataOf? && ws.role == ServerData && ws.connectionId == tag.connectionId)
    ensures OneLive(CloseAll(s, tag) + [ws]) && ControlsUnnamed(CloseAll(s, tag) + [ws])
  {
    AgedOneLive(s, CloseAll(s, tag));
  }
}
