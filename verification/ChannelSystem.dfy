// Client, daemon and the two FIFO directions of the link between them, as one step
// system. Every step runs one piece of packages/relay/src/encrypted-channel.ts between
// two awaits; the link carries the frames of these two ends only.

module ChannelSystem {
  import opened Wrappers
  import opened Primitives
  import opened Messages
  import opened Channel

  datatype Config = Config(env: Env, clientSecret: Key, daemonSecret: Key)
  {
    // The key createClientChannel derives from the public key it was given.
    function ClientKey(): Key
    {
      env.derive(clientSecret, env.publicOf(daemonSecret))
    }

    function Hello(): Message
    {
      HelloFrame(env, env.publicOf(clientSecret))
    }
  }

  // createDaemonChannel: waiting for a hello, awaiting the send of ready while
  // buffering what arrives, and then the channel; a failure after a valid hello
  // leaves the buffering handler in place.
  datatype Daemon =
    | AwaitingHello
    | SendingReady(key: Key, binaryCiphertext: bool, buffered: seq<Message>)
    | Established(channel: State)
    | Rejected

  // A data frame of the client, and whether it came out of the pending queue.
  datatype Sent = Sent(queued: bool, data: Data)

  datatype System = System(
    client: State,
    retryArmed: bool,
    daemon: Daemon,
    toDaemon: seq<Message>,
    toClient: seq<Message>,
    // History, read by no step: client sends while handshaking and while open, the client's
    // data frames in wire order, the daemon's sends, what both ends handed to onmessage,
    // and the number of times message handling gave up and closed the transport.
    queued: seq<Data>,
    live: seq<Data>,
    wire: seq<Sent>,
    daemonSent: seq<Data>,
    clientGot: seq<Data>,
    daemonGot: seq<Data>,
    faults: nat
  )

  function Init(cfg: Config): System
  {
    System(ClientState(cfg.ClientKey()), true, AwaitingHello, [cfg.Hello()], [], [], [], [], [], [], [], 0)
  }

  datatype Step =
    | RetryTick
    | ClientSends(data: Data, nonce: nat)
    | ClientReceives
    | ClientResumes
    | ClientStartsFlush
    | ClientFlushesNext(nonce: nat)
    | ClientCloses(code: nat)
    | ClientTransportCloses
    | DaemonReceives
    | DaemonReadySent
    | DaemonSends(data: Data, nonce: nat)
    | DaemonResumes
    | DaemonCloses(code: nat)
    | DaemonTransportCloses

  // The frames buffered during the handshake, replayed through the new channel's handler
  // except for plaintext handshake traffic.
  function Replay(env: Env, s: State, buffered: seq<Message>): State
  {
    if buffered == [] then s
    else
      var before := Replay(env, s, buffered[..|buffered| - 1]);
      var m := buffered[|buffered| - 1];
      var traffic := ClassifyHandshake(env, m);
      if traffic.Hello? || traffic.Ready? then before else HandleMessage(env, before, m, true).state
  }

  function ClientStep(cfg: Config, s: System, step: Step): System
  {
    match step
    case RetryTick =>
      if !s.retryArmed then s
      else if s.client.phase == Open then s.(retryArmed := false)
      else s.(toDaemon := s.toDaemon + [cfg.Hello()])
    case ClientSends(data, nonce) =>
      var o := Send(cfg.env, s.client, data, nonce, true);
      var t := s.(client := o.state, toDaemon := s.toDaemon + o.effects.frames);
      (match s.client.phase
       case Handshaking => t.(queued := s.queued + [data])
       case Open => t.(live := s.live + [data], wire := s.wire + [Sent(false, data)])
       case Closed => t)
    case ClientReceives =>
      if s.toClient == [] then s
      else
        var o := HandleMessage(cfg.env, s.client, s.toClient[0], true);
        s.(client := o.state, toClient := s.toClient[1..], toDaemon := s.toDaemon + o.effects.frames,
           retryArmed := s.retryArmed && !o.effects.onopen, faults := s.faults + |o.effects.closes|)
    case ClientResumes =>
      var o := ResumeMessage(cfg.env, s.client);
      s.(client := o.state, clientGot := s.clientGot + o.effects.delivered, faults := s.faults + |o.effects.closes|)
    case ClientStartsFlush => s.(client := StartFlush(s.client))
    case ClientFlushesNext(nonce) =>
      var o := FlushNext(cfg.env, s.client, nonce, true);
      s.(client := o.state, toDaemon := s.toDaemon + o.effects.frames,
         wire := if o.effects.frames == [] then s.wire else s.wire + [Sent(true, s.client.flush.items[0])])
    case ClientCloses(code) => s.(client := Close(s.client, code).state)
    case ClientTransportCloses => s.(client := TransportClosed(s.client), retryArmed := false)
    case _ => s
  }

  function DaemonReceive(cfg: Config, s: System, m: Message): System
  {
    match s.daemon
    case AwaitingHello =>
      var traffic := ClassifyHandshake(cfg.env, m);
      if !traffic.Hello? then s
      else
        var publicKey := cfg.env.importKey(traffic.key);
        if publicKey.None? then s.(daemon := Rejected)
        else
          s.(daemon := SendingReady(cfg.env.derive(cfg.daemonSecret, publicKey.value), traffic.binaryCiphertext, []),
             toClient := s.toClient + [ReadyFrame(cfg.env, traffic.binaryCiphertext)])
    case SendingReady(key, binaryCiphertext, buffered) =>
      s.(daemon := SendingReady(key, binaryCiphertext, buffered + [m]))
    case Established(channel) =>
      var o := HandleMessage(cfg.env, channel, m, true);
      s.(daemon := Established(o.state), toClient := s.toClient + o.effects.frames,
         faults := s.faults + |o.effects.closes|)
    case Rejected => s
  }

  function DaemonStep(cfg: Config, s: System, step: Step): System
  {
    match step
    case DaemonReceives =>
      if s.toDaemon == [] then s
      else DaemonReceive(cfg, s.(toDaemon := s.toDaemon[1..]), s.toDaemon[0])
    case DaemonReadySent =>
      (match s.daemon
       case SendingReady(key, binaryCiphertext, buffered) =>
         s.(daemon := Established(Replay(cfg.env, DaemonState(key, binaryCiphertext, cfg.daemonSecret), buffered)))
       case _ => s)
    case DaemonSends(data, nonce) =>
      if s.daemon.Established? && s.daemon.channel.phase == Open then
        s.(toClient := s.toClient + Send(cfg.env, s.daemon.channel, data, nonce, true).effects.frames,
           daemonSent := s.daemonSent + [data])
      else s
    case DaemonResumes =>
      if s.daemon.Established? then
        var o := ResumeMessage(cfg.env, s.daemon.channel);
        s.(daemon := Established(o.state), daemonGot := s.daemonGot + o.effects.delivered,
           faults := s.faults + |o.effects.closes|)
      else s
    case DaemonCloses(code) =>
      if s.daemon.Established? then s.(daemon := Established(Close(s.daemon.channel, code).state)) else s
    case DaemonTransportCloses =>
      if s.daemon.Established? then s.(daemon := Established(TransportClosed(s.daemon.channel))) else s
    case _ => s
  }

  predicate OfClient(step: Step)
  {
    step.RetryTick? || step.ClientSends? || step.ClientReceives? || step.ClientResumes? || step.ClientStartsFlush? ||
    step.ClientFlushesNext? || step.ClientCloses? || step.ClientTransportCloses?
  }

  function Next(cfg: Config, s: System, step: Step): System
  {
    if OfClient(step) then ClientStep(cfg, s, step) else DaemonStep(cfg, s, step)
  }

  function RunAll(cfg: Config, steps: seq<Step>): System
  {
    if steps == [] then Init(cfg) else Next(cfg, RunAll(cfg, steps[..|steps| - 1]), steps[|steps| - 1])
  }

  // ---- Reading frames ----

  // The data a frame carries to an open channel of the negotiated mode.
  function PlainOf(cfg: Config, m: Message): Option<Data>
  {
    if ClassifyOpen(cfg.env, m) != NotHandshake then None
    else
      var c := ReadCiphertext(cfg.env, true, m);
      if c.None? then None else OpenCiphertext(cfg.env, cfg.ClientKey(), c.value)
  }

  function Plain(cfg: Config, msgs: seq<Message>): seq<Data>
  {
    if msgs == [] then []
    else
      Plain(cfg, msgs[..|msgs| - 1]) +
      var d := PlainOf(cfg, msgs[|msgs| - 1]);
      if d.Some? then [d.value] else []
  }

  function AwaitedOf(cfg: Config, x: Suspended): Option<Data>
  {
    if x.Fail? then None else OpenCiphertext(cfg.env, cfg.ClientKey(), x.c)
  }

  function Awaited(cfg: Config, xs: seq<Suspended>): seq<Data>
  {
    if xs == [] then []
    else
      Awaited(cfg, xs[..|xs| - 1]) +
      var d := AwaitedOf(cfg, xs[|xs| - 1]);
      if d.Some? then [d.value] else []
  }

  function WireData(wire: seq<Sent>): seq<Data>
  {
    seq(|wire|, i requires 0 <= i < |wire| => wire[i].data)
  }

  // The data of the queued (or the live) frames among those sent, in wire order.
  function Group(wire: seq<Sent>, queued: bool): seq<Data>
  {
    if wire == [] then []
    else
      Group(wire[..|wire| - 1], queued) +
      if wire[|wire| - 1].queued == queued then [wire[|wire| - 1].data] else []
  }

  predicate IsSealed(cfg: Config, m: Message)
  {
    && !ClassifyHandshake(cfg.env, m).Hello?
    && !ClassifyHandshake(cfg.env, m).Ready?
    && PlainOf(cfg, m).Some?
  }

  lemma SealedFrame(cfg: Config, nonce: nat, data: Data)
    ensures var m := SealFrame(cfg.env, cfg.ClientKey(), true, nonce, data);
            IsSealed(cfg, m) && PlainOf(cfg, m) == Some(data)
  {
    SealedIsNoHandshake(cfg.env, cfg.ClientKey(), true, nonce, data);
    SealedOpens(cfg.env, cfg.ClientKey(), nonce, data);
  }

  lemma HandshakeFrames(cfg: Config)
    ensures ClassifyHandshake(cfg.env, cfg.Hello()).Hello? && PlainOf(cfg, cfg.Hello()) == None
    ensures var r := ReadyFrame(cfg.env, true); ClassifyHandshake(cfg.env, r) == Ready(true) && PlainOf(cfg, r) == None
  {
    HelloReads(cfg.env, cfg.clientSecret);
    ReadyReads(cfg.env, true);
  }

  lemma {:induction false} PlainCat(cfg: Config, a: seq<Message>, b: seq<Message>)
    ensures Plain(cfg, a + b) == Plain(cfg, a) + Plain(cfg, b)
  {
    if b == [] {
      assert a + b == a;
    } else {
      assert (a + b)[..|a + b| - 1] == a + b[..|b| - 1];
      PlainCat(cfg, a, b[..|b| - 1]);
    }
  }

  lemma {:induction false} AwaitedCat(cfg: Config, a: seq<Suspended>, b: seq<Suspended>)
    ensures Awaited(cfg, a + b) == Awaited(cfg, a) + Awaited(cfg, b)
  {
    if b == [] {
      assert a + b == a;
    } else {
      assert (a + b)[..|a + b| - 1] == a + b[..|b| - 1];
      AwaitedCat(cfg, a, b[..|b| - 1]);
    }
  }

  lemma PlainOne(cfg: Config, m: Message)
    ensures Plain(cfg, [m]) == if PlainOf(cfg, m).Some? then [PlainOf(cfg, m).value] else []
  {
    assert [m][..0] == [];
  }

  lemma AwaitedOne(cfg: Config, x: Suspended)
    ensures Awaited(cfg, [x]) == if AwaitedOf(cfg, x).Some? then [AwaitedOf(cfg, x).value] else []
  {
    assert [x][..0] == [];
  }

  lemma PlainSnoc(cfg: Config, msgs: seq<Message>, m: Message)
    ensures Plain(cfg, msgs + [m]) == Plain(cfg, msgs) + if PlainOf(cfg, m).Some? then [PlainOf(cfg, m).value] else []
  {
    PlainCat(cfg, msgs, [m]);
    PlainOne(cfg, m);
  }

  lemma PlainHead(cfg: Config, msgs: seq<Message>)
    requires msgs != []
    ensures Plain(cfg, msgs)
         == (if PlainOf(cfg, msgs[0]).Some? then [PlainOf(cfg, msgs[0]).value] else []) + Plain(cfg, msgs[1..])
  {
    PlainCat(cfg, [msgs[0]], msgs[1..]);
    PlainOne(cfg, msgs[0]);
    assert [msgs[0]] + msgs[1..] == msgs;
  }

  lemma AwaitedSnoc(cfg: Config, xs: seq<Suspended>, x: Suspended)
    ensures Awaited(cfg, xs + [x]) == Awaited(cfg, xs) + if AwaitedOf(cfg, x).Some? then [AwaitedOf(cfg, x).value] else []
  {
    AwaitedCat(cfg, xs, [x]);
    AwaitedOne(cfg, x);
  }

  lemma AwaitedHead(cfg: Config, xs: seq<Suspended>)
    requires xs != []
    ensures Awaited(cfg, xs)
         == (if AwaitedOf(cfg, xs[0]).Some? then [AwaitedOf(cfg, xs[0]).value] else []) + Awaited(cfg, xs[1..])
  {
    AwaitedCat(cfg, [xs[0]], xs[1..]);
    AwaitedOne(cfg, xs[0]);
    assert [xs[0]] + xs[1..] == xs;
  }

  lemma WireSnoc(wire: seq<Sent>, x: Sent)
    ensures WireData(wire + [x]) == WireData(wire) + [x.data]
    ensures Group(wire + [x], x.queued) == Group(wire, x.queued) + [x.data]
    ensures Group(wire + [x], !x.queued) == Group(wire, !x.queued)
  {
    assert (wire + [x])[..|wire|] == wire;
  }
}
