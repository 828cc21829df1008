// What each step of the protocol of ChannelSystem does to both ends and to the links between them: the events of a
// channel, wired to the link, the retried hello, and the handshake of the daemon.

module ChannelSystemLaws {
  import opened Wrappers
  import opened Primitives
  import opened Messages
  import opened Channel
  import opened ChannelSystem
  import L = ChannelLaws

  // The event of the client's channel that a step is; on its links no send fails.
  function ClientEvent(s: System, step: Step): Option<Event>
  {
    match step
    case ClientSends(data, nonce) => Some(AppSend(data, nonce, true))
    case ClientReceives => if s.toClient == [] then None else Some(Inbound(s.toClient[0], true))
    case ClientResumes => Some(Resume)
    case ClientStartsFlush => Some(FlushStarts)
    case ClientFlushesNext(nonce) => Some(FlushContinues(nonce, true))
    case ClientCloses(code) => Some(AppClose(code))
    case ClientTransportCloses => Some(PeerClosed)
    case _ => None
  }

  // The client's side of a step is that event: its frames go behind those on the link, the frame it takes is the
  // first on the other, and the interval is cleared when the channel opens or the transport closes.
  lemma ClientSide(cfg: Config, s: System, step: Step)
    requires s.client.daemonSecret.None? && ClientEvent(s, step).Some?
    ensures var o, t := Channel.Step(cfg.env, s.client, ClientEvent(s, step).value), Next(cfg, s, step);
            && t.client == o.state
            && t.toDaemon == s.toDaemon + o.effects.frames
            && t.toClient == (if step.ClientReceives? then s.toClient[1..] else s.toClient)
            && t.clientGot == s.clientGot + o.effects.delivered
            && (t.retryArmed <==> s.retryArmed && !step.ClientTransportCloses? && !o.effects.onopen)
            && t.daemon == s.daemon && t.daemonSent == s.daemonSent && t.daemonGot == s.daemonGot
            && t.faults == s.faults + if step.ClientReceives? || step.ClientResumes? then |o.effects.closes| else 0
  {
    hide ClassifyHandshake, ClassifyOpen, ReadCiphertext, OpenCiphertext, SealFrame, Rehello;
    assert s.toDaemon + [] == s.toDaemon && s.clientGot + [] == s.clientGot;
  }

  // What a send of the client counts as: queued while handshaking, on the wire while open.
  lemma ClientSendCounts(cfg: Config, s: System, data: Data, nonce: nat)
    ensures var t := Next(cfg, s, ClientSends(data, nonce));
            && t.queued == (if s.client.phase == Handshaking then s.queued + [data] else s.queued)
            && t.live == (if s.client.phase == Open then s.live + [data] else s.live)
            && t.wire == (if s.client.phase == Open then s.wire + [Sent(false, data)] else s.wire)
  {
    hide SealFrame;
  }

  // A tick of the armed interval puts one more hello on the link until the channel is open, and then disarms it.
  lemma RetryResends(cfg: Config, s: System)
    ensures Next(cfg, s, RetryTick) ==
            if !s.retryArmed then s
            else if s.client.phase == Open then s.(retryArmed := false)
            else s.(toDaemon := s.toDaemon + [cfg.Hello()])
  {
  }

  function Ticks(cfg: Config, s: System, n: nat): System
  {
    if n == 0 then s else Next(cfg, Ticks(cfg, s, n - 1), RetryTick)
  }

  // While nothing arrives, every tick of an armed interval is one more hello behind what is on the link; on an open
  // channel there is none, however often it ticks.
  lemma {:induction false} TicksRepeatHello(cfg: Config, s: System, n: nat)
    requires s.retryArmed
    ensures var t := Ticks(cfg, s, n);
            if s.client.phase == Open then t.toDaemon == s.toDaemon && (n > 0 ==> !t.retryArmed)
            else t == s.(toDaemon := s.toDaemon + seq(n, _ => cfg.Hello()))
  {
    hide Next;
    if n == 0 {
      assert s.toDaemon + seq(0, _ => cfg.Hello()) == s.toDaemon;
    } else {
      TicksRepeatHello(cfg, s, n - 1);
      RetryResends(cfg, Ticks(cfg, s, n - 1));
      assert seq(n, _ => cfg.Hello()) == seq(n - 1, _ => cfg.Hello()) + [cfg.Hello()];
      assert s.client.phase == Open ==> Ticks(cfg, s, n - 1).client == s.client by { TicksKeepClient(cfg, s, n - 1); }
    }
  }

  lemma {:induction false} TicksKeepClient(cfg: Config, s: System, n: nat)
    ensures Ticks(cfg, s, n).client == s.client
  {
    hide Next;
    if n > 0 {
      TicksKeepClient(cfg, s, n - 1);
      RetryResends(cfg, Ticks(cfg, s, n - 1));
    }
  }

  // The daemon waits for the first hello with a key that can be imported, and answers that with one ready; any
  // other frame before it is dropped, and a key that cannot be imported ends the handshake.
  lemma DaemonWaits(cfg: Config, s: System)
    requires s.daemon == AwaitingHello && s.toDaemon != []
    ensures var t, traffic := Next(cfg, s, DaemonReceives), ClassifyHandshake(cfg.env, s.toDaemon[0]);
            && t == s.(toDaemon := s.toDaemon[1..], toClient := t.toClient, daemon := t.daemon)
            && (!traffic.Hello? ==> t.daemon == AwaitingHello && t.toClient == s.toClient)
            && (traffic.Hello? ==>
                  var key := cfg.env.importKey(traffic.key);
                  && (key.None? ==> t.daemon == Rejected && t.toClient == s.toClient)
                  && (key.Some? ==>
                        && t.daemon == SendingReady(cfg.env.derive(cfg.daemonSecret, key.value), traffic.binaryCiphertext, [])
                        && t.toClient == s.toClient + [ReadyFrame(cfg.env, traffic.binaryCiphertext)]))
  {
    hide ClassifyHandshake, ReadyFrame;
  }

  // While ready is being sent frames are kept in their order; then the channel is open, with what of them is its
  // own waiting to be decrypted.
  lemma DaemonOpens(cfg: Config, s: System)
    requires s.daemon.SendingReady?
    ensures s.toDaemon != [] ==>
              Next(cfg, s, DaemonReceives) ==
              s.(toDaemon := s.toDaemon[1..], daemon := s.daemon.(buffered := s.daemon.buffered + [s.toDaemon[0]]))
    ensures var t := Next(cfg, s, DaemonReadySent);
            && t.daemon.Established? && t == s.(daemon := t.daemon)
            && var c := t.daemon.channel;
               && c.phase == Open && c.key == s.daemon.key && c.binaryCiphertext == s.daemon.binaryCiphertext
               && c.daemonSecret == Some(cfg.daemonSecret) && c.pendingSends == [] && c.flush == NotStarted
               && c.suspended == Waiting(cfg.env, s.daemon.binaryCiphertext, s.daemon.buffered)
  {
    hide ClassifyHandshake, ReadyFrame, Replay, Waiting;
    ReplayWaits(cfg.env, DaemonState(s.daemon.key, s.daemon.binaryCiphertext, cfg.daemonSecret), s.daemon.buffered);
    var none: seq<Suspended> := [];
    var w := Waiting(cfg.env, s.daemon.binaryCiphertext, s.daemon.buffered);
    assert none + w == w;
  }

  // The frames that are no handshake traffic, as they wait behind the await.
  function Waiting(env: Env, binaryCiphertext: bool, msgs: seq<Message>): seq<Suspended>
  {
    if msgs == [] then []
    else
      var m := msgs[|msgs| - 1];
      var traffic := ClassifyHandshake(env, m);
      var c := ReadCiphertext(env, binaryCiphertext, m);
      Waiting(env, binaryCiphertext, msgs[..|msgs| - 1]) +
      if traffic.Hello? || traffic.Ready? then []
      else [if ClassifyOpen(env, m) == OtherObject || c.None? then Fail else Decrypt(c.value)]
  }

  lemma {:induction false} ReplayWaits(env: Env, s: State, msgs: seq<Message>)
    requires s.phase == Open
    ensures Replay(env, s, msgs) == s.(suspended := s.suspended + Waiting(env, s.binaryCiphertext, msgs))
    decreases |msgs|
  {
    hide ClassifyHandshake, ClassifyOpen, ReadCiphertext, HandleMessage;
    if msgs == [] {
      assert s.suspended + [] == s.suspended;
    } else {
      var init, m := msgs[..|msgs| - 1], msgs[|msgs| - 1];
      ReplayWaits(env, s, init);
      var w := Waiting(env, s.binaryCiphertext, init);
      assert s.suspended + (w + []) == s.suspended + w;
      NoHandshakeWaits(env, Replay(env, s, init), m);
    }
  }

  lemma NoHandshakeWaits(env: Env, s: State, m: Message)
    requires s.phase == Open
    ensures var traffic := ClassifyHandshake(env, m);
            var c := ReadCiphertext(env, s.binaryCiphertext, m);
            !traffic.Hello? && !traffic.Ready? ==>
              && L.Nothing(HandleMessage(env, s, m, true).effects)
              && HandleMessage(env, s, m, true).state ==
                 s.(suspended := s.suspended + [if ClassifyOpen(env, m) == OtherObject || c.None? then Fail else Decrypt(c.value)])
  {
    hide ReadCiphertext, Rehello, IsE2EEHello, IsE2EEReady;
  }

  // The event of the daemon's channel that a step is, once there is one.
  function DaemonEvent(s: System, step: Step): Option<Event>
  {
    match step
    case DaemonReceives => if s.toDaemon == [] then None else Some(Inbound(s.toDaemon[0], true))
    case DaemonResumes => Some(Resume)
    case DaemonCloses(code) => Some(AppClose(code))
    case DaemonTransportCloses => Some(PeerClosed)
    case _ => None
  }

  lemma DaemonSide(cfg: Config, s: System, step: Step)
    requires s.daemon.Established? && DaemonEvent(s, step).Some?
    ensures var o, t := Channel.Step(cfg.env, s.daemon.channel, DaemonEvent(s, step).value), Next(cfg, s, step);
            && t.daemon == Established(o.state)
            && t.toClient == s.toClient + o.effects.frames
            && t.toDaemon == (if step.DaemonReceives? then s.toDaemon[1..] else s.toDaemon)
            && t.daemonGot == s.daemonGot + o.effects.delivered
            && t == s.(daemon := t.daemon, toClient := t.toClient, toDaemon := t.toDaemon, daemonGot := t.daemonGot,
                       faults := s.faults + if step.DaemonReceives? || step.DaemonResumes? then |o.effects.closes| else 0)
  {
    hide ClassifyHandshake, ClassifyOpen, ReadCiphertext, OpenCiphertext, SealFrame, ReadyFrame, AwaitDecrypt;
    assert s.toClient + [] == s.toClient && s.daemonGot + [] == s.daemonGot;
  }

  // A send of the daemon is one sealed frame on the link if its channel is open, and otherwise nothing.
  lemma DaemonSendsFrame(cfg: Config, s: System, data: Data, nonce: nat)
    ensures Next(cfg, s, DaemonSends(data, nonce)) ==
            if s.daemon.Established? && s.daemon.channel.phase == Open then
              s.(toClient := s.toClient + [SealFrame(cfg.env, s.daemon.channel.key, s.daemon.channel.binaryCiphertext, nonce, data)],
                 daemonSent := s.daemonSent + [data])
            else s
  {
    hide SealFrame;
  }

  // In every run the interval is armed while the client is handshaking, and never once its channel is open.
  lemma {:induction false} RetryWhileHandshaking(cfg: Config, steps: seq<Step>)
    ensures var s := RunAll(cfg, steps);
            && s.client.daemonSecret.None?
            && (s.client.phase == Handshaking ==> s.retryArmed) && (s.client.phase == Open ==> !s.retryArmed)
  {
    hide Next, Channel.Step, ClientEvent;
    if steps != [] {
      var init, step := steps[..|steps| - 1], steps[|steps| - 1];
      RetryWhileHandshaking(cfg, init);
      RetryStep(cfg, RunAll(cfg, init), step);
    }
  }

  lemma RetryStep(cfg: Config, s: System, step: Step)
    requires s.client.daemonSecret.None?
    requires (s.client.phase == Handshaking ==> s.retryArmed) && (s.client.phase == Open ==> !s.retryArmed)
    ensures var t := Next(cfg, s, step);
            && t.client.daemonSecret.None?
            && (t.client.phase == Handshaking ==> t.retryArmed) && (t.client.phase == Open ==> !t.retryArmed)
  {
    hide ClassifyHandshake, ClassifyOpen, ReadCiphertext, OpenCiphertext, SealFrame, Rehello, Replay, ReadyFrame;
  }
}
