// What every reachable state of the two-party system satisfies, and the delivery,
// agreement and ordering theorems that follow.

module ChannelInvariant {
  import opened Wrappers
  import opened Sequences
  import opened Primitives
  import opened Messages
  import opened Channel
  import opened ChannelSystem

  ghost predicate HonestToDaemon(cfg: Config, msgs: seq<Message>)
  {
    forall i :: 0 <= i < |msgs| ==> msgs[i] == cfg.Hello() || IsSealed(cfg, msgs[i])
  }

  ghost predicate HonestToClient(cfg: Config, msgs: seq<Message>)
  {
    forall i :: 0 <= i < |msgs| ==> msgs[i] == ReadyFrame(cfg.env, true) || IsSealed(cfg, msgs[i])
  }

  ghost predicate AllHello(cfg: Config, msgs: seq<Message>)
  {
    forall i :: 0 <= i < |msgs| ==> msgs[i] == cfg.Hello()
  }

  ghost predicate AllDecrypt(cfg: Config, xs: seq<Suspended>)
  {
    forall i :: 0 <= i < |xs| ==> AwaitedOf(cfg, xs[i]).Some?
  }

  // Both ends: keys, negotiated kind, and nothing but this system's frames anywhere.
  ghost predicate Shape(cfg: Config, s: System)
  {
    && s.client.key == cfg.ClientKey()
    && s.client.daemonSecret == None
    && (s.client.phase == Open ==> s.client.binaryCiphertext)
    && AllDecrypt(cfg, s.client.suspended)
    && HonestToDaemon(cfg, s.toDaemon)
    && HonestToClient(cfg, s.toClient)
    && s.faults == 0
    && match s.daemon
       case AwaitingHello => true
       case SendingReady(key, binaryCiphertext, buffered) =>
         key == cfg.ClientKey() && binaryCiphertext && HonestToDaemon(cfg, buffered)
       case Established(channel) =>
         && channel.key == cfg.ClientKey()
         && channel.binaryCiphertext
         && channel.daemonSecret == Some(cfg.daemonSecret)
         && channel.phase != Handshaking
         && AllDecrypt(cfg, channel.suspended)
       case Rejected => false
  }

  // Before the client has seen ready it has sent hellos only, and ready is the next frame it reads.
  ghost predicate Handshake(cfg: Config, s: System)
  {
    && (s.client.phase == Handshaking ==>
          && s.client.flush == NotStarted
          && s.client.suspended == []
          && s.clientGot == []
          && (s.daemon.AwaitingHello? || (s.toClient != [] && s.toClient[0] == ReadyFrame(cfg.env, true))))
    && (s.client.phase == Open ==> s.client.flush != NotStarted)
    && (s.daemon.AwaitingHello? ==>
          && s.client.phase != Open
          && s.client.flush == NotStarted
          && s.toDaemon != []
          && AllHello(cfg, s.toDaemon)
          && s.toClient == []
          && s.wire == [])
    && (!s.daemon.Established? ==> s.daemonSent == [])
  }

  // Every plaintext of the daemon is delivered, awaited or on the link, once and in order.
  ghost predicate ToClientLedger(cfg: Config, s: System)
  {
    var reached := s.clientGot + Awaited(cfg, s.client.suspended);
    if s.client.phase == Closed then reached <= s.daemonSent
    else reached + Plain(cfg, s.toClient) == s.daemonSent
  }

  // The same for the client's data frames, counted in the order they were put on the wire.
  ghost predicate ToDaemonLedger(cfg: Config, s: System)
  {
    match s.daemon
    case AwaitingHello => s.daemonGot == [] && s.wire == [] && Plain(cfg, s.toDaemon) == []
    case SendingReady(_, _, buffered) =>
      s.daemonGot == [] && Plain(cfg, buffered) + Plain(cfg, s.toDaemon) == WireData(s.wire)
    case Established(channel) =>
      var reached := s.daemonGot + Awaited(cfg, channel.suspended);
      if channel.phase == Closed then reached <= WireData(s.wire)
      else reached + Plain(cfg, s.toDaemon) == WireData(s.wire)
    case Rejected => false
  }

  // The queue keeps the last MAX_PENDING_SENDS sends; the flush puts exactly those on the wire, in order.
  ghost predicate QueueLedger(s: System)
  {
    var kept := LastN(s.queued, MAX_PENDING_SENDS);
    var flushed := Group(s.wire, true);
    && Group(s.wire, false) == s.live
    && match s.client.flush
       case NotStarted => s.client.pendingSends == kept && flushed == []
       case Due => s.client.pendingSends == kept && flushed == []
       case Sending(items) => flushed + items == kept
       case Done => flushed <= kept && (s.client.phase == Open ==> flushed == kept)
  }

  ghost predicate Inv(cfg: Config, s: System)
  {
    Shape(cfg, s) && Handshake(cfg, s) && ToClientLedger(cfg, s) && ToDaemonLedger(cfg, s) && QueueLedger(s)
  }

  lemma InitInv(cfg: Config)
    ensures Inv(cfg, Init(cfg))
  {
    hide Lawful, ClassifyOpen, ClassifyHandshake, PlainOf, IsSealed, HelloFrame, ReadyFrame;
    HandshakeFrames(cfg);
    PlainOne(cfg, cfg.Hello());
  }

  // ---- Steps of the client ----

  lemma RetryTickInv(cfg: Config, s: System)
    requires Inv(cfg, s)
    ensures Inv(cfg, Next(cfg, s, RetryTick))
  {
    hide Lawful, ClassifyHandshake, ClassifyOpen, PlainOf, IsSealed, SealFrame, HelloFrame, ReadyFrame, Plain, Awaited, AwaitedOf, WireData, Group;
    HandshakeFrames(cfg);
    PlainSnoc(cfg, s.toDaemon, cfg.Hello());
  }

  lemma DataFrameSent(cfg: Config, s: System, t: System, m: Message, x: Sent)
    requires Inv(cfg, s) && s.client.phase == Open
    requires IsSealed(cfg, m) && PlainOf(cfg, m) == Some(x.data)
    requires t == s.(client := t.client, live := t.live, toDaemon := s.toDaemon + [m], wire := s.wire + [x])
    requires t.client == s.client.(flush := t.client.flush) && t.client.flush != NotStarted
    ensures Shape(cfg, t) && Handshake(cfg, t) && ToClientLedger(cfg, t) && ToDaemonLedger(cfg, t)
    ensures Group(t.wire, x.queued) == Group(s.wire, x.queued) + [x.data]
    ensures Group(t.wire, !x.queued) == Group(s.wire, !x.queued)
  {
    hide Lawful, ClassifyHandshake, ClassifyOpen, PlainOf, IsSealed, SealFrame, HelloFrame, ReadyFrame, Plain, Awaited, AwaitedOf, WireData, Group;
    PlainSnoc(cfg, s.toDaemon, m);
    WireSnoc(s.wire, x);
  }

  // Dropping the oldest of a full queue keeps exactly the last sends.
  lemma QueueKeepsLast(queued: seq<Data>, data: Data)
    ensures (var kept := LastN(queued, MAX_PENDING_SENDS);
             LastN(queued + [data], MAX_PENDING_SENDS)
             == (if |kept| >= MAX_PENDING_SENDS then kept[1..] else kept) + [data])
  {
    LastNSnoc(queued, data, MAX_PENDING_SENDS);
  }

  lemma ClientSendsInv(cfg: Config, s: System, data: Data, nonce: nat)
    requires Inv(cfg, s)
    ensures Inv(cfg, Next(cfg, s, ClientSends(data, nonce)))
  {
    hide Lawful, ClassifyHandshake, ClassifyOpen, PlainOf, IsSealed, SealFrame, HelloFrame, ReadyFrame, Plain, Awaited, AwaitedOf, WireData, Group, LastN;
    var t := Next(cfg, s, ClientSends(data, nonce));
    assert s.toDaemon + [] == s.toDaemon;
    match s.client.phase
    case Handshaking => QueueKeepsLast(s.queued, data);
    case Closed =>
    case Open =>
      SealedFrame(cfg, nonce, data);
      DataFrameSent(cfg, s, t, SealFrame(cfg.env, cfg.ClientKey(), true, nonce, data), Sent(false, data));
  }

  lemma FlushesNextInv(cfg: Config, s: System, nonce: nat)
    requires Inv(cfg, s)
    ensures Inv(cfg, Next(cfg, s, ClientFlushesNext(nonce)))
  {
    hide Lawful, ClassifyHandshake, ClassifyOpen, PlainOf, IsSealed, SealFrame, HelloFrame, ReadyFrame, Plain, Awaited, AwaitedOf, WireData, Group;
    var t := Next(cfg, s, ClientFlushesNext(nonce));
    assert s.toDaemon + [] == s.toDaemon;
    if s.client.flush.Sending? && s.client.flush.items != [] && s.client.phase == Open {
      var data := s.client.flush.items[0];
      SealedFrame(cfg, nonce, data);
      DataFrameSent(cfg, s, t, SealFrame(cfg.env, cfg.ClientKey(), true, nonce, data), Sent(true, data));
    }
  }

  lemma StartsFlushInv(cfg: Config, s: System)
    requires Inv(cfg, s)
    ensures Inv(cfg, Next(cfg, s, ClientStartsFlush))
  {
    hide Lawful, ClassifyHandshake, ClassifyOpen, PlainOf, IsSealed, SealFrame, HelloFrame, ReadyFrame, Plain, Awaited, AwaitedOf, WireData, Group;
  }

  lemma ClientEndsInv(cfg: Config, s: System, step: Step)
    requires Inv(cfg, s)
    requires step.ClientCloses? || step.ClientTransportCloses?
    ensures Inv(cfg, Next(cfg, s, step))
  {
    hide Lawful, ClassifyHandshake, ClassifyOpen, PlainOf, IsSealed, SealFrame, HelloFrame, ReadyFrame, Plain, Awaited, AwaitedOf, WireData, Group;
  }

  lemma ClientResumesInv(cfg: Config, s: System)
    requires Inv(cfg, s)
    ensures Inv(cfg, Next(cfg, s, ClientResumes))
  {
    hide Lawful, ClassifyHandshake, ClassifyOpen, PlainOf, IsSealed, SealFrame, HelloFrame, ReadyFrame, Plain, Awaited, WireData, Group;
    if s.client.suspended != [] {
      AwaitedHead(cfg, s.client.suspended);
      var t := Next(cfg, s, ClientResumes);
      assert s.client.suspended[0].Decrypt?;
      assert t.clientGot + Awaited(cfg, t.client.suspended) == s.clientGot + Awaited(cfg, s.client.suspended);
    } else {
      assert s.clientGot + [] == s.clientGot;
    }
  }

  // An open channel queues a sealed frame for decryption and ignores handshake traffic of its peer.
  lemma OpenReceives(cfg: Config, ch: State, m: Message)
    requires ch.key == cfg.ClientKey() && ch.binaryCiphertext && ch.phase == Open && IsSealed(cfg, m)
    ensures var o := HandleMessage(cfg.env, ch, m, true);
            && o.effects == Quiet
            && |o.state.suspended| == |ch.suspended| + 1
            && o.state == ch.(suspended := ch.suspended + [o.state.suspended[|ch.suspended|]])
            && PlainOf(cfg, m).Some?
            && AwaitedOf(cfg, o.state.suspended[|ch.suspended|]) == PlainOf(cfg, m)
  {
    hide Lawful;
  }

  lemma ClientReceivesInv(cfg: Config, s: System)
    requires Inv(cfg, s)
    ensures Inv(cfg, Next(cfg, s, ClientReceives))
  {
    hide Lawful, ClassifyOpen, ClassifyHandshake, PlainOf, IsSealed, SealFrame, HelloFrame, ReadyFrame, Plain, Awaited, AwaitedOf, WireData, Group;
    assert s.toDaemon + [] == s.toDaemon;
    if s.toClient != [] {
      var m := s.toClient[0];
      HandshakeFrames(cfg);
      PlainHead(cfg, s.toClient);
      match s.client.phase
      case Closed =>
      case Handshaking =>
        assert m == ReadyFrame(cfg.env, true);
      case Open =>
        ReadyReads(cfg.env, true);
        if IsSealed(cfg, m) {
          OpenReceives(cfg, s.client, m);
          var o := HandleMessage(cfg.env, s.client, m, true);
          AwaitedSnoc(cfg, s.client.suspended, o.state.suspended[|s.client.suspended|]);
          var t := Next(cfg, s, ClientReceives);
          var d := PlainOf(cfg, m).value;
          assert t.clientGot + Awaited(cfg, t.client.suspended) == s.clientGot + Awaited(cfg, s.client.suspended) + [d];
          assert ToClientLedger(cfg, t);
          assert Shape(cfg, t);
          assert Handshake(cfg, t);
          assert ToDaemonLedger(cfg, t);
        }
    }
  }

  // ---- Steps of the daemon ----

  // The hello of this client gives the daemon the client's own key.
  lemma FirstHello(cfg: Config)
    ensures var t := ClassifyHandshake(cfg.env, cfg.Hello());
            && t.Hello? && t.binaryCiphertext
            && cfg.env.importKey(t.key) == Some(cfg.env.publicOf(cfg.clientSecret))
            && cfg.env.derive(cfg.daemonSecret, cfg.env.publicOf(cfg.clientSecret)) == cfg.ClientKey()
  {
    HelloReads(cfg.env, cfg.clientSecret);
    assert KeyLaws(cfg.env);
  }

  // A repeated hello is answered with ready and changes nothing.
  lemma RepeatedHello(cfg: Config, ch: State)
    requires ch.key == cfg.ClientKey() && ch.binaryCiphertext && ch.phase == Open
    requires ch.daemonSecret == Some(cfg.daemonSecret)
    ensures HandleMessage(cfg.env, ch, cfg.Hello(), true) == Outcome(ch, Quiet.(frames := [ReadyFrame(cfg.env, true)]))
  {
    HelloReads(cfg.env, cfg.clientSecret);
    FirstHello(cfg);
  }

  lemma NothingSent(cfg: Config)
    ensures Plain(cfg, []) == [] && WireData([]) == []
  {
  }

  lemma FirstHelloInv(cfg: Config, s: System)
    requires Inv(cfg, s) && s.toDaemon != [] && s.daemon.AwaitingHello?
    ensures Inv(cfg, Next(cfg, s, DaemonReceives))
  {
    hide Lawful, ClassifyOpen, ClassifyHandshake, PlainOf, IsSealed, SealFrame, HelloFrame, ReadyFrame, Plain, Awaited, AwaitedOf, WireData, Group, LastN, FlushNext;
    FirstHello(cfg);
    HandshakeFrames(cfg);
    NothingSent(cfg);
    PlainHead(cfg, s.toDaemon);
    PlainSnoc(cfg, s.toClient, ReadyFrame(cfg.env, true));
  }

  lemma BufferInv(cfg: Config, s: System)
    requires Inv(cfg, s) && s.toDaemon != [] && s.daemon.SendingReady?
    ensures Inv(cfg, Next(cfg, s, DaemonReceives))
  {
    hide Lawful, ClassifyOpen, ClassifyHandshake, PlainOf, IsSealed, SealFrame, HelloFrame, ReadyFrame, Plain, Awaited, AwaitedOf, WireData, Group;
    var m := s.toDaemon[0];
    PlainHead(cfg, s.toDaemon);
    PlainSnoc(cfg, s.daemon.buffered, m);
    assert Plain(cfg, s.daemon.buffered + [m]) + Plain(cfg, s.toDaemon[1..])
        == Plain(cfg, s.daemon.buffered) + Plain(cfg, s.toDaemon);
  }

  lemma EstablishedReceivesInv(cfg: Config, s: System)
    requires Inv(cfg, s) && s.toDaemon != [] && s.daemon.Established?
    ensures Inv(cfg, Next(cfg, s, DaemonReceives))
  {
    hide Lawful, ClassifyOpen, ClassifyHandshake, PlainOf, IsSealed, SealFrame, HelloFrame, ReadyFrame, Plain, Awaited, AwaitedOf, WireData, Group;
    var m := s.toDaemon[0];
    var ch := s.daemon.channel;
    var o := HandleMessage(cfg.env, ch, m, true);
    var t := Next(cfg, s, DaemonReceives);
    assert s.toClient + [] == s.toClient;
    PlainHead(cfg, s.toDaemon);
    HandshakeFrames(cfg);
    if ch.phase == Closed {
    } else if m == cfg.Hello() {
      RepeatedHello(cfg, ch);
      PlainSnoc(cfg, s.toClient, ReadyFrame(cfg.env, true));
    } else {
      OpenReceives(cfg, ch, m);
      AwaitedSnoc(cfg, ch.suspended, o.state.suspended[|ch.suspended|]);
      assert s.daemonGot + Awaited(cfg, o.state.suspended)
          == s.daemonGot + Awaited(cfg, ch.suspended) + [PlainOf(cfg, m).value];
      assert ToDaemonLedger(cfg, t);
      assert Shape(cfg, t);
    }
  }

  // Replaying the buffered frames queues exactly the plaintexts among them, in order.
  lemma {:induction false} ReplayHonest(cfg: Config, ch: State, buffered: seq<Message>)
    requires HonestToDaemon(cfg, buffered)
    requires ch.key == cfg.ClientKey() && ch.binaryCiphertext && ch.phase == Open && ch.suspended == []
    ensures var r := Replay(cfg.env, ch, buffered);
            && r == ch.(suspended := r.suspended)
            && AllDecrypt(cfg, r.suspended)
            && Awaited(cfg, r.suspended) == Plain(cfg, buffered)
  {
    hide Lawful, ClassifyOpen, ClassifyHandshake, PlainOf, SealFrame, HelloFrame, ReadyFrame, AwaitedOf;
    if buffered != [] {
      var m := buffered[|buffered| - 1];
      var init := buffered[..|buffered| - 1];
      assert buffered == init + [m];
      ReplayHonest(cfg, ch, init);
      var before := Replay(cfg.env, ch, init);
      PlainSnoc(cfg, init, m);
      HandshakeFrames(cfg);
      if m != cfg.Hello() {
        OpenReceives(cfg, before, m);
        var o := HandleMessage(cfg.env, before, m, true);
        AwaitedSnoc(cfg, before.suspended, o.state.suspended[|before.suspended|]);
      }
    }
  }

  lemma ReadySentInv(cfg: Config, s: System)
    requires Inv(cfg, s)
    ensures Inv(cfg, Next(cfg, s, DaemonReadySent))
  {
    hide Lawful, ClassifyOpen, ClassifyHandshake, PlainOf, IsSealed, SealFrame, HelloFrame, ReadyFrame, Plain, Awaited, AwaitedOf, WireData, Group;
    if s.daemon.SendingReady? {
      ReplayHonest(cfg, DaemonState(s.daemon.key, true, cfg.daemonSecret), s.daemon.buffered);
    }
  }

  lemma DaemonSendsInv(cfg: Config, s: System, data: Data, nonce: nat)
    requires Inv(cfg, s)
    ensures Inv(cfg, Next(cfg, s, DaemonSends(data, nonce)))
  {
    hide Lawful, ClassifyOpen, ClassifyHandshake, PlainOf, IsSealed, SealFrame, HelloFrame, ReadyFrame, Plain, Awaited, AwaitedOf, WireData, Group;
    if s.daemon.Established? && s.daemon.channel.phase == Open {
      SealedFrame(cfg, nonce, data);
      var m := SealFrame(cfg.env, cfg.ClientKey(), true, nonce, data);
      PlainSnoc(cfg, s.toClient, m);
      assert s.clientGot + Awaited(cfg, s.client.suspended) <= s.daemonSent ==>
        s.clientGot + Awaited(cfg, s.client.suspended) <= s.daemonSent + [data];
    }
  }

  lemma DaemonResumesInv(cfg: Config, s: System)
    requires Inv(cfg, s)
    ensures Inv(cfg, Next(cfg, s, DaemonResumes))
  {
    hide Lawful, ClassifyOpen, ClassifyHandshake, PlainOf, IsSealed, SealFrame, HelloFrame, ReadyFrame, Plain, Awaited, WireData, Group;
    if s.daemon.Established? {
      var ch := s.daemon.channel;
      if ch.suspended != [] {
        AwaitedHead(cfg, ch.suspended);
        var t := Next(cfg, s, DaemonResumes);
        assert ch.suspended[0].Decrypt?;
        assert t.daemonGot + Awaited(cfg, t.daemon.channel.suspended) == s.daemonGot + Awaited(cfg, ch.suspended);
      } else {
        assert s.daemonGot + [] == s.daemonGot;
      }
    }
  }

  lemma DaemonEndsInv(cfg: Config, s: System, step: Step)
    requires Inv(cfg, s)
    requires step.DaemonCloses? || step.DaemonTransportCloses?
    ensures Inv(cfg, Next(cfg, s, step))
  {
    hide Lawful, ClassifyOpen, ClassifyHandshake, PlainOf, IsSealed, SealFrame, HelloFrame, ReadyFrame, Plain, Awaited, AwaitedOf, WireData, Group;
  }

  lemma NextInv(cfg: Config, s: System, step: Step)
    requires Inv(cfg, s)
    ensures Inv(cfg, Next(cfg, s, step))
  {
    hide Inv, Next;
    match step
    case RetryTick => RetryTickInv(cfg, s);
    case ClientSends(data, nonce) => ClientSendsInv(cfg, s, data, nonce);
    case ClientReceives => ClientReceivesInv(cfg, s);
    case ClientResumes => ClientResumesInv(cfg, s);
    case ClientStartsFlush => StartsFlushInv(cfg, s);
    case ClientFlushesNext(nonce) => FlushesNextInv(cfg, s, nonce);
    case ClientCloses(_) => ClientEndsInv(cfg, s, step);
    case ClientTransportCloses => ClientEndsInv(cfg, s, step);
    case DaemonReceives => DaemonReceivesInv(cfg, s);
    case DaemonReadySent => ReadySentInv(cfg, s);
    case DaemonSends(data, nonce) => DaemonSendsInv(cfg, s, data, nonce);
    case DaemonResumes => DaemonResumesInv(cfg, s);
    case DaemonCloses(_) => DaemonEndsInv(cfg, s, step);
    case DaemonTransportCloses => DaemonEndsInv(cfg, s, step);
  }

  lemma DaemonReceivesInv(cfg: Config, s: System)
    requires Inv(cfg, s)
    ensures Inv(cfg, Next(cfg, s, DaemonReceives))
  {
    hide Lawful, ClassifyOpen, ClassifyHandshake, PlainOf, IsSealed, SealFrame, HelloFrame, ReadyFrame, Plain, Awaited, AwaitedOf, WireData, Group;
    if s.toDaemon != [] {
      match s.daemon
      case AwaitingHello => FirstHelloInv(cfg, s);
      case SendingReady(_, _, _) => BufferInv(cfg, s);
      case Established(_) => EstablishedReceivesInv(cfg, s);
    }
  }

  lemma {:induction false} Reachable(cfg: Config, steps: seq<Step>)
    ensures Inv(cfg, RunAll(cfg, steps))
  {
    hide Inv, Next;
    if steps == [] {
      InitInv(cfg);
    } else {
      Reachable(cfg, steps[..|steps| - 1]);
      NextInv(cfg, RunAll(cfg, steps[..|steps| - 1]), steps[|steps| - 1]);
    }
  }

  // ---- What the reachable states promise ----

  // If both ends are open they hold the same shared key and the same negotiated kind, and
  // no frame was ever mistaken for another: no end gives up on a frame it received.
  lemma KeysAgree(cfg: Config, steps: seq<Step>)
    ensures var s := RunAll(cfg, steps);
            && s.faults == 0
            && (s.client.phase == Open && s.daemon.Established? ==>
                  && s.client.key == s.daemon.channel.key
                  && s.client.binaryCiphertext == s.daemon.channel.binaryCiphertext)
  {
    hide Lawful, ClassifyOpen, ClassifyHandshake, PlainOf, IsSealed, SealFrame, HelloFrame, ReadyFrame, Plain, Awaited, AwaitedOf, WireData, Group, RunAll;
    Reachable(cfg, steps);
  }

  // Every plaintext the daemon sends reaches the client once and in order: what was delivered is always
  // a prefix of what was sent, and until the client closes the rest is awaited or on the link.
  lemma DaemonToClient(cfg: Config, steps: seq<Step>)
    ensures var s := RunAll(cfg, steps);
            && s.clientGot <= s.daemonSent
            && (s.client.phase != Closed ==>
                  s.clientGot + Awaited(cfg, s.client.suspended) + Plain(cfg, s.toClient) == s.daemonSent)
  {
    hide Lawful, ClassifyOpen, ClassifyHandshake, PlainOf, IsSealed, SealFrame, HelloFrame, ReadyFrame, Plain, Awaited, AwaitedOf, WireData, Group, RunAll;
    Reachable(cfg, steps);
  }

  // The daemon receives, in wire order, the last at most 200 sends queued during the handshake and all
  // live sends; each group keeps its order, and both groups are complete once the flush is over.
  lemma ClientToDaemon(cfg: Config, steps: seq<Step>)
    ensures var s := RunAll(cfg, steps);
            && s.daemonGot <= WireData(s.wire)
            && Group(s.wire, false) == s.live
            && Group(s.wire, true) <= LastN(s.queued, MAX_PENDING_SENDS)
            && (s.client.phase == Open && s.client.flush == Done ==>
                  Group(s.wire, true) == LastN(s.queued, MAX_PENDING_SENDS))
  {
    hide Lawful, ClassifyOpen, ClassifyHandshake, PlainOf, IsSealed, SealFrame, HelloFrame, ReadyFrame, Plain, Awaited, AwaitedOf, WireData, Group, RunAll;
    Reachable(cfg, steps);
  }

  // Nothing left to do on the way from the client to the daemon.
  predicate DrainedToDaemon(s: System)
  {
    && s.client.phase == Open && s.client.flush == Done
    && s.daemon.Established? && s.daemon.channel.phase == Open
    && s.toDaemon == [] && s.daemon.channel.suspended == []
  }

  // Once drained, the daemon has received each of those sends exactly once, with text and binary kept apart.
  lemma ClientToDaemonComplete(cfg: Config, steps: seq<Step>)
    requires DrainedToDaemon(RunAll(cfg, steps))
    ensures var s := RunAll(cfg, steps);
            && s.daemonGot == WireData(s.wire)
            && Group(s.wire, false) == s.live
            && Group(s.wire, true) == LastN(s.queued, MAX_PENDING_SENDS)
  {
    hide Lawful, ClassifyOpen, ClassifyHandshake, PlainOf, IsSealed, SealFrame, HelloFrame, ReadyFrame, AwaitedOf, WireData, Group, RunAll;
    Reachable(cfg, steps);
  }

  lemma DaemonToClientComplete(cfg: Config, steps: seq<Step>)
    requires var s := RunAll(cfg, steps); s.client.phase == Open && s.toClient == [] && s.client.suspended == []
    ensures RunAll(cfg, steps).clientGot == RunAll(cfg, steps).daemonSent
  {
    hide Lawful, ClassifyOpen, ClassifyHandshake, PlainOf, IsSealed, SealFrame, HelloFrame, ReadyFrame, AwaitedOf, WireData, Group, RunAll;
    Reachable(cfg, steps);
  }
}
