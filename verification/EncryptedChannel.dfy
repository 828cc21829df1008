// The objects of packages/relay/src/encrypted-channel.ts. Each method is one piece of
// the original between two awaits and is proved against the functions of module Channel;
// parameters named sendOk say whether the transport accepts the frame.

module EncryptedChannels {
  import opened Wrappers
  import opened Strings
  import opened Base64
  import opened Primitives
  import opened Messages
  import C = Channel
  import S = ChannelSystem
  import L = ChannelLaws
  import SL = ChannelSystemLaws

  class Transport {
    var sent: seq<Message>
    var closes: seq<nat>

    constructor ()
      ensures sent == [] && closes == []
    {
      sent, closes := [], [];
    }

    // send: throws, and sends nothing, when the socket is not usable.
    method Send(m: Message, ok: bool)
      modifies this`sent
      ensures sent == if ok then old(sent) + [m] else old(sent)
    {
      if ok {
        sent := sent + [m];
      }
    }

    method Close(code: nat)
      modifies this`closes
      ensures closes == old(closes) + [code]
    {
      closes := closes + [code];
    }
  }

  // keysEqual: all bytes are compared, and the differences collected in one byte.
  method KeysEqual(a: Key, b: Key) returns (equal: bool)
    ensures equal <==> a == b
  {
    if |a| != |b| {
      return false;
    }
    var difference: bv8 := 0;
    for i := 0 to |a|
      invariant difference == 0 <==> a[..i] == b[..i]
    {
      difference := difference | (a[i] ^ b[i]);
      XorZero(a[i], b[i]);
      assert a[..i + 1] == a[..i] + [a[i]] && b[..i + 1] == b[..i] + [b[i]];
    }
    assert a[..|a|] == a && b[..|a|] == b;
    return difference == 0;
  }

  lemma XorZero(x: bv8, y: bv8)
    ensures x ^ y == 0 <==> x == y
  {
  }

  class EncryptedChannel {
    const env: Env
    const transport: Transport
    const daemonSecret: Option<Key>
    var sharedKey: Key
    var state: C.Phase
    var binaryCiphertext: bool
    var pendingSends: seq<Data>
    // Continuations waiting for an await: the flush loop and the calls of handleMessage.
    var flush: C.Flush
    var suspended: seq<C.Suspended>
    // What events.onmessage was called with.
    var delivered: seq<Data>

    ghost function Model(): C.State
      reads this
    {
      C.State(sharedKey, state, binaryCiphertext, daemonSecret, pendingSends, flush, suspended)
    }

    // The object and its transport show the outcome of one step.
    ghost predicate Shows(o: C.Outcome, sent0: seq<Message>, closes0: seq<nat>, delivered0: seq<Data>)
      reads this, transport
    {
      && Model() == o.state
      && transport.sent == sent0 + o.effects.frames
      && transport.closes == closes0 + o.effects.closes
      && delivered == delivered0 + o.effects.delivered
    }

    constructor (env: Env, transport: Transport, sharedKey: Key, daemonSecret: Option<Key>, binaryCiphertext: bool)
      ensures this.env == env && this.transport == transport && delivered == []
      ensures Model() == C.State(sharedKey, C.Handshaking, binaryCiphertext, daemonSecret, [], C.NotStarted, [])
    {
      this.env, this.transport, this.daemonSecret := env, transport, daemonSecret;
      this.sharedKey, this.binaryCiphertext := sharedKey, binaryCiphertext;
      state, pendingSends, flush, suspended, delivered := C.Handshaking, [], C.NotStarted, [], [];
    }

    method SetState(next: C.Phase)
      modifies this`state
      ensures Model() == old(Model()).(phase := next)
    {
      state := next;
    }

    method HandleMessage(m: Message, sendOk: bool)
      modifies this, transport
      ensures Shows(C.HandleMessage(env, old(Model()), m, sendOk), old(transport.sent), old(transport.closes), old(delivered))
      // A hello on an open daemon channel with another key, and with the same key.
      ensures old(state) == C.Open && daemonSecret.Some? && ClassifyOpen(env, m).Hello? ==>
                var publicKey := env.importKey(ClassifyOpen(env, m).key);
                && (publicKey.Some? && env.derive(daemonSecret.value, publicKey.value) != old(sharedKey) ==>
                      && state == C.Closed && transport.closes == old(transport.closes) + [1008]
                      && transport.sent == old(transport.sent) && delivered == old(delivered))
                && (publicKey.Some? && env.derive(daemonSecret.value, publicKey.value) == old(sharedKey) && sendOk ==>
                      && Model() == old(Model()) && transport.closes == old(transport.closes) && delivered == old(delivered)
                      && transport.sent == old(transport.sent) + [ReadyFrame(env, binaryCiphertext)])
    {
      if state == C.Open && daemonSecret.Some? && ClassifyOpen(env, m).Hello? && env.importKey(ClassifyOpen(env, m).key).Some? {
        L.HelloOnOpenChannel(env, Model(), m, sendOk, daemonSecret.value, env.importKey(ClassifyOpen(env, m).key).value);
      }
      hide Lawful, ClassifyOpen, ReadyFrame, C.HandleMessage;
      ReceiveFrame(m, sendOk);
    }

    // The branches of handleMessage.
    method ReceiveFrame(m: Message, sendOk: bool)
      modifies this, transport
      ensures Shows(C.HandleMessage(env, old(Model()), m, sendOk), old(transport.sent), old(transport.closes), old(delivered))
    {
      hide Lawful, OpenCiphertext, ReadCiphertext, Trim, IsE2EEHello, IsE2EEReady, C.Rehello;
      if state == C.Handshaking {
        if m.isBinary {
          return;
        }
        var parsed := env.parse(DecodeTransportText(env, m.data));
        if parsed.Some? && IsE2EEReady(parsed.value) {
          binaryCiphertext := SupportsBinaryCiphertext(parsed.value);
          state := C.Open;
          flush := C.Due;
        }
        return;
      }
      if state != C.Open {
        return;
      }
      if !m.isBinary {
        var text := DecodeTransportText(env, m.data);
        if Trim(text) != "" && Trim(text)[0] == '{' {
          var parsed := env.parse(text);
          if parsed.Some? {
            if IsE2EEHello(parsed.value) {
              if daemonSecret.None? {
                return;
              }
              var answered := HandleDaemonRehello(parsed.value.fields["key"].s, sendOk);
              if answered {
                return;
              }
            } else if IsE2EEReady(parsed.value) {
              return;
            } else {
              suspended := suspended + [C.Fail];
              return;
            }
          }
        }
      }
      var c := ReadCiphertext(env, binaryCiphertext, m);
      suspended := suspended + [if c.Some? then C.Decrypt(c.value) else C.Fail];
    }

    // False stands for an exception, which handleMessage swallows.
    method HandleDaemonRehello(key: string, sendOk: bool) returns (answered: bool)
      requires daemonSecret.Some?
      modifies this`state, transport
      ensures !answered ==> Model() == old(Model()) && transport.sent == old(transport.sent) && transport.closes == old(transport.closes)
      ensures !answered ==> forall m :: C.Rehello(env, old(Model()), m, key, sendOk)
                                     == C.Outcome(C.AwaitDecrypt(env, old(Model()), m), C.Quiet)
      ensures answered ==> forall m :: Shows(C.Rehello(env, old(Model()), m, key, sendOk), old(transport.sent), old(transport.closes), delivered)
      ensures var publicKey := env.importKey(key);
              var same := publicKey.Some? && env.derive(daemonSecret.value, publicKey.value) == old(sharedKey);
              && (answered <==> publicKey.Some? && (same ==> sendOk))
              && (answered && same ==> state == old(state) && transport.closes == old(transport.closes)
                                       && transport.sent == old(transport.sent) + [ReadyFrame(env, binaryCiphertext)])
              && (answered && !same ==> state == C.Closed && transport.closes == old(transport.closes) + [1008]
                                        && transport.sent == old(transport.sent))
    {
      var clientPublicKey := env.importKey(key);
      if clientPublicKey.None? {
        return false;
      }
      var nextSharedKey := env.derive(daemonSecret.value, clientPublicKey.value);
      var same := KeysEqual(nextSharedKey, sharedKey);
      if same {
        transport.Send(ReadyFrame(env, binaryCiphertext), sendOk);
        return sendOk;
      }
      state := C.Closed;
      transport.Close(C.REHANDSHAKE_KEY_MISMATCH_CLOSE_CODE);
      return true;
    }

    method ResumeMessage()
      modifies this, transport
      ensures Shows(C.ResumeMessage(env, old(Model())), old(transport.sent), old(transport.closes), old(delivered))
    {
      if suspended == [] {
        return;
      }
      var call := suspended[0];
      suspended := suspended[1..];
      if call.Decrypt? {
        var data := OpenCiphertext(env, sharedKey, call.c);
        if data.Some? {
          delivered := delivered + [data.value];
          return;
        }
      }
      transport.Close(C.FAILURE_CLOSE_CODE);
    }

    // threw: the promise of send is rejected.
    method Send(data: Data, nonce: nat, sendOk: bool) returns (threw: bool)
      modifies this`pendingSends, transport`sent
      ensures Shows(C.Send(env, old(Model()), data, nonce, sendOk), old(transport.sent), old(transport.closes), old(delivered))
      ensures threw <==> old(state) == C.Closed || (old(state) == C.Open && !sendOk)
    {
      if state == C.Handshaking {
        if |pendingSends| >= C.MAX_PENDING_SENDS {
          pendingSends := pendingSends[1..];
        }
        pendingSends := pendingSends + [data];
        return false;
      }
      if state != C.Open {
        return true;
      }
      var ciphertext := env.seal(sharedKey, nonce, ToBytes(env, data));
      if binaryCiphertext && data.Binary? {
        transport.Send(Message(Binary(ciphertext), true), sendOk);
      } else {
        transport.Send(Message(Text(ArrayBufferToBase64(ciphertext)), false), sendOk);
      }
      return !sendOk;
    }

    method StartFlush()
      modifies this
      ensures Model() == C.StartFlush(old(Model())) && delivered == old(delivered)
    {
      if flush != C.Due {
        return;
      }
      if state != C.Open {
        flush := C.Done;
        return;
      }
      var pending := pendingSends;
      pendingSends := [];
      flush := C.Sending(pending);
    }

    method FlushNext(nonce: nat, sendOk: bool)
      requires flush.Sending? ==> state != C.Handshaking
      modifies this, transport
      ensures Shows(C.FlushNext(env, old(Model()), nonce, sendOk), old(transport.sent), old(transport.closes), old(delivered))
    {
      if !flush.Sending? {
        return;
      }
      if flush.items == [] {
        flush := C.Done;
        return;
      }
      var threw := Send(flush.items[0], nonce, sendOk);
      if threw {
        flush := C.Done;
        state := C.Closed;
        transport.Close(C.FAILURE_CLOSE_CODE);
      } else {
        flush := C.Sending(flush.items[1..]);
      }
    }

    method OutboundWireByteLengthOf(data: Data) returns (n: nat)
      ensures forall nonce: nat ::
                n == FrameByteLength(SealFrame(env, sharedKey, binaryCiphertext, nonce, data))
    {
      var plaintextBytes := |ToBytes(env, data)|;
      if binaryCiphertext && data.Binary? {
        n := plaintextBytes + OVERHEAD;
      } else {
        n := Base64EncryptedWireByteLength(plaintextBytes);
      }
      forall nonce: nat
        ensures n == FrameByteLength(SealFrame(env, sharedKey, binaryCiphertext, nonce, data))
      {
        OutboundLengthExact(env, sharedKey, binaryCiphertext, nonce, data);
      }
    }

    method Close(code: nat)
      modifies this`state, transport`closes
      ensures Shows(C.Close(old(Model()), code), old(transport.sent), old(transport.closes), old(delivered))
    {
      state := C.Closed;
      transport.Close(code);
    }

    method OnTransportClose()
      modifies this`state
      ensures Model() == C.TransportClosed(old(Model()))
    {
      state := C.Closed;
    }
  }

  // The closure of createDaemonChannel: the handler installed on the transport and the
  // frames it buffers while the ready frame is being sent.
  class DaemonHandshake {
    const env: Env
    const transport: Transport
    const daemonSecret: Key
    var phase: S.Daemon
    var bufferedMessages: seq<Message>

    constructor (env: Env, transport: Transport, daemonSecret: Key)
      ensures this.env == env && this.transport == transport && this.daemonSecret == daemonSecret
      ensures phase == S.AwaitingHello && bufferedMessages == []
    {
      this.env, this.transport, this.daemonSecret := env, transport, daemonSecret;
      phase, bufferedMessages := S.AwaitingHello, [];
    }

    // handleHello: true when the frame was a hello this daemon can answer.
    method HandleHello(m: Message) returns (accepted: bool)
      requires phase == S.AwaitingHello
      modifies this, transport
      ensures accepted <==> ClassifyHandshake(env, m).Hello? && env.importKey(ClassifyHandshake(env, m).key).Some?
      ensures bufferedMessages == old(bufferedMessages) && transport.closes == old(transport.closes)
      ensures !accepted ==> transport.sent == old(transport.sent)
      ensures !accepted ==> phase == if ClassifyHandshake(env, m).Hello? then S.Rejected else S.AwaitingHello
      ensures accepted ==>
                var hello := ClassifyHandshake(env, m);
                && phase == S.SendingReady(env.derive(daemonSecret, env.importKey(hello.key).value), hello.binaryCiphertext, [])
                && transport.sent == old(transport.sent) + [ReadyFrame(env, hello.binaryCiphertext)]
    {
      if m.isBinary {
        return false;
      }
      var parsed := env.parse(DecodeTransportText(env, m.data));
      if parsed.None? || !IsE2EEHello(parsed.value) {
        return false;
      }
      var clientPublicKey := env.importKey(parsed.value.fields["key"].s);
      if clientPublicKey.None? {
        phase := S.Rejected;
        return false;
      }
      var sharedKey := env.derive(daemonSecret, clientPublicKey.value);
      var binaryCiphertext := SupportsBinaryCiphertext(parsed.value);
      phase := S.SendingReady(sharedKey, binaryCiphertext, []);
      transport.Send(ReadyFrame(env, binaryCiphertext), true);
      return true;
    }

    method BufferNext(m: Message)
      modifies this`bufferedMessages
      ensures bufferedMessages == old(bufferedMessages) + [m]
    {
      bufferedMessages := bufferedMessages + [m];
    }

    // The part after the awaited send: the channel opens and takes the buffered frames
    // through its handler, except for plaintext handshake traffic.
    method ReadySent() returns (channel: EncryptedChannel)
      requires phase.SendingReady?
      modifies transport
      ensures fresh(channel) && channel.env == env && channel.transport == transport
      ensures channel.Model() == S.Replay(env, C.DaemonState(phase.key, phase.binaryCiphertext, daemonSecret), bufferedMessages)
      ensures channel.sharedKey == phase.key && channel.delivered == []
      ensures channel.state == C.Open && channel.suspended == SL.Waiting(env, phase.binaryCiphertext, bufferedMessages)
      ensures transport.sent == old(transport.sent) && transport.closes == old(transport.closes)
    {
      channel := new EncryptedChannel(env, transport, phase.key, Some(daemonSecret), phase.binaryCiphertext);
      channel.SetState(C.Open);
      ghost var start := C.DaemonState(phase.key, phase.binaryCiphertext, daemonSecret);
      assert bufferedMessages[..0] == [];
      for i := 0 to |bufferedMessages|
        invariant fresh(channel) && channel.env == env && channel.transport == transport
        invariant channel.sharedKey == phase.key && channel.delivered == []
        invariant channel.Model() == S.Replay(env, start, bufferedMessages[..i]) && channel.state == C.Open
        invariant transport.sent == old(transport.sent) && transport.closes == old(transport.closes)
      {
        var buffered := bufferedMessages[i];
        var ignore := ShouldIgnorePostHelloPlaintext(buffered);
        assert bufferedMessages[..i + 1][..i] == bufferedMessages[..i];
        C.InboundContinues(env, channel.Model(), buffered, true);
        SL.NoHandshakeWaits(env, channel.Model(), buffered);
        if !ignore {
          channel.HandleMessage(buffered, true);
        }
      }
      assert bufferedMessages[..|bufferedMessages|] == bufferedMessages;
      SL.ReplayWaits(env, start, bufferedMessages);
    }

    method ShouldIgnorePostHelloPlaintext(m: Message) returns (ignore: bool)
      ensures ignore <==> ClassifyHandshake(env, m).Hello? || ClassifyHandshake(env, m).Ready?
    {
      if m.isBinary {
        return false;
      }
      var parsed := env.parse(DecodeTransportText(env, m.data));
      if parsed.None? {
        return false;
      }
      return IsE2EEHello(parsed.value) || IsE2EEReady(parsed.value);
    }
  }

  // The closure of createClientChannel: the hello and the interval that repeats it.
  class ClientHandshake {
    const hello: Message
    const channel: EncryptedChannel
    var retry: bool

    // daemonPublicKey is the key that was imported; the first hello goes out at once.
    constructor (env: Env, transport: Transport, clientSecret: Key, daemonPublicKey: Key, sendOk: bool)
      modifies transport`sent
      ensures hello == HelloFrame(env, env.publicOf(clientSecret)) && retry
      ensures fresh(channel) && channel.transport == transport && channel.env == env && channel.delivered == []
      ensures channel.Model() == C.State(env.derive(clientSecret, daemonPublicKey), C.Handshaking, false, None, [], C.NotStarted, [])
      ensures transport.sent == old(transport.sent) + if sendOk then [hello] else []
    {
      hello := HelloFrame(env, env.publicOf(clientSecret));
      channel := new EncryptedChannel(env, transport, env.derive(clientSecret, daemonPublicKey), None, false);
      retry := true;
      new;
      transport.Send(hello, sendOk);
    }

    // One tick of the interval; a send that throws is reported and nothing else.
    method RetryFires(sendOk: bool)
      requires retry
      modifies this`retry, channel.transport`sent
      ensures retry <==> channel.state != C.Open
      ensures channel.transport.sent == old(channel.transport.sent) + if retry && sendOk then [hello] else []
      ensures forall cfg: S.Config, s: S.System | s.retryArmed && s.client == channel.Model() && cfg.Hello() == hello ::
                var t := S.ClientStep(cfg, s, S.RetryTick);
                && t.retryArmed == retry && t.client == channel.Model()
                && t.toDaemon == s.toDaemon + if retry then [hello] else []
    {
      forall cfg: S.Config, s: S.System | s.retryArmed
        ensures var t := S.ClientStep(cfg, s, S.RetryTick);
                && (t.retryArmed <==> s.client.phase != C.Open) && t.client == s.client
                && t.toDaemon == s.toDaemon + if t.retryArmed then [cfg.Hello()] else []
      {
        RetryStep(cfg, s);
      }
      hide S.ClientStep, HelloFrame;
      if channel.state == C.Open {
        retry := false;
        return;
      }
      channel.transport.Send(hello, sendOk);
    }

    // What the channel calls when it opens, and when it closes.
    method ClearRetry()
      modifies this`retry
      ensures !retry
    {
      retry := false;
    }
  }

  // What the retry step of the protocol does to the client's side, the frames it puts on the link included.
  lemma RetryStep(cfg: S.Config, s: S.System)
    requires s.retryArmed
    ensures var t := S.ClientStep(cfg, s, S.RetryTick);
            && (t.retryArmed <==> s.client.phase != C.Open)
            && t.toDaemon == s.toDaemon + (if t.retryArmed then [cfg.Hello()] else [])
            && t.client == s.client
  {
    assert s.toDaemon + [] == s.toDaemon;
  }
}
