// packages/relay/src/encrypted-channel.ts: the messages and one end of an encrypted
// channel, cut into the pieces that run without an await.

module Messages {
  import opened Wrappers
  import opened Strings
  import opened Base64
  import opened Primitives

  datatype Data = Text(s: string) | Binary(b: Bytes)

  datatype Message = Message(data: Data, isBinary: bool)

  predicate IsE2EECapabilities(value: Option<Parsed>)
  {
    value.None? ||
    (value.value.JObject? &&
     var flag := Get(value.value.fields, "binaryCiphertext");
     flag.None? || flag.value.JBool?)
  }

  predicate IsE2EEHello(value: Parsed): (r: bool)
    ensures r ==> value.JObject? && "key" in value.fields && value.fields["key"].JString?
  {
    && value.JObject?
    && Get(value.fields, "type") == Some(JString("e2ee_hello"))
    && Get(value.fields, "key").Some?
    && value.fields["key"].JString?
    && Trim(value.fields["key"].s) != ""
    && IsE2EECapabilities(Get(value.fields, "capabilities"))
  }

  predicate IsE2EEReady(value: Parsed): (r: bool)
    ensures r ==> value.JObject? && !IsE2EEHello(value)
  {
    && value.JObject?
    && Get(value.fields, "type") == Some(JString("e2ee_ready"))
    && IsE2EECapabilities(Get(value.fields, "capabilities"))
  }

  predicate SupportsBinaryCiphertext(value: Parsed)
    requires value.JObject?
  {
    var capabilities := Get(value.fields, "capabilities");
    && capabilities.Some?
    && capabilities.value.JObject?
    && Get(capabilities.value.fields, "binaryCiphertext") == Some(JBool(true))
  }

  function DecodeTransportText(env: Env, data: Data): string
  {
    match data
    case Text(s) => s
    case Binary(b) => env.utf8Lossy(b)
  }

  // How a frame reads to the end that received it.
  datatype Traffic =
    | Hello(key: string, binaryCiphertext: bool)
    | Ready(binaryCiphertext: bool)
    | OtherObject
    | NotHandshake

  function ClassifyParsed(value: Parsed): Traffic
  {
    if IsE2EEHello(value) then Hello(value.fields["key"].s, SupportsBinaryCiphertext(value))
    else if IsE2EEReady(value) then Ready(SupportsBinaryCiphertext(value))
    else OtherObject
  }

  // Before the channel is open every text frame is parsed.
  function ClassifyHandshake(env: Env, m: Message): Traffic
  {
    if m.isBinary then NotHandshake
    else
      var parsed := env.parse(DecodeTransportText(env, m.data));
      if parsed.None? then NotHandshake else ClassifyParsed(parsed.value)
  }

  // On an open channel only text that starts with "{" is looked at.
  function ClassifyOpen(env: Env, m: Message): Traffic
  {
    if m.isBinary then NotHandshake
    else
      var text := DecodeTransportText(env, m.data);
      if Trim(text) == "" || Trim(text)[0] != '{' then NotHandshake
      else
        var parsed := env.parse(text);
        if parsed.None? then NotHandshake else ClassifyParsed(parsed.value)
  }

  // A ciphertext read off the wire; without a negotiated kind the plaintext decides.
  datatype Ciphertext = Ciphertext(bytes: Bytes, isBinary: Option<bool>)

  function ReadCiphertext(env: Env, binaryCiphertext: bool, m: Message): Option<Ciphertext>
  {
    var asBase64 := Base64ToArrayBuffer(DecodeTransportText(env, m.data));
    if binaryCiphertext then
      if m.isBinary then
        if m.data.Binary? then Some(Ciphertext(m.data.b, Some(true))) else None
      else if asBase64.Some? then Some(Ciphertext(asBase64.value, Some(false)))
      else None
    else if asBase64.Some? then Some(Ciphertext(asBase64.value, None))
    else if m.isBinary && m.data.Binary? then Some(Ciphertext(m.data.b, None))
    else None
  }

  function DecodePlaintext(env: Env, bytes: Bytes, isBinary: Option<bool>): Option<Data>
  {
    if isBinary == Some(true) then Some(Binary(bytes))
    else
      var text := env.utf8Decode(bytes);
      if text.Some? then Some(Text(text.value))
      else if isBinary == None then Some(Binary(bytes))
      else None
  }

  function OpenCiphertext(env: Env, key: Key, c: Ciphertext): Option<Data>
  {
    var plaintext := env.open(key, c.bytes);
    if plaintext.None? then None else DecodePlaintext(env, plaintext.value, c.isBinary)
  }

  function ToBytes(env: Env, data: Data): Bytes
  {
    match data
    case Text(s) => env.utf8(s)
    case Binary(b) => b
  }

  // The frame send hands to the transport.
  function SealFrame(env: Env, key: Key, binaryCiphertext: bool, nonce: nat, data: Data): Message
  {
    var ciphertext := env.seal(key, nonce, ToBytes(env, data));
    if binaryCiphertext && data.Binary? then Message(Binary(ciphertext), true)
    else Message(Text(ArrayBufferToBase64(ciphertext)), false)
  }

  function HelloFrame(env: Env, publicKey: Key): Message
  {
    Message(Text(env.stringify(HelloJson(env.exportKey(publicKey)))), false)
  }

  function ReadyFrame(env: Env, binaryCiphertext: bool): Message
  {
    Message(Text(env.stringify(ReadyJson(binaryCiphertext))), false)
  }

  lemma HelloReads(env: Env, secret: Key)
    ensures var m := HelloFrame(env, env.publicOf(secret));
            var hello := Hello(env.exportKey(env.publicOf(secret)), true);
            ClassifyHandshake(env, m) == hello && ClassifyOpen(env, m) == hello
  {
    assert JsonLaws(env) && KeyLaws(env);
    var key := env.exportKey(env.publicOf(secret));
    var json := HelloJson(key);
    assert env.parse(env.stringify(json)) == Some(json);
    assert IsE2EEHello(json);
  }

  lemma ReadyReads(env: Env, binaryCiphertext: bool)
    ensures var m := ReadyFrame(env, binaryCiphertext);
            ClassifyHandshake(env, m) == Ready(binaryCiphertext) && ClassifyOpen(env, m) == Ready(binaryCiphertext)
  {
    assert JsonLaws(env);
    var json := ReadyJson(binaryCiphertext);
    assert env.parse(env.stringify(json)) == Some(json);
    assert IsE2EEReady(json);
  }

  // No sealed frame is ever read as a handshake message, before or after the channel opens.
  lemma SealedIsNoHandshake(env: Env, key: Key, binaryCiphertext: bool, nonce: nat, data: Data)
    ensures var m := SealFrame(env, key, binaryCiphertext, nonce, data);
            ClassifyOpen(env, m) == NotHandshake && ClassifyHandshake(env, m) in {NotHandshake, OtherObject}
  {
    assert JsonLaws(env);
    EncodeIsNoObject(env.seal(key, nonce, ToBytes(env, data)));
  }

  // In the negotiated mode a sealed frame opens to the data that was sent, kind included.
  lemma SealedOpens(env: Env, key: Key, nonce: nat, data: Data)
    ensures var c := ReadCiphertext(env, true, SealFrame(env, key, true, nonce, data));
            c.Some? && OpenCiphertext(env, key, c.value) == Some(data)
  {
    assert CipherLaws(env) && TextLaws(env);
    DecodeEncode(env.seal(key, nonce, ToBytes(env, data)));
  }

  // Without negotiation the kind survives exactly when binary data is not valid UTF-8.
  lemma LegacyKindPreserved(env: Env, key: Key, nonce: nat, data: Data)
    ensures var c := ReadCiphertext(env, false, SealFrame(env, key, false, nonce, data));
            && c.Some?
            && (OpenCiphertext(env, key, c.value) == Some(data) <==> data.Text? || env.utf8Decode(data.b).None?)
  {
    assert CipherLaws(env) && TextLaws(env);
    DecodeEncode(env.seal(key, nonce, ToBytes(env, data)));
  }

  // base64EncryptedWireByteLength, with Math.ceil written out.
  function Base64EncryptedWireByteLength(plaintextBytes: nat): nat
  {
    4 * ((plaintextBytes + OVERHEAD + 2) / 3)
  }

  function MaxBase64EncryptedPlaintextByteLength(wireBytes: nat): int
  {
    wireBytes / 4 * 3 - OVERHEAD
  }

  // The two length functions are adjoint: a plaintext fits the frame exactly when it is within the maximum.
  lemma WireLengthAdjoint(n: nat, w: nat)
    ensures Base64EncryptedWireByteLength(n) <= w <==> n <= MaxBase64EncryptedPlaintextByteLength(w)
  {
    assert 4 * ((n + OVERHEAD + 2) / 3) <= w <==> (n + OVERHEAD + 2) / 3 <= w / 4;
  }

  function OutboundWireByteLength(env: Env, binaryCiphertext: bool, data: Data): nat
  {
    var plaintextBytes := |ToBytes(env, data)|;
    if binaryCiphertext && data.Binary? then plaintextBytes + OVERHEAD
    else Base64EncryptedWireByteLength(plaintextBytes)
  }

  // Bytes of a frame on the wire; base64 text takes one byte a character.
  function FrameByteLength(m: Message): nat
  {
    match m.data
    case Text(s) => |s|
    case Binary(b) => |b|
  }

  // outboundWireByteLength announces the size of the frame that is sent.
  lemma OutboundLengthExact(env: Env, key: Key, binaryCiphertext: bool, nonce: nat, data: Data)
    ensures OutboundWireByteLength(env, binaryCiphertext, data)
         == FrameByteLength(SealFrame(env, key, binaryCiphertext, nonce, data))
  {
    assert CipherLaws(env);
    EncodeLength(env.seal(key, nonce, ToBytes(env, data)));
  }
}

module Channel {
  import opened Wrappers
  import opened Primitives
  import opened Messages

  const MAX_PENDING_SENDS: nat := 200
  const REHANDSHAKE_KEY_MISMATCH_CLOSE_CODE: nat := 1008
  const FAILURE_CLOSE_CODE: nat := 1011

  datatype Phase = Handshaking | Open | Closed

  // flushPendingSends: Due from the transition to open until it starts, then Sending
  // the items it took, one per resumption.
  datatype Flush = NotStarted | Due | Sending(items: seq<Data>) | Done

  // A handleMessage call that awaits before decrypting, or before closing on a protocol error.
  datatype Suspended = Decrypt(c: Ciphertext) | Fail

  datatype State = State(
    key: Key,
    phase: Phase,
    binaryCiphertext: bool,
    daemonSecret: Option<Key>,
    pendingSends: seq<Data>,
    flush: Flush,
    suspended: seq<Suspended>
  )

  // What a step does outside the channel: frames sent, data handed to onmessage,
  // codes passed to transport.close, and whether onopen was called.
  datatype Effects = Effects(frames: seq<Message>, delivered: seq<Data>, closes: seq<nat>, onopen: bool)

  const Quiet: Effects := Effects([], [], [], false)

  datatype Outcome = Outcome(state: State, effects: Effects)

  function ClientState(key: Key): State
  {
    State(key, Handshaking, false, None, [], NotStarted, [])
  }

  function DaemonState(key: Key, binaryCiphertext: bool, secret: Key): State
  {
    State(key, Open, binaryCiphertext, Some(secret), [], NotStarted, [])
  }

  // handleMessage up to its first await; sendOk says whether a send to the transport succeeds.
  function HandleMessage(env: Env, s: State, m: Message, sendOk: bool): Outcome
  {
    match s.phase
    case Handshaking =>
      var traffic := ClassifyHandshake(env, m);
      if traffic.Ready? then
        Outcome(s.(phase := Open, binaryCiphertext := traffic.binaryCiphertext, flush := Due),
                Quiet.(onopen := true))
      else Outcome(s, Quiet)
    case Closed => Outcome(s, Quiet)
    case Open =>
      match ClassifyOpen(env, m)
      case Hello(key, _) =>
        if s.daemonSecret.Some? then Rehello(env, s, m, key, sendOk) else Outcome(s, Quiet)
      case Ready(_) => Outcome(s, Quiet)
      case OtherObject => Outcome(s.(suspended := s.suspended + [Fail]), Quiet)
      case NotHandshake => Outcome(AwaitDecrypt(env, s, m), Quiet)
  }

  function AwaitDecrypt(env: Env, s: State, m: Message): State
  {
    var c := ReadCiphertext(env, s.binaryCiphertext, m);
    s.(suspended := s.suspended + [if c.Some? then Decrypt(c.value) else Fail])
  }

  // handleDaemonRehello; an exception in it falls through to reading the frame as ciphertext.
  function Rehello(env: Env, s: State, m: Message, key: string, sendOk: bool): Outcome
    requires s.daemonSecret.Some?
  {
    var publicKey := env.importKey(key);
    if publicKey.None? then Outcome(AwaitDecrypt(env, s, m), Quiet)
    else if env.derive(s.daemonSecret.value, publicKey.value) == s.key then
      if sendOk then Outcome(s, Quiet.(frames := [ReadyFrame(env, s.binaryCiphertext)]))
      else Outcome(AwaitDecrypt(env, s, m), Quiet)
    else Outcome(s.(phase := Closed), Quiet.(closes := [REHANDSHAKE_KEY_MISMATCH_CLOSE_CODE]))
  }

  // The rest of handleMessage, after the await.
  function ResumeMessage(env: Env, s: State): Outcome
  {
    if s.suspended == [] then Outcome(s, Quiet)
    else
      var rest := s.(suspended := s.suspended[1..]);
      match s.suspended[0]
      case Fail => Outcome(rest, Quiet.(closes := [FAILURE_CLOSE_CODE]))
      case Decrypt(c) =>
        var data := OpenCiphertext(env, s.key, c);
        if data.Some? then Outcome(rest, Quiet.(delivered := [data.value]))
        else Outcome(rest, Quiet.(closes := [FAILURE_CLOSE_CODE]))
  }

  // send; a failing transport or a closed channel makes it throw and leaves no frame.
  function Send(env: Env, s: State, data: Data, nonce: nat, sendOk: bool): Outcome
  {
    match s.phase
    case Handshaking =>
      var kept := if |s.pendingSends| >= MAX_PENDING_SENDS then s.pendingSends[1..] else s.pendingSends;
      Outcome(s.(pendingSends := kept + [data]), Quiet)
    case Closed => Outcome(s, Quiet)
    case Open =>
      Outcome(s, if sendOk then Quiet.(frames := [SealFrame(env, s.key, s.binaryCiphertext, nonce, data)]) else Quiet)
  }

  // flushPendingSends up to the first item, or its early return.
  function StartFlush(s: State): State
  {
    if s.flush != Due then s
    else if s.phase == Open then s.(flush := Sending(s.pendingSends), pendingSends := [])
    else s.(flush := Done)
  }

  // One iteration of the flush loop, with the catch around it.
  function FlushNext(env: Env, s: State, nonce: nat, sendOk: bool): Outcome
  {
    if !s.flush.Sending? then Outcome(s, Quiet)
    else if s.flush.items == [] then Outcome(s.(flush := Done), Quiet)
    else if s.phase == Open && sendOk then
      Outcome(s.(flush := Sending(s.flush.items[1..])),
              Quiet.(frames := [SealFrame(env, s.key, s.binaryCiphertext, nonce, s.flush.items[0])]))
    else Outcome(s.(flush := Done, phase := Closed), Quiet.(closes := [FAILURE_CLOSE_CODE]))
  }

  function Close(s: State, code: nat): Outcome
  {
    Outcome(s.(phase := Closed), Quiet.(closes := [code]))
  }

  function TransportClosed(s: State): State
  {
    s.(phase := Closed)
  }

  // Everything that can happen to a channel, with arbitrary frames from the other side.
  datatype Event =
    | Inbound(m: Message, sendOk: bool)
    | Resume
    | AppSend(data: Data, nonce: nat, sendOk: bool)
    | FlushStarts
    | FlushContinues(nonce: nat, sendOk: bool)
    | AppClose(code: nat)
    | PeerClosed

  function Step(env: Env, s: State, e: Event): Outcome
  {
    match e
    case Inbound(m, sendOk) => HandleMessage(env, s, m, sendOk)
    case Resume => ResumeMessage(env, s)
    case AppSend(data, nonce, sendOk) => Send(env, s, data, nonce, sendOk)
    case FlushStarts => Outcome(StartFlush(s), Quiet)
    case FlushContinues(nonce, sendOk) => FlushNext(env, s, nonce, sendOk)
    case AppClose(code) => Close(s, code)
    case PeerClosed => Outcome(TransportClosed(s), Quiet)
  }

  function Run(env: Env, s: State, events: seq<Event>): State
    decreases |events|
  {
    if events == [] then s else Run(env, Step(env, s, events[0]).state, events[1..])
  }

  // What no event may undo.
  predicate Continues(s: State, t: State)
  {
    && t.key == s.key
    && t.daemonSecret == s.daemonSecret
    && (s.phase == Closed ==> t.phase == Closed)
    && (s.phase != Handshaking ==> t.phase != Handshaking && t.binaryCiphertext == s.binaryCiphertext)
  }

  lemma InboundContinues(env: Env, s: State, m: Message, sendOk: bool)
    ensures Continues(s, HandleMessage(env, s, m, sendOk).state)
  {
    hide Lawful, ClassifyOpen, ClassifyHandshake, ReadCiphertext;
  }

  lemma StepContinues(env: Env, s: State, e: Event)
    ensures Continues(s, Step(env, s, e).state)
  {
    hide Lawful, HandleMessage, OpenCiphertext, SealFrame;
    if e.Inbound? {
      InboundContinues(env, s, e.m, e.sendOk);
    }
  }

  // Whatever frames arrive: the key never changes, closed is absorbing, the channel never goes
  // back to handshaking, and once it has left it the negotiated kind never changes.
  lemma {:induction false} KeyFixedAndClosedAbsorbing(env: Env, s: State, events: seq<Event>)
    ensures Continues(s, Run(env, s, events))
    decreases |events|
  {
    if events != [] {
      StepContinues(env, s, events[0]);
      KeyFixedAndClosedAbsorbing(env, Step(env, s, events[0]).state, events[1..]);
    }
  }

  // A channel that is closed sends nothing more, whatever arrives; only handleMessage calls
  // already past their check can still deliver.
  lemma ClosedSendsNothing(env: Env, s: State, e: Event)
    requires s.phase == Closed
    ensures Step(env, s, e).effects.frames == []
    ensures Step(env, s, e).effects.delivered != [] ==> e.Resume? && s.suspended != []
  {
  }

  // The bound on queued sends holds in every run.
  lemma {:induction false} PendingBounded(env: Env, s: State, events: seq<Event>)
    requires |s.pendingSends| <= MAX_PENDING_SENDS
    ensures |Run(env, s, events).pendingSends| <= MAX_PENDING_SENDS
    decreases |events|
  {
    hide Lawful, ClassifyOpen, ClassifyHandshake, ReadCiphertext, OpenCiphertext, SealFrame;
    if events != [] {
      PendingBounded(env, Step(env, s, events[0]).state, events[1..]);
    }
  }

  // A fatal decrypt asks the transport to close and leaves the state as it is: only the close event closes the channel.
  lemma FatalDecryptLeavesOpen(env: Env, s: State)
    requires s.phase == Open && s.suspended != []
    ensures ResumeMessage(env, s).state.phase == Open
    ensures FAILURE_CLOSE_CODE in ResumeMessage(env, s).effects.closes <==>
            s.suspended[0].Fail? || OpenCiphertext(env, s.key, s.suspended[0].c).None?
  {
  }
}
