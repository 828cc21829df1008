// What each event does to a channel, with arbitrary frames from the other side: said of the
// channel before and after, and of the frames, closes and deliveries of that one step.

module ChannelLaws {
  import opened Wrappers
  import opened Strings
  import opened Base64
  import opened Primitives
  import opened Messages
  import opened Channel

  predicate Nothing(e: Effects)
  {
    e.frames == [] && e.delivered == [] && e.closes == []
  }

  // A hello on an open daemon channel whose key can be imported. With another key than the first the channel
  // is closed, with 1008; with the same it is answered and nothing else happens; and if the answer cannot be
  // sent the frame waits to be decrypted.
  lemma HelloOnOpenChannel(env: Env, s: State, m: Message, sendOk: bool, secret: Key, publicKey: Key)
    requires s.phase == Open && s.daemonSecret == Some(secret)
    requires ClassifyOpen(env, m).Hello? && env.importKey(ClassifyOpen(env, m).key) == Some(publicKey)
    ensures var o := Step(env, s, Inbound(m, sendOk));
            if env.derive(secret, publicKey) != s.key then
              o.state == s.(phase := Closed) && o.effects.closes == [1008] && o.effects.frames == [] && o.effects.delivered == []
            else if sendOk then
              o.state == s && o.effects.frames == [ReadyFrame(env, s.binaryCiphertext)] && o.effects.closes == [] && o.effects.delivered == []
            else Nothing(o.effects) && o.state == s.(suspended := s.suspended + [ToDecrypt(env, s, m)])
  {
    hide Lawful, ClassifyOpen, ReadyFrame, ReadCiphertext;
  }

  // What waits behind the await for a frame that is taken for a ciphertext.
  function ToDecrypt(env: Env, s: State, m: Message): Suspended
  {
    var c := ReadCiphertext(env, s.binaryCiphertext, m);
    if c.Some? then Decrypt(c.value) else Fail
  }

  // A hello whose key cannot be imported goes on to be decrypted.
  lemma HelloWithoutKey(env: Env, s: State, m: Message, sendOk: bool)
    requires s.phase == Open && s.daemonSecret.Some?
    requires ClassifyOpen(env, m).Hello? && env.importKey(ClassifyOpen(env, m).key).None?
    ensures var o := Step(env, s, Inbound(m, sendOk));
            Nothing(o.effects) && o.state == s.(suspended := s.suspended + [ToDecrypt(env, s, m)])
  {
    hide Lawful, ClassifyOpen, ReadyFrame, ReadCiphertext;
  }

  // A closed channel takes no notice of a frame.
  lemma ClosedIgnores(env: Env, s: State, m: Message, sendOk: bool)
    requires s.phase == Closed
    ensures Step(env, s, Inbound(m, sendOk)).state == s && Nothing(Step(env, s, Inbound(m, sendOk)).effects)
  {
    hide Lawful, ClassifyOpen, ReadyFrame, ReadCiphertext;
  }

  // Whatever came before and comes after such a hello with another key: the channel is closed from then on.
  lemma OtherKeyClosesForGood(env: Env, s: State, m: Message, sendOk: bool, secret: Key, publicKey: Key, later: seq<Event>)
    requires s.phase == Open && s.daemonSecret == Some(secret)
    requires ClassifyOpen(env, m).Hello? && env.importKey(ClassifyOpen(env, m).key) == Some(publicKey)
    requires env.derive(secret, publicKey) != s.key
    ensures Run(env, s, [Inbound(m, sendOk)] + later).phase == Closed
  {
    hide Lawful, ClassifyOpen, Step;
    HelloOnOpenChannel(env, s, m, sendOk, secret, publicKey);
    assert ([Inbound(m, sendOk)] + later)[1..] == later;
    KeyFixedAndClosedAbsorbing(env, Step(env, s, Inbound(m, sendOk)).state, later);
  }

  // While handshaking only ready counts: the channel opens if and only if it is that, in the mode it names,
  // with the queue as it is and the flush due.
  lemma HandshakeEndsIff(env: Env, s: State, m: Message, sendOk: bool)
    requires s.phase == Handshaking
    ensures var o := Step(env, s, Inbound(m, sendOk));
            && Nothing(o.effects)
            && (o.state.phase == Open <==> ClassifyHandshake(env, m).Ready?)
            && (o.effects.onopen <==> o.state.phase == Open)
            && (o.state.phase != Open ==> o.state == s)
            && (o.state.phase == Open ==>
                  o.state == s.(phase := Open, flush := Due, binaryCiphertext := ClassifyHandshake(env, m).binaryCiphertext))
  {
    hide Lawful, ClassifyHandshake;
  }

  // Every other frame on an open channel: handshake traffic that is not for it is ignored, a plaintext object
  // waits to close it, and anything else waits to be decrypted.
  lemma OtherFrames(env: Env, s: State, m: Message, sendOk: bool)
    requires s.phase == Open && (ClassifyOpen(env, m).Hello? ==> s.daemonSecret.None?)
    ensures var o := Step(env, s, Inbound(m, sendOk));
            var t := ClassifyOpen(env, m);
            && Nothing(o.effects)
            && (t.Hello? || t.Ready? ==> o.state == s)
            && (t == OtherObject ==> o.state == s.(suspended := s.suspended + [Fail]))
            && (t == NotHandshake ==> o.state == s.(suspended := s.suspended + [ToDecrypt(env, s, m)]))
  {
    hide Lawful, ClassifyOpen, ReadCiphertext;
  }

  // A frame that waited: delivered if it decrypts, and otherwise the transport is asked to close with 1011.
  lemma ResumedFrame(env: Env, s: State)
    requires s.suspended != []
    ensures var o := Step(env, s, Resume);
            && o.state == s.(suspended := s.suspended[1..]) && o.effects.frames == []
            && (s.suspended[0].Fail? ==> o.effects.closes == [1011] && o.effects.delivered == [])
            && (s.suspended[0].Decrypt? ==>
                  var data := OpenCiphertext(env, s.key, s.suspended[0].c);
                  if data.Some? then o.effects.delivered == [data.value] && o.effects.closes == []
                  else o.effects.closes == [1011] && o.effects.delivered == [])
  {
    hide Lawful, OpenCiphertext;
  }

  // What a ciphertext opens to: nothing if it does not decrypt, or if it came as a text but is none; bytes if it came
  // as bytes, or without negotiation if it is no text; and otherwise that text.
  lemma OpenedAs(env: Env, key: Key, c: Ciphertext)
    ensures var data, plaintext := OpenCiphertext(env, key, c), env.open(key, c.bytes);
            && (data.None? <==> plaintext.None? || (c.isBinary == Some(false) && env.utf8Decode(plaintext.value).None?))
            && (data.Some? && data.value.Binary? <==>
                  plaintext.Some? && (c.isBinary == Some(true) || (c.isBinary.None? && env.utf8Decode(plaintext.value).None?)))
            && (data.Some? && data.value.Binary? ==> data.value.b == plaintext.value)
            && (data.Some? && data.value.Text? ==> env.utf8Decode(plaintext.value) == Some(data.value.s))
  {
    hide Lawful;
    var plaintext := env.open(key, c.bytes);
    if plaintext.Some? {
      assert OpenCiphertext(env, key, c) == DecodePlaintext(env, plaintext.value, c.isBinary);
      var text := env.utf8Decode(plaintext.value);
      match c.isBinary
      case Some(binary) =>
      case None =>
    }
  }

  // send: on an open channel one sealed frame for the peer, and while handshaking the last of the queue; the
  // oldest of 200 makes room for it.
  lemma AppSends(env: Env, s: State, data: Data, nonce: nat, sendOk: bool)
    ensures var o := Step(env, s, AppSend(data, nonce, sendOk));
            && o.effects.closes == [] && o.effects.delivered == []
            && o.state == s.(pendingSends := o.state.pendingSends)
            && (s.phase == Handshaking ==>
                  && o.effects.frames == [] && 0 < |o.state.pendingSends|
                  && o.state.pendingSends[|o.state.pendingSends| - 1] == data
                  && (if |s.pendingSends| < 200 then o.state.pendingSends[..|s.pendingSends|] == s.pendingSends
                      else o.state.pendingSends[..|s.pendingSends| - 1] == s.pendingSends[1..]))
            && (s.phase != Handshaking ==> o.state == s)
            && (s.phase == Open && sendOk ==> o.effects.frames == [SealFrame(env, s.key, s.binaryCiphertext, nonce, data)])
            && (s.phase == Closed || (s.phase == Open && !sendOk) ==> o.effects.frames == [])
  {
    hide Lawful, SealFrame;
  }

  // A flush that is due takes the whole queue if the channel is still open, and nothing if it is not.
  lemma FlushTakesQueue(env: Env, s: State)
    ensures var o := Step(env, s, FlushStarts);
            && Nothing(o.effects)
            && (s.flush != Due ==> o.state == s)
            && (s.flush == Due && s.phase == Open ==> o.state.flush == Sending(s.pendingSends) && o.state.pendingSends == [])
            && (s.flush == Due && s.phase != Open ==> o.state.flush == Done && o.state.pendingSends == s.pendingSends)
            && o.state == s.(flush := o.state.flush, pendingSends := o.state.pendingSends)
  {
    hide Lawful;
  }

  // Each awaited send of the flush puts the next item on the wire; the first that fails ends the flush and
  // closes the channel with 1011.
  lemma FlushSendsNext(env: Env, s: State, nonce: nat, sendOk: bool)
    requires s.flush.Sending? && s.flush.items != []
    ensures var o := Step(env, s, FlushContinues(nonce, sendOk));
            && o.effects.delivered == [] && o.state == s.(flush := o.state.flush, phase := o.state.phase)
            && (s.phase == Open && sendOk ==>
                  && o.state.phase == Open && o.state.flush == Sending(s.flush.items[1..]) && o.effects.closes == []
                  && o.effects.frames == [SealFrame(env, s.key, s.binaryCiphertext, nonce, s.flush.items[0])])
            && (s.phase != Open || !sendOk ==>
                  o.state.phase == Closed && o.state.flush == Done && o.effects.closes == [1011] && o.effects.frames == [])
  {
    hide Lawful, SealFrame;
  }

  // A flush with nothing left is over, and without one nothing happens.
  lemma FlushEnds(env: Env, s: State, nonce: nat, sendOk: bool)
    requires s.flush.Sending? ==> s.flush.items == []
    ensures var o := Step(env, s, FlushContinues(nonce, sendOk));
            Nothing(o.effects) && o.state == s.(flush := if s.flush.Sending? then Done else s.flush)
  {
  }

  // close and the transport's close event.
  lemma Ends(env: Env, s: State, code: nat)
    ensures var o := Step(env, s, AppClose(code));
            o.state == s.(phase := Closed) && o.effects.closes == [code] && o.effects.frames == [] && o.effects.delivered == []
    ensures Step(env, s, PeerClosed).state == s.(phase := Closed) && Nothing(Step(env, s, PeerClosed).effects)
  {
  }

  // ---- What counts as a hello or a ready ----

  // Only white space.
  lemma {:induction false} BlankTrims(s: string)
    ensures Trim(s) == "" <==> AllSpace(s)
  {
    if AllSpace(s) {
      TrimPadded(s, "", "");
      assert s + "" + "" == s;
    } else {
      var i :| 0 <= i < |s| && !IsSpace(s[i]);
      StartKeeps(s, i);
    }
  }

  lemma {:induction false} StartKeeps(s: string, i: nat)
    requires i < |s| && !IsSpace(s[i])
    ensures TrimStart(s) != "" && Trim(s) != ""
  {
    if IsSpace(s[0]) {
      StartKeeps(s[1..], i - 1);
    } else {
      EndKeeps(s, 0);
    }
  }

  lemma {:induction false} EndKeeps(s: string, i: nat)
    requires i < |s| && !IsSpace(s[i])
    ensures TrimEnd(s) != ""
  {
    if IsSpace(s[|s| - 1]) {
      EndKeeps(s[..|s| - 1], i);
    }
  }

  // Absent, or an object whose flag is absent or a boolean.
  predicate CapabilitiesOk(fields: map<string, Parsed>)
  {
    "capabilities" in fields ==>
      && fields["capabilities"].JObject?
      && ("binaryCiphertext" in fields["capabilities"].fields ==> fields["capabilities"].fields["binaryCiphertext"].JBool?)
  }

  predicate FlagSet(fields: map<string, Parsed>)
  {
    && "capabilities" in fields && fields["capabilities"].JObject?
    && "binaryCiphertext" in fields["capabilities"].fields
    && fields["capabilities"].fields["binaryCiphertext"] == JBool(true)
  }

  // A text frame before the channel is open: how any JSON value in it reads.
  lemma HandshakeFrameIff(env: Env, text: string, value: Parsed)
    requires env.parse(text) == Some(value)
    ensures var t := ClassifyHandshake(env, Message(Text(text), false));
            && (value.JObject? ==>
                  var f := value.fields;
                  && (t.Hello? <==> "type" in f && f["type"] == JString("e2ee_hello") && "key" in f && f["key"].JString?
                                    && !AllSpace(f["key"].s) && CapabilitiesOk(f))
                  && (t.Ready? <==> "type" in f && f["type"] == JString("e2ee_ready") && CapabilitiesOk(f))
                  && (t.Hello? ==> t.key == f["key"].s && t.binaryCiphertext == FlagSet(f))
                  && (t.Ready? ==> t.binaryCiphertext == FlagSet(f)))
            && (!value.JObject? ==> !t.Hello? && !t.Ready?)
  {
    hide Lawful, Trim, AllSpace;
    if value.JObject? && "key" in value.fields && value.fields["key"].JString? {
      BlankTrims(value.fields["key"].s);
    }
  }

  // On an open channel a text is looked at only if, spaces aside, it begins with a brace; then it reads as before.
  lemma OpenFrameIff(env: Env, text: string)
    ensures var m := Message(Text(text), false);
            ClassifyOpen(env, m) == if Trim(text) != "" && Trim(text)[0] == '{' then ClassifyHandshake(env, m) else NotHandshake
    ensures forall data :: ClassifyOpen(env, Message(data, true)) == NotHandshake == ClassifyHandshake(env, Message(data, true))
  {
    hide Lawful, Trim, ClassifyParsed;
  }

  // Without negotiation a raw binary frame is opened too, unless it happens to be base64: its kind survives
  // under the same condition as that of a base64 frame.
  lemma LegacyRawFrame(env: Env, key: Key, nonce: nat, data: Data)
    requires var sealed := env.seal(key, nonce, ToBytes(env, data)); Base64ToArrayBuffer(env.utf8Lossy(sealed)).None?
    ensures var m := Message(Binary(env.seal(key, nonce, ToBytes(env, data))), true);
            var c := ReadCiphertext(env, false, m);
            && c.Some?
            && (OpenCiphertext(env, key, c.value) == Some(data) <==> data.Text? || env.utf8Decode(data.b).None?)
  {
    hide Base64ToArrayBuffer;
    assert Lawful(env);
  }
}
