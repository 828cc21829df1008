// Theorems about all runs of the client of packages/client/src/daemon-client.ts.

module ClientRuns {
  import opened Wrappers
  import W = ClientWaits
  import S = ClientSends
  import opened ClientConnection
  import I = ClientInvariant

  // In every run a waiter is in the set iff unsettled, is settled at most once, and has an armed timer only
  // while in the set; if it was resolved, it was with the first message it accepts since its registration.
  lemma WaitersSettleOnce(reconnectEnabled: bool, steps: seq<Step>, id: nat)
    requires id < |Run(Init(reconnectEnabled), steps).waits.all|
    ensures var w := Run(Init(reconnectEnabled), steps).waits;
            && (id in w.waiting <==> !W.IsSettled(w.settled, id))
            && (forall i, j :: 0 <= i < |w.settled| && 0 <= j < |w.settled| && w.settled[i].id == w.settled[j].id ==> i == j)
            && (id in w.timers <==> id in w.waiting && w.all[id].timed)
            && (forall i :: 0 <= i < |w.settled| && w.settled[i].id == id && w.settled[i].outcome.Resolved? ==>
                 W.AnsweredFirst(w, id, w.settled[i].outcome.value, w.settled[i].outcome.at))
  {
    I.RunInv(reconnectEnabled, steps);
    hide Run, Next, I.Control, S.SendsInv, W.AnsweredFirst;
  }

  // Likewise a send is in the queue iff unsettled; and the wire has the messages in the order of the calls,
  // but for those sent past the queue.
  lemma SendsSettleOnce(reconnectEnabled: bool, steps: seq<Step>, id: nat)
    requires id < Run(Init(reconnectEnabled), steps).sends.issued
    ensures var s := Run(Init(reconnectEnabled), steps).sends;
            && (id in s.queue <==> !S.IsSettled(s.settled, id))
            && (forall i, j :: 0 <= i < |s.settled| && 0 <= j < |s.settled| && s.settled[i].id == s.settled[j].id ==> i == j)
            && (id in s.timers <==> id in s.queue)
            && S.CallOrder(s)
  {
    I.RunInv(reconnectEnabled, steps);
    hide Run, Next, I.Control, W.WaitsInv, S.CallOrder;
  }

  // ---- Where the queue may be non-empty ----

  predicate QueueOk(c: Client)
  {
    c.sends.queue != [] ==>
      c.status == Connecting || (c.status == Connected && c.stack != [] && c.stack[|c.stack| - 1].AfterConnected?)
  }

  // A resubscription that throws between "connected" and the flush.
  predicate Strands(c: Client, step: Step)
  {
    && step.Return? && step.threw && c.stack != [] && c.stack[|c.stack| - 1].AfterConnected?
    && c.sends.queue != []
  }

  lemma EmptyTimers(c: Client)
    requires I.Inv(c) && c.sends.queue == []
    ensures c.sends.timers == {}
  {
    assert forall id :: id !in c.sends.timers;
  }

  // The status, the stack and the queue after scheduleReconnect.
  lemma ScheduleShape(c: Client, rest: Rest)
    requires W.WaitsInv(c.waits) && S.SendsInv(c.sends)
    ensures var d := ScheduleReconnect(c, rest);
            && d.sends.queue == [] && d.waits.waiting == []
            && d.made == c.made && d.transport == c.transport && d.shouldReconnect == c.shouldReconnect
            && d.status == (if c.status == Disposed then Disposed else Disconnected)
            && d.stack == (if c.status == Disposed then c.stack else c.stack + [AfterDisconnected(rest)])
  {
    hide W.WaitsInv, S.SendsInv, RejectAll;
    I.RejectAllInv(c);
    I.RejectAllRest(c);
    I.RejectAllRest(ClearReconnect(c));
  }

  // The transport and its timers may have gone.
  ghost predicate Trimmed(c: Client, d: Client)
  {
    && d == c.(transport := d.transport, attached := d.attached, connectTimer := d.connectTimer, errorTimer := d.errorTimer)
    && (d.transport == c.transport || d.transport.None?)
  }

  predicate OfTransport(step: Step)
  {
    step.ConnectTimeout? || step.ErrorTimeout? || step.LivenessLost? || step.TransportOpened? ||
    step.TransportClosed? || step.TransportFailed?
  }

  // An event of the transport or its timers does nothing else, or ends in scheduleReconnect.
  lemma TransportEvent(c: Client, step: Step) returns (d: Client)
    requires OfTransport(step)
    ensures Trimmed(c, d) && (Event(c, step) == d || Event(c, step) == ScheduleReconnect(d, NoRest))
  {
    hide Trimmed, Event, ScheduleReconnect;
    if step.ConnectTimeout? || step.ErrorTimeout? || step.LivenessLost? {
      d := TimeoutTrims(c, step);
    } else {
      d := SocketTrims(c, step);
    }
  }

  lemma TimeoutTrims(c: Client, step: Step) returns (d: Client)
    requires step.ConnectTimeout? || step.ErrorTimeout? || step.LivenessLost?
    ensures Trimmed(c, d) && (Event(c, step) == d || Event(c, step) == ScheduleReconnect(d, NoRest))
  {
    hide ScheduleReconnect;
    match step
    case ConnectTimeout => d := if c.status == Connecting && c.connectTimer then DropTransport(c) else c.(connectTimer := false);
    case ErrorTimeout => d := c.(errorTimer := false);
    case LivenessLost => d := if c.status == Connected || c.status == Connecting then DropTransport(c) else c;
  }

  lemma SocketTrims(c: Client, step: Step) returns (d: Client)
    requires step.TransportOpened? || step.TransportClosed? || step.TransportFailed?
    ensures Trimmed(c, d) && (Event(c, step) == d || Event(c, step) == ScheduleReconnect(d, NoRest))
  {
    hide ScheduleReconnect;
    match step
    case TransportOpened(ok) => d := if c.attached.Some? then c.(errorTimer := false) else c;
    case TransportClosed => d := if c.attached.Some? then c.(connectTimer := false, errorTimer := false) else c;
    case TransportFailed(generic) =>
      d := if c.attached.Some? then c.(connectTimer := false, errorTimer := generic) else c;
  }

  predicate Flushes(c: Client, threw: bool)
    requires c.stack != []
  {
    c.stack[|c.stack| - 1].AfterConnected? && !threw
  }

  // What a returning frame does not touch, and what becomes of the queue and the stack.
  lemma ResumeShape(c: Client, threw: bool, failing: set<nat>)
    requires c.stack != []
    ensures var d, top, below := Resume(c, threw, failing), c.stack[|c.stack| - 1], c.stack[..|c.stack| - 1];
            && d.status == c.status && d.made == c.made && d.transport == c.transport
            && (top.AfterConnected? || top.AfterDisconnected? || d.answered == c.answered)
            && (c.resolver.None? ==> d.answered == c.answered)
            && (if Flushes(c, threw) then
                  && d.sends == S.Flush(c.sends, c.transport.Some? && c.status == Connected, failing)
                  && d.stack == below + [AfterHandlers(top.m)]
                else d.sends == c.sends && d.stack == below)
  {
    hide S.Flush, W.Resolve, AnswerConnect, Started, AfterSchedule;
    var top, d := c.stack[|c.stack| - 1], c.(stack := c.stack[..|c.stack| - 1]);
    match top
    case AfterConnecting(t, started) => I.StartedRest(d.(connectTimer := true, attached := Some(t)), started);
    case AfterConnected(m) =>
      AnswerShape(d.(sends := S.Flush(d.sends, d.transport.Some? && d.status == Connected, failing)), true);
    case AfterDisconnected(rest) =>
      AnswerShape(d, false);
      AfterScheduleShape(AnswerConnect(d, false), rest);
      AfterScheduleShape(ArmReconnect(d), rest);
    case AfterDisposed =>
    case AfterHandlers(m) =>
  }

  lemma AnswerShape(c: Client, ok: bool)
    ensures var d := AnswerConnect(c, ok);
            && d == c.(answered := d.answered, connectPromise := None, resolver := None)
            && (c.resolver.None? ==> d.answered == c.answered)
  {
  }

  lemma AfterScheduleShape(c: Client, rest: Rest)
    ensures var d := AfterSchedule(c, rest);
            && d == c.(answered := d.answered, connectPromise := d.connectPromise, resolver := d.resolver)
            && (c.resolver.None? ==> d.answered == c.answered)
  {
    hide AnswerConnect, Started;
    AnswerShape(c, false);
    I.StartedRest(c, rest.promise);
    I.StartedRest(AnswerConnect(c, false), rest.promise);
  }

  lemma QueueAttempt(c: Client, ok: bool, promise: Option<nat>)
    requires W.WaitsInv(c.waits) && S.SendsInv(c.sends) && QueueOk(c)
    ensures QueueOk(AttemptConnect(c, ok, promise))
  {
    hide W.WaitsInv, S.SendsInv, ScheduleReconnect;
    ScheduleShape(DropTransport(c), Rest(true, promise));
  }

  lemma QueueCall(c: Client, step: Step)
    requires I.Inv(c) && QueueOk(c) && IsCall(step) && (step.Return? ==> c.stack == [])
    ensures QueueOk(Call(c, step))
  {
    hide I.PromisesOk, I.PendingIsKept, I.StackOk, W.WaitsInv, S.SendsInv, AttemptConnect, RejectAll, W.Add, W.Cancel;
    if step.Connect? || step.EnsureConnected? {
      var d := c.(shouldReconnect := true, resolver := Some(c.promises), promises := c.promises + 1);
      QueueAttempt(d, step.ok, Some(c.promises));
    } else if step.Close? {
      I.DisposeInv(c);
    }
  }

  lemma QueueEvent(c: Client, step: Step)
    requires I.Inv(c) && QueueOk(c) && c.stack == [] && !IsCall(step)
    ensures QueueOk(Event(c, step))
  {
    hide I.PromisesOk, I.PendingIsKept, I.StackOk, W.WaitsInv, S.SendsInv, ScheduleReconnect, AttemptConnect;
    hide W.Expire, W.Reject, S.ExpireSend, QueueOk;
    if OfTransport(step) {
      hide Event;
      var d := TransportEvent(c, step);
      QueueSame(c, d);
      QueueSchedule(d);
    } else {
      match step
      case SendTimer(send) => QueueTimer(c, send);
      case ReconnectTimer(handle, ok) => QueueReconnect(c, handle, ok);
      case Receive(m) => QueueReceive(c, m);
      case _ => QueueSame(c, Event(c, step));
    }
  }

  lemma QueueReconnect(c: Client, handle: nat, ok: bool)
    requires I.Inv(c) && QueueOk(c) && c.stack == []
    ensures QueueOk(Event(c, Step.ReconnectTimer(handle, ok)))
  {
    hide I.Control, W.WaitsInv, S.SendsInv, AttemptConnect, QueueOk;
    var d := c.(armed := c.armed - {handle}, reconnectTimeout := None);
    QueueSame(c, d);
    QueueAttempt(d, ok, None);
  }

  lemma QueueSame(c: Client, d: Client)
    ensures d.status == c.status && d.stack == c.stack && d.sends == c.sends && QueueOk(c) ==> QueueOk(d)
  {
  }

  lemma QueueSchedule(c: Client)
    requires W.WaitsInv(c.waits) && S.SendsInv(c.sends)
    ensures QueueOk(ScheduleReconnect(c, NoRest))
  {
    ScheduleShape(c, NoRest);
  }

  lemma QueueReceive(c: Client, m: Message)
    requires QueueOk(c) && c.stack == []
    ensures QueueOk(HandleMessage(c, m))
  {
  }

  lemma QueueTimer(c: Client, send: nat)
    requires I.Inv(c) && QueueOk(c)
    ensures QueueOk(c.(sends := S.ExpireSend(c.sends, send)))
  {
    if c.sends.queue == [] {
      EmptyTimers(c);
    }
  }

  // The queue is non-empty only while connecting, unless a resubscription throws: a step ends this if and
  // only if it is such a throw.
  lemma QueueOkLostIff(c: Client, step: Step)
    requires I.Inv(c) && QueueOk(c)
    ensures QueueOk(Next(c, step)) <==> !Strands(c, step)
  {
    hide I.Inv, Call, Event, QueueOk, Resume;
    if step.Return? && c.stack != [] {
      QueueResume(c, step.threw, step.failing);
      assert Call(c, step) == Resume(c, step.threw, step.failing) by { CallReturn(c, step.threw, step.failing); }
    } else if IsCall(step) {
      QueueCall(c, step);
    } else if c.stack == [] {
      QueueEvent(c, step);
    }
  }

  lemma CallReturn(c: Client, threw: bool, failing: set<nat>)
    requires c.stack != []
    ensures Call(c, Step.Return(threw, failing)) == Resume(c, threw, failing)
  {
  }

  lemma QueueResume(c: Client, threw: bool, failing: set<nat>)
    requires I.Inv(c) && QueueOk(c) && c.stack != []
    ensures QueueOk(Resume(c, threw, failing)) <==> !Strands(c, Step.Return(threw, failing))
  {
    hide I.PromisesOk, I.PendingIsKept, W.WaitsInv, S.SendsInv, S.Flush, Resume;
    ResumeShape(c, threw, failing);
    if c.stack[|c.stack| - 1].AfterConnected? {
      S.FlushExact(c.sends, c.transport.Some? && c.status == Connected, failing);
      if |c.stack| > 1 {
        assert I.FrameOk(c.stack[|c.stack| - 2], c.status, false);
      }
    }
  }

  lemma {:induction false} QueueOnlyWhileConnecting(reconnectEnabled: bool, steps: seq<Step>)
    requires forall k :: 0 <= k < |steps| ==> !Strands(Run(Init(reconnectEnabled), steps[..k]), steps[k])
    ensures QueueOk(Run(Init(reconnectEnabled), steps))
  {
    hide I.Inv, Next, QueueOk, Strands;
    if steps == [] {
      assert QueueOk(Init(reconnectEnabled)) by { InitQueue(reconnectEnabled); }
    } else {
      var n := |steps| - 1;
      forall k | 0 <= k < n
        ensures !Strands(Run(Init(reconnectEnabled), steps[..n][..k]), steps[..n][k])
      {
        assert steps[..n][..k] == steps[..k];
      }
      QueueOnlyWhileConnecting(reconnectEnabled, steps[..n]);
      I.RunInv(reconnectEnabled, steps[..n]);
      QueueOkLostIff(Run(Init(reconnectEnabled), steps[..n]), steps[n]);
    }
  }

  lemma InitQueue(reconnectEnabled: bool)
    ensures QueueOk(Init(reconnectEnabled)) && S.WireInOrder(Init(reconnectEnabled).sends)
  {
  }

  // ---- Losing the connection, and disposal ----

  // Whichever way the client gets to "disconnected" or "disposed", no waiter and no send is left unsettled.
  lemma LossSettlesAll(c: Client, step: Step)
    requires I.Inv(c)
    requires Next(c, step).status in {Disconnected, Disposed} && Next(c, step).status != c.status
    ensures var d := Next(c, step);
            && (forall id: nat :: id < |d.waits.all| ==> W.IsSettled(d.waits.settled, id))
            && (forall id: nat :: id < d.sends.issued ==> S.IsSettled(d.sends.settled, id))
  {
    hide I.Control, W.IsSettled, S.IsSettled, Next, W.FirstAnswers, W.Patient, W.Once, S.CallOrder, S.Once;
    I.NextInv(c, step);
    LossEmpties(c, step);
  }

  lemma AttemptEmpties(c: Client, ok: bool, promise: Option<nat>)
    requires W.WaitsInv(c.waits) && S.SendsInv(c.sends)
    requires AttemptConnect(c, ok, promise).status in {Disconnected, Disposed}
    requires AttemptConnect(c, ok, promise).status != c.status
    ensures var d := AttemptConnect(c, ok, promise); d.waits.waiting == [] && d.sends.queue == []
  {
    hide W.WaitsInv, S.SendsInv, ScheduleReconnect;
    ScheduleShape(DropTransport(c), Rest(true, promise));
  }

  lemma LossEmpties(c: Client, step: Step)
    requires I.Inv(c)
    requires Next(c, step).status in {Disconnected, Disposed} && Next(c, step).status != c.status
    ensures Next(c, step).waits.waiting == [] && Next(c, step).sends.queue == []
  {
    hide I.PromisesOk, I.PendingIsKept, I.StackOk, W.WaitsInv, S.SendsInv, ScheduleReconnect, RejectAll, AttemptConnect;
    hide W.Resolve, W.Reject, W.Expire, W.Add, W.Cancel, S.Flush, S.ExpireSend, HandleMessage, Resume;
    if OfTransport(step) {
      hide Event;
      var d := TransportEvent(c, step);
      ScheduleShape(d, NoRest);
    } else {
      match step
      case Close => I.DisposeInv(c);
      case Connect(ok) => LossByConnect(c, ok);
      case EnsureConnected(ok) => LossByConnect(c.(shouldReconnect := true), ok);
      case Return(threw, failing) =>
        if c.stack != [] {
          ResumeShape(c, threw, failing);
        }
      case Receive(m) => ReceiveStatus(c, m);
      case ReconnectTimer(handle, ok) =>
        AttemptEmpties(c.(armed := c.armed - {handle}, reconnectTimeout := None), ok, None);
      case _ =>
    }
  }

  lemma LossByConnect(c: Client, ok: bool)
    requires W.WaitsInv(c.waits) && S.SendsInv(c.sends)
    requires TryConnect(c, ok).status in {Disconnected, Disposed} && TryConnect(c, ok).status != c.status
    ensures TryConnect(c, ok).waits.waiting == [] && TryConnect(c, ok).sends.queue == []
  {
    hide W.WaitsInv, S.SendsInv, AttemptConnect;
    AttemptEmpties(c.(shouldReconnect := true, resolver := Some(c.promises), promises := c.promises + 1),
                   ok, Some(c.promises));
  }

  lemma ReceiveStatus(c: Client, m: Message)
    ensures HandleMessage(c, m).status in {c.status, Connected}
  {
  }

  // What a step can still do to a disposed client: no transport is made, no promise of connect is settled,
  // and nothing goes onto the wire.
  predicate OnlyRefused(before: S.Sends, after: S.Sends)
  {
    && before.settled <= after.settled
    && forall i :: |before.settled| <= i < |after.settled| ==> after.settled[i].outcome == S.Refused
  }

  predicate StaysDisposed(c: Client, d: Client)
  {
    && d.status == Disposed && d.made == c.made && d.transport.None?
    && d.answered == c.answered && OnlyRefused(c.sends, d.sends)
  }

  lemma DisposedIsAbsorbing(c: Client, step: Step)
    requires I.Inv(c) && c.status == Disposed
    ensures StaysDisposed(c, Next(c, step))
  {
    hide I.PromisesOk, I.PendingIsKept, I.StackOk, W.WaitsInv, S.SendsInv, ScheduleReconnect;
    hide W.Resolve, W.Reject, W.Expire, W.Add, W.Cancel, S.Flush, Resume, SendMessage;
    if OfTransport(step) {
      hide Event;
      var d := TransportEvent(c, step);
      DisposedSchedule(d);
    } else {
      match step
      case Return(threw, failing) =>
        if c.stack != [] {
          DisposedResume(c, threw, failing);
        }
      case Send(ok) => DisposedSend(c, ok);
      case SendTimer(send) => EmptyTimers(c);
      case _ =>
    }
  }

  lemma DisposedSend(c: Client, ok: bool)
    requires c.status == Disposed
    ensures SendMessage(c, ok) == c.(sends := S.SettleNow(c.sends, S.Refused))
    ensures OnlyRefused(c.sends, SendMessage(c, ok).sends)
  {
  }

  lemma DisposedSchedule(c: Client)
    requires c.status == Disposed && c.transport.None? && c.resolver.None? && c.sends.queue == []
    ensures StaysDisposed(c, ScheduleReconnect(c, NoRest))
  {
    hide W.Reject;
  }

  lemma DisposedResume(c: Client, threw: bool, failing: set<nat>)
    requires I.Inv(c) && c.status == Disposed && c.stack != []
    ensures StaysDisposed(c, Resume(c, threw, failing))
  {
    hide I.PromisesOk, I.PendingIsKept, I.StackOk, W.WaitsInv, S.SendsInv, Resume;
    ResumeShape(c, threw, failing);
  }

  lemma {:induction false} DisposedForever(c: Client, steps: seq<Step>)
    requires I.Inv(c) && c.status == Disposed
    ensures StaysDisposed(c, Run(c, steps)) && I.Inv(Run(c, steps))
  {
    hide I.Inv, Next;
    if steps == [] {
      assert c.transport.None? by { DisposedHasNone(c); }
    } else {
      var d := Run(c, steps[..|steps| - 1]);
      DisposedForever(c, steps[..|steps| - 1]);
      DisposedIsAbsorbing(d, steps[|steps| - 1]);
      I.NextInv(d, steps[|steps| - 1]);
    }
  }

  lemma DisposedHasNone(c: Client)
    requires I.Inv(c) && c.status == Disposed
    ensures c.transport.None?
  {
  }

  // ---- Call order on the wire ----

  // A message is sent at once while others are still waiting in the queue.
  predicate Overtakes(c: Client, step: Step)
  {
    step == Step.Send(true) && c.status == Connected && c.sends.queue != []
  }

  // What a step can do to the sends.
  lemma SendsNext(c: Client, step: Step)
    ensures var d := Next(c, step).sends;
            || (d == c.sends && !step.Send?)
            || d == S.RejectQueue(c.sends)
            || (step.Send? && d == SendMessage(c, step.ok).sends)
            || (step.Return? && exists live :: d == S.Flush(c.sends, live, step.failing))
            || (step.SendTimer? && d == S.ExpireSend(c.sends, step.send))
  {
    hide SendMessage, S.Flush, S.ExpireSend, S.RejectQueue, W.Resolve, W.Reject, W.Expire, W.Add, W.Cancel;
    hide TryConnect, AttemptConnect, Resume, ScheduleReconnect;
    if OfTransport(step) {
      hide Event;
      var d := TransportEvent(c, step);
      ScheduleSends(d, NoRest);
    } else {
      match step
      case Connect(ok) => ConnectSends(c, ok);
      case EnsureConnected(ok) => ConnectSends(c.(shouldReconnect := true), ok);
      case Return(threw, failing) =>
        if c.stack != [] {
          ResumeSends(c, threw, failing);
        }
      case ReconnectTimer(handle, ok) =>
        AttemptSends(c.(armed := c.armed - {handle}, reconnectTimeout := None), ok, None);
      case _ =>
    }
  }

  lemma ScheduleSends(c: Client, rest: Rest)
    ensures ScheduleReconnect(c, rest).sends == S.RejectQueue(c.sends)
  {
    hide S.RejectQueue, W.Reject;
  }

  lemma AttemptSends(c: Client, ok: bool, promise: Option<nat>)
    ensures AttemptConnect(c, ok, promise).sends == c.sends || AttemptConnect(c, ok, promise).sends == S.RejectQueue(c.sends)
  {
    hide S.RejectQueue, ScheduleReconnect;
    ScheduleSends(DropTransport(c), Rest(true, promise));
  }

  lemma ConnectSends(c: Client, ok: bool)
    ensures TryConnect(c, ok).sends == c.sends || TryConnect(c, ok).sends == S.RejectQueue(c.sends)
  {
    hide S.RejectQueue, AttemptConnect;
    AttemptSends(c.(shouldReconnect := true, resolver := Some(c.promises), promises := c.promises + 1),
                 ok, Some(c.promises));
  }

  lemma ResumeSends(c: Client, threw: bool, failing: set<nat>)
    requires c.stack != []
    ensures Resume(c, threw, failing).sends == c.sends ||
            exists live :: Resume(c, threw, failing).sends == S.Flush(c.sends, live, failing)
  {
    hide S.Flush, Resume;
    ResumeShape(c, threw, failing);
  }

  // The wire is in call order until a step that overtakes, and no longer.
  lemma WireOrderLostIff(c: Client, step: Step)
    requires I.Inv(c) && S.WireInOrder(c.sends)
    ensures S.WireInOrder(Next(c, step).sends) <==> !Overtakes(c, step)
  {
    hide I.Control, W.WaitsInv, S.SendsInv, S.WireInOrder, Next, S.Flush, S.ExpireSend, S.RejectQueue;
    SendsNext(c, step);
    S.RejectQueueKeepsOrder(c.sends);
    if step.Send? {
      SendOrder(c, step.ok);
      NextSend(c, step.ok);
    } else if step.Return? {
      forall live
        ensures S.WireInOrder(S.Flush(c.sends, live, step.failing))
      {
        S.FlushKeepsOrder(c.sends, live, step.failing);
      }
    } else if step.SendTimer? {
      S.ExpireKeepsOrder(c.sends, step.send);
    }
  }

  lemma NextSend(c: Client, ok: bool)
    ensures Next(c, Step.Send(ok)) == SendMessage(c, ok)
  {
  }

  lemma SendOrder(c: Client, ok: bool)
    requires I.Inv(c) && S.WireInOrder(c.sends)
    ensures S.WireInOrder(SendMessage(c, ok).sends) <==> !Overtakes(c, Step.Send(ok))
  {
    hide I.PromisesOk, I.PendingIsKept, I.StackOk, W.WaitsInv, S.SendsInv, S.WireInOrder;
    S.SettleNowKeepsOrderIff(c.sends, S.Sent);
    S.SettleNowKeepsOrderIff(c.sends, S.Refused);
    S.EnqueueKeepsOrder(c.sends);
  }
}
