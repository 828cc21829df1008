// What holds of the client of ClientConnection in every run.

module ClientInvariant {
  import opened Wrappers
  import W = ClientWaits
  import S = ClientSends
  import opened ClientConnection

  function StartedBy(f: Frame): Option<nat>
  {
    match f
    case AfterConnecting(_, started) => started
    case AfterDisconnected(rest) => rest.promise
    case _ => None
  }

  // While the listeners of "connecting" or "connected" run, nothing but close changes the status.
  predicate FrameOk(f: Frame, status: Status, top: bool)
  {
    && (f.AfterConnecting? ==> status == Disposed || (status == Connecting && top))
    && (f.AfterConnected? ==> status == Disposed || (status == Connected && top))
  }

  predicate StackOk(stack: seq<Frame>, status: Status)
  {
    forall i :: 0 <= i < |stack| ==> FrameOk(stack[i], status, i == |stack| - 1)
  }

  predicate StatusOk(c: Client)
  {
    && (c.status == Connecting || c.status == Connected ==> c.transport.Some?)
    && (c.status == Disposed ==> !c.shouldReconnect && c.resolver.None? && c.transport.None? && c.sends.queue == [])
  }

  // Connect promises are settled at most once, and only by way of the resolver.
  predicate PromisesOk(c: Client)
  {
    && (c.resolver.Some? ==> c.resolver.value < c.promises && !Answered(c.answered, c.resolver.value))
    && (c.connectPromise.Some? ==> c.connectPromise.value < c.promises)
    && (forall i :: 0 <= i < |c.answered| ==> c.answered[i].0 < c.promises)
    && (forall i, j :: 0 <= i < j < |c.answered| ==> c.answered[i].0 != c.answered[j].0)
    && (forall i :: 0 <= i < |c.stack| && StartedBy(c.stack[i]).Some? ==> StartedBy(c.stack[i]).value < c.promises)
  }

  predicate Answered(answered: seq<(nat, bool)>, p: nat)
  {
    exists i :: 0 <= i < |answered| && answered[i].0 == p
  }

  // A pending promise is the one connect hands out, unless an executor is still under way.
  predicate PendingIsKept(c: Client)
  {
    c.resolver.Some? ==> c.connectPromise.Some? || exists i :: 0 <= i < |c.stack| && StartedBy(c.stack[i]).Some?
  }

  ghost predicate Control(c: Client)
  {
    StackOk(c.stack, c.status) && StatusOk(c) && PromisesOk(c) && PendingIsKept(c)
  }

  ghost predicate Inv(c: Client)
  {
    Control(c) && W.WaitsInv(c.waits) && S.SendsInv(c.sends)
  }

  // ---- The parts of the original's functions ----

  lemma StackPush(stack: seq<Frame>, before: Status, f: Frame, status: Status)
    requires StackOk(stack, before) && FrameOk(f, status, true)
    requires status == Disposed || (status == before && (stack == [] || (before != Connecting && before != Connected))) ||
             stack == [] || (before != Connecting && before != Connected && before != Disposed)
    ensures StackOk(stack + [f], status)
  {
    forall i | 0 <= i < |stack|
      ensures FrameOk((stack + [f])[i], status, false)
    {
      assert FrameOk(stack[i], before, i == |stack| - 1);
    }
  }

  lemma StackReplace(stack: seq<Frame>, status: Status, f: Frame)
    requires StackOk(stack, status) && stack != [] && FrameOk(f, status, true)
    ensures StackOk(stack[..|stack| - 1] + [f], status)
  {
    var r := stack[..|stack| - 1] + [f];
    forall i | 0 <= i < |r| - 1
      ensures FrameOk(r[i], status, false)
    {
      assert FrameOk(stack[i], status, i == |stack| - 1);
    }
  }

  lemma StackPop(stack: seq<Frame>, status: Status)
    requires StackOk(stack, status) && stack != []
    ensures StackOk(stack[..|stack| - 1], status)
  {
    forall i | 0 <= i < |stack| - 1
      ensures FrameOk(stack[i], status, i == |stack| - 2)
    {
      assert FrameOk(stack[i], status, i == |stack| - 1);
    }
  }

  lemma AnswerPromises(c: Client, ok: bool)
    requires PromisesOk(c)
    ensures PromisesOk(AnswerConnect(c, ok))
  {
    hide StartedBy;
  }

  // The stack and the promises with one frame pushed.
  lemma PushPromises(c: Client, f: Frame)
    requires PromisesOk(c) && (StartedBy(f).Some? ==> StartedBy(f).value < c.promises)
    ensures PromisesOk(c.(stack := c.stack + [f]))
  {
    hide StartedBy, Answered;
  }

  lemma PopPromises(c: Client)
    requires PromisesOk(c) && c.stack != []
    ensures PromisesOk(c.(stack := c.stack[..|c.stack| - 1]))
  {
    hide StartedBy, Answered;
  }

  lemma PushPending(c: Client, d: Client, f: Frame)
    requires PendingIsKept(c) || StartedBy(f).Some?
    requires d.stack == c.stack + [f] && d.resolver == c.resolver && d.connectPromise == c.connectPromise
    ensures PendingIsKept(d)
  {
    assert d.stack[|c.stack|] == f;
    if d.resolver.Some? && d.connectPromise.None? && StartedBy(f).None? {
      var i :| 0 <= i < |c.stack| && StartedBy(c.stack[i]).Some?;
      assert StartedBy(d.stack[i]).Some?;
    }
  }

  lemma PopPending(c: Client, d: Client)
    requires PendingIsKept(c) && c.stack != [] && d.stack == c.stack[..|c.stack| - 1]
    requires d.resolver == c.resolver && (d.connectPromise.Some? || d.connectPromise == c.connectPromise)
    requires StartedBy(c.stack[|c.stack| - 1]).Some? ==> d.connectPromise.Some?
    ensures PendingIsKept(d)
  {
    if d.resolver.Some? && d.connectPromise.None? {
      var i :| 0 <= i < |c.stack| && StartedBy(c.stack[i]).Some?;
      assert StartedBy(d.stack[i]).Some?;
    }
  }

  // What scheduleReconnect is called on: the promises of connect in order, and no listeners of "connecting"
  // or "connected" on the stack.
  ghost predicate Callable(c: Client, rest: Rest)
  {
    && StackOk(c.stack, c.status)
    && (c.status == Disposed || c.stack == [] || (c.status != Connecting && c.status != Connected))
    && PromisesOk(c) && (PendingIsKept(c) || rest.promise.Some?)
    && (rest.promise.Some? ==> rest.promise.value < c.promises)
    && W.WaitsInv(c.waits) && S.SendsInv(c.sends)
    && (c.status == Disposed ==> !c.shouldReconnect && c.resolver.None? && c.transport.None?)
  }

  lemma RejectAllInv(c: Client)
    requires W.WaitsInv(c.waits) && S.SendsInv(c.sends)
    ensures W.WaitsInv(RejectAll(c).waits) && S.SendsInv(RejectAll(c).sends)
    ensures RejectAll(c).waits.waiting == [] && RejectAll(c).sends.queue == []
  {
    hide W.WaitsInv, S.SendsInv, W.Reject;
    W.RejectInv(c.waits, None, "Connection lost");
    S.RejectQueueInv(c.sends);
  }

  lemma AfterScheduleInv(c: Client, rest: Rest)
    requires StackOk(c.stack, c.status) && StatusOk(c) && PromisesOk(c)
    requires PendingIsKept(c) || rest.promise.Some?
    requires rest.promise.Some? ==> rest.promise.value < c.promises
    requires W.WaitsInv(c.waits) && S.SendsInv(c.sends)
    ensures Inv(AfterSchedule(c, rest))
  {
    hide StackOk, W.WaitsInv, S.SendsInv, StartedBy, PromisesOk, AnswerConnect, Started;
    var d := if rest.caught then AnswerConnect(c, false) else c;
    AnswerRest(c, false);
    StartedRest(d, rest.promise);
  }

  lemma AnswerRest(c: Client, ok: bool)
    ensures var d := AnswerConnect(c, ok);
            && d == c.(connectPromise := d.connectPromise, resolver := None, answered := d.answered)
            && (PromisesOk(c) ==> PromisesOk(d))
  {
    if PromisesOk(c) {
      AnswerPromises(c, ok);
    }
  }

  lemma StartedRest(c: Client, promise: Option<nat>)
    ensures var d := Started(c, promise);
            && d == c.(connectPromise := d.connectPromise)
            && (promise.Some? ==> d.connectPromise == promise)
            && (promise.None? ==> d == c)
            && (PromisesOk(c) && (promise.Some? ==> promise.value < c.promises) ==> PromisesOk(d))
  {
    hide StartedBy, Answered;
  }

  lemma ScheduleInv(c: Client, rest: Rest)
    requires Callable(c, rest)
    ensures Inv(ScheduleReconnect(c, rest))
    ensures ScheduleReconnect(c, rest).waits.waiting == [] && ScheduleReconnect(c, rest).sends.queue == []
  {
    hide StackOk, PromisesOk, W.WaitsInv, S.SendsInv, RejectAll, PendingIsKept, AfterSchedule, AnswerConnect;
    RejectAllInv(c);
    RejectAllRest(c);
    var r := RejectAll(ClearReconnect(c));
    RejectAllRest(ClearReconnect(c));
    SameControl(c, r);
    if c.status == Disposed {
      AnswerRest(r, false);
      var a := AnswerConnect(r, false);
      assert PendingIsKept(a) by { NothingPending(a); }
      AfterScheduleInv(a, rest);
      AfterScheduleRest(a, rest);
    } else {
      var f := AfterDisconnected(rest);
      StackPush(c.stack, c.status, f, Disconnected);
      PushPromises(r, f);
      var d := ScheduleReconnect(c, rest);
      SameControl(r.(stack := r.stack + [f]), d);
      PushPending(r, d, f);
    }
  }

  lemma NothingPending(c: Client)
    requires c.resolver.None?
    ensures PendingIsKept(c)
  {
  }

  lemma AfterScheduleRest(c: Client, rest: Rest)
    ensures AfterSchedule(c, rest).waits == c.waits && AfterSchedule(c, rest).sends == c.sends
  {
  }

  lemma AttemptInv(c: Client, ok: bool, promise: Option<nat>)
    requires Callable(c, Rest(true, promise)) && StatusOk(c)
    ensures Inv(AttemptConnect(c, ok, promise))
  {
    hide StackOk, PromisesOk, W.WaitsInv, S.SendsInv, PendingIsKept, ScheduleReconnect, AfterSchedule, AnswerConnect;
    hide Started;
    if c.status == Disposed || !c.shouldReconnect {
      AnswerRest(c, false);
      var a := AnswerConnect(c, false);
      assert PendingIsKept(a) by { NothingPending(a); }
      StartInv(a, promise);
    } else if c.status == Connecting {
      StartInv(c, promise);
    } else {
      var d := DropTransport(c);
      SameControl(c, d);
      if !ok {
        ScheduleInv(d, Rest(true, promise));
      } else {
        var f := AfterConnecting(d.made, promise);
        StackPush(c.stack, c.status, f, Connecting);
        PushPromises(d, f);
        var r := AttemptConnect(c, ok, promise);
        SameControl(d.(stack := d.stack + [f]), r);
        PushPending(d, r, f);
      }
    }
  }

  lemma StartInv(c: Client, promise: Option<nat>)
    requires StackOk(c.stack, c.status) && StatusOk(c) && PromisesOk(c)
    requires PendingIsKept(c) || promise.Some?
    requires promise.Some? ==> promise.value < c.promises
    requires W.WaitsInv(c.waits) && S.SendsInv(c.sends)
    ensures Inv(Started(c, promise))
  {
    hide StackOk, W.WaitsInv, S.SendsInv, StartedBy, PromisesOk, Started;
    StartedRest(c, promise);
  }

  lemma TryConnectInv(c: Client, ok: bool)
    requires Inv(c)
    ensures Inv(TryConnect(c, ok))
  {
    hide StackOk, PromisesOk, W.WaitsInv, S.SendsInv, PendingIsKept, ScheduleReconnect, Started;
    if c.status != Disposed && c.status != Connected && c.connectPromise.None? {
      var d := c.(shouldReconnect := true, resolver := Some(c.promises), promises := c.promises + 1);
      NewPromise(c, d);
      if c.status == Connecting {
        StartInv(d, Some(c.promises));
      } else {
        AttemptInv(d, ok, Some(c.promises));
      }
    }
  }

  lemma NewPromise(c: Client, d: Client)
    requires PromisesOk(c) && d == c.(shouldReconnect := true, resolver := Some(c.promises), promises := c.promises + 1)
    ensures PromisesOk(d)
  {
    hide StartedBy;
  }

  lemma DisposeInv(c: Client)
    requires Inv(c)
    ensures Inv(Dispose(c))
    ensures c.status != Disposed ==> Dispose(c).waits.waiting == [] && Dispose(c).sends.queue == []
  {
    hide StackOk, PromisesOk, W.WaitsInv, S.SendsInv, PendingIsKept, RejectAll;
    if c.status != Disposed {
      var d := DropTransport(ClearReconnect(c.(shouldReconnect := false, connectPromise := None, resolver := None)));
      RejectAllRest(d);
      RejectAllInv(c);
      RejectAllRest(c);
      StackPush(c.stack, c.status, AfterDisposed, Disposed);
      FewerPromises(c, d);
      PushPromises(d, AfterDisposed);
      var r := Dispose(c);
      SameControl(d.(stack := d.stack + [AfterDisposed]), r);
      NothingPending(r);
    }
  }

  lemma FewerPromises(c: Client, d: Client)
    requires PromisesOk(c) && d.stack == c.stack && d.promises == c.promises && d.answered == c.answered
    requires d.connectPromise.None? && d.resolver.None?
    ensures PromisesOk(d)
  {
  }

  lemma ResumeInv(c: Client, threw: bool, failing: set<nat>)
    requires Inv(c) && c.stack != []
    ensures Inv(Resume(c, threw, failing))
  {
    hide StackOk, PromisesOk, W.WaitsInv, S.SendsInv, PendingIsKept, AnswerConnect, Started, AfterSchedule, FrameOk;
    hide W.Resolve, S.Flush;
    var top, d := c.stack[|c.stack| - 1], c.(stack := c.stack[..|c.stack| - 1]);
    StackPop(c.stack, c.status);
    PopPromises(c);
    assert StartedBy(top).Some? ==> StartedBy(top).value < c.promises by { TopPromise(c); }
    if StartedBy(top).None? {
      PopPending(c, d);
    }
    match top
    case AfterConnecting(t, started) =>
      var e := d.(connectTimer := true, attached := Some(t));
      SameControl(d, e);
      StartInv(e, started);
    case AfterConnected(m) =>
      if !threw {
        ResumeConnectedInv(c, d, m, failing);
      }
    case AfterDisconnected(rest) =>
      if !d.shouldReconnect || !d.reconnectEnabled {
        AnswerRest(d, false);
        NothingPending(AnswerConnect(d, false));
        AfterScheduleInv(AnswerConnect(d, false), rest);
      } else {
        SameControl(d, ArmReconnect(d));
        AfterScheduleInv(ArmReconnect(d), rest);
      }
    case AfterDisposed =>
    case AfterHandlers(m) =>
      W.ResolveInv(d.waits, m);
      SameControl(d, d.(waits := W.Resolve(d.waits, m)));
  }

  lemma TopPromise(c: Client)
    requires PromisesOk(c) && c.stack != []
    ensures var top := c.stack[|c.stack| - 1]; StartedBy(top).Some? ==> StartedBy(top).value < c.promises
  {
  }

  lemma ResumeConnectedInv(c: Client, d: Client, m: Message, failing: set<nat>)
    requires Inv(c) && c.stack != [] && c.stack[|c.stack| - 1] == AfterConnected(m)
    requires d == c.(stack := c.stack[..|c.stack| - 1]) && StackOk(d.stack, d.status) && PromisesOk(d)
    ensures Inv(Resume(c, false, failing))
  {
    hide StackOk, PromisesOk, W.WaitsInv, S.SendsInv, PendingIsKept, AnswerConnect, S.Flush;
    var live := d.transport.Some? && d.status == Connected;
    var e := d.(sends := S.Flush(d.sends, live, failing));
    S.FlushExact(d.sends, live, failing);
    SameControl(d, e);
    AnswerRest(e, true);
    var a := AnswerConnect(e, true);
    PushPromises(a, AfterHandlers(m));
    NothingPending(Resume(c, false, failing));
    StackReplace(c.stack, c.status, AfterHandlers(m));
  }

  // The predicates on stack and promises see only those.
  lemma SameControl(c: Client, d: Client)
    requires d.stack == c.stack && d.resolver == c.resolver && d.connectPromise == c.connectPromise
    requires d.promises == c.promises && d.answered == c.answered
    ensures PromisesOk(c) ==> PromisesOk(d)
    ensures PendingIsKept(c) ==> PendingIsKept(d)
  {
  }

  lemma RejectAllRest(c: Client)
    ensures RejectAll(c) == c.(waits := RejectAll(c).waits, sends := RejectAll(c).sends)
    ensures RejectAll(c).waits == W.Clear(c.waits) && RejectAll(c).sends == S.RejectQueue(c.sends)
  {
  }

  lemma SendMessageInv(c: Client, ok: bool)
    requires Inv(c)
    ensures Inv(SendMessage(c, ok))
  {
    hide StackOk, PromisesOk, W.WaitsInv, S.SendsInv, PendingIsKept;
    S.SettleNowInv(c.sends, S.Sent);
    S.SettleNowInv(c.sends, S.Refused);
    S.EnqueueInv(c.sends);
    SameControl(c, SendMessage(c, ok));
  }

  lemma EnsureConnectionInv(c: Client, ok: bool)
    requires Inv(c)
    ensures Inv(EnsureConnection(c, ok))
  {
    hide StackOk, PromisesOk, W.WaitsInv, S.SendsInv, PendingIsKept, TryConnect;
    if c.status != Disposed {
      var d := c.(shouldReconnect := true);
      SameControl(c, d);
      TryConnectInv(d, ok);
    }
  }

  lemma CallInv(c: Client, step: Step)
    requires Inv(c)
    ensures Inv(Call(c, step))
  {
    hide StackOk, PromisesOk, W.WaitsInv, S.SendsInv, PendingIsKept, StatusOk;
    hide TryConnect, EnsureConnection, Dispose, SendMessage, Resume, W.Add, W.Cancel;
    SameStatus(c, Call(c, step));
    match step
    case Connect(ok) => TryConnectInv(c, ok);
    case EnsureConnected(ok) => EnsureConnectionInv(c, ok);
    case Close => DisposeInv(c);
    case SetReconnectEnabled(on) => SameControl(c, c.(reconnectEnabled := on));
    case WaitFor(select, requestId, timed) =>
      W.AddInv(c.waits, select, requestId, timed);
      SameControl(c, Call(c, step));
    case CancelWait(waiter, reason) =>
      W.CancelInv(c.waits, waiter, reason);
      SameControl(c, Call(c, step));
    case Send(ok) => SendMessageInv(c, ok);
    case Return(threw, failing) =>
      if c.stack != [] {
        ResumeInv(c, threw, failing);
      }
    case _ =>
  }

  lemma SameStatus(c: Client, d: Client)
    ensures (StatusOk(c) && d.status == c.status && d.transport == c.transport && d.resolver == c.resolver &&
             d.sends == c.sends && d.shouldReconnect == c.shouldReconnect) ==> StatusOk(d)
  {
  }

  // Events find the stack empty.
  lemma EventCallable(c: Client, d: Client)
    requires Inv(c) && c.stack == []
    requires d.stack == [] && d.status == c.status && d.transport in {c.transport, None}
    requires d.resolver == c.resolver && d.connectPromise == c.connectPromise && d.promises == c.promises
    requires d.answered == c.answered && d.waits == c.waits && d.sends == c.sends
    requires d.shouldReconnect == c.shouldReconnect
    ensures Callable(d, NoRest) && Callable(d, Rest(true, None))
    ensures PromisesOk(d) && PendingIsKept(d) && StackOk(d.stack, d.status)
  {
    hide PromisesOk, W.WaitsInv, S.SendsInv, PendingIsKept;
    SameControl(c, d);
  }

  lemma TimerEventInv(c: Client, step: Step)
    requires Inv(c) && c.stack == []
    requires step.ReconnectTimer? || step.ConnectTimeout? || step.ErrorTimeout? || step.LivenessLost?
    ensures Inv(Event(c, step))
  {
    hide PromisesOk, W.WaitsInv, S.SendsInv, PendingIsKept, StackOk, ScheduleReconnect, AttemptConnect;
    match step
    case ReconnectTimer(handle, ok) =>
      var d := c.(armed := c.armed - {handle}, reconnectTimeout := None);
      EventCallable(c, d);
      AttemptInv(d, ok, None);
    case ConnectTimeout =>
      EventCallable(c, c.(connectTimer := false));
      EventCallable(c, DropTransport(c));
      ScheduleInv(DropTransport(c), NoRest);
    case ErrorTimeout =>
      EventCallable(c, c.(errorTimer := false));
      ScheduleInv(c.(errorTimer := false), NoRest);
    case LivenessLost =>
      EventCallable(c, DropTransport(c));
      ScheduleInv(DropTransport(c), NoRest);
  }

  lemma TransportEventInv(c: Client, step: Step)
    requires Inv(c) && c.stack == []
    requires step.TransportOpened? || step.TransportClosed? || step.TransportFailed?
    ensures Inv(Event(c, step))
  {
    hide PromisesOk, W.WaitsInv, S.SendsInv, PendingIsKept, StackOk, ScheduleReconnect;
    EventCallable(c, c.(errorTimer := false));
    EventCallable(c, c.(connectTimer := false, errorTimer := false));
    EventCallable(c, c.(connectTimer := false, errorTimer := true));
    ScheduleInv(c.(errorTimer := false), NoRest);
    ScheduleInv(c.(connectTimer := false, errorTimer := false), NoRest);
  }

  lemma HandleMessageInv(c: Client, m: Message)
    requires Inv(c) && c.stack == []
    ensures Inv(HandleMessage(c, m))
  {
    hide PromisesOk, W.WaitsInv, S.SendsInv, PendingIsKept, StackOk;
    var d := HandleMessage(c, m);
    var f := d.stack[|c.stack|];
    StackPush(c.stack, c.status, f, d.status);
    PushPromises(c, f);
    SameControl(c.(stack := c.stack + [f]), d);
    PushPending(c, d, f);
  }

  lemma EventInv(c: Client, step: Step)
    requires Inv(c) && c.stack == []
    ensures Inv(Event(c, step))
  {
    hide StackOk, PromisesOk, W.WaitsInv, S.SendsInv, PendingIsKept, StatusOk;
    hide ScheduleReconnect, AttemptConnect, HandleMessage, W.Expire, W.Reject, S.ExpireSend;
    match step
    case WaiterTimer(waiter) =>
      W.ExpireInv(c.waits, waiter);
      SameControl(c, Event(c, step));
      SameStatus(c, Event(c, step));
    case SendTimer(send) => SendTimerInv(c, send);
    case Receive(m) => HandleMessageInv(c, m);
    case Invalid(request) =>
      W.RejectInv(c.waits, Some(request), "Invalid response");
      SameControl(c, Event(c, step));
      SameStatus(c, Event(c, step));
    case _ =>
      if step.TransportOpened? || step.TransportClosed? || step.TransportFailed? {
        TransportEventInv(c, step);
      } else if !IsCall(step) {
        TimerEventInv(c, step);
      }
  }

  lemma SendTimerInv(c: Client, send: nat)
    requires Inv(c)
    ensures Inv(c.(sends := S.ExpireSend(c.sends, send)))
  {
    hide StackOk, PromisesOk, W.WaitsInv, PendingIsKept;
    S.ExpireSendInv(c.sends, send);
    SameControl(c, c.(sends := S.ExpireSend(c.sends, send)));
  }

  lemma NextInv(c: Client, step: Step)
    requires Inv(c)
    ensures Inv(Next(c, step))
  {
    hide Inv, Call, Event;
    if IsCall(step) {
      CallInv(c, step);
    } else if c.stack == [] {
      EventInv(c, step);
    }
  }

  lemma InitInv(reconnectEnabled: bool)
    ensures Inv(Init(reconnectEnabled))
  {
  }

  lemma {:induction false} RunInv(reconnectEnabled: bool, steps: seq<Step>)
    ensures Inv(Run(Init(reconnectEnabled), steps))
  {
    hide Inv, Next;
    if steps == [] {
      InitInv(reconnectEnabled);
    } else {
      RunInv(reconnectEnabled, steps[..|steps| - 1]);
      NextInv(Run(Init(reconnectEnabled), steps[..|steps| - 1]), steps[|steps| - 1]);
    }
  }
}
