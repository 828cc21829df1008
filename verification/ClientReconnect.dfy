// Where the reconnect timer and the promise of connect in packages/client/src/daemon-client.ts go wrong,
// and exactly when they do.

module ClientReconnect {
  import opened Wrappers
  import W = ClientWaits
  import S = ClientSends
  import opened ClientConnection
  import I = ClientInvariant
  import R = ClientRuns

  // ---- The reconnect timer ----

  // The field holds the one armed timer, and there is one only in "disconnected".
  predicate BackoffOk(c: Client)
  {
    && c.armed == (if c.reconnectTimeout.Some? then {c.reconnectTimeout.value} else {})
    && (c.reconnectTimeout.Some? ==> c.reconnectTimeout.value < c.timersMade && c.status == Disconnected)
  }

  // Connecting by hand while the timer is armed; or arming it when a listener of "disconnected" has already
  // connected, or failed to.
  predicate Interferes(c: Client, step: Step)
  {
    || ((step.Connect? || step.EnsureConnected?) && step.ok && c.status == Disconnected && c.connectPromise.None? && c.armed != {})
    || (step.Return? && c.stack != [] && c.stack[|c.stack| - 1].AfterDisconnected? && c.shouldReconnect && c.reconnectEnabled &&
        (c.status != Disconnected || c.armed != {}))
  }

  lemma ScheduleBackoff(c: Client, rest: Rest)
    ensures var d, e := ScheduleReconnect(c, rest), ClearReconnect(c);
            && d.armed == e.armed && d.reconnectTimeout.None? && d.timersMade == c.timersMade
    ensures BackoffOk(c) ==> BackoffOk(ScheduleReconnect(c, rest))
  {
    hide RejectAll, AfterSchedule, AnswerConnect;
    var r := RejectAll(ClearReconnect(c));
    I.RejectAllRest(ClearReconnect(c));
    R.AnswerShape(r, false);
    R.AfterScheduleShape(AnswerConnect(r, false), rest);
  }

  // Like BackoffOk, but for the status.
  lemma AttemptBackoff(c: Client, ok: bool, promise: Option<nat>)
    requires BackoffOk(c) && c.shouldReconnect && c.status != Disposed
    ensures BackoffOk(AttemptConnect(c, ok, promise)) <==> !(ok && c.status == Disconnected && c.armed != {})
  {
    hide ScheduleReconnect;
    ScheduleBackoff(DropTransport(c), Rest(true, promise));
  }

  lemma ConnectBackoff(c: Client, ok: bool)
    requires BackoffOk(c)
    ensures BackoffOk(TryConnect(c, ok)) <==> !Interferes(c, Step.Connect(ok))
  {
    hide AttemptConnect;
    if c.status != Disposed && c.status != Connected && c.connectPromise.None? {
      AttemptBackoff(c.(shouldReconnect := true, resolver := Some(c.promises), promises := c.promises + 1), ok, Some(c.promises));
    }
  }

  lemma ResumeBackoff(c: Client, threw: bool, failing: set<nat>)
    requires BackoffOk(c) && c.stack != []
    ensures BackoffOk(Resume(c, threw, failing)) <==> !Interferes(c, Step.Return(threw, failing))
  {
    hide S.Flush, W.Resolve, AnswerConnect, Started, AfterSchedule;
    var top, d := c.stack[|c.stack| - 1], c.(stack := c.stack[..|c.stack| - 1]);
    match top
    case AfterConnecting(t, started) => I.StartedRest(d.(connectTimer := true, attached := Some(t)), started);
    case AfterConnected(m) =>
      R.AnswerShape(d.(sends := S.Flush(d.sends, d.transport.Some? && d.status == Connected, failing)), true);
    case AfterDisconnected(rest) =>
      R.AnswerShape(d, false);
      R.AfterScheduleShape(AnswerConnect(d, false), rest);
      R.AfterScheduleShape(ArmReconnect(d), rest);
    case AfterDisposed =>
    case AfterHandlers(m) =>
  }

  // The timer is armed only in "disconnected" until a step that interferes, and no longer.
  lemma BackoffLostIff(c: Client, step: Step)
    requires I.Inv(c) && BackoffOk(c)
    ensures BackoffOk(Next(c, step)) <==> !Interferes(c, step)
  {
    hide I.Inv, Call, Event, BackoffOk, Interferes;
    if IsCall(step) {
      CallBackoff(c, step);
    } else {
      NoInterference(c, step);
      if c.stack == [] {
        EventBackoff(c, step);
      }
    }
  }

  lemma NoInterference(c: Client, step: Step)
    requires !IsCall(step)
    ensures !Interferes(c, step)
  {
  }

  lemma CallBackoff(c: Client, step: Step)
    requires BackoffOk(c) && IsCall(step)
    ensures BackoffOk(Call(c, step)) <==> !Interferes(c, step)
  {
    hide TryConnect, Resume, RejectAll, W.Add, W.Cancel, SendMessage;
    match step
    case Connect(ok) => ConnectBackoff(c, ok);
    case EnsureConnected(ok) => ConnectBackoff(c.(shouldReconnect := true), ok);
    case Close => CloseBackoff(c);
    case Send(ok) => SendBackoff(c, ok);
    case Return(threw, failing) =>
      if c.stack != [] {
        ResumeBackoff(c, threw, failing);
      }
    case _ =>
  }

  lemma EventBackoff(c: Client, step: Step)
    requires I.Inv(c) && BackoffOk(c) && !IsCall(step) && c.stack == []
    ensures BackoffOk(Event(c, step))
  {
    hide I.Inv, ScheduleReconnect, AttemptConnect, W.Reject, W.Expire, S.ExpireSend;
    if R.OfTransport(step) {
      hide Event;
      var d := R.TransportEvent(c, step);
      ScheduleBackoff(d, NoRest);
    } else if step.ReconnectTimer? {
      TimerBackoff(c, step.handle, step.ok);
    }
  }

  lemma CloseBackoff(c: Client)
    requires BackoffOk(c)
    ensures BackoffOk(Dispose(c))
  {
    hide RejectAll;
    I.RejectAllRest(DropTransport(ClearReconnect(c.(shouldReconnect := false, connectPromise := None, resolver := None))));
  }

  lemma SendBackoff(c: Client, ok: bool)
    requires BackoffOk(c)
    ensures BackoffOk(SendMessage(c, ok))
  {
  }

  lemma TimerBackoff(c: Client, handle: nat, ok: bool)
    requires I.Inv(c) && BackoffOk(c) && c.stack == []
    ensures BackoffOk(Event(c, Step.ReconnectTimer(handle, ok)))
  {
    hide AttemptConnect, I.PromisesOk, I.PendingIsKept, W.WaitsInv, S.SendsInv;
    if handle in c.armed {
      var d := c.(armed := c.armed - {handle}, reconnectTimeout := None);
      if d.shouldReconnect {
        AttemptBackoff(d, ok, None);
      }
    }
  }

  lemma {:induction false} ArmedOnlyWhenDisconnected(reconnectEnabled: bool, steps: seq<Step>)
    requires forall k :: 0 <= k < |steps| ==> !Interferes(Run(Init(reconnectEnabled), steps[..k]), steps[k])
    ensures BackoffOk(Run(Init(reconnectEnabled), steps))
  {
    hide I.Inv, Next, BackoffOk, Interferes;
    if steps == [] {
      assert BackoffOk(Init(reconnectEnabled)) by { InitBackoff(reconnectEnabled); }
    } else {
      var n := |steps| - 1;
      forall k | 0 <= k < n
        ensures !Interferes(Run(Init(reconnectEnabled), steps[..n][..k]), steps[..n][k])
      {
        assert steps[..n][..k] == steps[..k];
      }
      ArmedOnlyWhenDisconnected(reconnectEnabled, steps[..n]);
      I.RunInv(reconnectEnabled, steps[..n]);
      BackoffLostIff(Run(Init(reconnectEnabled), steps[..n]), steps[n]);
    }
  }

  lemma InitBackoff(reconnectEnabled: bool)
    ensures BackoffOk(Init(reconnectEnabled))
  {
  }

  // A timer that fires on a live connection replaces its transport, and leaves the waiters of the old one.
  lemma LateTimerDropsConnection(c: Client, handle: nat)
    requires I.Inv(c) && c.status == Connected && c.stack == [] && handle in c.armed && c.shouldReconnect
    ensures var d := Next(c, Step.ReconnectTimer(handle, true));
            && d.status == Connecting && d.transport == Some(c.made) && d.attached.None?
            && d.waits == c.waits && d.sends == c.sends
  {
  }

  // ---- The promise of connect ----

  // Whoever awaits the pending promise waits for ever.
  predicate Lost(c: Client, p: nat)
  {
    c.resolver != Some(p) && !I.Answered(c.answered, p)
  }

  // A call that makes a second promise while one is pending.
  predicate Overwrites(c: Client, step: Step)
  {
    && c.connectPromise.None?
    && ((step.Connect? && c.status != Connected) || (step.EnsureConnected? && c.status != Connected && c.status != Connecting))
  }

  // The pending promise is either untouched or has been settled.
  predicate SettlesAtMost(c: Client, d: Client)
  {
    || (d.resolver == c.resolver && d.answered == c.answered)
    || (c.resolver.Some? && d.resolver.None? && |d.answered| == |c.answered| + 1 && c.answered <= d.answered
        && d.answered[|c.answered|].0 == c.resolver.value)
  }

  lemma SettlesLost(c: Client, d: Client, p: nat)
    requires SettlesAtMost(c, d)
    ensures c.resolver == Some(p) ==> !Lost(d, p)
    ensures Lost(c, p) ==> Lost(d, p)
  {
    if c.resolver == Some(p) && d.answered != c.answered {
      assert d.answered[|c.answered|].0 == p;
    }
    if I.Answered(d.answered, p) && c.resolver != Some(p) {
      var i :| 0 <= i < |d.answered| && d.answered[i].0 == p;
      assert c.answered[i].0 == p;
    }
  }

  lemma AfterScheduleSettles(c: Client, answer: bool, rest: Rest)
    ensures SettlesAtMost(c, AfterSchedule(if answer then AnswerConnect(c, false) else c, rest))
  {
  }

  lemma ScheduleSettles(c: Client, rest: Rest)
    ensures SettlesAtMost(c, ScheduleReconnect(c, rest))
  {
    hide RejectAll, AfterSchedule;
    var r := RejectAll(ClearReconnect(c));
    I.RejectAllRest(ClearReconnect(c));
    AfterScheduleSettles(r, true, rest);
  }

  lemma AttemptSettles(c: Client, ok: bool, promise: Option<nat>)
    ensures SettlesAtMost(c, AttemptConnect(c, ok, promise))
  {
    hide ScheduleReconnect;
    ScheduleSettles(DropTransport(c), Rest(true, promise));
  }

  lemma ResumeSettles(c: Client, threw: bool, failing: set<nat>)
    requires c.stack != []
    ensures SettlesAtMost(c, Resume(c, threw, failing))
  {
    hide S.Flush, W.Resolve, AfterSchedule;
    var d := c.(stack := c.stack[..|c.stack| - 1]);
    match c.stack[|c.stack| - 1]
    case AfterDisconnected(rest) =>
      AfterScheduleSettles(d, true, rest);
      AfterScheduleSettles(ArmReconnect(d), false, rest);
    case _ =>
  }

  // Making a second promise loses the first, whatever comes of the attempt.
  lemma ConnectLoses(c: Client, ok: bool, p: nat)
    requires I.PromisesOk(c) && c.resolver == Some(p) && c.status != Disposed
    ensures Lost(TryConnect(c, ok), p) <==> Overwrites(c, Step.Connect(ok))
  {
    hide AttemptConnect;
    if c.status != Connected && c.connectPromise.None? {
      var d := c.(shouldReconnect := true, resolver := Some(c.promises), promises := c.promises + 1);
      AttemptSettles(d, ok, Some(c.promises));
      SettlesLost(d, AttemptConnect(d, ok, Some(c.promises)), p);
    }
  }

  // A pending promise is lost if and only if the step is close or makes another one.
  lemma PromiseLostIff(c: Client, step: Step, p: nat)
    requires I.Inv(c) && c.resolver == Some(p)
    ensures Lost(Next(c, step), p) <==> step.Close? || Overwrites(c, step)
  {
    hide I.StackOk, I.PromisesOk, I.PendingIsKept, W.WaitsInv, S.SendsInv, ScheduleReconnect, AttemptConnect, TryConnect;
    hide RejectAll, W.Resolve, W.Reject, W.Expire, W.Add, W.Cancel, S.ExpireSend, Resume, SendMessage, SettlesAtMost, Lost;
    var d := Next(c, step);
    if OfTransportOrTimer(step) {
      EventSettles(c, step);
      SettlesLost(c, d, p);
    } else {
      match step
      case Connect(ok) => ConnectLoses(c, ok, p);
      case EnsureConnected(ok) => EnsureLoses(c, ok, p);
      case Close => CloseLoses(c, p);
      case Return(threw, failing) =>
        assert SettlesAtMost(c, c) by { SameSettles(c, c); }
        if c.stack != [] {
          ResumeSettles(c, threw, failing);
        }
        SettlesLost(c, d, p);
      case _ =>
        SameResolver(c, step);
        SameSettles(c, d);
        SettlesLost(c, d, p);
    }
  }

  predicate OfTransportOrTimer(step: Step)
  {
    R.OfTransport(step) || step.ReconnectTimer?
  }

  lemma SameSettles(c: Client, d: Client)
    ensures d.resolver == c.resolver && d.answered == c.answered ==> SettlesAtMost(c, d)
  {
  }

  lemma SameResolver(c: Client, step: Step)
    requires !OfTransportOrTimer(step) && !step.Connect? && !step.EnsureConnected? && !step.Close? && !step.Return?
    ensures Next(c, step).resolver == c.resolver && Next(c, step).answered == c.answered
  {
    hide Call, Event;
    if IsCall(step) {
      SameResolverCall(c, step);
    } else if c.stack == [] {
      SameResolverEvent(c, step);
    }
  }

  lemma SameResolverCall(c: Client, step: Step)
    requires step.SetReconnectEnabled? || step.WaitFor? || step.CancelWait? || step.Send?
    ensures Call(c, step).resolver == c.resolver && Call(c, step).answered == c.answered
  {
    hide W.Add, W.Cancel, S.Enqueue, S.SettleNow;
  }

  lemma SameResolverEvent(c: Client, step: Step)
    requires !IsCall(step) && !OfTransportOrTimer(step)
    ensures Event(c, step).resolver == c.resolver && Event(c, step).answered == c.answered
  {
    hide W.Reject, W.Expire, S.ExpireSend;
  }

  lemma EventSettles(c: Client, step: Step)
    requires OfTransportOrTimer(step)
    ensures SettlesAtMost(c, Next(c, step))
  {
    hide ScheduleReconnect, AttemptConnect;
    if step.ReconnectTimer? {
      AttemptSettles(c.(armed := c.armed - {step.handle}, reconnectTimeout := None), step.ok, None);
    } else {
      hide Event;
      var d := R.TransportEvent(c, step);
      ScheduleSettles(d, NoRest);
    }
  }

  lemma EnsureLoses(c: Client, ok: bool, p: nat)
    requires I.PromisesOk(c) && c.resolver == Some(p) && c.status != Disposed
    ensures Lost(EnsureConnection(c, ok), p) <==> Overwrites(c, Step.EnsureConnected(ok))
  {
    hide TryConnect, I.Answered;
    var d := c.(shouldReconnect := true);
    I.SameControl(c, d);
    ConnectLoses(d, ok, p);
  }

  lemma CloseLoses(c: Client, p: nat)
    requires I.PromisesOk(c) && c.resolver == Some(p) && c.status != Disposed
    ensures Lost(Dispose(c), p)
  {
    hide RejectAll;
    I.RejectAllRest(DropTransport(ClearReconnect(c.(shouldReconnect := false, connectPromise := None, resolver := None))));
  }

  // Outside the listeners nothing overwrites: there only close loses a promise.
  lemma OutsideListenersOnlyCloseLoses(c: Client, step: Step, p: nat)
    requires I.Inv(c) && c.resolver == Some(p) && c.stack == []
    ensures Lost(Next(c, step), p) <==> step.Close?
  {
    PromiseLostIff(c, step, p);
    hide Next, W.WaitsInv, S.SendsInv, Lost, I.Answered;
  }

  // ---- A client that never connects again ----

  // connect hands out a settled promise, and nothing is armed or attached that could clear it.
  predicate Stuck(c: Client)
  {
    && c.status == Disconnected && c.connectPromise.Some? && c.resolver.None?
    && c.armed == {} && c.attached.None? && !c.connectTimer && !c.errorTimer
    && forall i :: 0 <= i < |c.stack| ==> c.stack[i].AfterHandlers?
  }

  lemma StuckStays(c: Client, step: Step)
    requires Stuck(c) && !step.Close?
    ensures Stuck(Next(c, step)) && Next(c, step).made == c.made
  {
    hide W.Resolve, W.Reject, W.Expire, W.Add, W.Cancel, S.ExpireSend, ScheduleReconnect, AttemptConnect;
    if step.Return? && c.stack != [] {
      assert c.stack[|c.stack| - 1].AfterHandlers?;
    }
  }

  // Whatever is called and whatever happens: short of close, no transport is ever made again.
  lemma {:induction false} StuckForever(c: Client, steps: seq<Step>)
    requires Stuck(c) && forall k :: 0 <= k < |steps| ==> !steps[k].Close?
    ensures Stuck(Run(c, steps)) && Run(c, steps).made == c.made
  {
    hide Next, Stuck;
    if steps != [] {
      var n := |steps| - 1;
      assert forall k :: 0 <= k < n ==> steps[..n][k] == steps[k];
      StuckForever(c, steps[..n]);
      StuckStays(Run(c, steps[..n]), steps[n]);
    }
  }

  // A transport factory that throws inside connect: connect keeps the promise it has just rejected, and the
  // client is stuck if and only if reconnecting is disabled.
  lemma ThrowingFactorySticksIff(c: Client)
    requires I.Inv(c) && BackoffOk(c) && c.stack == [] && c.status in {Idle, Disconnected} && c.connectPromise.None?
    ensures var d := Next(Next(c, Step.Connect(false)), Step.Return(false, {}));
            && d.status == Disconnected && d.connectPromise == Some(c.promises) && d.answered == c.answered + [(c.promises, false)]
            && (Stuck(d) <==> !c.reconnectEnabled)
  {
    hide I.Inv, Next;
    var a := ThrownAttempt(c);
    ThrownReturn(c, a);
  }

  // The attempt up to the listeners of "disconnected".
  lemma ThrownAttempt(c: Client) returns (a: Client)
    requires BackoffOk(c) && c.stack == [] && c.status in {Idle, Disconnected} && c.connectPromise.None?
    ensures a == Next(c, Step.Connect(false))
    ensures a.status == Disconnected && a.stack == [AfterDisconnected(Rest(true, Some(c.promises)))] && a.shouldReconnect
    ensures a.resolver == Some(c.promises) && a.answered == c.answered && a.promises == c.promises + 1
    ensures a.armed == {} && a.attached.None? && !a.connectTimer && !a.errorTimer && a.reconnectEnabled == c.reconnectEnabled
  {
    hide RejectAll;
    var b := DropTransport(c.(shouldReconnect := true, resolver := Some(c.promises), promises := c.promises + 1));
    I.RejectAllRest(ClearReconnect(b));
    a := Next(c, Step.Connect(false));
    assert [] + [AfterDisconnected(Rest(true, Some(c.promises)))] == [AfterDisconnected(Rest(true, Some(c.promises)))];
  }

  // And behind them: the promise is rejected, and then kept.
  lemma ThrownReturn(c: Client, a: Client)
    requires a.status == Disconnected && a.stack == [AfterDisconnected(Rest(true, Some(c.promises)))] && a.shouldReconnect
    requires a.resolver == Some(c.promises) && a.answered == c.answered
    requires a.armed == {} && a.attached.None? && !a.connectTimer && !a.errorTimer
    ensures var d := Next(a, Step.Return(false, {}));
            && d.status == Disconnected && d.connectPromise == Some(c.promises) && d.answered == c.answered + [(c.promises, false)]
            && (Stuck(d) <==> !a.reconnectEnabled)
  {
    assert a.stack[..0] == [];
  }

  // ---- All of this can happen ----

  lemma RunSnoc(c: Client, steps: seq<Step>, step: Step)
    ensures Run(c, steps + [step]) == Next(Run(c, steps), step)
  {
    assert (steps + [step])[..|steps|] == steps;
  }

  const Done: Step := Step.Return(false, {})
  const Hello: Message := W.Message("status", true, None, "server_info")

  lemma StartsConnecting(c: Client) returns (a: Client)
    requires c.stack == [] && c.status in {Idle, Disconnected} && c.connectPromise.None?
    ensures a == Next(c, Step.Connect(true))
    ensures a.stack == [AfterConnecting(c.made, Some(c.promises))] && a.status == Connecting && a.transport.Some?
    ensures a.resolver == Some(c.promises) && a.promises == c.promises + 1 && a.shouldReconnect
    ensures a.armed == c.armed && a.sends == c.sends
    ensures a.reconnectEnabled == c.reconnectEnabled && a.reconnectTimeout == c.reconnectTimeout && a.answered == c.answered
  {
    hide ScheduleReconnect, AnswerConnect;
    a := Next(c, Step.Connect(true));
    assert [] + [AfterConnecting(c.made, Some(c.promises))] == [AfterConnecting(c.made, Some(c.promises))];
  }

  lemma ListenersDone(a: Client, t: nat, p: nat)
    requires a.stack == [AfterConnecting(t, Some(p))]
    ensures Next(a, Done) == a.(stack := [], connectTimer := true, attached := Some(t), connectPromise := Some(p))
  {
    hide W.Resolve, S.Flush, AfterSchedule, AnswerConnect, ArmReconnect;
    assert a.stack[..0] == [];
  }

  // From "idle" or "disconnected" to "connecting".
  lemma Connects(c: Client, enabled: bool, steps: seq<Step>) returns (d: Client, more: seq<Step>)
    requires c == Run(Init(enabled), steps) && c.stack == [] && c.status in {Idle, Disconnected} && c.connectPromise.None?
    ensures d == Run(Init(enabled), more) && d.stack == [] && d.status == Connecting && d.connectPromise.Some?
    ensures d.resolver == Some(c.promises) && d.promises == c.promises + 1 && d.shouldReconnect
    ensures d.armed == c.armed && d.attached.Some? && d.transport.Some? && d.sends == c.sends
    ensures d.reconnectEnabled == c.reconnectEnabled && d.reconnectTimeout == c.reconnectTimeout && d.answered == c.answered
  {
    hide Run, Next;
    var a := StartsConnecting(c);
    RunSnoc(Init(enabled), steps, Step.Connect(true));
    ListenersDone(a, c.made, c.promises);
    RunSnoc(Init(enabled), steps + [Step.Connect(true)], Done);
    d, more := Next(a, Done), steps + [Step.Connect(true)] + [Done];
  }

  // And on to the listeners of "connected".
  lemma Greets(c: Client, enabled: bool, steps: seq<Step>) returns (d: Client, more: seq<Step>)
    requires c == Run(Init(enabled), steps) && c.stack == [] && c.status == Connecting
    ensures d == Run(Init(enabled), more) && d == c.(status := Connected, connectTimer := false, stack := [AfterConnected(Hello)])
  {
    hide Run;
    RunSnoc(Init(enabled), steps, Step.Receive(Hello));
    assert c.stack + [AfterConnected(Hello)] == [AfterConnected(Hello)];
    d, more := Next(c, Step.Receive(Hello)), steps + [Step.Receive(Hello)];
  }

  lemma Greeted(c: Client) returns (a: Client)
    requires c.stack == [AfterConnected(Hello)]
    ensures a == Next(c, Done) && a.stack == [AfterHandlers(Hello)] && a.connectPromise.None? && a.status == c.status
    ensures a.armed == c.armed && a.shouldReconnect == c.shouldReconnect && a.attached == c.attached
    ensures a.reconnectEnabled == c.reconnectEnabled && a.reconnectTimeout == c.reconnectTimeout
  {
    hide S.Flush, W.Resolve, AfterSchedule, ArmReconnect, Started;
    a := Next(c, Done);
    assert c.stack[..0] == [] && [] + [AfterHandlers(Hello)] == [AfterHandlers(Hello)];
  }

  lemma Handled(a: Client) returns (d: Client)
    requires a.stack == [AfterHandlers(Hello)]
    ensures d == Next(a, Done) && d == a.(stack := [], waits := d.waits)
  {
    hide S.Flush, W.Resolve, AfterSchedule, ArmReconnect, Started, AnswerConnect;
    d := Next(a, Done);
    assert a.stack[..0] == [];
  }

  lemma Welcomes(c: Client, enabled: bool, steps: seq<Step>) returns (d: Client, more: seq<Step>)
    requires c == Run(Init(enabled), steps) && c.stack == [AfterConnected(Hello)] && c.status == Connected
    ensures d == Run(Init(enabled), more) && d.stack == [] && d.status == Connected && d.connectPromise.None?
    ensures d.armed == c.armed && d.shouldReconnect == c.shouldReconnect && d.attached == c.attached
    ensures d.reconnectEnabled == c.reconnectEnabled && d.reconnectTimeout == c.reconnectTimeout
  {
    hide Run, Next;
    var a := Greeted(c);
    RunSnoc(Init(enabled), steps, Done);
    d := Handled(a);
    RunSnoc(Init(enabled), steps + [Done], Done);
    more := steps + [Done] + [Done];
  }

  // connect() during the backoff leaves the timer armed behind a live connection.
  lemma LateTimerReachable() returns (steps: seq<Step>)
    ensures var c := Run(Init(true), steps);
            c.status == Connected && c.stack == [] && c.shouldReconnect && c.armed != {}
  {
    hide Run, Next;
    assert Run(Init(true), []) == Init(true) by { EmptyRun(Init(true)); }
    var a, s1 := Connects(Init(true), true, []);
    var b, s2 := Greets(a, true, s1);
    var c, s3 := Welcomes(b, true, s2);
    var d, s4 := Loses(c, true, s3);
    var e, s5 := Connects(d, true, s4);
    var f, s6 := Greets(e, true, s5);
    var g, s7 := Welcomes(f, true, s6);
    steps := s7;
  }

  lemma EmptyRun(c: Client)
    ensures Run(c, []) == c
  {
  }

  lemma Closed(c: Client) returns (a: Client)
    requires c.stack == [] && c.attached.Some? && c.status == Connected
    ensures a == Next(c, TransportClosed) && a.stack == [AfterDisconnected(NoRest)] && a.status == Disconnected
    ensures a.connectPromise == c.connectPromise && a.shouldReconnect == c.shouldReconnect
    ensures a.reconnectEnabled == c.reconnectEnabled
  {
    hide W.Reject, S.RejectQueue;
    a := Next(c, TransportClosed);
    assert [] + [AfterDisconnected(NoRest)] == [AfterDisconnected(NoRest)];
  }

  lemma BacksOff(a: Client) returns (d: Client)
    requires a.stack == [AfterDisconnected(NoRest)] && a.shouldReconnect && a.reconnectEnabled
    ensures d == Next(a, Done) && d == ArmReconnect(a.(stack := []))
  {
    hide W.Resolve, S.Flush, AnswerConnect;
    d := Next(a, Done);
    assert a.stack[..0] == [];
  }

  lemma Loses(c: Client, enabled: bool, steps: seq<Step>) returns (d: Client, more: seq<Step>)
    requires c == Run(Init(enabled), steps) && c.stack == [] && c.status == Connected && c.connectPromise.None?
    requires c.attached.Some? && c.shouldReconnect && c.reconnectEnabled
    ensures d == Run(Init(enabled), more) && d.stack == [] && d.status == Disconnected && d.connectPromise.None?
    ensures d.armed != {} && d.reconnectEnabled
  {
    hide Run, Next;
    var a := Closed(c);
    RunSnoc(Init(enabled), steps, TransportClosed);
    d := BacksOff(a);
    RunSnoc(Init(enabled), steps + [TransportClosed], Done);
    more := steps + [TransportClosed] + [Done];
    assert a.timersMade in d.armed;
  }

  // A message queued while connecting, then one sent at once by a listener of "connected" or a
  // resubscription: the second is on the wire first.
  lemma OvertakingReachable() returns (steps: seq<Step>)
    ensures var c := Run(Init(true), steps); R.Overtakes(c, Step.Send(true))
    ensures var c := Run(Init(true), steps); R.Strands(c, Step.Return(true, {}))
  {
    hide Run, Next;
    assert Run(Init(true), []) == Init(true) by { EmptyRun(Init(true)); }
    var a, s1 := Connects(Init(true), true, []);
    RunSnoc(Init(true), s1, Step.Send(true));
    var b := Next(a, Step.Send(true));
    assert b.stack == [] && b.status == Connecting && b.sends.queue != [] by { SendQueues(a); }
    var c, s2 := Greets(b, true, s1 + [Step.Send(true)]);
    steps := s2;
  }

  lemma SendQueues(c: Client)
    requires c.status == Connecting && c.stack == []
    ensures var d := Next(c, Step.Send(true)); d.stack == [] && d.status == Connecting && d.sends.queue != []
  {
  }

  // close() while connecting leaves the promise of connect unsettled for ever.
  lemma LostPromiseReachable() returns (steps: seq<Step>)
    ensures Lost(Run(Init(true), steps), 0)
  {
    hide Run, Next, Lost;
    assert Run(Init(true), []) == Init(true) by { EmptyRun(Init(true)); }
    var a, s1 := Connects(Init(true), true, []);
    I.RunInv(true, s1);
    OutsideListenersOnlyCloseLoses(a, Step.Close, 0);
    RunSnoc(Init(true), s1, Step.Close);
    steps := s1 + [Step.Close];
  }

  lemma StuckReachable() returns (steps: seq<Step>)
    ensures Stuck(Run(Init(false), steps))
  {
    hide Run, Next, Stuck;
    EmptyRun(Init(false));
    I.InitInv(false);
    InitBackoff(false);
    ThrowingFactorySticksIff(Init(false));
    RunSnoc(Init(false), [], Step.Connect(false));
    RunSnoc(Init(false), [] + [Step.Connect(false)], Done);
    steps := [] + [Step.Connect(false)] + [Done];
  }
}
