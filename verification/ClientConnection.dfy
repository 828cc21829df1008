// The connection of packages/client/src/daemon-client.ts as a step system: what one call, timer,
// transport event or returning listener does to the client. Listeners run in the middle of the
// original's functions and may call back into the client, so what is left of a function after its
// listeners is a frame on a stack; while a frame is there only calls and its return can happen.

module ClientConnection {
  import opened Wrappers
  import W = ClientWaits
  import S = ClientSends

  type Message = W.Message

  datatype Status = Idle | Connecting | Connected | Disconnected | Disposed

  // What follows scheduleReconnect in attemptConnect: the catch block, and the end of connect's executor.
  datatype Rest = Rest(caught: bool, promise: Option<nat>)

  datatype Frame =
    | AfterConnecting(opening: nat, started: Option<nat>)
    | AfterConnected(m: Message)
    | AfterDisconnected(rest: Rest)
    | AfterDisposed
    | AfterHandlers(m: Message)

  datatype Client = Client(
    status: Status,
    transport: Option<nat>,
    // The transport whose events reach the client, and how many transports have been made.
    attached: Option<nat>,
    made: nat,
    connectTimer: bool,
    errorTimer: bool,
    // The field that holds the reconnect timer, and the timers that will fire; the field can lose one.
    reconnectTimeout: Option<nat>,
    armed: set<nat>,
    timersMade: nat,
    shouldReconnect: bool,
    reconnectEnabled: bool,
    connectPromise: Option<nat>,
    // The promise that connectResolve and connectReject settle.
    resolver: Option<nat>,
    promises: nat,
    answered: seq<(nat, bool)>,
    waits: W.Waits,
    sends: S.Sends,
    stack: seq<Frame>)

  function Init(reconnectEnabled: bool): Client
  {
    Client(Idle, None, None, 0, false, false, None, {}, 0, true, reconnectEnabled, None, None, 0, [],
           W.NoWaits(), S.NoSends(), [])
  }

  function AnswerConnect(c: Client, ok: bool): Client
  {
    c.(answered := if c.resolver.Some? then c.answered + [(c.resolver.value, ok)] else c.answered,
       connectPromise := None, resolver := None)
  }

  // disposeTransport
  function DropTransport(c: Client): Client
  {
    c.(transport := None, attached := None, connectTimer := false, errorTimer := false)
  }

  function ClearReconnect(c: Client): Client
  {
    c.(armed := if c.reconnectTimeout.Some? then c.armed - {c.reconnectTimeout.value} else c.armed,
       reconnectTimeout := None)
  }

  // The timer's handle goes into the field whether or not the field still holds another.
  function ArmReconnect(c: Client): Client
  {
    c.(reconnectTimeout := Some(c.timersMade), armed := c.armed + {c.timersMade}, timersMade := c.timersMade + 1)
  }

  // clearWaiters and rejectPendingSendQueue
  function RejectAll(c: Client): Client
  {
    c.(waits := W.Clear(c.waits), sends := S.RejectQueue(c.sends))
  }

  function ScheduleReconnect(c: Client, rest: Rest): Client
  {
    var r := RejectAll(ClearReconnect(c));
    if c.status == Disposed then AfterSchedule(AnswerConnect(r, false), rest)
    else r.(status := Disconnected, stack := r.stack + [AfterDisconnected(rest)])
  }

  function AfterSchedule(c: Client, rest: Rest): Client
  {
    Started(if rest.caught then AnswerConnect(c, false) else c, rest.promise)
  }

  // The executor is over; only now does connect keep its promise.
  function Started(c: Client, promise: Option<nat>): Client
  {
    if promise.Some? then c.(connectPromise := promise) else c
  }

  // ok says whether the transport factory returns; otherwise it throws.
  function AttemptConnect(c: Client, ok: bool, promise: Option<nat>): Client
  {
    if c.status == Disposed || !c.shouldReconnect then Started(AnswerConnect(c, false), promise)
    else if c.status == Connecting then Started(c, promise)
    else
      var d := DropTransport(c);
      if !ok then ScheduleReconnect(d, Rest(true, promise))
      else
        d.(transport := Some(d.made), made := d.made + 1, status := Connecting,
           stack := d.stack + [AfterConnecting(d.made, promise)])
  }

  function TryConnect(c: Client, ok: bool): Client
  {
    if c.status == Disposed || c.status == Connected || c.connectPromise.Some? then c
    else
      AttemptConnect(c.(shouldReconnect := true, resolver := Some(c.promises), promises := c.promises + 1),
                     ok, Some(c.promises))
  }

  function EnsureConnection(c: Client, ok: bool): Client
  {
    if c.status == Disposed then c
    else
      var d := c.(shouldReconnect := true);
      if c.status == Connected || c.status == Connecting then d else TryConnect(d, ok)
  }

  function Dispose(c: Client): Client
  {
    if c.status == Disposed then c
    else
      var d := ClearReconnect(c.(shouldReconnect := false, connectPromise := None, resolver := None));
      var r := RejectAll(DropTransport(d));
      r.(status := Disposed, stack := r.stack + [AfterDisposed])
  }

  // sendSessionMessageOrThrow; ok says whether the transport takes the frame.
  function SendMessage(c: Client, ok: bool): Client
  {
    c.(sends :=
         if c.status == Connected && c.transport.Some? then S.SettleNow(c.sends, if ok then S.Sent else S.Refused)
         else if c.status == Connecting then S.Enqueue(c.sends)
         else S.SettleNow(c.sends, S.Refused))
  }

  // handleSessionMessage up to its first listeners
  function HandleMessage(c: Client, m: Message): Client
  {
    if m.serverInfo && c.status == Connecting then
      c.(connectTimer := false, status := Connected, stack := c.stack + [AfterConnected(m)])
    else c.(stack := c.stack + [AfterHandlers(m)])
  }

  // A frame goes on once its listeners are done. Connection listeners cannot throw into the client; a
  // resubscription behind them, or an event listener, can: then the rest is skipped.
  function Resume(c: Client, threw: bool, failing: set<nat>): Client
    requires c.stack != []
  {
    var d := c.(stack := c.stack[..|c.stack| - 1]);
    match c.stack[|c.stack| - 1]
    case AfterConnecting(t, started) => Started(d.(connectTimer := true, attached := Some(t)), started)
    case AfterConnected(m) =>
      if threw then d
      else
        var live := d.transport.Some? && d.status == Connected;
        var r := AnswerConnect(d.(sends := S.Flush(d.sends, live, failing)), true);
        r.(stack := r.stack + [AfterHandlers(m)])
    case AfterDisconnected(rest) =>
      if !d.shouldReconnect || !d.reconnectEnabled then AfterSchedule(AnswerConnect(d, false), rest)
      else AfterSchedule(ArmReconnect(d), rest)
    case AfterDisposed => d
    case AfterHandlers(m) => if threw then d else d.(waits := W.Resolve(d.waits, m))
  }

  datatype Step =
    // Calls, by anyone at any time.
    | Connect(ok: bool)
    | EnsureConnected(ok: bool)
    | Close
    | SetReconnectEnabled(on: bool)
    | WaitFor(select: Message -> Option<string>, requestId: Option<string>, timed: bool)
    | CancelWait(waiter: nat, reason: string)
    | Send(ok: bool)
    | Return(threw: bool, failing: set<nat>)
    // Events, once nothing is running.
    | WaiterTimer(waiter: nat)
    | SendTimer(send: nat)
    | ReconnectTimer(handle: nat, ok: bool)
    | ConnectTimeout
    | ErrorTimeout
    | TransportOpened(ok: bool)
    | TransportClosed
    | TransportFailed(generic: bool)
    | LivenessLost
    | Receive(m: Message)
    | Invalid(request: string)

  const NoRest: Rest := Rest(false, None)

  function Call(c: Client, step: Step): Client
  {
    match step
    case Connect(ok) => TryConnect(c, ok)
    case EnsureConnected(ok) => EnsureConnection(c, ok)
    case Close => Dispose(c)
    case SetReconnectEnabled(on) => c.(reconnectEnabled := on)
    case WaitFor(select, requestId, timed) => c.(waits := W.Add(c.waits, select, requestId, timed))
    case CancelWait(waiter, reason) => c.(waits := W.Cancel(c.waits, waiter, reason))
    case Send(ok) => SendMessage(c, ok)
    case Return(threw, failing) => if c.stack == [] then c else Resume(c, threw, failing)
    case _ => c
  }

  function Event(c: Client, step: Step): Client
  {
    match step
    case WaiterTimer(waiter) => c.(waits := W.Expire(c.waits, waiter))
    case SendTimer(send) => c.(sends := S.ExpireSend(c.sends, send))
    case ReconnectTimer(handle, ok) =>
      if handle !in c.armed then c
      else
        var d := c.(armed := c.armed - {handle}, reconnectTimeout := None);
        if d.shouldReconnect then AttemptConnect(d, ok, None) else d
    case ConnectTimeout =>
      if !c.connectTimer then c
      else if c.status != Connecting then c.(connectTimer := false)
      else ScheduleReconnect(DropTransport(c), NoRest)
    case ErrorTimeout =>
      if !c.errorTimer then c
      else
        var d := c.(errorTimer := false);
        if c.status == Connected || c.status == Connecting then ScheduleReconnect(d, NoRest) else d
    case TransportOpened(ok) =>
      if c.attached.None? then c
      else
        var d := c.(errorTimer := false);
        if d.transport.None? || !ok then ScheduleReconnect(d, NoRest) else d
    case TransportClosed =>
      if c.attached.None? then c
      else ScheduleReconnect(c.(connectTimer := false, errorTimer := false), NoRest)
    case TransportFailed(generic) =>
      if c.attached.None? then c
      else if generic then c.(connectTimer := false, errorTimer := true)
      else ScheduleReconnect(c.(connectTimer := false, errorTimer := false), NoRest)
    case LivenessLost =>
      if c.status == Connected || c.status == Connecting then ScheduleReconnect(DropTransport(c), NoRest) else c
    case Receive(m) => HandleMessage(c, m)
    case Invalid(requestId) => c.(waits := W.RejectFor(c.waits, requestId))
    case _ => c
  }

  predicate IsCall(step: Step)
  {
    step.Connect? || step.EnsureConnected? || step.Close? || step.SetReconnectEnabled? || step.WaitFor? ||
    step.CancelWait? || step.Send? || step.Return?
  }

  function Next(c: Client, step: Step): Client
  {
    if IsCall(step) then Call(c, step) else if c.stack == [] then Event(c, step) else c
  }

  function Run(c: Client, steps: seq<Step>): Client
  {
    if steps == [] then c else Next(Run(c, steps[..|steps| - 1]), steps[|steps| - 1])
  }
}
