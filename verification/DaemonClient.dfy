// The class of packages/client/src/daemon-client.ts, for its connection, its waiters and its send queue.
// A method that calls listeners ends where they begin; ReturnFromListeners goes on from there.

module DaemonClients {
  import opened Wrappers
  import opened Numbers
  import W = ClientWaits
  import S = ClientSends
  import opened ClientConnection
  import I = ClientInvariant

  class DaemonClient {
    var status: Status
    var transport: Option<nat>
    var attached: Option<nat>
    var made: nat
    var connectTimer: bool
    var errorTimer: bool
    var reconnectTimeout: Option<nat>
    var armed: set<nat>
    var timersMade: nat
    var shouldReconnect: bool
    var reconnectEnabled: bool
    var connectPromise: Option<nat>
    var resolver: Option<nat>
    var promises: nat
    var answered: seq<(nat, bool)>
    // The waiters made so far, those in the set, and the timers of some.
    var all: seq<W.Waiter>
    var waiters: seq<nat>
    var waiterTimers: set<nat>
    var settled: seq<W.Settlement>
    var delivered: seq<Message>
    var sends: nat
    var pendingSendQueue: seq<nat>
    var sendTimers: set<nat>
    var sendsSettled: seq<S.Settlement>
    var stack: seq<Frame>

    ghost function Waits(): W.Waits
      reads this
    {
      W.Waits(all, waiters, waiterTimers, settled, delivered)
    }

    ghost function Sends(): S.Sends
      reads this
    {
      S.Sends(sends, pendingSendQueue, sendTimers, sendsSettled)
    }

    ghost function Model(): Client
      reads this
    {
      Client(status, transport, attached, made, connectTimer, errorTimer, reconnectTimeout, armed, timersMade,
             shouldReconnect, reconnectEnabled, connectPromise, resolver, promises, answered, Waits(), Sends(), stack)
    }

    constructor (reconnectEnabled: bool)
      ensures Model() == Init(reconnectEnabled)
    {
      status, transport, attached, made, connectTimer, errorTimer := Idle, None, None, 0, false, false;
      reconnectTimeout, armed, timersMade, shouldReconnect := None, {}, 0, true;
      this.reconnectEnabled := reconnectEnabled;
      connectPromise, resolver, promises, answered := None, None, 0, [];
      all, waiters, waiterTimers, settled, delivered := [], [], {}, [], [];
      sends, pendingSendQueue, sendTimers, sendsSettled, stack := 0, [], {}, [], [];
    }

    // ---- Waiters ----

    method WaitForWithCancel(select: Message -> Option<string>, timeout: int, requestId: Option<string>) returns (id: nat)
      modifies this
      ensures Model() == old(Model()).(waits := W.Add(old(Waits()), select, requestId, timeout > 0))
      ensures id == |old(all)|
    {
      ghost var ss := Sends();
      id := |all|;
      if timeout > 0 {
        waiterTimers := waiterTimers + {id};
      }
      all := all + [W.Waiter(select, requestId, timeout > 0, |delivered|)];
      waiters := waiters + [id];
      assert Waits() == W.Add(old(Waits()), select, requestId, timeout > 0) && Sends() == ss;
      hide Waits, Sends;
    }

    method SettleWaiter(id: nat, outcome: W.Outcome)
      modifies this`waiters, this`waiterTimers, this`settled
      ensures Waits() == W.Settle(old(Waits()), id, outcome)
    {
      waiters := Without(waiters, id);
      waiterTimers := waiterTimers - {id};
      settled := settled + [W.Settlement(id, outcome)];
    }

    method WaiterTimedOut(id: nat)
      modifies this`waiters, this`waiterTimers, this`settled
      ensures Waits() == W.Expire(old(Waits()), id)
      ensures old(id in waiterTimers) ==>
                && settled == old(settled) + [W.Settlement(id, W.Rejected("Timeout waiting for message"))]
                && (forall k :: k in waiters <==> k in old(waiters) && k != id)
                && (forall k :: k in waiterTimers <==> k in old(waiterTimers) && k != id)
      ensures old(id !in waiterTimers) ==>
                settled == old(settled) && waiters == old(waiters) && waiterTimers == old(waiterTimers)
    {
      if id in waiterTimers {
        SettleWaiter(id, W.Rejected("Timeout waiting for message"));
      }
    }

    method Cancel(id: nat, reason: string)
      modifies this`waiters, this`waiterTimers, this`settled
      ensures Waits() == W.Cancel(old(Waits()), id, reason)
      ensures old(id < |all| && !W.IsSettled(settled, id)) ==>
                && settled == old(settled) + [W.Settlement(id, W.Rejected(reason))]
                && (forall k :: k in waiters <==> k in old(waiters) && k != id)
                && (forall k :: k in waiterTimers <==> k in old(waiterTimers) && k != id)
      ensures old(id >= |all| || W.IsSettled(settled, id)) ==>
                settled == old(settled) && waiters == old(waiters) && waiterTimers == old(waiterTimers)
    {
      if id >= |all| || W.IsSettled(settled, id) {
        return;
      }
      SettleWaiter(id, W.Rejected(reason));
    }

    method ResolveWaiters(m: Message)
      requires Below(waiters, |all|)
      modifies this`waiters, this`waiterTimers, this`settled, this`delivered
      ensures Waits() == W.Resolve(old(Waits()), m)
    {
      delivered := delivered + [m];
      ghost var before := Waits();
      var copy := waiters;
      for i := 0 to |copy|
        invariant Below(copy[..i], |all|)
        invariant Waits() == W.ResolveEach(before, copy[..i], m)
      {
        BelowPrefix(copy, i, |all|);
        var result := all[copy[i]].select(m);
        assert copy[..i + 1][..i] == copy[..i];
        if result.Some? {
          SettleWaiter(copy[i], W.Resolved(result.value, |delivered| - 1));
        }
      }
      assert copy[..|copy|] == copy;
    }

    method RejectWaitersForRequestId(requestId: string)
      requires Below(waiters, |all|)
      modifies this`waiters, this`waiterTimers, this`settled
      ensures Waits() == W.RejectFor(old(Waits()), requestId)
    {
      ghost var before := Waits();
      var copy := waiters;
      for i := 0 to |copy|
        invariant Below(copy[..i], |all|)
        invariant Waits() == W.RejectEach(before, copy[..i], Some(requestId), "Invalid response")
      {
        BelowPrefix(copy, i, |all|);
        assert copy[..i + 1][..i] == copy[..i];
        if all[copy[i]].requestId != Some(requestId) {
          continue;
        }
        SettleWaiter(copy[i], W.Rejected("Invalid response"));
      }
      assert copy[..|copy|] == copy;
    }

    // The set is emptied once, behind the loop.
    method ClearWaiters()
      requires Below(waiters, |all|)
      modifies this`waiters, this`waiterTimers, this`settled
      ensures Waits() == W.Clear(old(Waits())) && waiters == []
    {
      ghost var before := Waits();
      for i := 0 to |waiters|
        invariant waiters == before.waiting && Below(waiters[..i], |all|)
        invariant Waits() == W.RejectEach(before, waiters[..i], None, "Connection lost").(waiting := before.waiting)
      {
        BelowPrefix(waiters, i, |all|);
        assert waiters[..i + 1][..i] == waiters[..i];
        waiterTimers := waiterTimers - {waiters[i]};
        settled := settled + [W.Settlement(waiters[i], W.Rejected("Connection lost"))];
      }
      assert waiters[..|waiters|] == waiters;
      W.NoneLeft(before, waiters, "Connection lost");
      waiters := [];
    }

    // ---- Sends ----

    method SendSessionMessageOrThrow(ok: bool)
      modifies this`sends, this`pendingSendQueue, this`sendTimers, this`sendsSettled
      ensures Sends() == SendMessage(old(Model()), ok).sends
    {
      var id := sends;
      sends := sends + 1;
      if transport.Some? && status == Connected {
        sendsSettled := sendsSettled + [S.Settlement(id, if ok then S.Sent else S.Refused, false)];
        return;
      }
      if status == Connecting {
        sendTimers := sendTimers + {id};
        pendingSendQueue := pendingSendQueue + [id];
        return;
      }
      sendsSettled := sendsSettled + [S.Settlement(id, S.Refused, false)];
    }

    method FindIndex(ids: seq<nat>, id: nat) returns (i: nat)
      requires id in ids
      ensures i < |ids| && ids[i] == id && id !in ids[..i]
    {
      i := 0;
      StillAhead(ids, i, id);
      while ids[i] != id
        invariant i < |ids| && id !in ids[..i]
        decreases |ids| - i
      {
        assert ids[..i + 1] == ids[..i] + [ids[i]];
        i := i + 1;
        StillAhead(ids, i, id);
      }
    }

    // findIndex and splice
    method SendTimedOut(id: nat)
      requires S.SendsInv(Sends())
      modifies this`pendingSendQueue, this`sendTimers, this`sendsSettled
      ensures Sends() == S.ExpireSend(old(Sends()), id)
      ensures old(id in sendTimers) ==>
                && sendsSettled == old(sendsSettled) + [S.Settlement(id, S.Refused, true)]
                && (forall k :: k in pendingSendQueue <==> k in old(pendingSendQueue) && k != id)
                && (forall k :: k in sendTimers <==> k in old(sendTimers) && k != id)
      ensures old(id !in sendTimers) ==>
                sendsSettled == old(sendsSettled) && pendingSendQueue == old(pendingSendQueue)
                && sendTimers == old(sendTimers)
    {
      if id !in sendTimers {
        return;
      }
      var i := FindIndex(pendingSendQueue, id);
      WithoutAt(pendingSendQueue, i);
      pendingSendQueue := pendingSendQueue[..i] + pendingSendQueue[i + 1..];
      sendTimers := sendTimers - {id};
      sendsSettled := sendsSettled + [S.Settlement(id, S.Refused, true)];
    }

    // The queue is taken away before its messages are sent one by one.
    method FlushPendingSendQueue(failing: set<nat>)
      modifies this`pendingSendQueue, this`sendTimers, this`sendsSettled
      ensures Sends() == S.Flush(old(Sends()), transport.Some? && status == Connected, failing)
    {
      ghost var before := Sends();
      ghost var live := transport.Some? && status == Connected;
      var queue := pendingSendQueue;
      pendingSendQueue := [];
      for i := 0 to |queue|
        invariant pendingSendQueue == [] && queue == before.queue
        invariant Sends() == S.DrainEach(before, queue[..i], live, failing).(queue := [])
      {
        assert queue[..i + 1][..i] == queue[..i];
        sendTimers := sendTimers - {queue[i]};
        if transport.Some? && status == Connected && queue[i] !in failing {
          sendsSettled := sendsSettled + [S.Settlement(queue[i], S.Sent, true)];
        } else {
          sendsSettled := sendsSettled + [S.Settlement(queue[i], S.Refused, true)];
        }
      }
      assert queue[..|queue|] == queue;
      S.NoneQueued(before, queue, live, failing);
    }

    method RejectPendingSendQueue()
      modifies this`pendingSendQueue, this`sendTimers, this`sendsSettled
      ensures Sends() == S.RejectQueue(old(Sends()))
    {
      ghost var before := Sends();
      var queue := pendingSendQueue;
      pendingSendQueue := [];
      for i := 0 to |queue|
        invariant pendingSendQueue == [] && queue == before.queue
        invariant Sends() == S.DrainEach(before, queue[..i], false, {}).(queue := [])
      {
        assert queue[..i + 1][..i] == queue[..i];
        sendTimers := sendTimers - {queue[i]};
        sendsSettled := sendsSettled + [S.Settlement(queue[i], S.Refused, true)];
      }
      assert queue[..|queue|] == queue;
      S.NoneQueued(before, queue, false, {});
    }
  
    // ---- The connection ----

    method AnswerConnectPromise(ok: bool)
      modifies this`answered, this`connectPromise, this`resolver
      ensures Model() == AnswerConnect(old(Model()), ok)
    {
      ghost var ws, ss := Waits(), Sends();
      if resolver.Some? {
        answered := answered + [(resolver.value, ok)];
      }
      connectPromise := None;
      resolver := None;
      assert Waits() == ws && Sends() == ss;
      hide Waits, Sends;
    }

    method CleanupTransport()
      modifies this`attached, this`connectTimer, this`errorTimer
      ensures Model() == old(Model()).(attached := None, connectTimer := false, errorTimer := false)
    {
      connectTimer := false;
      errorTimer := false;
      attached := None;
    }

    method DisposeTransport()
      modifies this`transport, this`attached, this`connectTimer, this`errorTimer
      ensures Model() == DropTransport(old(Model()))
    {
      CleanupTransport();
      transport := None;
    }

    method ClearReconnectTimer()
      modifies this`armed, this`reconnectTimeout
      ensures Model() == ClearReconnect(old(Model()))
    {
      if reconnectTimeout.Some? {
        armed := armed - {reconnectTimeout.value};
        reconnectTimeout := None;
      }
    }

    method RejectEverything()
      requires Below(waiters, |all|)
      modifies this
      ensures Model() == RejectAll(old(Model()))
    {
      hide W.Reject, S.RejectQueue;
      ClearWaiters();
      RejectPendingSendQueue();
    }

    // connect keeps the promise once the executor is over, whatever has become of it meanwhile.
    method KeepPromise(promise: Option<nat>)
      modifies this`connectPromise
      ensures Model() == Started(old(Model()), promise)
    {
      if promise.Some? {
        connectPromise := promise;
      }
    }

    method FinishSchedule(rest: Rest)
      modifies this`answered, this`connectPromise, this`resolver
      ensures Model() == AfterSchedule(old(Model()), rest)
    {
      if rest.caught {
        AnswerConnectPromise(false);
      }
      KeepPromise(rest.promise);
    }

    method ScheduleReconnection(rest: Rest)
      requires Below(waiters, |all|)
      modifies this
      ensures Model() == ScheduleReconnect(old(Model()), rest)
    {
      hide W.Reject, S.RejectQueue, AnswerConnect, AfterSchedule;
      ClearReconnectTimer();
      var wasDisposed := status == Disposed;
      RejectEverything();
      if wasDisposed {
        AnswerConnectPromise(false);
        FinishSchedule(rest);
      } else {
        ghost var ws, ss := Waits(), Sends();
        status := Disconnected;
        stack := stack + [AfterDisconnected(rest)];
        assert Waits() == ws && Sends() == ss;
        hide Waits, Sends;
      }
    }

    method Attempt(ok: bool, promise: Option<nat>)
      requires Below(waiters, |all|)
      modifies this
      ensures Model() == AttemptConnect(old(Model()), ok, promise)
    {
      hide ScheduleReconnect, AnswerConnect, Started;
      if status == Disposed || !shouldReconnect {
        AnswerConnectPromise(false);
        KeepPromise(promise);
      } else if status == Connecting {
        KeepPromise(promise);
      } else {
        DisposeTransport();
        if !ok {
          ScheduleReconnection(Rest(true, promise));
        } else {
          OpenTransport(promise);
        }
      }
    }

    method OpenTransport(promise: Option<nat>)
      modifies this`transport, this`made, this`status, this`stack
      ensures Model() == old(Model()).(transport := Some(old(made)), made := old(made) + 1, status := Connecting,
                                       stack := old(stack) + [AfterConnecting(old(made), promise)])
    {
      Push(AfterConnecting(made, promise));
      MakeTransport();
      status := Connecting;
    }

    method MakeTransport()
      modifies this`transport, this`made
      ensures Model() == old(Model()).(transport := Some(old(made)), made := old(made) + 1)
    {
      transport := Some(made);
      made := made + 1;
    }

    method NewConnectPromise() returns (promise: nat)
      modifies this`shouldReconnect, this`promises, this`resolver
      ensures promise == old(promises)
      ensures Model() == old(Model()).(shouldReconnect := true, resolver := Some(promise), promises := promise + 1)
    {
      ghost var ws, ss := Waits(), Sends();
      shouldReconnect := true;
      promise := promises;
      promises := promises + 1;
      resolver := Some(promise);
      assert Waits() == ws && Sends() == ss;
      hide Waits, Sends;
    }

    method ConnectClient(ok: bool) returns (threw: bool)
      requires I.Inv(Model())
      modifies this
      ensures Model() == Next(old(Model()), Step.Connect(ok)) && I.Inv(Model())
      ensures threw <==> old(status) == Disposed
    {
      hide AttemptConnect, I.Control, S.SendsInv;
      assert Below(waiters, |all|);
      hide W.WaitsInv;
      I.NextInv(Model(), Step.Connect(ok));
      if status == Disposed {
        return true;
      }
      if status == Connected || connectPromise.Some? {
        return false;
      }
      var promise := NewConnectPromise();
      Attempt(ok, Some(promise));
      return false;
    }

    // Nobody settles the promise that is forgotten here.
    method ForgetConnect()
      modifies this`shouldReconnect, this`connectPromise, this`resolver
      ensures Model() == old(Model()).(shouldReconnect := false, connectPromise := None, resolver := None)
    {
      ghost var ws, ss := Waits(), Sends();
      shouldReconnect := false;
      connectPromise := None;
      resolver := None;
      assert Waits() == ws && Sends() == ss;
      hide Waits, Sends;
    }

    method SetDisposed()
      modifies this`status, this`stack
      ensures Model() == old(Model()).(status := Disposed, stack := old(stack) + [AfterDisposed])
    {
      ghost var ws, ss := Waits(), Sends();
      status := Disposed;
      stack := stack + [AfterDisposed];
      assert Waits() == ws && Sends() == ss;
      hide Waits, Sends;
    }

    method CloseClient()
      requires I.Inv(Model())
      modifies this
      ensures Model() == Next(old(Model()), Step.Close) && I.Inv(Model())
      ensures status == Disposed && (old(status) != Disposed ==> waiters == [] && pendingSendQueue == [])
    {
      hide W.Reject, S.RejectQueue, I.Control, S.SendsInv, RejectAll, DropTransport, ClearReconnect;
      assert Below(waiters, |all|);
      hide W.WaitsInv;
      I.NextInv(Model(), Step.Close);
      I.DisposeInv(Model());
      if status == Disposed {
        return;
      }
      ForgetConnect();
      ClearReconnectTimer();
      DisposeTransport();
      RejectEverything();
      SetDisposed();
    }

    method HandleSessionMessage(m: Message)
      modifies this`connectTimer, this`status, this`stack
      ensures Model() == HandleMessage(old(Model()), m)
    {
      ghost var ws, ss := Waits(), Sends();
      if m.serverInfo && status == Connecting {
        connectTimer := false;
        status := Connected;
        stack := stack + [AfterConnected(m)];
      } else {
        stack := stack + [AfterHandlers(m)];
      }
      assert Waits() == ws && Sends() == ss;
      hide Waits, Sends;
    }

    method FinishConnecting(opening: nat, started: Option<nat>)
      modifies this`connectTimer, this`attached, this`connectPromise
      ensures Model() == Started(old(Model()).(connectTimer := true, attached := Some(opening)), started)
    {
      connectTimer := true;
      attached := Some(opening);
      KeepPromise(started);
    }

    method ArmReconnectTimer()
      modifies this`armed, this`reconnectTimeout, this`timersMade
      ensures Model() == ArmReconnect(old(Model()))
    {
      armed := armed + {timersMade};
      reconnectTimeout := Some(timersMade);
      timersMade := timersMade + 1;
    }

    method Push(f: Frame)
      modifies this`stack
      ensures Model() == old(Model()).(stack := old(stack) + [f])
    {
      stack := stack + [f];
    }

    method Pop() returns (top: Frame)
      requires stack != []
      modifies this`stack
      ensures Model() == old(Model()).(stack := old(stack)[..|old(stack)| - 1]) && top == old(stack)[|old(stack)| - 1]
    {
      top := stack[|stack| - 1];
      stack := stack[..|stack| - 1];
    }

    method FinishConnected(m: Message, failing: set<nat>)
      modifies this
      ensures var live := old(transport.Some? && status == Connected);
              var r := AnswerConnect(old(Model()).(sends := S.Flush(old(Sends()), live, failing)), true);
              Model() == r.(stack := r.stack + [AfterHandlers(m)])
    {
      hide S.Flush;
      FlushPendingSendQueue(failing);
      AnswerConnectPromise(true);
      Push(AfterHandlers(m));
    }

    method FinishDisconnected(rest: Rest)
      modifies this
      ensures Model() == AfterSchedule(if !old(shouldReconnect) || !old(reconnectEnabled) then AnswerConnect(old(Model()), false)
                                       else ArmReconnect(old(Model())), rest)
    {
      hide AfterSchedule, AnswerConnect, ArmReconnect;
      if !shouldReconnect || !reconnectEnabled {
        AnswerConnectPromise(false);
      } else {
        ArmReconnectTimer();
      }
      FinishSchedule(rest);
    }

    method FinishHandlers(m: Message)
      requires Below(waiters, |all|)
      modifies this
      ensures Model() == old(Model()).(waits := W.Resolve(old(Waits()), m))
    {
      hide W.Resolve;
      ResolveWaiters(m);
    }

    method GoOn(threw: bool, failing: set<nat>)
      requires Below(waiters, |all|) && stack != []
      modifies this
      ensures Model() == Resume(old(Model()), threw, failing)
    {
      hide W.Resolve, S.Flush, AfterSchedule, AnswerConnect, Started, ArmReconnect;
      var top := Pop();
      match top {
        case AfterConnecting(opening, started) => FinishConnecting(opening, started);
        case AfterConnected(m) =>
          if !threw {
            FinishConnected(m, failing);
          }
        case AfterDisconnected(rest) => FinishDisconnected(rest);
        case AfterDisposed =>
        case AfterHandlers(m) =>
          if !threw {
            FinishHandlers(m);
          }
      }
    }

    method ReturnFromListeners(threw: bool, failing: set<nat>)
      requires I.Inv(Model()) && stack != []
      modifies this
      ensures Model() == Next(old(Model()), Step.Return(threw, failing)) && I.Inv(Model())
    {
      hide Resume, I.Control, S.SendsInv;
      I.NextInv(Model(), Step.Return(threw, failing));
      GoOn(threw, failing);
    }
  }
}
