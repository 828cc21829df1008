// What each call, timer and event does to the client of ClientConnection, said on its fields: whose promise is
// settled and how, what goes onto the wire, when the connection is lost and when it comes back.

module ClientLaws {
  import opened Wrappers
  import opened Numbers
  import W = ClientWaits
  import S = ClientSends
  import opened ClientConnection
  import opened ClientInvariant

  // ---- Waiters ----

  // One waiter is rejected and leaves the set with its timer; every other is as it was.
  ghost predicate RejectsOne(w: W.Waits, r: W.Waits, id: nat, reason: string)
  {
    && r.all == w.all && r.delivered == w.delivered
    && r.settled == w.settled + [W.Settlement(id, W.Rejected(reason))]
    && (forall k :: k in r.waiting <==> k in w.waiting && k != id)
    && (forall k :: k in r.timers <==> k in w.timers && k != id)
  }

  predicate InCallOrder(settled: seq<W.Settlement>)
  {
    forall i, j :: 0 <= i < j < |settled| ==> settled[i].id < settled[j].id
  }

  // Those that wait for the request, or all without one, are rejected in the order of their calls, and nobody else.
  ghost predicate RejectsAll(w: W.Waits, r: W.Waits, only: Option<string>, reason: string)
    requires W.Known(w)
  {
    && r.all == w.all && r.delivered == w.delivered && w.settled <= r.settled
    && var added := r.settled[|w.settled|..];
    && InCallOrder(added)
    && (forall x :: x in added <==> Rejectable(w, x, only, reason))
  }

  predicate Rejectable(w: W.Waits, x: W.Settlement, only: Option<string>, reason: string)
    requires W.Known(w)
  {
    && x.id in w.waiting && (only.Some? ==> w.all[x.id].requestId == only)
    && x.outcome == W.Rejected(reason)
  }

  // Those that accept the message are resolved with what they make of it, in the order of their calls, and
  // nobody else.
  ghost predicate Delivers(w: W.Waits, r: W.Waits, m: Message)
    requires W.Known(w)
  {
    && r.all == w.all && r.delivered == w.delivered + [m] && w.settled <= r.settled
    && var added := r.settled[|w.settled|..];
    && InCallOrder(added)
    && (forall x :: x in added <==> Accepts(w, x, m))
  }

  predicate Accepts(w: W.Waits, x: W.Settlement, m: Message)
    requires W.Known(w)
  {
    && x.id in w.waiting
    && var result := w.all[x.id].select(m);
    && result.Some? && x.outcome == W.Resolved(result.value, |w.delivered|)
  }

  lemma {:induction false} SameMembers(a: seq<nat>, b: seq<nat>)
    requires Increasing(a) && Increasing(b) && forall k :: k in a <==> k in b
    ensures a == b
  {
    hide Below;
    if a == [] || b == [] {
      if a != [] {
        FirstIsMember(a);
      }
      if b != [] {
        FirstIsMember(b);
      }
    } else {
      var m, n := a[|a| - 1], b[|b| - 1];
      assert m in b && n in a;
      InitOf(a, m);
      InitOf(b, n);
      assert m == n;
      var x, y := a[..|a| - 1], b[..|b| - 1];
      assert forall k :: k in x <==> k in a && k != m;
      assert forall k :: k in y <==> k in b && k != m;
      SameMembers(x, y);
      assert a == x + [m] && b == y + [n];
    }
  }

  // The settlements say who waits and whose timer runs.
  lemma WaitsFollow(a: W.Waits, b: W.Waits)
    requires W.WaitsInv(a) && W.WaitsInv(b) && a.all == b.all && a.settled == b.settled
    ensures a.waiting == b.waiting && a.timers == b.timers
  {
    hide Increasing, W.Once, W.FirstAnswers, W.Patient, W.IsSettled;
    SameMembers(a.waiting, b.waiting);
    assert forall k: nat :: k in a.timers <==> k in b.timers;
  }

  lemma Snoc(added: seq<W.Settlement>, x: W.Settlement)
    requires InCallOrder(added) && forall y :: y in added ==> y.id < x.id
    ensures InCallOrder(added + [x]) && forall y :: y in added + [x] <==> y in added || y == x
  {
    assert forall i :: 0 <= i < |added| ==> added[i] in added;
  }

  lemma {:induction false} RejectEachAdds(w: W.Waits, ids: seq<nat>, only: Option<string>, reason: string)
      returns (added: seq<W.Settlement>)
    requires Increasing(ids) && Below(ids, |w.all|)
    ensures W.RejectEach(w, ids, only, reason).settled == w.settled + added && InCallOrder(added)
    ensures forall x :: x in added <==>
              && x.id in ids && x.id < |w.all| && (only.Some? ==> w.all[x.id].requestId == only)
              && x.outcome == W.Rejected(reason)
    decreases |ids|
  {
    hide Increasing, Below, Without;
    if ids == [] {
      added := [];
      assert w.settled + added == w.settled;
    } else {
      var id := ids[|ids| - 1];
      InitOf(ids, id);
      var before := RejectEachAdds(w, ids[..|ids| - 1], only, reason);
      assert Below(ids, |w.all|) && id < |w.all|;
      if only.Some? && w.all[id].requestId != only {
        added := before;
      } else {
        var x := W.Settlement(id, W.Rejected(reason));
        EarlierIds(ids, before);
        Snoc(before, x);
        added := before + [x];
        assert w.settled + before + [x] == w.settled + added;
      }
    }
  }

  lemma EarlierIds(ids: seq<nat>, added: seq<W.Settlement>)
    requires ids != [] && Increasing(ids) && forall x :: x in added ==> x.id in ids[..|ids| - 1]
    ensures forall x :: x in added ==> x.id < ids[|ids| - 1]
  {
  }

  lemma {:induction false} ResolveEachAdds(w: W.Waits, ids: seq<nat>, m: Message) returns (added: seq<W.Settlement>)
    requires Increasing(ids) && Below(ids, |w.all|) && |w.delivered| > 0
    ensures W.ResolveEach(w, ids, m).settled == w.settled + added && InCallOrder(added)
    ensures forall x :: x in added <==>
              && x.id in ids && x.id < |w.all| && w.all[x.id].select(m).Some?
              && x.outcome == W.Resolved(w.all[x.id].select(m).value, |w.delivered| - 1)
    decreases |ids|
  {
    hide Increasing, Below, Without;
    if ids == [] {
      added := [];
      assert w.settled + added == w.settled;
    } else {
      var id := ids[|ids| - 1];
      InitOf(ids, id);
      var before := ResolveEachAdds(w, ids[..|ids| - 1], m);
      assert Below(ids, |w.all|) && id < |w.all|;
      var result := w.all[id].select(m);
      if result.None? {
        added := before;
      } else {
        var x := W.Settlement(id, W.Resolved(result.value, |w.delivered| - 1));
        EarlierIds(ids, before);
        Snoc(before, x);
        added := before + [x];
        assert w.settled + before + [x] == w.settled + added;
      }
    }
  }

  lemma RejectIsExact(w: W.Waits, only: Option<string>, reason: string)
    requires W.Known(w)
    ensures RejectsAll(w, W.Reject(w, only, reason), only, reason)
  {
    var added := RejectEachAdds(w, w.waiting, only, reason);
    var r := W.Reject(w, only, reason);
    assert r.settled[|w.settled|..] == added;
  }

  lemma ResolveIsExact(w: W.Waits, m: Message)
    requires W.Known(w)
    ensures Delivers(w, W.Resolve(w, m), m)
  {
    var x := w.(delivered := w.delivered + [m]);
    var added := ResolveEachAdds(x, w.waiting, m);
    assert W.Resolve(w, m).settled[|w.settled|..] == added;
  }

  // A timer that fires rejects its waiter; one that was cleared does nothing.
  lemma TimerRejects(c: Client, id: nat)
    requires c.stack == []
    ensures var d := Next(c, WaiterTimer(id));
            if id in c.waits.timers then
              d == c.(waits := d.waits) && RejectsOne(c.waits, d.waits, id, "Timeout waiting for message")
            else d == c
  {
  }

  // A cancelled waiter is rejected unless its promise is settled already.
  lemma CancelRejects(c: Client, id: nat, reason: string)
    requires id < |c.waits.all|
    ensures var d := Next(c, CancelWait(id, reason));
            if exists i :: 0 <= i < |c.waits.settled| && c.waits.settled[i].id == id then d == c
            else d == c.(waits := d.waits) && RejectsOne(c.waits, d.waits, id, reason)
  {
  }

  // A new waiter is in the set, unsettled, and has seen nothing of what was delivered before.
  lemma WaitForAdds(c: Client, select: Message -> Option<string>, requestId: Option<string>, timed: bool)
    requires Inv(c)
    ensures var d, id := Next(c, WaitFor(select, requestId, timed)), |c.waits.all|;
            && d == c.(waits := d.waits) && d.waits.settled == c.waits.settled && d.waits.delivered == c.waits.delivered
            && |d.waits.all| == id + 1 && d.waits.all[..id] == c.waits.all
            && d.waits.all[id] == W.Waiter(select, requestId, timed, |c.waits.delivered|)
            && id in d.waits.waiting && (id in d.waits.timers <==> timed)
            && (forall k :: k in c.waits.waiting ==> k in d.waits.waiting)
            && (forall k :: k in c.waits.timers ==> k in d.waits.timers)
  {
    hide Control, S.SendsInv, W.Once, W.WaitingIffUnsettled, W.FirstAnswers, W.Patient, Increasing;
    assert |c.waits.all| !in c.waits.timers by { assert W.TimersExact(c.waits); }
  }

  lemma InvalidRejects(c: Client, request: string)
    requires Inv(c) && c.stack == []
    ensures W.Known(c.waits)
    ensures var d := Next(c, Invalid(request));
            d == c.(waits := d.waits) && RejectsAll(c.waits, d.waits, Some(request), "Invalid response")
  {
    assert W.Known(c.waits) by { hide Control, S.SendsInv; }
    RejectIsExact(c.waits, Some(request), "Invalid response");
  }

  // ---- Sends ----

  // The sends that wait come to their end in the order of their calls.
  ghost predicate Drains(s: S.Sends, r: S.Sends, live: bool, failing: set<nat>)
  {
    && r.issued == s.issued && r.queue == [] && r.timers == {}
    && |r.settled| == |s.settled| + |s.queue| && s.settled <= r.settled
    && forall k :: 0 <= k < |s.queue| ==>
         r.settled[|s.settled| + k] ==
         S.Settlement(s.queue[k], if live && s.queue[k] !in failing then S.Sent else S.Refused, true)
  }

  lemma FlushDrains(s: S.Sends, live: bool, failing: set<nat>)
    requires S.SendsInv(s)
    ensures Drains(s, S.Flush(s, live, failing), live, failing)
  {
    hide S.Once, S.QueuedIffUnsettled, S.CallOrder, S.Known;
    S.FlushExact(s, live, failing);
    S.DrainEachExact(s, |s.queue|, live, failing);
    assert s.queue[..|s.queue|] == s.queue;
    var r := S.Flush(s, live, failing);
    assert S.TimersExact(r);
  }

  lemma RejectQueueDrains(s: S.Sends)
    requires S.SendsInv(s)
    ensures Drains(s, S.RejectQueue(s), false, {})
  {
    hide S.SendsInv;
    FlushDrains(s, false, {});
  }

  // A send on a connected client goes onto the wire or throws in the call; on one that is connecting it waits at the
  // end of the queue with a timer; on any other it throws.
  lemma SendGoes(c: Client, ok: bool)
    ensures var d, n := Next(c, Send(ok)), c.sends.issued;
            && d == c.(sends := d.sends) && d.sends.issued == n + 1
            && (if c.status == Connecting then
                  && d.sends.settled == c.sends.settled && d.sends.queue == c.sends.queue + [n]
                  && d.sends.timers == c.sends.timers + {n}
                else
                  && d.sends.queue == c.sends.queue && d.sends.timers == c.sends.timers
                  && d.sends.settled == c.sends.settled + [
                       S.Settlement(n, if ok && c.status == Connected && c.transport.Some? then S.Sent else S.Refused, false)])
  {
  }

  // A send whose timer fires is refused and leaves the queue; one that was settled is left alone.
  lemma SendTimerRefuses(c: Client, id: nat)
    requires Inv(c) && c.stack == []
    ensures var d, s := Next(c, SendTimer(id)), c.sends;
            if id in s.timers then
              && d == c.(sends := d.sends) && d.sends.issued == s.issued
              && d.sends.settled == s.settled + [S.Settlement(id, S.Refused, true)]
              && (forall k :: k in d.sends.queue <==> k in s.queue && k != id) && Increasing(d.sends.queue)
              && (forall k :: k in d.sends.timers <==> k in s.timers && k != id)
            else d == c
  {
    hide Control, W.WaitsInv, S.Once, S.QueuedIffUnsettled, S.CallOrder, S.TimersExact;
    if id in c.sends.timers {
      WithoutIncreasing(c.sends.queue, id);
    }
  }

  // ---- Losing the connection ----

  // Every waiter is rejected, every queued send refused, and the reconnect timer the field knows of is cleared.
  ghost predicate Abandons(c: Client, d: Client)
    requires W.Known(c.waits)
  {
    && RejectsAll(c.waits, d.waits, None, "Connection lost") && Drains(c.sends, d.sends, false, {})
    && d.reconnectTimeout.None?
    && (forall h :: h in d.armed <==> h in c.armed && c.reconnectTimeout != Some(h))
  }

  // The client is disconnected and tells its listeners, or has been closed and gives the connect promise up.
  ghost predicate Loses(c: Client, d: Client, rest: Rest)
    requires W.Known(c.waits)
  {
    && Abandons(c, d)
    && d == c.(waits := d.waits, sends := d.sends, reconnectTimeout := None, armed := d.armed, status := d.status,
               connectPromise := d.connectPromise, stack := d.stack)
    && (if c.status == Disposed then
          d.status == Disposed && d.stack == c.stack && d.connectPromise == rest.promise
        else
          && d.status == Disconnected && d.stack == c.stack + [AfterDisconnected(rest)]
          && d.connectPromise == c.connectPromise)
  }

  ghost predicate Sound(c: Client)
  {
    W.WaitsInv(c.waits) && S.SendsInv(c.sends) && (c.status == Disposed ==> c.resolver.None?)
  }

  lemma InvSound(c: Client)
    requires Inv(c)
    ensures Sound(c) && W.Known(c.waits)
  {
    hide StackOk, PromisesOk, PendingIsKept, S.SendsInv, Increasing, W.Once, W.WaitingIffUnsettled, W.FirstAnswers;
  }

  lemma ScheduleLoses(c: Client, rest: Rest)
    requires Sound(c) && W.Known(c.waits)
    ensures Loses(c, ScheduleReconnect(c, rest), rest)
  {
    hide W.WaitsInv, S.SendsInv, RejectsAll, Drains, W.Reject, S.RejectQueue, W.Known;
    RejectIsExact(c.waits, None, "Connection lost");
    RejectQueueDrains(c.sends);
  }

  // Nobody is left waiting and nothing queued.
  lemma AbandonsEmpties(c: Client, d: Client)
    requires W.WaitsInv(c.waits) && W.WaitsInv(d.waits) && Abandons(c, d)
    ensures d.waits.waiting == [] && d.sends.queue == []
  {
    hide Increasing, W.Once, W.TimersExact, W.FirstAnswers, W.Patient, InCallOrder, Drains;
    assert d.sends.queue == [] by { assert Drains(c.sends, d.sends, false, {}); QueueEmpty(c.sends, d.sends); }
    forall id: nat | id < |c.waits.all|
      ensures W.IsSettled(d.waits.settled, id)
    {
      if id in c.waits.waiting {
        RejectedIsSettled(c.waits, d.waits, id, "Connection lost");
      } else {
        StaysSettled(c.waits.settled, d.waits.settled, id);
      }
    }
    if d.waits.waiting != [] {
      FirstIsMember(d.waits.waiting);
    }
  }

  lemma QueueEmpty(s: S.Sends, r: S.Sends)
    requires Drains(s, r, false, {})
    ensures r.queue == []
  {
  }

  lemma RejectedIsSettled(w: W.Waits, r: W.Waits, id: nat, reason: string)
    requires W.Known(w) && RejectsAll(w, r, None, reason) && id in w.waiting
    ensures W.IsSettled(r.settled, id)
  {
    hide Increasing, InCallOrder, W.Known;
    var x, n := W.Settlement(id, W.Rejected(reason)), |w.settled|;
    assert Rejectable(w, x, None, reason) && x in r.settled[n..];
    var k :| 0 <= k < |r.settled| - n && r.settled[n..][k] == x;
    assert r.settled[n + k] == x;
  }

  lemma StaysSettled(a: seq<W.Settlement>, b: seq<W.Settlement>, id: nat)
    requires a <= b && W.IsSettled(a, id)
    ensures W.IsSettled(b, id)
  {
    var i :| 0 <= i < |a| && a[i].id == id;
    assert b[i].id == id;
  }

  // The events that lose the connection.
  predicate Fatal(c: Client, step: Step)
  {
    match step
    case ConnectTimeout => c.connectTimer && c.status == Connecting
    case ErrorTimeout => c.errorTimer && (c.status == Connected || c.status == Connecting)
    case LivenessLost => c.status == Connected || c.status == Connecting
    case TransportOpened(ok) => c.attached.Some? && (c.transport.None? || !ok)
    case TransportClosed => c.attached.Some?
    case TransportFailed(generic) => c.attached.Some? && !generic
    case _ => false
  }

  predicate FromTransport(step: Step)
  {
    step.ConnectTimeout? || step.ErrorTimeout? || step.LivenessLost? || step.TransportOpened? || step.TransportClosed?
    || step.TransportFailed?
  }

  // They also clear their timers, and those that come from a timer of the client drop the transport.
  lemma FatalLoses(c: Client, step: Step)
    requires Inv(c) && c.stack == [] && Fatal(c, step)
    ensures W.Known(c.waits)
    ensures var drops := step.ConnectTimeout? || step.LivenessLost?;
            var e := c.(transport := if drops then None else c.transport, attached := if drops then None else c.attached,
                        errorTimer := false,
                        connectTimer := if step.TransportOpened? || step.ErrorTimeout? then c.connectTimer else false);
            Loses(e, Next(c, step), NoRest)
  {
    hide Inv, ScheduleReconnect, Loses, W.Known, Sound;
    InvSound(c);
    var drops := step.ConnectTimeout? || step.LivenessLost?;
    var e := c.(transport := if drops then None else c.transport, attached := if drops then None else c.attached,
                errorTimer := false,
                connectTimer := if step.TransportOpened? || step.ErrorTimeout? then c.connectTimer else false);
    SameSound(c, e);
    ScheduleLoses(e, NoRest);
  }

  lemma SameSound(c: Client, e: Client)
    requires Sound(c) && e.waits == c.waits && e.sends == c.sends && e.status == c.status && e.resolver == c.resolver
    ensures Sound(e)
  {
  }

  // Any other transport event only sets or clears its timers; a generic error waits for a better one.
  lemma OtherwiseQuiet(c: Client, step: Step)
    requires c.stack == [] && FromTransport(step) && !Fatal(c, step)
    ensures var d := Next(c, step);
            && d == c.(connectTimer := d.connectTimer, errorTimer := d.errorTimer)
            && d.connectTimer == (c.connectTimer && !step.ConnectTimeout? && !(step.TransportFailed? && c.attached.Some?))
            && d.errorTimer == if c.attached.Some? && (step.TransportOpened? || step.TransportFailed?) then step.TransportFailed?
                               else c.errorTimer && !step.ErrorTimeout?
  {
  }

  // ---- Making the connection ----

  // The promise handed out last is settled, if there is one.
  ghost predicate Answers(c: Client, d: Client, ok: bool)
  {
    && d.resolver.None?
    && d.answered == if c.resolver.Some? then c.answered + [(c.resolver.value, ok)] else c.answered
  }

  // A new transport takes the place of the old one, or the factory throws and the connection is lost.
  ghost predicate Opens(c: Client, d: Client, ok: bool, promise: Option<nat>)
    requires W.Known(c.waits)
  {
    var e := c.(transport := None, attached := None, connectTimer := false, errorTimer := false);
    if ok then
      d == e.(transport := Some(c.made), made := c.made + 1, status := Connecting,
              stack := c.stack + [AfterConnecting(c.made, promise)])
    else Loses(e, d, Rest(true, promise))
  }

  lemma ConnectOpens(c: Client, ok: bool)
    requires Inv(c)
    ensures W.Known(c.waits)
    ensures var d, p := Next(c, Connect(ok)), c.promises;
            if c.status == Disposed || c.status == Connected || c.connectPromise.Some? then d == c
            else
              var e := c.(shouldReconnect := true, promises := p + 1, resolver := Some(p));
              if c.status == Connecting then d == e.(connectPromise := Some(p)) else Opens(e, d, ok, Some(p))
  {
    hide Inv, ScheduleReconnect, Loses, W.Known, Sound;
    InvSound(c);
    if c.status == Idle || c.status == Disconnected {
      var e := c.(shouldReconnect := true, promises := c.promises + 1, resolver := Some(c.promises),
                  transport := None, attached := None, connectTimer := false, errorTimer := false);
      NotClosed(c, e);
      ScheduleLoses(e, Rest(true, Some(c.promises)));
    }
  }

  lemma NotClosed(c: Client, e: Client)
    requires Sound(c) && e.waits == c.waits && e.sends == c.sends && e.status == c.status && c.status != Disposed
    ensures Sound(e)
  {
  }

  // Asking for a connection that is there or under way only allows reconnecting again.
  lemma EnsureConnects(c: Client, ok: bool)
    ensures Next(c, EnsureConnected(ok)) ==
            if c.status == Disposed then c
            else if c.status == Connected || c.status == Connecting then c.(shouldReconnect := true)
            else Next(c.(shouldReconnect := true), Connect(ok))
  {
    hide AttemptConnect;
  }

  // The timer that fires connects again without a promise; a cleared one does nothing.
  lemma ReconnectOpens(c: Client, handle: nat, ok: bool)
    requires Inv(c) && c.stack == []
    ensures W.Known(c.waits)
    ensures var d := Next(c, ReconnectTimer(handle, ok));
            if handle !in c.armed then d == c
            else
              var e := c.(armed := c.armed - {handle}, reconnectTimeout := None);
              if !c.shouldReconnect || c.status == Connecting then d == e
              else Opens(e, d, ok, None)
  {
    hide ScheduleReconnect, Loses, W.Known, Sound;
    InvSound(c);
    hide Inv;
    var e := c.(armed := c.armed - {handle}, reconnectTimeout := None, transport := None, attached := None,
                connectTimer := false, errorTimer := false);
    SameSound(c, e);
    ScheduleLoses(e, Rest(true, None));
    assert c.shouldReconnect ==> c.status != Disposed by {
      assert StatusOk(c) by { InvStatus(c); }
    }
  }

  lemma InvStatus(c: Client)
    requires Inv(c)
    ensures StatusOk(c)
  {
    hide StackOk, PromisesOk, PendingIsKept, W.WaitsInv, S.SendsInv;
  }

  // Closing drops everything and forgets the connect promise without settling it.
  lemma CloseAbandons(c: Client)
    requires Inv(c)
    ensures W.Known(c.waits)
    ensures var d := Next(c, Close);
            if c.status == Disposed then d == c
            else
              && Abandons(c, d)
              && d == c.(waits := d.waits, sends := d.sends, reconnectTimeout := None, armed := d.armed, status := Disposed,
                         shouldReconnect := false, connectPromise := None, resolver := None, transport := None,
                         attached := None, connectTimer := false, errorTimer := false, stack := c.stack + [AfterDisposed])
  {
    hide Inv, W.WaitsInv, S.SendsInv, RejectsAll, Drains, W.Reject, S.RejectQueue, W.Known;
    InvSound(c);
    RejectIsExact(c.waits, None, "Connection lost");
    RejectQueueDrains(c.sends);
  }

  lemma ReconnectEnabledSet(c: Client, on: bool)
    ensures Next(c, SetReconnectEnabled(on)) == c.(reconnectEnabled := on)
  {
  }

  // ---- Behind the listeners ----

  // The client with the frame on top taken off.
  function Popped(c: Client): Client
    requires c.stack != []
  {
    c.(stack := c.stack[..|c.stack| - 1])
  }

  function Top(c: Client): Frame
    requires c.stack != []
  {
    c.stack[|c.stack| - 1]
  }

  // A message goes to the listeners; the server's first one connects before that.
  lemma ReceiveTells(c: Client, m: Message)
    requires c.stack == []
    ensures var d := Next(c, Receive(m));
            if m.serverInfo && c.status == Connecting then
              d == c.(connectTimer := false, status := Connected, stack := [AfterConnected(m)])
            else d == c.(stack := [AfterHandlers(m)])
  {
    assert forall f: Frame :: [] + [f] == [f];
  }

  // Behind the listeners the message goes to the waiters, unless a listener threw.
  lemma HandlersDone(c: Client, threw: bool, failing: set<nat>)
    requires Inv(c) && c.stack != [] && Top(c).AfterHandlers?
    ensures W.Known(c.waits)
    ensures var d := Next(c, Return(threw, failing));
            && d == Popped(c).(waits := d.waits)
            && (if threw then d.waits == c.waits else Delivers(c.waits, d.waits, Top(c).m))
  {
    hide Delivers, W.Resolve;
    InvSound(c);
    hide Inv, W.Known;
    ResolveIsExact(c.waits, Top(c).m);
  }

  // Behind the listeners of "connected" the queue is sent and the connect promise resolved.
  lemma ConnectedDone(c: Client, threw: bool, failing: set<nat>)
    requires Inv(c) && c.stack != [] && Top(c).AfterConnected?
    ensures var d := Next(c, Return(threw, failing));
            if threw then d == Popped(c)
            else
              && Answers(c, d, true) && d.connectPromise.None?
              && Drains(c.sends, d.sends, c.status == Connected && c.transport.Some?, failing)
              && d == c.(stack := Popped(c).stack + [AfterHandlers(Top(c).m)], sends := d.sends,
                         answered := d.answered, resolver := None, connectPromise := None)
  {
    hide Drains, S.Flush;
    InvSound(c);
    hide Inv, W.Known;
    FlushDrains(c.sends, c.transport.Some? && c.status == Connected, failing);
  }

  // Behind the listeners of "connecting" the transport is attached and the time for the handshake runs.
  lemma ConnectingDone(c: Client, threw: bool, failing: set<nat>)
    requires c.stack != [] && Top(c).AfterConnecting?
    ensures Next(c, Return(threw, failing)) ==
            Popped(c).(connectTimer := true, attached := Some(Top(c).opening),
                       connectPromise := if Top(c).started.Some? then Top(c).started else c.connectPromise)
  {
  }

  // Behind the listeners of "disconnected" a reconnect timer is armed, or the connect promise rejected.
  lemma DisconnectedDone(c: Client, threw: bool, failing: set<nat>)
    requires c.stack != [] && Top(c).AfterDisconnected?
    ensures var d, rest := Next(c, Return(threw, failing)), Top(c).rest;
            var again := c.shouldReconnect && c.reconnectEnabled;
            && d == Popped(c).(armed := d.armed, reconnectTimeout := d.reconnectTimeout, timersMade := d.timersMade,
                               answered := d.answered, resolver := d.resolver, connectPromise := d.connectPromise)
            && (if again then
                  && d.reconnectTimeout == Some(c.timersMade) && d.timersMade == c.timersMade + 1
                  && d.armed == c.armed + {c.timersMade}
                else d.reconnectTimeout == c.reconnectTimeout && d.timersMade == c.timersMade && d.armed == c.armed)
            && (if !again || rest.caught then Answers(c, d, false)
                else d.answered == c.answered && d.resolver == c.resolver)
            && d.connectPromise == if rest.promise.Some? then rest.promise
                                   else if !again || rest.caught then None else c.connectPromise
  {
  }

  lemma DisposedDone(c: Client, threw: bool, failing: set<nat>)
    requires c.stack != [] && Top(c).AfterDisposed?
    ensures Next(c, Return(threw, failing)) == Popped(c)
  {
  }

  // ---- Whole conversations ----

  // The listeners of each status return without having called the client.
  function Settled(c: Client, step: Step): Client
  {
    Next(Next(c, step), Return(false, {}))
  }

  // The server answers: the client is connected, its queue sent, and the message with the waiters.
  function Greeted(c: Client, m: Message): Client
  {
    Next(Settled(c, Receive(m)), Return(false, {}))
  }

  lemma GreetingConnects(c: Client, m: Message)
    requires Inv(c) && c.stack == [] && c.status == Connecting && m.serverInfo
    ensures W.Known(c.waits)
    ensures var d := Greeted(c, m);
            && Inv(d) && Delivers(c.waits, d.waits, m) && Drains(c.sends, d.sends, true, {}) && Answers(c, d, true)
            && d == c.(connectTimer := false, status := Connected, waits := d.waits, sends := d.sends,
                       answered := d.answered, resolver := None, connectPromise := None)
  {
    hide Delivers, Drains, Next, Answers;
    assert c.transport.Some? by { InvStatus(c); }
    InvSound(c);
    hide Inv, W.Known;
    var c1 := Next(c, Receive(m));
    NextInv(c, Receive(m));
    ReceiveTells(c, m);
    var c2 := Next(c1, Return(false, {}));
    NextInv(c1, Return(false, {}));
    ConnectedDone(c1, false, {});
    assert c2.stack == [AfterHandlers(m)] && Popped(c1).stack == [];
    NextInv(c2, Return(false, {}));
    HandlersDone(c2, false, {});
    assert Answers(c, Greeted(c, m), true) by { AnswersSame(c, c1, c2, Greeted(c, m), true); }
  }

  lemma AnswersSame(c: Client, c1: Client, d: Client, e: Client, ok: bool)
    requires Answers(c1, d, ok) && c.answered == c1.answered && c.resolver == c1.resolver
    requires d.answered == e.answered && d.resolver == e.resolver
    ensures Answers(c, e, ok)
  {
  }

  // No event means anything to a new client: it has no timer, no transport, and nobody waits.
  lemma NewClientIsIdle(reconnectEnabled: bool, step: Step)
    requires !IsCall(step) && !step.Receive?
    ensures var c := Init(reconnectEnabled);
            && Next(c, step) == c && c.status == Idle && c.connectPromise.None? && c.shouldReconnect
            && c.reconnectEnabled == reconnectEnabled
  {
  }

  // A call of connect on a client without a connection opens a transport, and its promise is resolved as soon as
  // the server answers on it.
  lemma ConnectSucceeds(c: Client, m: Message)
    requires Inv(c) && c.stack == [] && c.status in {Idle, Disconnected} && c.connectPromise.None? && m.serverInfo
    ensures var d := Greeted(Settled(c, Connect(true)), m);
            && d.status == Connected && d.transport == Some(c.made) && d.attached == d.transport && d.stack == []
            && d.answered == c.answered + [(c.promises, true)] && d.connectPromise.None? && d.sends.queue == []
  {
    hide Inv, Next, Delivers, W.Known, StatusOk;
    var c1 := Next(c, Connect(true));
    NextInv(c, Connect(true));
    ConnectOpens(c, true);
    NextInv(c1, Return(false, {}));
    assert c1.stack == [AfterConnecting(c.made, Some(c.promises))];
    ConnectingDone(c1, false, {});
    GreetingConnects(Settled(c, Connect(true)), m);
  }

  lemma EmptiedBy(c: Client, d: Client)
    requires Inv(c) && Inv(d) && W.Known(c.waits)
    requires RejectsAll(c.waits, d.waits, None, "Connection lost") && Drains(c.sends, d.sends, false, {})
    requires d.reconnectTimeout.None? && forall h :: h in d.armed <==> h in c.armed && c.reconnectTimeout != Some(h)
    ensures d.waits.waiting == [] && d.sends.queue == []
  {
    hide Control, W.WaitsInv, S.SendsInv, RejectsAll, Drains;
    AbandonsEmpties(c, d);
  }

  // A lost connection comes back: with reconnecting enabled, the loss arms a timer, and when it fires a new
  // transport is opened and connected without a call.
  lemma LossIsRepaired(c: Client, m: Message)
    requires Inv(c) && c.stack == [] && c.status == Connected && c.attached.Some?
    requires c.shouldReconnect && c.reconnectEnabled && m.serverInfo
    ensures var lost := Settled(c, TransportClosed);
            && lost.status == Disconnected && lost.waits.waiting == [] && lost.sends.queue == []
            && lost.reconnectTimeout == Some(c.timersMade) && c.timersMade in lost.armed
            && var d := Greeted(Settled(lost, ReconnectTimer(c.timersMade, true)), m);
            && d.status == Connected && d.transport == Some(c.made) && d.attached == d.transport && d.stack == []
  {
    hide Inv, Next, Delivers, W.Known, StatusOk, RejectsAll, Drains;
    InvSound(c);
    var c1 := Next(c, TransportClosed);
    NextInv(c, TransportClosed);
    FatalLoses(c, TransportClosed);
    assert c1.stack == [AfterDisconnected(NoRest)];
    NextInv(c1, Return(false, {}));
    EmptiedBy(c, c1);
    DisconnectedDone(c1, false, {});
    var lost := Settled(c, TransportClosed);
    var c2 := Next(lost, ReconnectTimer(c.timersMade, true));
    NextInv(lost, ReconnectTimer(c.timersMade, true));
    ReconnectOpens(lost, c.timersMade, true);
    assert c2.stack == [AfterConnecting(lost.made, None)];
    NextInv(c2, Return(false, {}));
    ConnectingDone(c2, false, {});
    GreetingConnects(Settled(lost, ReconnectTimer(c.timersMade, true)), m);
  }
}
