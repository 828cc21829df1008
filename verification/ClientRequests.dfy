// The waiters and the queue of unsent requests of packages/client/src/daemon-client.ts.
// A waiter or a send is named by the number of the call that made it.

module Numbers {
  // A JavaScript Set or array with one element taken out, the others in their order.
  function Without(ids: seq<nat>, id: nat): (r: seq<nat>)
    ensures forall x :: x in r <==> x in ids && x != id
  {
    if ids == [] then []
    else
      var init, last := ids[..|ids| - 1], ids[|ids| - 1];
      assert forall x :: x in ids <==> x in init || x == last;
      Without(init, id) + if last == id then [] else [last]
  }

  predicate Increasing(ids: seq<nat>)
  {
    forall i, j :: 0 <= i < j < |ids| ==> ids[i] < ids[j]
  }

  predicate Below(ids: seq<nat>, n: nat)
  {
    forall id :: id in ids ==> id < n
  }

  lemma InitOf(ids: seq<nat>, id: nat)
    requires ids != [] && ids[|ids| - 1] == id
    ensures forall x :: x in ids <==> x in ids[..|ids| - 1] || x == id
    ensures Increasing(ids) ==> Increasing(ids[..|ids| - 1]) && id !in ids[..|ids| - 1]
    ensures forall n: nat :: Below(ids, n) ==> Below(ids[..|ids| - 1], n) && id < n
  {
    var init := ids[..|ids| - 1];
    assert ids == init + [id];
    assert forall x :: x in init ==> x in ids;
    forall n: nat | Below(ids, n)
      ensures Below(init, n) && id < n
    {
      assert id in ids;
    }
  }

  lemma {:induction false} WithoutIncreasing(ids: seq<nat>, id: nat)
    requires Increasing(ids)
    ensures Increasing(Without(ids, id))
  {
    if ids != [] {
      var init := ids[..|ids| - 1];
      WithoutIncreasing(init, id);
      var r := Without(init, id);
      assert forall k :: 0 <= k < |r| ==> r[k] in r && r[k] in init;
    }
  }

  lemma {:induction false} WithoutAbsent(ids: seq<nat>, id: nat)
    requires id !in ids
    ensures Without(ids, id) == ids
  {
    if ids != [] {
      WithoutAbsent(ids[..|ids| - 1], id);
    }
  }

  lemma BelowPrefix(ids: seq<nat>, i: nat, n: nat)
    requires Below(ids, n) && i < |ids|
    ensures Below(ids[..i + 1], n) && ids[i] < n
  {
    assert ids[i] in ids;
    var part := ids[..i + 1];
    assert forall x :: x in part ==> x in ids;
  }

  lemma StillAhead(ids: seq<nat>, i: nat, id: nat)
    requires id in ids && i <= |ids| && id !in ids[..i]
    ensures i < |ids|
  {
    assert ids[..|ids|] == ids;
  }

  lemma FirstIsMember(ids: seq<nat>)
    requires ids != []
    ensures ids[0] in ids
  {
  }

  // Splicing out the one place at which the element stands.
  lemma {:induction false} WithoutAt(ids: seq<nat>, k: nat)
    requires k < |ids| && Increasing(ids)
    ensures Without(ids, ids[k]) == ids[..k] + ids[k + 1..]
  {
    var init, n := ids[..|ids| - 1], |ids| - 1;
    if k == n {
      assert ids[n] !in init;
      WithoutAbsent(init, ids[n]);
      assert ids[n + 1..] == [];
    } else {
      WithoutAt(init, k);
      assert init[..k] == ids[..k];
      assert init[k + 1..] + [ids[n]] == ids[k + 1..];
      assert init[..k] + init[k + 1..] + [ids[n]] == init[..k] + (init[k + 1..] + [ids[n]]);
    }
  }

  lemma {:induction false} WithoutHead(ids: seq<nat>)
    requires ids != [] && Increasing(ids)
    ensures Without(ids, ids[0]) == ids[1..]
  {
    if |ids| == 1 {
      assert Without(ids[..0], ids[0]) == [];
    } else {
      var init := ids[..|ids| - 1];
      WithoutHead(init);
      assert init[1..] + [ids[|ids| - 1]] == ids[1..];
    }
  }
}

module ClientWaits {
  import opened Wrappers
  import opened Numbers

  datatype Message = Message(kind: string, serverInfo: bool, requestId: Option<string>, body: string)

  // What waitForWithCancel captures; since counts the messages that had been given to the waiters by then.
  datatype Waiter = Waiter(select: Message -> Option<string>, requestId: Option<string>, timed: bool, since: nat)

  datatype Outcome =
    | Resolved(value: string, at: nat)
    | Rejected(reason: string)

  // One call of a waiter's resolve or reject.
  datatype Settlement = Settlement(id: nat, outcome: Outcome)

  datatype Waits = Waits(
    all: seq<Waiter>,
    waiting: seq<nat>,
    timers: set<nat>,
    settled: seq<Settlement>,
    delivered: seq<Message>)

  function NoWaits(): Waits
  {
    Waits([], [], {}, [], [])
  }

  function Add(w: Waits, select: Message -> Option<string>, requestId: Option<string>, timed: bool): Waits
  {
    var id := |w.all|;
    w.(all := w.all + [Waiter(select, requestId, timed, |w.delivered|)],
       waiting := w.waiting + [id],
       timers := if timed then w.timers + {id} else w.timers)
  }

  // Out of the set, its timer cleared, and resolve or reject called.
  function Settle(w: Waits, id: nat, outcome: Outcome): Waits
  {
    w.(waiting := Without(w.waiting, id), timers := w.timers - {id}, settled := w.settled + [Settlement(id, outcome)])
  }

  function Expire(w: Waits, id: nat): Waits
  {
    if id in w.timers then Settle(w, id, Rejected("Timeout waiting for message")) else w
  }

  predicate IsSettled(settled: seq<Settlement>, id: nat)
  {
    exists i :: 0 <= i < |settled| && settled[i].id == id
  }

  function Cancel(w: Waits, id: nat, reason: string): Waits
  {
    if id < |w.all| && !IsSettled(w.settled, id) then Settle(w, id, Rejected(reason)) else w
  }

  // The loop of resolveWaiters over a copy of the set, for the message delivered last.
  function ResolveEach(w: Waits, ids: seq<nat>, m: Message): (r: Waits)
    requires Below(ids, |w.all|) && |w.delivered| > 0
    ensures r.all == w.all && r.delivered == w.delivered
  {
    if ids == [] then w
    else
      InitOf(ids, ids[|ids| - 1]);
      var before, id := ResolveEach(w, ids[..|ids| - 1], m), ids[|ids| - 1];
      var result := before.all[id].select(m);
      if result.Some? then Settle(before, id, Resolved(result.value, |w.delivered| - 1)) else before
  }

  // The names in the set are always those of calls made, which Known below says.
  function Resolve(w: Waits, m: Message): Waits
  {
    if Below(w.waiting, |w.all|) then ResolveEach(w.(delivered := w.delivered + [m]), w.waiting, m) else w
  }

  // The loops of clearWaiters and rejectWaitersForRequestId; the first has no request to look for.
  function RejectEach(w: Waits, ids: seq<nat>, only: Option<string>, reason: string): (r: Waits)
    requires Below(ids, |w.all|)
    ensures r.all == w.all && r.delivered == w.delivered
  {
    if ids == [] then w
    else
      InitOf(ids, ids[|ids| - 1]);
      var before, id := RejectEach(w, ids[..|ids| - 1], only, reason), ids[|ids| - 1];
      if only.Some? && before.all[id].requestId != only then before else Settle(before, id, Rejected(reason))
  }

  function Reject(w: Waits, only: Option<string>, reason: string): Waits
  {
    if Below(w.waiting, |w.all|) then RejectEach(w, w.waiting, only, reason) else w
  }

  function Clear(w: Waits): Waits
  {
    Reject(w, None, "Connection lost")
  }

  function RejectFor(w: Waits, requestId: string): Waits
  {
    Reject(w, Some(requestId), "Invalid response")
  }

  // ---- What every operation keeps ----

  // The set is listed in the order of the calls.
  predicate Known(w: Waits)
  {
    && Increasing(w.waiting)
    && Below(w.waiting, |w.all|)
    && (forall i :: 0 <= i < |w.settled| ==> w.settled[i].id < |w.all|)
  }

  // Nobody is settled twice.
  predicate Once(w: Waits)
  {
    forall i, j :: 0 <= i < j < |w.settled| ==> w.settled[i].id != w.settled[j].id
  }

  predicate WaitingIffUnsettled(w: Waits)
  {
    forall id: nat :: id < |w.all| ==> (id in w.waiting <==> !IsSettled(w.settled, id))
  }

  ghost predicate TimersExact(w: Waits)
  {
    forall id: nat :: id in w.timers <==> id in w.waiting && id < |w.all| && w.all[id].timed
  }

  // The waiter has declined every message delivered to it before the n-th.
  predicate Declined(w: Waits, id: nat, n: nat)
    requires id < |w.all|
  {
    forall k :: w.all[id].since <= k < n && k < |w.delivered| ==> w.all[id].select(w.delivered[k]).None?
  }

  predicate Patient(w: Waits)
    requires Known(w)
  {
    && (forall id :: id in w.waiting ==> w.all[id].since <= |w.delivered| && Declined(w, id, |w.delivered|))
  }

  // A resolved waiter got the value of the first message, since its registration, that it accepts.
  predicate FirstAnswers(w: Waits)
    requires Known(w)
  {
    forall i :: 0 <= i < |w.settled| && w.settled[i].outcome.Resolved? ==>
      AnsweredFirst(w, w.settled[i].id, w.settled[i].outcome.value, w.settled[i].outcome.at)
  }

  predicate AnsweredFirst(w: Waits, id: nat, value: string, at: nat)
    requires id < |w.all|
  {
    && w.all[id].since <= at < |w.delivered|
    && w.all[id].select(w.delivered[at]) == Some(value)
    && Declined(w, id, at)
  }

  // Everything but Patient, which resolveWaiters suspends while it loops.
  ghost predicate Core(w: Waits)
  {
    Known(w) && Once(w) && WaitingIffUnsettled(w) && TimersExact(w) && FirstAnswers(w)
  }

  ghost predicate WaitsInv(w: Waits)
  {
    Core(w) && Patient(w)
  }

  lemma SettledSnoc(settled: seq<Settlement>, x: Settlement, id: nat)
    ensures IsSettled(settled + [x], id) <==> IsSettled(settled, id) || x.id == id
  {
    var all := settled + [x];
    assert all[|settled|] == x;
    forall i | 0 <= i < |settled|
      ensures all[i] == settled[i]
    {
    }
  }

  lemma SettleCore(w: Waits, id: nat, outcome: Outcome)
    requires Core(w) && id in w.waiting
    requires outcome.Resolved? ==> id < |w.all| && AnsweredFirst(w, id, outcome.value, outcome.at)
    ensures Core(Settle(w, id, outcome))
  {
    hide Without, IsSettled, Declined, Increasing;
    WithoutIncreasing(w.waiting, id);
    var x := Settle(w, id, outcome);
    forall k: nat
      ensures IsSettled(x.settled, k) <==> IsSettled(w.settled, k) || id == k
    {
      SettledSnoc(w.settled, Settlement(id, outcome), k);
    }
    SettleOnce(w, id, outcome);
    SettleFirst(w, id, outcome);
  }

  lemma SettleOnce(w: Waits, id: nat, outcome: Outcome)
    requires Known(w) && Once(w) && WaitingIffUnsettled(w) && id in w.waiting
    ensures Once(Settle(w, id, outcome))
  {
    hide Without;
    forall i | 0 <= i < |w.settled|
      ensures w.settled[i].id != id
    {
      assert IsSettled(w.settled, w.settled[i].id);
    }
  }

  lemma SettleFirst(w: Waits, id: nat, outcome: Outcome)
    requires Known(w) && FirstAnswers(w) && id < |w.all|
    requires Known(Settle(w, id, outcome))
    requires outcome.Resolved? ==> AnsweredFirst(w, id, outcome.value, outcome.at)
    ensures FirstAnswers(Settle(w, id, outcome))
  {
    hide Without, Declined;
    var x := Settle(w, id, outcome);
    forall i | 0 <= i < |x.settled| && x.settled[i].outcome.Resolved?
      ensures AnsweredFirst(x, x.settled[i].id, x.settled[i].outcome.value, x.settled[i].outcome.at)
    {
      var a := x.settled[i];
      assert AnsweredFirst(w, a.id, a.outcome.value, a.outcome.at);
      if a.outcome.at <= |w.delivered| {
        SameDeclined(w, x, a.id, a.outcome.at);
      }
    }
  }

  lemma SameDeclined(w: Waits, x: Waits, id: nat, n: nat)
    requires id < |w.all| && x.all == w.all && x.delivered == w.delivered
    ensures Declined(w, id, n) <==> Declined(x, id, n)
  {
  }

  lemma SettleInv(w: Waits, id: nat, outcome: Outcome)
    requires WaitsInv(w) && id in w.waiting
    requires outcome.Rejected?
    ensures WaitsInv(Settle(w, id, outcome))
  {
    hide Core, Declined;
    assert Known(w) by { CoreKnown(w); }
    SettleCore(w, id, outcome);
    var x := Settle(w, id, outcome);
    CoreKnown(x);
    forall k | k in x.waiting
      ensures x.all[k].since <= |x.delivered| && Declined(x, k, |x.delivered|)
    {
      SameDeclined(w, x, k, |w.delivered|);
    }
  }

  lemma CoreKnown(w: Waits)
    requires Core(w)
    ensures Known(w)
  {
  }

  lemma AddInv(w: Waits, select: Message -> Option<string>, requestId: Option<string>, timed: bool)
    requires WaitsInv(w)
    ensures WaitsInv(Add(w, select, requestId, timed))
  {
    hide IsSettled, Declined;
    var x, n := Add(w, select, requestId, timed), |w.all|;
    assert forall k :: k in x.waiting <==> k in w.waiting || k == n;
    assert !IsSettled(w.settled, n) by { NotSettledYet(w, n); }
    forall k, at: nat | 0 <= k < n
      ensures Declined(w, k, at) <==> Declined(x, k, at)
    {
      AddDeclined(w, x, k);
    }
    assert Declined(x, n, |w.delivered|) by { FreshDeclined(x, n); }
    assert forall i :: 0 <= i < |w.waiting| ==> w.waiting[i] in w.waiting;
    assert Known(x);
    forall i | 0 <= i < |x.settled| && x.settled[i].outcome.Resolved?
      ensures AnsweredFirst(x, x.settled[i].id, x.settled[i].outcome.value, x.settled[i].outcome.at)
    {
      var a := w.settled[i];
      assert AnsweredFirst(w, a.id, a.outcome.value, a.outcome.at);
      assert x.all[a.id] == w.all[a.id];
    }
  }

  lemma NotSettledYet(w: Waits, n: nat)
    requires Known(w) && n >= |w.all|
    ensures !IsSettled(w.settled, n)
  {
  }

  lemma AddDeclined(w: Waits, x: Waits, k: nat)
    requires k < |w.all| <= |x.all| && x.all[k] == w.all[k] && x.delivered == w.delivered
    ensures forall at: nat :: Declined(w, k, at) <==> Declined(x, k, at)
  {
  }

  lemma FreshDeclined(x: Waits, n: nat)
    requires n < |x.all| && x.all[n].since >= |x.delivered|
    ensures Declined(x, n, |x.delivered|)
  {
  }

  lemma ExpireInv(w: Waits, id: nat)
    requires WaitsInv(w)
    ensures WaitsInv(Expire(w, id))
  {
    if id in w.timers {
      SettleInv(w, id, Rejected("Timeout waiting for message"));
    }
  }

  lemma CancelInv(w: Waits, id: nat, reason: string)
    requires WaitsInv(w)
    ensures WaitsInv(Cancel(w, id, reason))
  {
    if id < |w.all| && !IsSettled(w.settled, id) {
      SettleInv(w, id, Rejected(reason));
    }
  }

  lemma {:induction false} RejectEachInv(w: Waits, ids: seq<nat>, only: Option<string>, reason: string)
    requires WaitsInv(w) && Increasing(ids) && Below(ids, |w.all|) && forall id :: id in ids ==> id in w.waiting
    ensures WaitsInv(RejectEach(w, ids, only, reason))
    ensures forall id: nat :: id in RejectEach(w, ids, only, reason).waiting <==>
              id in w.waiting && !(id in ids && (only.Some? ==> w.all[id].requestId == only))
  {
    hide WaitsInv, Increasing, Below;
    if ids != [] {
      var init, id := ids[..|ids| - 1], ids[|ids| - 1];
      InitOf(ids, id);
      RejectEachInv(w, init, only, reason);
      var before := RejectEach(w, init, only, reason);
      if only.None? || w.all[id].requestId == only {
        SettleInv(before, id, Rejected(reason));
      }
    }
  }

  // Rejecting everyone in the set takes everyone out of it.
  lemma {:induction false} RejectEachLeft(w: Waits, ids: seq<nat>, reason: string)
    requires Below(ids, |w.all|)
    ensures forall id :: id in RejectEach(w, ids, None, reason).waiting <==> id in w.waiting && id !in ids
  {
    hide Below, Without;
    if ids != [] {
      InitOf(ids, ids[|ids| - 1]);
      RejectEachLeft(w, ids[..|ids| - 1], reason);
    }
  }

  lemma NoneLeft(w: Waits, ids: seq<nat>, reason: string)
    requires ids == w.waiting && Below(ids, |w.all|)
    ensures RejectEach(w, ids, None, reason).waiting == []
  {
    hide RejectEach;
    RejectEachLeft(w, ids, reason);
    var left := RejectEach(w, ids, None, reason).waiting;
    if left != [] {
      FirstIsMember(left);
    }
  }

  // After the loop only the waiters of other requests are left; with no request to look for, none is.
  lemma RejectInv(w: Waits, only: Option<string>, reason: string)
    requires WaitsInv(w)
    ensures WaitsInv(Reject(w, only, reason))
    ensures forall id: nat :: id in Reject(w, only, reason).waiting <==>
              id in w.waiting && only.Some? && w.all[id].requestId != only
    ensures only.None? ==> Reject(w, only, reason).waiting == []
  {
    hide WaitingIffUnsettled, TimersExact, FirstAnswers, Once, Patient;
    RejectEachInv(w, w.waiting, only, reason);
    var left := Reject(w, only, reason).waiting;
    if only.None? && left != [] {
      FirstIsMember(left);
    }
  }

  // ---- resolveWaiters ----

  // Every waiter in the set has declined what was delivered to it, but for the last message, which only
  // those among seen have been shown.
  predicate Shown(w: Waits, seen: seq<nat>)
    requires Known(w) && |w.delivered| > 0
  {
    forall id :: id in w.waiting ==>
      && w.all[id].since < |w.delivered|
      && Declined(w, id, |w.delivered| - 1)
      && (id in seen ==> w.all[id].select(w.delivered[|w.delivered| - 1]).None?)
  }

  lemma {:induction false} ResolveEachInv(w: Waits, ids: seq<nat>, m: Message)
    requires Core(w) && |w.delivered| > 0 && w.delivered[|w.delivered| - 1] == m && Shown(w, [])
    requires Increasing(ids) && Below(ids, |w.all|) && forall id :: id in ids ==> id in w.waiting
    ensures Core(ResolveEach(w, ids, m)) && Shown(ResolveEach(w, ids, m), ids)
    ensures forall id: nat :: id in ResolveEach(w, ids, m).waiting <==>
              id in w.waiting && !(id in ids && w.all[id].select(m).Some?)
  {
    hide Core, Shown, Increasing, Below;
    CoreKnown(w);
    if ids != [] {
      var init, id := ids[..|ids| - 1], ids[|ids| - 1];
      InitOf(ids, id);
      ResolveEachInv(w, init, m);
      ResolveOneInv(ResolveEach(w, init, m), init, id, m);
      assert init + [id] == ids;
    }
  }

  lemma ResolveOneInv(w: Waits, seen: seq<nat>, id: nat, m: Message)
    requires Core(w) && |w.delivered| > 0 && w.delivered[|w.delivered| - 1] == m && Shown(w, seen)
    requires id in w.waiting && id < |w.all|
    ensures var value := w.all[id].select(m);
            var r := if value.Some? then Settle(w, id, Resolved(value.value, |w.delivered| - 1)) else w;
            Core(r) && Shown(r, seen + [id])
  {
    hide Core, Declined, Increasing;
    CoreKnown(w);
    var value := w.all[id].select(m);
    var r := if value.Some? then Settle(w, id, Resolved(value.value, |w.delivered| - 1)) else w;
    if value.Some? {
      SettleCore(w, id, Resolved(value.value, |w.delivered| - 1));
    }
    CoreKnown(r);
    forall k | k in r.waiting
      ensures Declined(r, k, |w.delivered| - 1)
    {
      SameDeclined(w, r, k, |w.delivered| - 1);
    }
  }

  lemma DeliverCore(w: Waits, m: Message)
    requires WaitsInv(w)
    ensures Core(w.(delivered := w.delivered + [m]))
    ensures Shown(w.(delivered := w.delivered + [m]), [])
  {
    hide Once, WaitingIffUnsettled, Increasing;
    var x := w.(delivered := w.delivered + [m]);
    assert Once(x) && WaitingIffUnsettled(x) by { SameCounts(w, x); }
    assert Known(x) && TimersExact(x);
    forall id: nat, n: nat | id < |w.all| && n <= |w.delivered|
      ensures Declined(w, id, n) <==> Declined(x, id, n)
    {
      DeliverDeclined(w, x, id, n);
    }
  }

  lemma DeliverDeclined(w: Waits, x: Waits, id: nat, n: nat)
    requires id < |w.all| && x.all == w.all && w.delivered <= x.delivered && n <= |w.delivered|
    ensures Declined(w, id, n) <==> Declined(x, id, n)
  {
  }

  lemma SameCounts(w: Waits, x: Waits)
    requires x.settled == w.settled && x.waiting == w.waiting && x.all == w.all
    ensures Once(x) == Once(w) && WaitingIffUnsettled(x) == WaitingIffUnsettled(w)
  {
  }

  // Exactly the waiters that accept the message leave the set.
  lemma ResolveInv(w: Waits, m: Message)
    requires WaitsInv(w)
    ensures WaitsInv(Resolve(w, m))
    ensures forall id: nat :: id in Resolve(w, m).waiting <==> id in w.waiting && w.all[id].select(m).None?
  {
    hide Core, Declined;
    var x := w.(delivered := w.delivered + [m]);
    CoreKnown(w);
    DeliverCore(w, m);
    ResolveEachInv(x, w.waiting, m);
    var r := Resolve(w, m);
    CoreKnown(r);
    forall id | id in r.waiting
      ensures Declined(r, id, |r.delivered|)
    {
      DeclinedOneMore(r, id);
    }
  }

  lemma DeclinedOneMore(r: Waits, id: nat)
    requires id < |r.all| && |r.delivered| > 0 && Declined(r, id, |r.delivered| - 1)
    requires r.all[id].select(r.delivered[|r.delivered| - 1]).None?
    ensures Declined(r, id, |r.delivered|)
  {
  }
}

module ClientSends {
  import opened Numbers

  datatype SendOutcome = Sent | Refused

  // One settlement of the promise of sendSessionMessageOrThrow; a sent message is on the wire at that moment.
  datatype Settlement = Settlement(id: nat, outcome: SendOutcome, queued: bool)

  datatype Sends = Sends(issued: nat, queue: seq<nat>, timers: set<nat>, settled: seq<Settlement>)

  function NoSends(): Sends
  {
    Sends(0, [], {}, [])
  }

  function SettleSend(s: Sends, id: nat, outcome: SendOutcome, queued: bool): Sends
  {
    s.(queue := Without(s.queue, id), timers := s.timers - {id},
       settled := s.settled + [Settlement(id, outcome, queued)])
  }

  // Settled within the call itself.
  function SettleNow(s: Sends, outcome: SendOutcome): Sends
  {
    s.(issued := s.issued + 1, settled := s.settled + [Settlement(s.issued, outcome, false)])
  }

  function Enqueue(s: Sends): Sends
  {
    s.(issued := s.issued + 1, queue := s.queue + [s.issued], timers := s.timers + {s.issued})
  }

  function ExpireSend(s: Sends, id: nat): Sends
  {
    if id in s.timers then SettleSend(s, id, Refused, true) else s
  }

  // The loops of flushPendingSendQueue and rejectPendingSendQueue; the sends among failing throw.
  function DrainEach(s: Sends, ids: seq<nat>, live: bool, failing: set<nat>): Sends
  {
    if ids == [] then s
    else
      var id := ids[|ids| - 1];
      SettleSend(DrainEach(s, ids[..|ids| - 1], live, failing), id, if live && id !in failing then Sent else Refused, true)
  }

  function Flush(s: Sends, live: bool, failing: set<nat>): Sends
  {
    DrainEach(s, s.queue, live, failing)
  }

  function RejectQueue(s: Sends): Sends
  {
    DrainEach(s, s.queue, false, {})
  }

  predicate IsSettled(settled: seq<Settlement>, id: nat)
  {
    exists i :: 0 <= i < |settled| && settled[i].id == id
  }

  predicate Known(s: Sends)
  {
    && Increasing(s.queue) && Below(s.queue, s.issued)
    && (forall i :: 0 <= i < |s.settled| ==> s.settled[i].id < s.issued)
  }

  predicate Once(s: Sends)
  {
    forall i, j :: 0 <= i < j < |s.settled| ==> s.settled[i].id != s.settled[j].id
  }

  predicate QueuedIffUnsettled(s: Sends)
  {
    forall id: nat :: id < s.issued ==> (id in s.queue <==> !IsSettled(s.settled, id))
  }

  ghost predicate TimersExact(s: Sends)
  {
    forall id: nat :: id in s.timers <==> id in s.queue
  }

  // On the wire two messages can be in the wrong order only if the later call was made past the queue in
  // which the earlier one was still waiting.
  predicate CallOrder(s: Sends)
  {
    && (forall i, j :: 0 <= i < j < |s.settled| && s.settled[i].outcome == s.settled[j].outcome == Sent ==>
         s.settled[i].id < s.settled[j].id || (!s.settled[i].queued && s.settled[j].queued))
    && (forall i :: 0 <= i < |s.settled| && s.settled[i].outcome == Sent && s.settled[i].queued ==>
         AllAbove(s.queue, s.settled[i].id))
  }

  predicate AllAbove(ids: seq<nat>, id: nat)
  {
    forall k :: k in ids ==> id < k
  }

  ghost predicate SendsInv(s: Sends)
  {
    Known(s) && Once(s) && QueuedIffUnsettled(s) && TimersExact(s) && CallOrder(s)
  }

  lemma SettledSnoc(settled: seq<Settlement>, x: Settlement)
    ensures forall id: nat :: IsSettled(settled + [x], id) <==> IsSettled(settled, id) || x.id == id
  {
    forall id: nat
      ensures IsSettled(settled + [x], id) <==> IsSettled(settled, id) || x.id == id
    {
      var all := settled + [x];
      assert all[|settled|] == x;
      if IsSettled(settled, id) {
        var i :| 0 <= i < |settled| && settled[i].id == id;
        assert all[i].id == id;
      }
    }
  }

  // A queued send may go onto the wire only from the head of the queue.
  lemma SettleSendInv(s: Sends, id: nat, outcome: SendOutcome)
    requires SendsInv(s) && id in s.queue
    requires outcome == Sent ==> s.queue[0] == id
    ensures SendsInv(SettleSend(s, id, outcome, true))
  {
    hide IsSettled, Increasing, CallOrder, Without;
    var r := SettleSend(s, id, outcome, true);
    SettledSnoc(s.settled, Settlement(id, outcome, true));
    WithoutIncreasing(s.queue, id);
    SettleSendOnce(s, id, outcome);
    SettleSendOrder(s, id, outcome);
  }

  lemma SettleSendOnce(s: Sends, id: nat, outcome: SendOutcome)
    requires Known(s) && Once(s) && QueuedIffUnsettled(s) && id in s.queue
    ensures Once(SettleSend(s, id, outcome, true))
  {
    hide Increasing, Without;
    forall i | 0 <= i < |s.settled|
      ensures s.settled[i].id != id
    {
      assert IsSettled(s.settled, s.settled[i].id);
    }
  }

  lemma SettleSendOrder(s: Sends, id: nat, outcome: SendOutcome)
    requires Known(s) && CallOrder(s) && id in s.queue
    requires outcome == Sent ==> s.queue[0] == id
    ensures CallOrder(SettleSend(s, id, outcome, true))
  {
    hide Without;
    if outcome == Sent {
      assert forall k :: k in Without(s.queue, id) ==> id < k;
    }
  }

  lemma SettleNowInv(s: Sends, outcome: SendOutcome)
    requires SendsInv(s)
    ensures SendsInv(SettleNow(s, outcome))
  {
    hide IsSettled;
    SettledSnoc(s.settled, Settlement(s.issued, outcome, false));
  }

  lemma EnqueueInv(s: Sends)
    requires SendsInv(s)
    ensures SendsInv(Enqueue(s))
  {
    hide IsSettled, Once;
    var r := Enqueue(s);
    assert forall k :: k in r.queue <==> k in s.queue || k == s.issued;
    assert forall i :: 0 <= i < |s.queue| ==> s.queue[i] in s.queue;
    assert !IsSettled(s.settled, s.issued) by { NotSettledYet(s); }
    assert Once(r) by { SameOnce(s, r); }
  }

  lemma SameOnce(s: Sends, r: Sends)
    requires s.settled == r.settled
    ensures Once(s) == Once(r)
  {
  }

  lemma NotSettledYet(s: Sends)
    requires Known(s)
    ensures !IsSettled(s.settled, s.issued)
  {
  }

  lemma ExpireSendInv(s: Sends, id: nat)
    requires SendsInv(s)
    ensures SendsInv(ExpireSend(s, id))
  {
    if id in s.timers {
      SettleSendInv(s, id, Refused);
    }
  }

  // What the k-th message of the queue comes to.
  function Drained(s: Sends, k: nat, live: bool, failing: set<nat>): Settlement
    requires k < |s.queue|
  {
    Settlement(s.queue[k], if live && s.queue[k] !in failing then Sent else Refused, true)
  }

  lemma {:induction false} DrainEachExact(s: Sends, n: nat, live: bool, failing: set<nat>)
    requires SendsInv(s) && n <= |s.queue|
    ensures var r := DrainEach(s, s.queue[..n], live, failing);
            && SendsInv(r) && r.queue == s.queue[n..] && r.issued == s.issued
            && r.settled == s.settled + seq(n, k requires 0 <= k < n => Drained(s, k, live, failing))
  {
    hide SendsInv, Drained;
    if n == 0 {
      assert s.settled + [] == s.settled;
    } else {
      var ids := s.queue[..n];
      assert ids[..n - 1] == s.queue[..n - 1];
      DrainEachExact(s, n - 1, live, failing);
      DrainNext(s, DrainEach(s, ids[..n - 1], live, failing), n, live, failing);
    }
  }

  lemma DrainNext(s: Sends, before: Sends, n: nat, live: bool, failing: set<nat>)
    requires SendsInv(s) && SendsInv(before) && 0 < n <= |s.queue| && before.queue == s.queue[n - 1..]
    requires before.settled == s.settled + seq(n - 1, k requires 0 <= k < n - 1 => Drained(s, k, live, failing))
    ensures var id := s.queue[n - 1];
            var r := SettleSend(before, id, if live && id !in failing then Sent else Refused, true);
            && SendsInv(r) && r.queue == s.queue[n..]
            && r.settled == s.settled + seq(n, k requires 0 <= k < n => Drained(s, k, live, failing))
  {
    hide Once, QueuedIffUnsettled, TimersExact, CallOrder, Increasing;
    var id := s.queue[n - 1];
    assert before.queue[0] == id && before.queue[1..] == s.queue[n..];
    WithoutHead(before.queue);
    SettleSendInv(before, id, if live && id !in failing then Sent else Refused);
    assert seq(n, k requires 0 <= k < n => Drained(s, k, live, failing))
        == seq(n - 1, k requires 0 <= k < n - 1 => Drained(s, k, live, failing)) + [Drained(s, n - 1, live, failing)];
  }

  // The whole queue is settled, in call order, and empty afterwards.
  lemma FlushExact(s: Sends, live: bool, failing: set<nat>)
    requires SendsInv(s)
    ensures SendsInv(Flush(s, live, failing)) && Flush(s, live, failing).queue == []
    ensures Flush(s, live, failing).settled ==
            s.settled + seq(|s.queue|, k requires 0 <= k < |s.queue| => Drained(s, k, live, failing))
  {
    hide SendsInv, Drained;
    DrainEachExact(s, |s.queue|, live, failing);
    assert s.queue[..|s.queue|] == s.queue;
  }

  lemma RejectQueueInv(s: Sends)
    requires SendsInv(s)
    ensures SendsInv(RejectQueue(s)) && RejectQueue(s).queue == [] && RejectQueue(s).issued == s.issued
  {
    hide SendsInv, Drained;
    DrainEachExact(s, |s.queue|, false, {});
    assert s.queue[..|s.queue|] == s.queue;
  }

  // Draining the queue takes everything out of it.
  lemma {:induction false} DrainEachLeft(s: Sends, ids: seq<nat>, live: bool, failing: set<nat>)
    ensures forall id :: id in DrainEach(s, ids, live, failing).queue <==> id in s.queue && id !in ids
  {
    hide Below, Without;
    if ids != [] {
      InitOf(ids, ids[|ids| - 1]);
      DrainEachLeft(s, ids[..|ids| - 1], live, failing);
    }
  }

  lemma NoneQueued(s: Sends, ids: seq<nat>, live: bool, failing: set<nat>)
    requires ids == s.queue
    ensures DrainEach(s, ids, live, failing).queue == []
  {
    hide DrainEach;
    DrainEachLeft(s, ids, live, failing);
    var left := DrainEach(s, ids, live, failing).queue;
    if left != [] {
      FirstIsMember(left);
    }
  }

  // ---- Total order ----

  predicate WireInOrder(s: Sends)
  {
    && (forall i, j :: 0 <= i < j < |s.settled| && s.settled[i].outcome == s.settled[j].outcome == Sent ==>
         s.settled[i].id < s.settled[j].id)
    && (forall i :: 0 <= i < |s.settled| && s.settled[i].outcome == Sent ==> AllAbove(s.queue, s.settled[i].id))
  }

  // A call is overtaken exactly when a message is sent at once while the queue is not empty.
  lemma SettleNowKeepsOrderIff(s: Sends, outcome: SendOutcome)
    requires SendsInv(s) && WireInOrder(s)
    ensures WireInOrder(SettleNow(s, outcome)) <==> outcome == Refused || s.queue == []
  {
    hide Once, QueuedIffUnsettled, TimersExact, CallOrder, Increasing;
    var r := SettleNow(s, outcome);
    if outcome == Sent && s.queue != [] {
      var id := s.queue[0];
      assert id in r.queue && id < s.issued;
      assert !AllAbove(r.queue, r.settled[|s.settled|].id);
    }
  }

  lemma EnqueueKeepsOrder(s: Sends)
    requires SendsInv(s) && WireInOrder(s)
    ensures WireInOrder(Enqueue(s))
  {
    hide Once, QueuedIffUnsettled, TimersExact, CallOrder, Increasing;
  }

  lemma SettleSendKeepsOrder(s: Sends, id: nat, outcome: SendOutcome)
    requires SendsInv(s) && WireInOrder(s) && id in s.queue
    requires outcome == Sent ==> s.queue[0] == id
    ensures WireInOrder(SettleSend(s, id, outcome, true))
  {
    hide Once, QueuedIffUnsettled, TimersExact, CallOrder, Without;
  }

  lemma {:induction false} DrainKeepsOrder(s: Sends, n: nat, live: bool, failing: set<nat>)
    requires SendsInv(s) && WireInOrder(s) && n <= |s.queue|
    ensures WireInOrder(DrainEach(s, s.queue[..n], live, failing))
  {
    hide SendsInv, Drained, WireInOrder;
    if n > 0 {
      var ids := s.queue[..n];
      assert ids[..n - 1] == s.queue[..n - 1];
      DrainKeepsOrder(s, n - 1, live, failing);
      DrainEachExact(s, n - 1, live, failing);
      var before := DrainEach(s, ids[..n - 1], live, failing);
      assert before.queue[0] == s.queue[n - 1];
      SettleSendKeepsOrder(before, s.queue[n - 1], if live && s.queue[n - 1] !in failing then Sent else Refused);
    }
  }

  lemma FlushKeepsOrder(s: Sends, live: bool, failing: set<nat>)
    requires SendsInv(s) && WireInOrder(s)
    ensures WireInOrder(Flush(s, live, failing))
  {
    hide SendsInv, WireInOrder;
    DrainKeepsOrder(s, |s.queue|, live, failing);
    assert s.queue[..|s.queue|] == s.queue;
  }

  lemma RejectQueueKeepsOrder(s: Sends)
    requires SendsInv(s) && WireInOrder(s)
    ensures WireInOrder(RejectQueue(s))
  {
    hide SendsInv, WireInOrder;
    FlushKeepsOrder(s, false, {});
  }

  lemma ExpireKeepsOrder(s: Sends, id: nat)
    requires SendsInv(s) && WireInOrder(s)
    ensures WireInOrder(ExpireSend(s, id))
  {
    hide WireInOrder, CallOrder, Once;
    if id in s.timers {
      SettleSendKeepsOrder(s, id, Refused);
    }
  }
}
