// Between its two groups the client's sends keep the order of the calls exactly as long as nothing is sent
// at once while some of the queue is still to be flushed.

module ChannelOrder {
  import opened Sequences
  import opened Primitives
  import opened Messages
  import opened Channel
  import opened ChannelSystem
  import opened ChannelInvariant
  import P = ChannelProgress

  // The queued sends that are not on the wire yet.
  function Left(ch: State): seq<Data>
  {
    match ch.flush
    case NotStarted => ch.pendingSends
    case Due => ch.pendingSends
    case Sending(items) => items
    case Done => []
  }

  // A send on an open channel past what is left of the queue.
  predicate Overtakes(s: System, step: Step)
  {
    step.ClientSends? && s.client.phase == Open && Left(s.client) != []
  }

  predicate QueuedFirst(wire: seq<Sent>)
  {
    forall i, j :: 0 <= i < j < |wire| && wire[j].queued ==> wire[i].queued
  }

  predicate HasLive(wire: seq<Sent>)
  {
    exists i :: 0 <= i < |wire| && !wire[i].queued
  }

  // Everything kept of the queue is on the wire.
  predicate QueueIsOut(s: System)
  {
    s.client.flush != NotStarted && Left(s.client) == [] && Group(s.wire, true) == LastN(s.queued, MAX_PENDING_SENDS)
  }

  // The wire has the queued sends before the live ones, and none of them is still to come behind a live one.
  predicate CallOrder(s: System)
  {
    QueuedFirst(s.wire) && (HasLive(s.wire) ==> QueueIsOut(s))
  }

  lemma LiveSnoc(wire: seq<Sent>, x: Sent)
    ensures HasLive(wire + [x]) <==> HasLive(wire) || !x.queued
    ensures QueuedFirst(wire + [x]) <==> QueuedFirst(wire) && (x.queued ==> !HasLive(wire))
  {
    var more := wire + [x];
    assert more[|wire|] == x;
    assert forall i :: 0 <= i < |wire| ==> more[i] == wire[i];
    if QueuedFirst(more) {
      assert QueuedFirst(wire);
    }
  }

  // The flush has only moved on, and the wire and the queue are the same.
  predicate MovesOn(s: System, t: System)
  {
    && t.wire == s.wire && t.queued == s.queued
    && (s.client.flush != NotStarted ==> t.client.flush != NotStarted)
    && (Left(s.client) == [] ==> Left(t.client) == [])
  }

  lemma ClientMovesOn(cfg: Config, s: System, step: Step)
    requires Inv(cfg, s) && OfClient(step) && !step.ClientSends? && !step.ClientFlushesNext?
    ensures MovesOn(s, ClientStep(cfg, s, step))
  {
    hide Lawful, ClassifyOpen, ClassifyHandshake, ReadCiphertext, Shape, ToClientLedger, ToDaemonLedger, QueueLedger;
    hide ReadyFrame, HelloFrame, OpenCiphertext;
  }

  lemma DaemonMovesOn(cfg: Config, s: System, step: Step)
    ensures MovesOn(s, DaemonStep(cfg, s, step))
  {
    hide Lawful, ClassifyHandshake, Replay, ReadyFrame, HandleMessage, ResumeMessage, Send;
  }

  lemma OtherStep(cfg: Config, s: System, step: Step)
    requires Inv(cfg, s) && !step.ClientSends? && !step.ClientFlushesNext?
    ensures MovesOn(s, Next(cfg, s, step))
  {
    hide Inv, MovesOn, ClientStep, DaemonStep;
    if OfClient(step) {
      ClientMovesOn(cfg, s, step);
    } else {
      DaemonMovesOn(cfg, s, step);
    }
  }

  lemma LiveSend(cfg: Config, s: System, data: Data, nonce: nat)
    requires Inv(cfg, s) && CallOrder(s)
    ensures CallOrder(Next(cfg, s, ClientSends(data, nonce))) <==> !Overtakes(s, ClientSends(data, nonce))
  {
    hide Lawful, SealFrame, Shape, ToClientLedger, ToDaemonLedger, QueuedFirst, HasLive, Group, LastN;
    if s.client.phase == Open {
      LiveSnoc(s.wire, Sent(false, data));
      WireSnoc(s.wire, Sent(false, data));
    }
  }

  lemma FlushedSend(cfg: Config, s: System, nonce: nat)
    requires Inv(cfg, s) && CallOrder(s)
    ensures CallOrder(Next(cfg, s, ClientFlushesNext(nonce)))
  {
    hide Lawful, SealFrame, Shape, ToClientLedger, ToDaemonLedger, QueuedFirst, HasLive, Group, LastN;
    if s.client.flush.Sending? && s.client.flush.items != [] {
      LiveSnoc(s.wire, Sent(true, s.client.flush.items[0]));
    }
  }

  // The calls keep their order on the wire until, and only until, one overtakes.
  lemma CallOrderLostIff(cfg: Config, s: System, step: Step)
    requires Inv(cfg, s) && CallOrder(s)
    ensures CallOrder(Next(cfg, s, step)) <==> !Overtakes(s, step)
  {
    hide Inv, Next;
    match step
    case ClientSends(data, nonce) => LiveSend(cfg, s, data, nonce);
    case ClientFlushesNext(nonce) => FlushedSend(cfg, s, nonce);
    case _ => OtherStep(cfg, s, step);
  }

  lemma {:induction false} NoneOvertakes(cfg: Config, steps: seq<Step>)
    requires forall k :: 0 <= k < |steps| ==> !Overtakes(RunAll(cfg, steps[..k]), steps[k])
    ensures CallOrder(RunAll(cfg, steps))
  {
    hide Inv, Next, CallOrder, Overtakes, RunAll;
    if steps == [] {
      P.RunNone(cfg);
      InitOrder(cfg);
    } else {
      var n := |steps| - 1;
      assert steps[..n] + [steps[n]] == steps;
      P.RunSnoc(cfg, steps[..n], steps[n]);
      forall k | 0 <= k < n
        ensures !Overtakes(RunAll(cfg, steps[..n][..k]), steps[..n][k])
      {
        assert steps[..n][..k] == steps[..k];
      }
      NoneOvertakes(cfg, steps[..n]);
      Reachable(cfg, steps[..n]);
      CallOrderLostIff(cfg, RunAll(cfg, steps[..n]), steps[n]);
    }
  }

  lemma InitOrder(cfg: Config)
    ensures CallOrder(Init(cfg))
  {
  }

  lemma {:induction false} GroupsInOrder(wire: seq<Sent>)
    requires QueuedFirst(wire)
    ensures WireData(wire) == Group(wire, true) + Group(wire, false)
    ensures !HasLive(wire) ==> Group(wire, false) == []
  {
    if wire != [] {
      var init, x := wire[..|wire| - 1], wire[|wire| - 1];
      assert wire == init + [x];
      LiveSnoc(init, x);
      WireSnoc(init, x);
      GroupsInOrder(init);
    }
  }

  // What the daemon receives is then, at any time, a prefix of the calls in their order.
  lemma DeliveredInCallOrder(cfg: Config, steps: seq<Step>)
    requires forall k :: 0 <= k < |steps| ==> !Overtakes(RunAll(cfg, steps[..k]), steps[k])
    ensures var s := RunAll(cfg, steps);
            && s.daemonGot <= LastN(s.queued, MAX_PENDING_SENDS) + s.live
            && (DrainedToDaemon(s) ==> s.daemonGot == LastN(s.queued, MAX_PENDING_SENDS) + s.live)
  {
    hide RunAll, WireData, Group, LastN, HasLive, Inv, DrainedToDaemon;
    NoneOvertakes(cfg, steps);
    ClientToDaemon(cfg, steps);
    var s := RunAll(cfg, steps);
    GroupsInOrder(s.wire);
    var kept := LastN(s.queued, MAX_PENDING_SENDS);
    if !HasLive(s.wire) {
      assert Group(s.wire, true) + [] == Group(s.wire, true) && kept + [] == kept;
    }
    if DrainedToDaemon(s) {
      ClientToDaemonComplete(cfg, steps);
    }
  }
}
