// That the promises of module ChannelInvariant are not empty: undisturbed, every run
// can be finished, with the handshake completed and everything delivered; and a run in
// which a live send passes a queued one.

module ChannelProgress {
  import opened Primitives
  import opened Messages
  import opened Channel
  import opened ChannelSystem
  import opened ChannelInvariant

  // Neither end has closed.
  predicate Undisturbed(s: System)
  {
    s.client.phase != Closed && (s.daemon.Established? ==> s.daemon.channel.phase == Open)
  }

  predicate Drained(s: System)
  {
    DrainedToDaemon(s) && s.toClient == [] && s.client.suspended == []
  }

  // The work left, weighted so that every useful step leaves less.
  function FlushWork(ch: State): nat
  {
    match ch.flush
    case NotStarted => 5 * |ch.pendingSends| + 3
    case Due => 5 * |ch.pendingSends| + 2
    case Sending(items) => 5 * |items| + 1
    case Done => 0
  }

  function DaemonWork(d: Daemon): nat
  {
    match d
    case AwaitingHello => 0
    case SendingReady(_, _, buffered) => 2 * |buffered| + 1
    case Established(ch) => |ch.suspended|
    case Rejected => 0
  }

  function Work(s: System): nat
  {
    4 * |s.toDaemon| + 2 * |s.toClient| + |s.client.suspended| + FlushWork(s.client) + DaemonWork(s.daemon)
  }

  function UsefulStep(s: System): Step
  {
    if s.toDaemon != [] then DaemonReceives
    else if s.daemon.SendingReady? then DaemonReadySent
    else if s.toClient != [] then ClientReceives
    else if s.client.suspended != [] then ClientResumes
    else if s.daemon.Established? && s.daemon.channel.suspended != [] then DaemonResumes
    else if s.client.flush == Due then ClientStartsFlush
    else ClientFlushesNext(0)
  }

  // A useful step leaves less work, disturbs nothing and sends nothing new.
  ghost predicate Progress(s: System, t: System)
  {
    && Undisturbed(t) && Work(t) < Work(s)
    && t.queued == s.queued && t.live == s.live && t.daemonSent == s.daemonSent
  }

  lemma DaemonReceivesProgress(cfg: Config, s: System)
    requires Inv(cfg, s) && Undisturbed(s) && s.toDaemon != []
    ensures Progress(s, Next(cfg, s, DaemonReceives))
  {
    hide Lawful, ClassifyOpen, ClassifyHandshake, PlainOf, IsSealed, SealFrame, HelloFrame, ReadyFrame, Plain, Awaited, AwaitedOf, WireData, Group;
    var m := s.toDaemon[0];
    match s.daemon
    case AwaitingHello => FirstHello(cfg);
    case SendingReady(_, _, _) =>
    case Established(ch) =>
      if m == cfg.Hello() {
        RepeatedHello(cfg, ch);
      } else {
        OpenReceives(cfg, ch, m);
      }
  }

  lemma {:induction false} ReplayShort(env: Env, ch: State, buffered: seq<Message>)
    ensures |Replay(env, ch, buffered).suspended| <= |ch.suspended| + |buffered|
  {
    hide Lawful, ClassifyOpen, ClassifyHandshake, ReadCiphertext;
    if buffered != [] {
      ReplayShort(env, ch, buffered[..|buffered| - 1]);
    }
  }

  lemma ReadySentProgress(cfg: Config, s: System)
    requires Inv(cfg, s) && Undisturbed(s) && s.daemon.SendingReady?
    ensures Progress(s, Next(cfg, s, DaemonReadySent))
  {
    hide Lawful, ClassifyOpen, ClassifyHandshake, PlainOf, IsSealed, SealFrame, HelloFrame, ReadyFrame, Plain, Awaited, AwaitedOf, WireData, Group;
    var ch := DaemonState(s.daemon.key, true, cfg.daemonSecret);
    ReplayHonest(cfg, ch, s.daemon.buffered);
    ReplayShort(cfg.env, ch, s.daemon.buffered);
  }

  lemma ClientReceivesProgress(cfg: Config, s: System)
    requires Inv(cfg, s) && Undisturbed(s) && s.toClient != [] && !s.daemon.AwaitingHello?
    ensures Progress(s, Next(cfg, s, ClientReceives))
  {
    hide Lawful, ClassifyOpen, ClassifyHandshake, PlainOf, IsSealed, SealFrame, HelloFrame, ReadyFrame, Plain, Awaited, AwaitedOf, WireData, Group;
    var m := s.toClient[0];
    HandshakeFrames(cfg);
    ReadyReads(cfg.env, true);
    if s.client.phase == Open && m != ReadyFrame(cfg.env, true) {
      OpenReceives(cfg, s.client, m);
    }
  }

  // With nothing on the links what is left is to resume, on either side, or to flush.
  lemma LocalProgress(cfg: Config, s: System)
    requires Inv(cfg, s) && Undisturbed(s) && !Drained(s)
    requires s.toDaemon == [] && !s.daemon.SendingReady? && s.toClient == []
    ensures Progress(s, Next(cfg, s, UsefulStep(s)))
  {
    hide Lawful, ClassifyOpen, ClassifyHandshake, PlainOf, IsSealed, SealFrame, HelloFrame, ReadyFrame, Plain, Awaited, AwaitedOf, WireData, Group;
  }

  lemma NotAwaiting(cfg: Config, s: System)
    requires Inv(cfg, s) && s.toDaemon == []
    ensures !s.daemon.AwaitingHello?
  {
    hide Shape, ToClientLedger, ToDaemonLedger, QueueLedger;
  }

  lemma UsefulStepProgress(cfg: Config, s: System)
    requires Inv(cfg, s) && Undisturbed(s) && !Drained(s)
    ensures Progress(s, Next(cfg, s, UsefulStep(s)))
  {
    hide Inv, Progress, Next, Undisturbed, Drained;
    if s.toDaemon != [] {
      DaemonReceivesProgress(cfg, s);
    } else if s.daemon.SendingReady? {
      ReadySentProgress(cfg, s);
    } else if s.toClient != [] {
      NotAwaiting(cfg, s);
      ClientReceivesProgress(cfg, s);
    } else {
      LocalProgress(cfg, s);
    }
  }

  // From every reachable state in which nobody has closed, some continuation without new sends completes
  // the handshake and delivers everything: then the delivery theorems hold with equality.
  lemma {:induction false} EveryRunCanFinish(cfg: Config, steps: seq<Step>)
    requires Undisturbed(RunAll(cfg, steps))
    ensures exists more ::
              var s, t := RunAll(cfg, steps), RunAll(cfg, steps + more);
              && Drained(t)
              && t.queued == s.queued && t.live == s.live && t.daemonSent == s.daemonSent
              && t.clientGot == t.daemonSent
              && t.daemonGot == WireData(t.wire)
    decreases Work(RunAll(cfg, steps))
  {
    hide RunAll, Next, Inv, WireData;
    var s := RunAll(cfg, steps);
    if Drained(s) {
      ClientToDaemonComplete(cfg, steps);
      DaemonToClientComplete(cfg, steps);
      assert steps + [] == steps;
    } else {
      Reachable(cfg, steps);
      UsefulStepProgress(cfg, s);
      var step := UsefulStep(s);
      RunSnoc(cfg, steps, step);
      EveryRunCanFinish(cfg, steps + [step]);
      var more :| var t := RunAll(cfg, steps + [step] + more);
                  && Drained(t)
                  && t.queued == s.queued && t.live == s.live && t.daemonSent == s.daemonSent
                  && t.clientGot == t.daemonSent
                  && t.daemonGot == WireData(t.wire);
      assert steps + [step] + more == steps + ([step] + more);
    }
  }

  lemma RunSnoc(cfg: Config, steps: seq<Step>, step: Step)
    ensures RunAll(cfg, steps + [step]) == Next(cfg, RunAll(cfg, steps), step)
  {
    assert (steps + [step])[..|steps|] == steps;
  }

  // The two groups are not ordered against each other: the channel is open before the awaited
  // flush, so a live send can be on the wire ahead of one queued before it.
  lemma LiveSendCanOvertake(cfg: Config, early: Data, late: Data)
    ensures exists steps ::
              var s := RunAll(cfg, steps);
              s.queued == [early] && s.live == [late] && s.wire == [Sent(false, late), Sent(true, early)]
  {
    hide RunAll, Next;
    var s1 := [ClientSends(early, 0)];
    assert RunAll(cfg, s1) == Next(cfg, Init(cfg), ClientSends(early, 0)) by {
      RunSnoc(cfg, [], ClientSends(early, 0));
      assert RunAll(cfg, []) == Init(cfg) by { RunNone(cfg); }
      assert [] + s1 == s1;
    }
    RunSnoc(cfg, s1, DaemonReceives);
    RunSnoc(cfg, s1 + [DaemonReceives], ClientReceives);
    AfterHandshake(cfg, early);
    OvertakeFrom(cfg, s1 + [DaemonReceives] + [ClientReceives], early, late);
  }

  lemma RunNone(cfg: Config)
    ensures RunAll(cfg, []) == Init(cfg)
  {
  }

  lemma AfterHandshake(cfg: Config, early: Data)
    ensures var s := Next(cfg, Next(cfg, Next(cfg, Init(cfg), ClientSends(early, 0)), DaemonReceives), ClientReceives);
            && s.client.phase == Open && s.client.flush == Due && s.client.pendingSends == [early]
            && s.queued == [early] && s.live == [] && s.wire == []
  {
    hide Lawful, SealFrame, HelloFrame, ReadyFrame, ClassifyHandshake, ClassifyOpen;
    FirstHello(cfg);
    HandshakeFrames(cfg);
  }

  lemma OvertakeFrom(cfg: Config, steps: seq<Step>, early: Data, late: Data)
    requires var s := RunAll(cfg, steps);
             && s.client.phase == Open && s.client.flush == Due && s.client.pendingSends == [early]
             && s.queued == [early] && s.live == [] && s.wire == []
    ensures exists more ::
              var s := RunAll(cfg, more);
              s.queued == [early] && s.live == [late] && s.wire == [Sent(false, late), Sent(true, early)]
  {
    hide Lawful, SealFrame, RunAll;
    var a := steps + [ClientSends(late, 1)];
    RunSnoc(cfg, steps, ClientSends(late, 1));
    var b := a + [ClientStartsFlush];
    RunSnoc(cfg, a, ClientStartsFlush);
    var c := b + [ClientFlushesNext(2)];
    RunSnoc(cfg, b, ClientFlushesNext(2));
    assert RunAll(cfg, c).wire == [Sent(false, late), Sent(true, early)];
  }
}
