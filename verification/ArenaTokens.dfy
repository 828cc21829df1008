// Blinding and its end: which side tokens still resolve, that no request waits for ever,
// and a run in which an earlier generation overwrites a later "unavailable".

module ArenaTokens {
  import opened Wrappers
  import Strings
  import opened Arena
  import opened ArenaSystem
  import opened ArenaHistory

  // ---- Tokens ----

  // resolveModelToken over the battles the store lists: the first assignment with the token
  // decides, side A before side B.
  function Resolve(battles: seq<Battle>, token: string): Option<string>
  {
    if battles == [] then None
    else
      var battle := battles[0];
      if battle.a.token == token then (if battle.vote.Some? then None else Some(battle.a.modelId))
      else if battle.b.token == token then (if battle.vote.Some? then None else Some(battle.b.modelId))
      else Resolve(battles[1..], token)
  }

  ghost predicate TokensDistinct(m: map<string, Battle>)
  {
    && (forall x :: x in m ==> m[x].a.token != m[x].b.token)
    && (forall x, y :: x in m && y in m && x != y ==>
          m[x].a.token != m[y].a.token && m[x].a.token != m[y].b.token && m[x].b.token != m[y].b.token)
  }

  lemma {:induction false} RunTokens(steps: seq<Step>)
    ensures TokensDistinct(Run(Init(), steps).created)
  {
    hide Next, MutexInv, Ledger, GenerationsInv, BattleInv, Evolves;
    if steps != [] {
      RunTokens(steps[..|steps| - 1]);
      RunLife(steps[..|steps| - 1]);
      NextTokens(Run(Init(), steps[..|steps| - 1]), steps[|steps| - 1]);
    }
  }

  lemma CreateTokens(created: map<string, Battle>, r: Battle)
    requires TokensDistinct(created) && r.id !in created
    requires r.a.token !in Tokens(created) && r.b.token !in Tokens(created) && r.a.token != r.b.token
    ensures TokensDistinct(created[r.id := r])
  {
    assert forall x :: x in created ==> created[x].a.token in Tokens(created) && created[x].b.token in Tokens(created);
  }

  lemma NextTokens(s: System, step: Step)
    requires TokensDistinct(s.created) && s.store.Keys == s.created.Keys
    ensures TokensDistinct(Next(s, step).created)
  {
    hide Moved, NewBattle, TokensDistinct, Tokens;
    if step.Create? && IsFresh(s, step.record) {
      CreateTokens(s.created, step.record);
    }
  }

  // Some listing of the store: its records in any order.
  ghost predicate Lists(battles: seq<Battle>, store: map<string, Battle>)
  {
    && (forall i :: 0 <= i < |battles| ==> battles[i].id in store && store[battles[i].id] == battles[i])
    && (forall id :: id in store ==> store[id] in battles)
  }

  ghost predicate ListingDistinct(battles: seq<Battle>)
  {
    && (forall r :: r in battles ==> r.a.token != r.b.token)
    && (forall r, t :: r in battles && t in battles && r != t ==>
          r.a.token != t.a.token && r.a.token != t.b.token && r.b.token != t.a.token && r.b.token != t.b.token)
  }

  lemma {:induction false} ResolveDistinct(battles: seq<Battle>, r: Battle, side: Side)
    requires ListingDistinct(battles) && r in battles
    ensures Resolve(battles, r.On(side).token) == if r.vote.Some? then None else Some(r.On(side).modelId)
  {
    if battles[0] != r {
      assert r in battles[1..];
      assert battles[0] in battles;
      assert forall t :: t in battles[1..] ==> t in battles;
      ResolveDistinct(battles[1..], r, side);
    } else {
      assert r.a.token != r.b.token;
    }
  }

  lemma ListingIsDistinct(steps: seq<Step>, battles: seq<Battle>)
    requires Lists(battles, Run(Init(), steps).store)
    ensures ListingDistinct(battles)
  {
    hide Run, MutexInv, Ledger, GenerationsInv, BattleInv;
    RunLife(steps);
    RunTokens(steps);
    var s := Run(Init(), steps);
    forall r | r in battles
      ensures r.id in s.created && r.a.token == s.created[r.id].a.token && r.b.token == s.created[r.id].b.token
      ensures s.store[r.id] == r
    {
    }
  }

  // In every reachable state a side token resolves exactly while its battle is undecided, to that side's model.
  lemma TokenResolvesIffUndecided(steps: seq<Step>, battles: seq<Battle>, r: Battle, side: Side)
    requires Lists(battles, Run(Init(), steps).store) && r in battles
    ensures Resolve(battles, r.On(side).token) == if r.vote.Some? then None else Some(r.On(side).modelId)
  {
    hide Run, Resolve, Lists;
    ListingIsDistinct(steps, battles);
    ResolveDistinct(battles, r, side);
  }

  // The models of a battle are revealed only once neither of its tokens resolves any more.
  lemma RevealedMeansRevoked(steps: seq<Step>, battles: seq<Battle>, r: Battle)
    requires Lists(battles, Run(Init(), steps).store) && r in battles && Reveal(r).Some?
    ensures Resolve(battles, r.a.token) == None && Resolve(battles, r.b.token) == None
  {
    hide Run, Resolve, Lists;
    TokenResolvesIffUndecided(steps, battles, r, A);
    TokenResolvesIffUndecided(steps, battles, r, B);
  }

  // ---- No operation waits for ever ----

  function PhaseWork(p: Phase): nat
  {
    match p
    case Waiting => 5
    case Entered => 4
    case HasRead(_) => 3
    case Computed(_) => 2
    case Leaving => 1
    case Finished => 0
  }

  function Work(ops: seq<Op>): nat
  {
    if ops == [] then 0 else Work(ops[..|ops| - 1]) + PhaseWork(ops[|ops| - 1].phase)
  }

  function UsefulMove(p: Phase): Move
  {
    match p
    case Waiting => Enter
    case Entered => Read
    case HasRead(_) => Compute
    case Computed(_) => Put
    case _ => Finish
  }

  predicate AllFinished(ops: seq<Op>)
  {
    forall i :: 0 <= i < |ops| ==> ops[i].phase == Finished
  }

  lemma {:induction false} WorkUpdate(ops: seq<Op>, i: nat, op: Op)
    requires i < |ops|
    ensures Work(ops[i := op]) == Work(ops) - PhaseWork(ops[i].phase) + PhaseWork(op.phase)
  {
    if i == |ops| - 1 {
      assert ops[i := op][..|ops| - 1] == ops[..|ops| - 1];
    } else {
      assert ops[i := op][..|ops| - 1] == ops[..|ops| - 1][i := op];
      WorkUpdate(ops[..|ops| - 1], i, op);
    }
  }

  // The first unfinished operation finds the tail before it resolved.
  lemma {:induction false} FinishedMeansResolved(ops: seq<Op>, i: nat)
    requires Chained(ops) && i < |ops|
    requires forall k :: 0 <= k <= i ==> ops[k].phase == Finished
    ensures TailResolved(ops, i)
    decreases i
  {
    if ops[i].previous.Some? {
      FinishedMeansResolved(ops, ops[i].previous.value);
    }
  }

  lemma FirstUnfinishedMoves(s: System, i: nat)
    requires MutexInv(s) && i < |s.ops| && s.ops[i].phase != Finished
    requires forall k :: 0 <= k < i ==> s.ops[k].phase == Finished
    ensures Work(Own(s, i, UsefulMove(s.ops[i].phase)).ops) < Work(s.ops)
    ensures |Own(s, i, UsefulMove(s.ops[i].phase)).ops| == |s.ops|
  {
    hide Apply, Chained, InOrder, TailsExact, Work;
    var op := s.ops[i];
    if op.phase == Waiting && op.previous.Some? {
      assert op.previous.value < i by { PreviousIsEarlier(s.ops, i); }
      FinishedMeansResolved(s.ops, op.previous.value);
    }
    var t := Own(s, i, UsefulMove(op.phase));
    WorkUpdate(s.ops, i, t.ops[i]);
  }

  lemma PreviousIsEarlier(ops: seq<Op>, i: nat)
    requires Chained(ops) && i < |ops| && ops[i].previous.Some?
    ensures ops[i].previous.value < i
  {
  }

  // From every reachable state some continuation, without new requests, finishes every operation: a thrown error
  // or a failed read or put never leaves the lock held.
  lemma {:induction false} EveryOperationCanFinish(steps: seq<Step>)
    ensures exists more ::
              && AllFinished(Run(Init(), steps + more).ops)
              && |Run(Init(), steps + more).ops| == |Run(Init(), steps).ops|
              && Run(Init(), steps + more).tails == map[]
    decreases Work(Run(Init(), steps).ops)
  {
    hide Run, Next, MutexInv, Work;
    var s := Run(Init(), steps);
    RunMutex(steps);
    if AllFinished(s.ops) {
      NothingLocked(s);
      assert steps + [] == steps;
    } else {
      var i := FirstUnfinished(s.ops);
      FirstUnfinishedMoves(s, i);
      var step := Turn(i, UsefulMove(s.ops[i].phase));
      RunAppend(steps, step);
      assert Next(s, step) == Own(s, i, step.move) by { TurnIsOwn(s, i, step.move); }
      EveryOperationCanFinish(steps + [step]);
      var more :| && AllFinished(Run(Init(), steps + [step] + more).ops)
                  && |Run(Init(), steps + [step] + more).ops| == |s.ops|
                  && Run(Init(), steps + [step] + more).tails == map[];
      assert steps + [step] + more == steps + ([step] + more);
    }
  }

  lemma TurnIsOwn(s: System, i: nat, move: Move)
    requires i < |s.ops|
    ensures Next(s, Turn(i, move)) == Own(s, i, move)
  {
  }

  lemma NothingLocked(s: System)
    requires MutexInv(s) && AllFinished(s.ops)
    ensures s.tails == map[]
  {
    hide MutexInv, AllFinished;
    forall id
      ensures id !in s.tails
    {
      if id in s.tails {
        LockedIsUnfinished(s, id);
      }
    }
  }

  lemma LockedIsUnfinished(s: System, id: string)
    requires MutexInv(s) && id in s.tails
    ensures !AllFinished(s.ops)
  {
  }

  lemma FirstUnfinished(ops: seq<Op>) returns (i: nat)
    requires !AllFinished(ops)
    ensures i < |ops| && ops[i].phase != Finished && forall k :: 0 <= k < i ==> ops[k].phase == Finished
  {
    i := 0;
    while ops[i].phase == Finished
      invariant i < |ops| && forall k :: 0 <= k < i ==> ops[k].phase == Finished
      decreases |ops| - i
    {
      i := i + 1;
    }
  }

  // ---- A generation overtaken by a later request ----

  // The five moves of an operation that has the lock to itself.
  function Served(s: System, i: nat): System
    requires i < |s.ops|
  {
    var s1 := Own(s, i, Enter);
    var s2 := Own(s1, i, Read);
    var s3 := Own(s2, i, Compute);
    var s4 := Own(s3, i, Put);
    Own(s4, i, Finish)
  }

  function Turns(i: nat): seq<Step>
  {
    [Turn(i, Enter)] + [Turn(i, Read)] + [Turn(i, Compute)] + [Turn(i, Put)] + [Turn(i, Finish)]
  }

  lemma RunTurns(steps: seq<Step>, i: nat)
    requires i < |Run(Init(), steps).ops|
    ensures Run(Init(), steps + Turns(i)) == Served(Run(Init(), steps), i)
  {
    hide Run, Next, Own;
    var s := Run(Init(), steps);
    var t0 := steps;
    var t1 := t0 + [Turn(i, Enter)];
    RunTurn(t0, i, Enter);
    var t2 := t1 + [Turn(i, Read)];
    RunTurn(t1, i, Read);
    var t3 := t2 + [Turn(i, Compute)];
    RunTurn(t2, i, Compute);
    var t4 := t3 + [Turn(i, Put)];
    RunTurn(t3, i, Put);
    RunTurn(t4, i, Finish);
    assert steps + Turns(i) == t4 + [Turn(i, Finish)];
  }

  lemma RunTurn(steps: seq<Step>, i: nat, move: Move)
    requires i < |Run(Init(), steps).ops|
    ensures var s := Run(Init(), steps);
            Run(Init(), steps + [Turn(i, move)]) == Own(s, i, move) && |Own(s, i, move).ops| == |s.ops|
  {
    hide Run, Moved;
    RunAppend(steps, Turn(i, move));
  }

  // A request that meets no other is applied to the stored record.
  lemma ServedAlone(s: System, id: string, cmd: Command)
    requires id !in s.tails && id in s.store
    ensures var t := Served(Arrive(s, id, cmd), |s.ops|);
            var e := Apply(cmd, Some(s.store[id]));
            && t.tails == s.tails
            && t.store == (if e.put.Some? then s.store[id := e.put.value] else s.store)
            && t.inFlight == (if cmd.StartComparison? && cmd.hasEdits && e.put.Some? then s.inFlight + [id] else s.inFlight)
  {
    hide Apply, TailResolved;
    var i := |s.ops|;
    var s0 := Arrive(s, id, cmd);
    assert s0.ops[i] == Op(id, cmd, None, Waiting, false, false);
    var s2 := Own(Own(s0, i, Enter), i, Read);
    assert s2 == SetOp(s0, i, Op(id, cmd, None, HasRead(Some(s.store[id])), false, false));
    ComputedAlone(s2, i);
    assert s.tails[id := |s.ops|] - {id} == s.tails;
    StartPutsOrThrows(cmd, s.store[id]);
  }

  // A request whose read throws changes nothing but that it is over, and has failed.
  lemma FailedRead(s: System, id: string, cmd: Command)
    requires id !in s.tails
    ensures var i := |s.ops|;
            var t := Own(Own(Own(Arrive(s, id, cmd), i, Enter), i, ReadFails), i, Finish);
            t == s.(ops := s.ops + [Op(id, cmd, None, Finished, true, false)])
  {
    hide TailResolved, Release;
    var i := |s.ops|;
    var s0 := Arrive(s, id, cmd);
    assert s0.ops[i] == Op(id, cmd, None, Waiting, false, false);
    FailedEnds(s, s0, Own(Own(s0, i, Enter), i, ReadFails), id, cmd);
  }

  function PutFailing(s: System, i: nat): System
    requires i < |s.ops|
  {
    var s1 := Own(s, i, Enter);
    var s2 := Own(s1, i, Read);
    var s3 := Own(s2, i, Compute);
    var s4 := Own(s3, i, PutFails);
    Own(s4, i, Finish)
  }

  // And so does one whose put throws.
  lemma FailedPut(s: System, id: string, cmd: Command)
    requires id !in s.tails && id in s.store && Apply(cmd, Some(s.store[id])).put.Some?
    ensures PutFailing(Arrive(s, id, cmd), |s.ops|) == s.(ops := s.ops + [Op(id, cmd, None, Finished, true, false)])
  {
    hide Apply, TailResolved, Release;
    var i := |s.ops|;
    var s0 := Arrive(s, id, cmd);
    assert s0.ops[i] == Op(id, cmd, None, Waiting, false, false);
    var s2 := Own(Own(s0, i, Enter), i, Read);
    assert s2 == SetOp(s0, i, Op(id, cmd, None, HasRead(Some(s.store[id])), false, false));
    FailedEnds(s, s0, Own(Own(s2, i, Compute), i, PutFails), id, cmd);
  }

  lemma FailedEnds(s: System, s0: System, t: System, id: string, cmd: Command)
    requires id !in s.tails && s0 == Arrive(s, id, cmd)
    requires t == SetOp(s0, |s.ops|, Op(id, cmd, None, Leaving, true, false))
    ensures Own(t, |s.ops|, Finish) == s.(ops := s.ops + [Op(id, cmd, None, Finished, true, false)])
  {
    assert s.tails[id := |s.ops|] - {id} == s.tails;
  }

  lemma ComputedAlone(s: System, i: nat)
    requires i < |s.ops| && s.ops[i].phase.HasRead? && !s.ops[i].failed
    ensures var op := s.ops[i];
            var e := Apply(op.cmd, op.phase.record);
            var t := Own(Own(s, i, Compute), i, Put);
            && t.store == (if e.put.Some? then s.store[op.id := e.put.value] else s.store)
            && t == s.(store := t.store, ops := s.ops[i := op.(phase := Leaving, threw := e.error.Some?)])
  {
    hide Apply, PreviousResolved;
  }

  lemma StartPutsOrThrows(cmd: Command, r: Battle)
    ensures cmd.StartComparison? ==> Apply(cmd, Some(r)).put.Some? || Apply(cmd, Some(r)).error.Some?
  {
  }

  // One more request, served alone.
  lemma RequestAlone(steps: seq<Step>, id: string, cmd: Command) returns (more: seq<Step>)
    requires var s := Run(Init(), steps); id !in s.tails && id in s.store && External(cmd)
    ensures var s, t := Run(Init(), steps), Run(Init(), steps + more);
            var e := Apply(cmd, Some(s.store[id]));
            && t.tails == s.tails
            && t.store == (if e.put.Some? then s.store[id := e.put.value] else s.store)
            && t.inFlight == (if cmd.StartComparison? && cmd.hasEdits && e.put.Some? then s.inFlight + [id] else s.inFlight)
  {
    hide Run, Apply, Served, Turns;
    var s := Run(Init(), steps);
    ServedAlone(s, id, cmd);
    RunAppend(steps, Request(id, cmd));
    RunTurns(steps + [Request(id, cmd)], |s.ops|);
    more := [Request(id, cmd)] + Turns(|s.ops|);
    assert steps + more == steps + [Request(id, cmd)] + Turns(|s.ops|);
  }

  lemma ReturnAlone(steps: seq<Step>, comparison: Comparison, now: Time) returns (more: seq<Step>)
    requires var s := Run(Init(), steps);
             |s.inFlight| > 0 && s.inFlight[0] !in s.tails && s.inFlight[0] in s.store && Generated(comparison)
    ensures var s, t := Run(Init(), steps), Run(Init(), steps + more);
            var id := s.inFlight[0];
            var e := Apply(WriteComparison(comparison, now), Some(s.store[id]));
            t.store == (if e.put.Some? then s.store[id := e.put.value] else s.store)
  {
    hide Run, Apply, Served, Turns;
    var s := Run(Init(), steps);
    var step := GenerationReturns(0, comparison, now);
    var r := s.(inFlight := s.inFlight[..0] + s.inFlight[1..]);
    ServedAlone(r, s.inFlight[0], WriteComparison(comparison, now));
    RunAppend(steps, step);
    RunTurns(steps + [step], |s.ops|);
    more := [step] + Turns(|s.ops|);
    assert steps + more == steps + [step] + Turns(|s.ops|);
  }

  const ALICE: Battle :=
    NewBattle("battle", "user", "prompt", "t0", Assignment("arena_a", "glm", "a", None), Assignment("arena_b", "qwen", "b", None))

  lemma CreateAlice()
    ensures var s := Run(Init(), [Create(ALICE)]);
            s.store == map["battle" := ALICE] && s.tails == map[] && s.inFlight == []
  {
    hide Strings.Trim;
    RunAppend([], Create(ALICE));
    assert [] + [Create(ALICE)] == [Create(ALICE)];
    assert Run(Init(), []) == Init();
    var r := ALICE;
    assert r.id == "battle" && r.a.token == "arena_a" && r.b.token == "arena_b";
    assert r == NewBattle(r.id, r.userId, r.prompt, r.createdAt, r.a, r.b) by {
      TrimIsStable();
    }
  }

  lemma TrimIsStable()
    ensures Strings.Trim(Strings.Trim("prompt")) == Strings.Trim("prompt") && Strings.Trim(Strings.Trim("user")) == Strings.Trim("user")
  {
    Strings.TrimIdempotent("prompt");
    Strings.TrimIdempotent("user");
  }

  // The record of ALICE after each request of the run below.
  function Moment(n: nat): Battle
    requires n <= 4
  {
    var one := ALICE.(a := ALICE.a.(completedAt := Some("t1")), updatedAt := "t1");
    var both := one.(b := one.b.(completedAt := Some("t2")), updatedAt := "t2");
    if n == 0 then ALICE
    else if n == 1 then one
    else if n == 2 then both
    else if n == 3 then both.(comparison := Generating, updatedAt := "t3")
    else both.(comparison := Unavailable(NO_EDITS), updatedAt := "t4")
  }

  function Asked(n: nat): Command
    requires n < 4
  {
    if n == 0 then MarkComplete(A, "t1", "t1")
    else if n == 1 then MarkComplete(B, "t2", "t2")
    else StartComparison(ALICE.prompt, 0.0, n == 2, if n == 2 then "t3" else "t4")
  }

  lemma MomentStep(n: nat)
    requires n < 4
    ensures Apply(Asked(n), Some(Moment(n))).put == Some(Moment(n + 1)) && External(Asked(n))
  {
    hide Strings.Trim;
    TrimIsStable();
  }

  lemma {:induction false} MomentReached(n: nat) returns (steps: seq<Step>)
    requires n <= 4
    ensures var s := Run(Init(), steps);
            s.store == map["battle" := Moment(n)] && s.tails == map[] &&
            s.inFlight == if n < 3 then [] else ["battle"]
  {
    hide Run, Apply, ALICE, Moment, Asked;
    if n == 0 {
      steps := [Create(ALICE)];
      CreateAlice();
      assert Moment(0) == ALICE by { MomentZero(); }
    } else {
      steps := MomentReached(n - 1);
      var s := Run(Init(), steps);
      MomentStep(n - 1);
      AskedStarts(n - 1);
      var more := RequestAlone(steps, "battle", Asked(n - 1));
      assert s.store["battle" := Moment(n)] == map["battle" := Moment(n)];
      steps := steps + more;
    }
  }

  lemma MomentZero()
    ensures Moment(0) == ALICE
  {
  }

  lemma LastMoment()
    ensures Moment(4).comparison == Unavailable(NO_EDITS) && Moment(4).vote == None
  {
    hide Strings.Trim;
  }

  lemma AskedStarts(n: nat)
    requires n < 4
    ensures Asked(n).StartComparison? && Asked(n).hasEdits <==> n == 2
  {
  }

  // A comparison skipped for want of edits is not the last word: a generation started before it, still in
  // flight, overwrites it when it returns.
  lemma StaleGenerationOverwrites(summary: string)
    ensures exists steps, more ::
              var s, t := Run(Init(), steps).store, Run(Init(), steps + more).store;
              && "battle" in s && s["battle"].comparison == Unavailable(NO_EDITS)
              && "battle" in t && t["battle"].comparison == Completed(summary)
  {
    hide Run, Asked, ALICE, Next, Moment;
    assert Moment(4).comparison == Unavailable(NO_EDITS) && Moment(4).vote == None by { LastMoment(); }
    var steps := MomentReached(4);
    var more := ReturnAlone(steps, Completed(summary), "t5");
    var s, t := Run(Init(), steps).store, Run(Init(), steps + more).store;
    assert "battle" in s && s["battle"].comparison == Unavailable(NO_EDITS);
    assert "battle" in t && t["battle"].comparison == Completed(summary);
  }
}
