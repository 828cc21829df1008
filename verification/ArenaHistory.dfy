// What the mutex buys: the stored record is the one a sequential service would have, and
// the life of a battle keeps its invariant in every interleaving.

module ArenaHistory {
  import opened Wrappers
  import opened Arena
  import opened ArenaSystem

  // ---- Serial equivalence ----

  predicate Committed(op: Op)
  {
    (op.phase == Leaving || op.phase == Finished) && !op.failed
  }

  function After(cmd: Command, record: Option<Battle>): Option<Battle>
  {
    var put := Apply(cmd, record).put;
    if put.Some? then put else record
  }

  // The operations on id that have committed, run one at a time in arrival order.
  function Serial(ops: seq<Op>, base: Option<Battle>, id: string): Option<Battle>
  {
    if ops == [] then base
    else
      var before := Serial(ops[..|ops| - 1], base, id);
      var op := ops[|ops| - 1];
      if op.id == id && Committed(op) then After(op.cmd, before) else before
  }

  // What an operation holds between its awaits is still what the store says.
  predicate Current(store: map<string, Battle>, op: Op)
  {
    && (op.phase.HasRead? ==> op.phase.record == Lookup(store, op.id))
    && (op.phase.Computed? ==> op.phase.effect == Apply(op.cmd, Lookup(store, op.id)) && op.phase.effect.put.Some?)
    && ((op.phase == Waiting || Inside(op)) && op.phase != Leaving ==> !op.failed && !op.threw)
  }

  ghost predicate Ledger(s: System)
  {
    && (forall id: string :: Lookup(s.store, id) == Serial(s.ops, Lookup(s.created, id), id))
    && (forall i :: 0 <= i < |s.ops| ==> Current(s.store, s.ops[i]))
  }

  // Operations on other ids, and operations not committed, add nothing.
  lemma {:induction false} SerialSkips(ops: seq<Op>, base: Option<Battle>, id: string, n: nat)
    requires n <= |ops|
    requires forall k :: n <= k < |ops| ==> ops[k].id != id || !Committed(ops[k])
    ensures Serial(ops, base, id) == Serial(ops[..n], base, id)
  {
    hide After;
    if n < |ops| {
      SerialSkips(ops[..|ops| - 1], base, id, n);
      assert ops[..|ops| - 1][..n] == ops[..n];
    } else {
      assert ops[..n] == ops;
    }
  }

  lemma {:induction false} SerialSame(ops: seq<Op>, more: seq<Op>, base: Option<Battle>, id: string)
    requires |ops| == |more|
    requires forall k :: 0 <= k < |ops| && (ops[k].id == id || more[k].id == id) ==>
               more[k].id == ops[k].id && more[k].cmd == ops[k].cmd && (Committed(more[k]) <==> Committed(ops[k]))
    ensures Serial(more, base, id) == Serial(ops, base, id)
  {
    hide After, Committed;
    if ops != [] {
      SerialSame(ops[..|ops| - 1], more[..|ops| - 1], base, id);
    }
  }

  // Behind the operation that holds the lock everyone waits.
  lemma OthersWait(s: System, i: nat)
    requires MutexInv(s) && i < |s.ops| && Inside(s.ops[i])
    ensures forall k :: i < k < |s.ops| && s.ops[k].id == s.ops[i].id ==> s.ops[k].phase == Waiting
  {
    hide Chained, TailsExact;
  }

  // The commit of the operation that holds the lock is the next step of the serial run.
  lemma SerialCommit(s: System, i: nat, op: Op, base: Option<Battle>)
    requires MutexInv(s) && i < |s.ops| && Inside(s.ops[i]) && !Committed(s.ops[i])
    requires op.id == s.ops[i].id && op.cmd == s.ops[i].cmd && Committed(op)
    ensures Serial(s.ops[i := op], base, op.id) == After(op.cmd, Serial(s.ops, base, op.id))
  {
    hide After, MutexInv, Inside;
    OthersWait(s, i);
    var ops := s.ops[i := op];
    SerialSkips(ops, base, op.id, i + 1);
    SerialSkips(s.ops, base, op.id, i);
    assert ops[..i + 1][..i] == s.ops[..i];
  }

  lemma SerialStutter(s: System, i: nat, op: Op, base: Option<Battle>, id: string)
    requires i < |s.ops| && op.id == s.ops[i].id && op.cmd == s.ops[i].cmd
    requires op.id != id || (Committed(op) <==> Committed(s.ops[i]))
    ensures Serial(s.ops[i := op], base, id) == Serial(s.ops, base, id)
  {
    hide After, Committed;
    SerialSame(s.ops, s.ops[i := op], base, id);
  }

  lemma ArriveLedger(s: System, id: string, cmd: Command)
    requires Ledger(s)
    ensures Ledger(Arrive(s, id, cmd))
  {
    hide After, Apply;
    var t := Arrive(s, id, cmd);
    forall x: string
      ensures Serial(t.ops, Lookup(t.created, x), x) == Serial(s.ops, Lookup(s.created, x), x)
    {
      SerialSkips(t.ops, Lookup(s.created, x), x, |s.ops|);
      assert t.ops[..|s.ops|] == s.ops;
    }
  }

  lemma CreateLedger(s: System, r: Battle)
    requires Ledger(s)
    ensures Ledger(Next(s, Create(r)))
  {
    hide After, Apply, Serial;
    if IsFresh(s, r) {
      var t := Next(s, Create(r));
      forall x: string
        ensures Lookup(t.store, x) == Serial(t.ops, Lookup(t.created, x), x)
      {
        if x == r.id {
          NoOperations(s.ops, Some(r), x);
          assert Lookup(t.created, x) == Some(r);
        } else {
          assert Lookup(t.created, x) == Lookup(s.created, x);
          assert Lookup(t.store, x) == Lookup(s.store, x);
        }
      }
    }
  }

  lemma NoOperations(ops: seq<Op>, base: Option<Battle>, id: string)
    requires forall i :: 0 <= i < |ops| ==> ops[i].id != id
    ensures Serial(ops, base, id) == base
  {
    SerialSkips(ops, base, id, 0);
  }

  lemma ReleaseLedger(s: System, i: nat)
    requires Ledger(s) && i < |s.ops| && s.ops[i].phase == Leaving
    ensures Ledger(Release(s, i))
  {
    hide After, Apply, Serial;
    forall x: string
      ensures Serial(Release(s, i).ops, Lookup(s.created, x), x) == Serial(s.ops, Lookup(s.created, x), x)
    {
      SerialStutter(s, i, s.ops[i].(phase := Finished), Lookup(s.created, x), x);
    }
  }

  // The move of the lock holder matches the serial run; everyone else's reading stays current.
  lemma MoveLedger(s: System, i: nat, move: Move)
    requires MutexInv(s) && Ledger(s) && i < |s.ops| && move != Finish && Moved(s, i, move).Some?
    ensures Ledger(Own(s, i, move))
  {
    var op := Moved(s, i, move).value;
    var t := Own(s, i, move);
    MovedForward(s, i, move);
    forall x: string
      ensures Lookup(t.store, x) == Serial(t.ops, Lookup(t.created, x), x)
    {
      MoveSerial(s, i, move, x);
    }
    forall k | 0 <= k < |t.ops|
      ensures Current(t.store, t.ops[k])
    {
      MoveReadings(s, i, move, k);
    }
  }

  lemma MoveSerial(s: System, i: nat, move: Move, id: string)
    requires MutexInv(s) && Ledger(s) && i < |s.ops| && move != Finish && Moved(s, i, move).Some?
    ensures var t := Own(s, i, move); Lookup(t.store, id) == Serial(t.ops, Lookup(t.created, id), id)
  {
    hide Apply, Serial, PreviousResolved, Chained, InOrder, TailsExact;
    var op := Moved(s, i, move).value;
    var base := Lookup(s.created, id);
    MovedForward(s, i, move);
    if op.id == id && Committed(op) {
      SerialCommit(s, i, op, base);
    } else {
      SerialStutter(s, i, op, base, id);
    }
  }

  lemma MoveReadings(s: System, i: nat, move: Move, k: nat)
    requires MutexInv(s) && Ledger(s) && i < |s.ops| && move != Finish && Moved(s, i, move).Some? && k < |s.ops|
    ensures Current(Own(s, i, move).store, Own(s, i, move).ops[k])
  {
    hide Serial, PreviousResolved, Chained, TailsExact, Apply;
    MovedForward(s, i, move);
    var t := Own(s, i, move);
    assert Current(s.store, s.ops[k]);
    if k == i {
      OwnReading(s, i, move);
    } else if s.ops[k].id != s.ops[i].id {
      assert Lookup(t.store, s.ops[k].id) == Lookup(s.store, s.ops[k].id);
    } else if Inside(s.ops[k]) {
      assert s.ops[i].phase == Waiting;
      assert t.store == s.store;
    }
  }

  lemma OwnReading(s: System, i: nat, move: Move)
    requires i < |s.ops| && Current(s.store, s.ops[i]) && move != Finish && Moved(s, i, move).Some?
    ensures Current(StoreAfter(s, i, move), Moved(s, i, move).value)
  {
    hide Apply, PreviousResolved;
  }

  lemma NextLedger(s: System, step: Step)
    requires MutexInv(s) && Ledger(s)
    ensures Ledger(Next(s, step))
  {
    hide IsFresh, MutexInv, Moved, Arrive, Serial, Apply;
    match step
    case Create(r) => CreateLedger(s, r);
    case Request(id, cmd) => ArriveLedger(s, id, cmd);
    case GenerationReturns(k, comparison, now) =>
      if k < |s.inFlight| {
        ArriveLedger(s.(inFlight := s.inFlight[..k] + s.inFlight[k + 1..]), s.inFlight[k], WriteComparison(comparison, now));
      }
    case Turn(i, move) =>
      if i < |s.ops| {
        if move == Finish {
          if s.ops[i].phase == Leaving {
            ReleaseLedger(s, i);
          }
        } else if Moved(s, i, move).Some? {
          MoveLedger(s, i, move);
        }
      }
  }

  // ---- The life of the battles ----

  predicate HasComparable(s: System, id: string)
  {
    id in s.store && Comparable(s.store[id])
  }

  ghost predicate RecordsInv(s: System)
  {
    && s.store.Keys == s.created.Keys
    && forall id :: id in s.store ==>
         s.store[id].id == id && BattleInv(s.store[id]) && Evolves(s.created[id], s.store[id])
  }

  // A background generation, from its start to its write, concerns a comparable battle.
  ghost predicate GenerationsInv(s: System)
  {
    && (forall k :: 0 <= k < |s.inFlight| ==> HasComparable(s, s.inFlight[k]))
    && (forall i :: 0 <= i < |s.ops| ==>
          match s.ops[i].cmd
          case WriteComparison(comparison, _) => Generated(comparison) && HasComparable(s, s.ops[i].id)
          case CastVote(vote, _) => vote != Stopped
          case StartComparison(_, _, _, _) => s.ops[i].phase == Leaving && StartsGeneration(s.ops[i]) ==> HasComparable(s, s.ops[i].id)
          case _ => true)
  }

  ghost predicate LifeInv(s: System)
  {
    MutexInv(s) && Ledger(s) && RecordsInv(s) && GenerationsInv(s)
  }

  // Nothing in the store went back on itself between two states.
  ghost predicate StoreEvolves(s: System, t: System)
  {
    forall id :: id in s.store ==> id in t.store && Evolves(s.store[id], t.store[id])
  }

  lemma ArriveLife(s: System, id: string, cmd: Command)
    requires RecordsInv(s) && GenerationsInv(s)
    requires External(cmd) || (cmd.WriteComparison? && Generated(cmd.comparison) && HasComparable(s, id))
    ensures RecordsInv(Arrive(s, id, cmd)) && GenerationsInv(Arrive(s, id, cmd))
  {
    hide BattleInv, Evolves, Comparable;
    var t := Arrive(s, id, cmd);
    assert forall k :: 0 <= k < |t.ops| ==> k == |s.ops| || t.ops[k] == s.ops[k];
  }

  lemma CreateLife(s: System, r: Battle)
    requires RecordsInv(s) && GenerationsInv(s)
    ensures var t := Next(s, Create(r)); RecordsInv(t) && GenerationsInv(t) && StoreEvolves(s, t)
  {
    hide BattleInv, Evolves, Comparable, IsFresh, NewBattle;
    var t := Next(s, Create(r));
    forall id | id in t.store
      ensures Evolves(t.store[id], t.store[id])
    {
      EvolvesReflexive(t.store[id]);
    }
    if IsFresh(s, r) {
      FreshIsNew(s, r);
      assert forall id :: id in s.store ==> id != r.id && t.store[id] == s.store[id];
    }
  }

  lemma FreshIsNew(s: System, r: Battle)
    requires IsFresh(s, r)
    ensures r.id !in s.store && BattleInv(r)
  {
    NewBattleInv(r.id, r.userId, r.prompt, r.createdAt, r.a, r.b);
  }

  lemma ReleaseLife(s: System, i: nat)
    requires RecordsInv(s) && GenerationsInv(s) && i < |s.ops| && s.ops[i].phase == Leaving
    ensures RecordsInv(Release(s, i)) && GenerationsInv(Release(s, i))
  {
    hide BattleInv, Evolves, Comparable;
    var t := Release(s, i);
    assert forall k :: 0 <= k < |t.inFlight| ==> (k < |s.inFlight| && t.inFlight[k] == s.inFlight[k]) || t.inFlight[k] == s.ops[i].id;
  }

  // What an operation has computed it computed from the record the store still has.
  lemma ComputedFromStore(s: System, i: nat)
    requires LifeInv(s) && i < |s.ops| && s.ops[i].phase.Computed?
    ensures var op := s.ops[i];
            && op.id in s.store && BattleInv(s.store[op.id]) && s.store[op.id].id == op.id
            && op.phase.effect == Apply(op.cmd, Some(s.store[op.id])) && op.phase.effect.put.Some?
            && (op.cmd.CastVote? ==> op.cmd.vote != Stopped)
            && (op.cmd.WriteComparison? ==> Comparable(s.store[op.id]) && Generated(op.cmd.comparison))
  {
    hide BattleInv, Comparable, Apply, Serial, MutexInv, Generated;
    assert Current(s.store, s.ops[i]);
  }

  // A put replaces the record by one that continues it.
  lemma PutEvolves(s: System, i: nat)
    requires LifeInv(s) && i < |s.ops| && s.ops[i].phase.Computed?
    ensures var t := s.store[s.ops[i].id := s.ops[i].phase.effect.put.value];
            var id := s.ops[i].id;
            id in s.store && t[id].id == id && BattleInv(t[id]) && Evolves(s.store[id], t[id])
    ensures s.ops[i].cmd.StartComparison? ==> Comparable(s.ops[i].phase.effect.put.value)
  {
    var op := s.ops[i];
    ComputedFromStore(s, i);
    hide BattleInv, Evolves, Comparable, Apply, LifeInv, Generated;
    ApplyEvolves(op.cmd, s.store[op.id]);
    if op.cmd.StartComparison? {
      AcceptedIsComparable(op.cmd, s.store[op.id]);
    }
    EvolvesKeepsId(s.store[op.id], op.phase.effect.put.value);
  }

  lemma EvolvesKeepsId(r: Battle, t: Battle)
    requires Evolves(r, t)
    ensures t.id == r.id && (Comparable(r) ==> Comparable(t))
  {
  }

  lemma EvolvesReflexive(r: Battle)
    ensures Evolves(r, r)
  {
  }

  lemma MoveLife(s: System, i: nat, move: Move)
    requires LifeInv(s) && i < |s.ops| && move != Finish && Moved(s, i, move).Some?
    ensures var t := Own(s, i, move); RecordsInv(t) && GenerationsInv(t) && StoreEvolves(s, t)
  {
    hide BattleInv, Evolves, Comparable, Apply, Serial, MutexInv, PreviousResolved;
    var t := Own(s, i, move);
    var op := Moved(s, i, move).value;
    MovedForward(s, i, move);
    forall id | id in s.store
      ensures Evolves(s.store[id], s.store[id])
    {
      EvolvesReflexive(s.store[id]);
    }
    if move == Put {
      PutEvolves(s, i);
      EvolvesTransitive(s.created[op.id], s.store[op.id], t.store[op.id]);
      forall id | HasComparable(s, id)
        ensures HasComparable(t, id)
      {
        if id == op.id {
          EvolvesKeepsId(s.store[id], t.store[id]);
        }
      }
    } else {
      OnlyPutStarts(s, i, move);
    }
  }

  // An operation that starts a generation has gone through its put.
  lemma OnlyPutStarts(s: System, i: nat, move: Move)
    requires i < |s.ops| && move != Finish && move != Put && Moved(s, i, move).Some?
    ensures StoreAfter(s, i, move) == s.store
    ensures var op := Moved(s, i, move).value; op.phase == Leaving && op.cmd.StartComparison? ==> !StartsGeneration(op)
  {
    hide PreviousResolved;
  }

  lemma NextLife(s: System, step: Step)
    requires LifeInv(s)
    ensures LifeInv(Next(s, step)) && StoreEvolves(s, Next(s, step))
  {
    NextMutex(s, step);
    NextLedger(s, step);
    NextRecords(s, step);
  }

  lemma NextRecords(s: System, step: Step)
    requires LifeInv(s)
    ensures var t := Next(s, step); RecordsInv(t) && GenerationsInv(t) && StoreEvolves(s, t)
  {
    hide IsFresh, MutexInv, Ledger, Moved, BattleInv, Evolves, Comparable;
    forall id | id in s.store
      ensures Evolves(s.store[id], s.store[id])
    {
      EvolvesReflexive(s.store[id]);
    }
    match step
    case Create(r) => CreateLife(s, r);
    case Request(id, cmd) =>
      if External(cmd) {
        ArriveLife(s, id, cmd);
      }
    case GenerationReturns(k, comparison, now) =>
      if k < |s.inFlight| && Generated(comparison) {
        ArriveLife(s.(inFlight := s.inFlight[..k] + s.inFlight[k + 1..]), s.inFlight[k], WriteComparison(comparison, now));
      }
    case Turn(i, move) =>
      if i < |s.ops| {
        if move == Finish {
          if s.ops[i].phase == Leaving {
            ReleaseLife(s, i);
          }
        } else if Moved(s, i, move).Some? {
          MoveLife(s, i, move);
        }
      }
  }

  lemma {:induction false} RunLife(steps: seq<Step>)
    ensures LifeInv(Run(Init(), steps))
  {
    hide Next, LifeInv;
    if steps == [] {
      InitLife();
    } else {
      RunLife(steps[..|steps| - 1]);
      NextLife(Run(Init(), steps[..|steps| - 1]), steps[|steps| - 1]);
    }
  }

  lemma InitLife()
    ensures LifeInv(Init())
  {
  }

  lemma RunAppend(steps: seq<Step>, step: Step)
    ensures Run(Init(), steps + [step]) == Next(Run(Init(), steps), step)
  {
    assert (steps + [step])[..|steps|] == steps;
  }

  // ---- What every interleaving promises ----

  // The stored record of a battle is what its operations give when run one at a time in arrival order.
  lemma StoreIsSerial(steps: seq<Step>, id: string)
    ensures var s := Run(Init(), steps);
            Lookup(s.store, id) == Serial(s.ops, Lookup(s.created, id), id)
  {
    hide Run, MutexInv, RecordsInv, GenerationsInv, Serial;
    RunLife(steps);
  }

  // Every stored record is well formed: a winner exactly after a vote for A, B or a tie, and on a completed
  // side; a comparison under way or done only when both sides completed and the decision was not early.
  lemma RecordsWellFormed(steps: seq<Step>, id: string)
    requires id in Run(Init(), steps).store
    ensures BattleInv(Run(Init(), steps).store[id])
  {
    hide Run, MutexInv, Ledger, GenerationsInv, BattleInv;
    RunLife(steps);
  }

  // From any state of a run to any later one: votes, decisions and completion times are written once, and the
  // comparison of a stopped or early-decided battle stays unavailable whatever generation was in flight.
  lemma {:induction false} RecordsEvolve(steps: seq<Step>, more: seq<Step>)
    ensures StoreEvolves(Run(Init(), steps), Run(Init(), steps + more))
  {
    hide Next, Run, Evolves, LifeInv;
    var s := Run(Init(), steps);
    if more == [] {
      assert steps + more == steps;
      forall id | id in s.store
        ensures Evolves(s.store[id], s.store[id])
      {
        EvolvesReflexive(s.store[id]);
      }
    } else {
      var before := more[..|more| - 1];
      var step := more[|more| - 1];
      RecordsEvolve(steps, before);
      assert steps + more == steps + before + [step];
      RunAppend(steps + before, step);
      RunLife(steps + before);
      var m, t := Run(Init(), steps + before), Run(Init(), steps + more);
      NextLife(m, step);
      forall id | id in s.store
        ensures id in t.store && Evolves(s.store[id], t.store[id])
      {
        EvolvesTransitive(s.store[id], m.store[id], t.store[id]);
      }
    }
  }

  lemma UnavailableForever(steps: seq<Step>, more: seq<Step>, id: string)
    requires id in Run(Init(), steps).store && Final(Run(Init(), steps).store[id])
    ensures var t := Run(Init(), steps + more);
            id in t.store && Final(t.store[id]) && t.store[id].comparison.Unavailable?
  {
    hide Run, Next, MutexInv, Ledger, GenerationsInv;
    RecordsEvolve(steps, more);
    RecordsWellFormed(steps, id);
  }
}
