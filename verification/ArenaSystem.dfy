// The service of packages/arena-proxy/src/service.ts with any number of requests and
// background comparisons in flight: withMutation as a chain of promises per battle id,
// and the operations between its turns cut at every await.

module ArenaSystem {
  import opened Wrappers
  import opened Arena

  // Where an operation stands: awaiting the tail it found, awaiting the read, about to put
  // what it computed, and past its last await with the lock still held.
  datatype Phase =
    | Waiting
    | Entered
    | HasRead(record: Option<Battle>)
    | Computed(effect: Effect)
    | Leaving
    | Finished

  // failed: the read or the put of the store threw.
  datatype Op = Op(id: string, cmd: Command, previous: Option<nat>, phase: Phase, failed: bool, threw: bool)

  // The promise an operation leaves in the tail map is named by the operation's number.
  // created and inFlight: the records as createBattle put them, and the ids of comparisons being generated.
  datatype System = System(
    store: map<string, Battle>,
    tails: map<string, nat>,
    ops: seq<Op>,
    created: map<string, Battle>,
    inFlight: seq<string>
  )

  function Init(): System
  {
    System(map[], map[], [], map[], [])
  }

  function Lookup<K, V>(m: map<K, V>, k: K): Option<V>
  {
    if k in m then Some(m[k]) else None
  }

  // What one operation does in its turn.
  datatype Move = Enter | Read | ReadFails | Compute | Put | PutFails | Finish

  datatype Step =
    | Create(record: Battle)
    | Request(id: string, cmd: Command)
    | GenerationReturns(k: nat, comparison: Comparison, now: Time)
    | Turn(i: nat, move: Move)

  // A tail promise resolves when the one before it has resolved and its own operation has finished.
  predicate TailResolved(ops: seq<Op>, i: nat)
    requires i < |ops|
    decreases i
  {
    && ops[i].phase == Finished
    && (ops[i].previous.None? || (ops[i].previous.value < i && TailResolved(ops, ops[i].previous.value)))
  }

  predicate PreviousResolved(ops: seq<Op>, i: nat)
    requires i < |ops|
  {
    ops[i].previous.None? || (ops[i].previous.value < i && TailResolved(ops, ops[i].previous.value))
  }

  // withMutation up to its first await.
  function Arrive(s: System, id: string, cmd: Command): System
  {
    var op := Op(id, cmd, Lookup(s.tails, id), Waiting, false, false);
    s.(tails := s.tails[id := |s.ops|], ops := s.ops + [op])
  }

  function SetOp(s: System, i: nat, op: Op): System
    requires i < |s.ops|
  {
    s.(ops := s.ops[i := op])
  }

  function Tokens(created: map<string, Battle>): set<string>
  {
    (set id | id in created :: created[id].a.token) + (set id | id in created :: created[id].b.token)
  }

  // createBattle: randomUUID and randomBytes give an id and tokens not used before.
  predicate IsFresh(s: System, r: Battle)
  {
    && r.id !in s.store
    && (forall i :: 0 <= i < |s.ops| ==> s.ops[i].id != r.id)
    && r.a.token !in Tokens(s.created) && r.b.token !in Tokens(s.created) && r.a.token != r.b.token
    && r == NewBattle(r.id, r.userId, r.prompt, r.createdAt, r.a, r.b)
  }

  function StartsGeneration(op: Op): bool
  {
    op.cmd.StartComparison? && op.cmd.hasEdits && !op.failed && !op.threw
  }

  // The lock is released, and the tail removed if it is still this operation's; an accepted request
  // for a comparison then starts generating in the background.
  function Release(s: System, i: nat): System
    requires i < |s.ops|
  {
    var op := s.ops[i];
    var t := SetOp(s, i, op.(phase := Finished));
    t.(tails := if Lookup(s.tails, op.id) == Some(i) then s.tails - {op.id} else s.tails,
       inFlight := if StartsGeneration(op) then s.inFlight + [op.id] else s.inFlight)
  }

  // The operation after a move that is enabled; releasing the lock is apart.
  function Moved(s: System, i: nat, move: Move): Option<Op>
    requires i < |s.ops|
  {
    var op := s.ops[i];
    if move == Enter && op.phase == Waiting && PreviousResolved(s.ops, i) then Some(op.(phase := Entered))
    else if move == Read && op.phase == Entered then Some(op.(phase := HasRead(Lookup(s.store, op.id))))
    else if move == ReadFails && op.phase == Entered then Some(op.(phase := Leaving, failed := true))
    else if move == Compute && op.phase.HasRead? then
      var e := Apply(op.cmd, op.phase.record);
      Some(op.(phase := if e.put.Some? then Computed(e) else Leaving, threw := e.error.Some?))
    else if move == Put && op.phase.Computed? then Some(op.(phase := Leaving))
    else if move == PutFails && op.phase.Computed? then Some(op.(phase := Leaving, failed := true))
    else None
  }

  function StoreAfter(s: System, i: nat, move: Move): map<string, Battle>
    requires i < |s.ops|
  {
    var op := s.ops[i];
    if move == Put && op.phase.Computed? && op.phase.effect.put.Some? then s.store[op.id := op.phase.effect.put.value]
    else s.store
  }

  function Own(s: System, i: nat, move: Move): System
    requires i < |s.ops|
  {
    if move == Finish then (if s.ops[i].phase == Leaving then Release(s, i) else s)
    else
      var moved := Moved(s, i, move);
      if moved.None? then s else SetOp(s.(store := StoreAfter(s, i, move)), i, moved.value)
  }

  function Next(s: System, step: Step): System
  {
    match step
    case Create(r) =>
      if IsFresh(s, r) then s.(store := s.store[r.id := r], created := s.created[r.id := r]) else s
    case Request(id, cmd) => if External(cmd) then Arrive(s, id, cmd) else s
    case GenerationReturns(k, comparison, now) =>
      if k < |s.inFlight| && Generated(comparison) then
        Arrive(s.(inFlight := s.inFlight[..k] + s.inFlight[k + 1..]), s.inFlight[k], WriteComparison(comparison, now))
      else s
    case Turn(i, move) => if i < |s.ops| then Own(s, i, move) else s
  }

  function Run(s: System, steps: seq<Step>): System
  {
    if steps == [] then s else Next(Run(s, steps[..|steps| - 1]), steps[|steps| - 1])
  }

  // ---- The mutex ----

  // Inside the critical section.
  predicate Inside(op: Op)
  {
    op.phase != Waiting && op.phase != Finished
  }

  // previous is the last operation on the same id that had not finished on arrival; if there was none, all had.
  ghost predicate Chained(ops: seq<Op>)
  {
    forall i :: 0 <= i < |ops| ==>
      match ops[i].previous
      case Some(p) => p < i && ops[p].id == ops[i].id && forall k :: p < k < i ==> ops[k].id != ops[i].id
      case None => forall k :: 0 <= k < i && ops[k].id == ops[i].id ==> ops[k].phase == Finished
  }

  // An operation that has started finds every earlier one on its id finished.
  ghost predicate InOrder(ops: seq<Op>)
  {
    forall k, i :: 0 <= k < i < |ops| && ops[k].id == ops[i].id && ops[i].phase != Waiting ==> ops[k].phase == Finished
  }

  // The tail map names the last operation of each id that has unfinished ones, and no other id.
  ghost predicate TailsExact(s: System)
  {
    && (forall id :: id in s.tails ==>
          && s.tails[id] < |s.ops|
          && s.ops[s.tails[id]].id == id
          && s.ops[s.tails[id]].phase != Finished
          && forall k :: s.tails[id] < k < |s.ops| ==> s.ops[k].id != id)
    && (forall k :: 0 <= k < |s.ops| && s.ops[k].phase != Finished ==> s.ops[k].id in s.tails)
  }

  ghost predicate MutexInv(s: System)
  {
    Chained(s.ops) && InOrder(s.ops) && TailsExact(s)
  }

  // A resolved tail means that every operation on the id up to it has finished.
  lemma {:induction false} ResolvedMeansFinished(ops: seq<Op>, i: nat, k: nat)
    requires Chained(ops) && i < |ops| && TailResolved(ops, i)
    requires k <= i && ops[k].id == ops[i].id
    ensures ops[k].phase == Finished
    decreases i
  {
    if k < i && ops[i].previous.Some? {
      ResolvedMeansFinished(ops, ops[i].previous.value, k);
    }
  }

  lemma EnterInOrder(ops: seq<Op>, i: nat, k: nat)
    requires Chained(ops) && i < |ops| && PreviousResolved(ops, i)
    requires k < i && ops[k].id == ops[i].id
    ensures ops[k].phase == Finished
  {
    if ops[i].previous.Some? {
      ResolvedMeansFinished(ops, ops[i].previous.value, k);
    }
  }

  lemma ArriveChained(s: System, id: string, cmd: Command)
    requires MutexInv(s)
    ensures Chained(Arrive(s, id, cmd).ops)
  {
    var ops := Arrive(s, id, cmd).ops;
    assert forall i :: 0 <= i < |s.ops| ==> ops[i] == s.ops[i];
  }

  lemma ArriveMutex(s: System, id: string, cmd: Command)
    requires MutexInv(s)
    ensures MutexInv(Arrive(s, id, cmd))
  {
    ArriveChained(s, id, cmd);
    hide Chained;
    var ops := Arrive(s, id, cmd).ops;
    assert forall i :: 0 <= i < |s.ops| ==> ops[i] == s.ops[i];
  }

  lemma AdvanceChained(ops: seq<Op>, i: nat, op: Op)
    requires Chained(ops) && i < |ops| && ops[i].phase != Finished
    requires op.id == ops[i].id && op.previous == ops[i].previous
    ensures Chained(ops[i := op])
  {
  }

  lemma AdvanceInOrder(ops: seq<Op>, i: nat, op: Op)
    requires Chained(ops) && InOrder(ops) && i < |ops|
    requires op.id == ops[i].id && op.phase != Waiting && ops[i].phase != Finished
    requires ops[i].phase == Waiting ==> PreviousResolved(ops, i)
    ensures InOrder(ops[i := op])
  {
    if ops[i].phase == Waiting {
      forall k | 0 <= k < i && ops[k].id == op.id
        ensures ops[k].phase == Finished
      {
        EnterInOrder(ops, i, k);
      }
    }
    hide Chained, PreviousResolved;
  }

  // Moving one operation forward, without finishing or newly starting it.
  lemma AdvanceMutex(s: System, i: nat, op: Op)
    requires MutexInv(s) && i < |s.ops|
    requires op.id == s.ops[i].id && op.previous == s.ops[i].previous
    requires op.phase != Finished && op.phase != Waiting
    requires s.ops[i].phase != Finished
    requires s.ops[i].phase == Waiting ==> PreviousResolved(s.ops, i)
    ensures MutexInv(SetOp(s, i, op))
  {
    hide Chained, InOrder, PreviousResolved;
    AdvanceChained(s.ops, i, op);
    AdvanceInOrder(s.ops, i, op);
  }

  // The last operation of an id releases only after all others have.
  lemma LastReleases(s: System, i: nat, k: nat)
    requires MutexInv(s) && i < |s.ops| && s.ops[i].phase == Leaving && Lookup(s.tails, s.ops[i].id) == Some(i)
    requires k < |s.ops| && k != i && s.ops[k].phase != Finished
    ensures s.ops[k].id != s.ops[i].id
  {
  }

  lemma FinishChained(ops: seq<Op>, i: nat)
    requires Chained(ops) && i < |ops|
    ensures Chained(ops[i := ops[i].(phase := Finished)])
  {
  }

  lemma FinishInOrder(ops: seq<Op>, i: nat)
    requires InOrder(ops) && i < |ops| && ops[i].phase == Leaving
    ensures InOrder(ops[i := ops[i].(phase := Finished)])
  {
  }

  lemma ReleaseTails(s: System, i: nat)
    requires MutexInv(s) && i < |s.ops| && s.ops[i].phase == Leaving
    ensures TailsExact(Release(s, i))
  {
    hide Chained, InOrder;
    var t := Release(s, i);
    forall k | 0 <= k < |t.ops| && t.ops[k].phase != Finished
      ensures t.ops[k].id in t.tails
    {
      if Lookup(s.tails, s.ops[i].id) == Some(i) {
        LastReleases(s, i, k);
      }
    }
  }

  lemma ReleaseMutex(s: System, i: nat)
    requires MutexInv(s) && i < |s.ops| && s.ops[i].phase == Leaving
    ensures MutexInv(Release(s, i))
  {
    hide Chained, InOrder, TailsExact;
    FinishChained(s.ops, i);
    FinishInOrder(s.ops, i);
    ReleaseTails(s, i);
  }

  lemma SameOpsMutex(s: System, t: System)
    requires MutexInv(s) && t.ops == s.ops && t.tails == s.tails
    ensures MutexInv(t)
  {
  }

  lemma MovedForward(s: System, i: nat, move: Move)
    requires i < |s.ops| && Moved(s, i, move).Some?
    ensures var op := Moved(s, i, move).value;
            && op.id == s.ops[i].id && op.previous == s.ops[i].previous && op.cmd == s.ops[i].cmd
            && op.phase != Finished && op.phase != Waiting && s.ops[i].phase != Finished
            && (s.ops[i].phase == Waiting ==> PreviousResolved(s.ops, i))
  {
    hide Apply, TailResolved;
  }

  lemma TurnMutex(s: System, i: nat, move: Move)
    requires MutexInv(s) && i < |s.ops|
    ensures MutexInv(Own(s, i, move))
  {
    hide Moved, StoreAfter, Release, MutexInv, PreviousResolved;
    if move == Finish {
      if s.ops[i].phase == Leaving {
        ReleaseMutex(s, i);
      }
    } else if Moved(s, i, move).Some? {
      MovedForward(s, i, move);
      var t := s.(store := StoreAfter(s, i, move));
      SameOpsMutex(s, t);
      AdvanceMutex(t, i, Moved(s, i, move).value);
    }
  }

  lemma NextMutex(s: System, step: Step)
    requires MutexInv(s)
    ensures MutexInv(Next(s, step))
  {
    hide IsFresh, MutexInv, Own, Arrive;
    match step
    case Create(_) => SameOpsMutex(s, Next(s, step));
    case Request(id, cmd) => ArriveMutex(s, id, cmd);
    case GenerationReturns(k, comparison, now) =>
      if k < |s.inFlight| {
        var t := s.(inFlight := s.inFlight[..k] + s.inFlight[k + 1..]);
        SameOpsMutex(s, t);
        ArriveMutex(t, s.inFlight[k], WriteComparison(comparison, now));
      }
    case Turn(i, move) =>
      if i < |s.ops| {
        TurnMutex(s, i, move);
      }
  }

  lemma {:induction false} RunMutex(steps: seq<Step>)
    ensures MutexInv(Run(Init(), steps))
  {
    hide Next;
    if steps != [] {
      RunMutex(steps[..|steps| - 1]);
      NextMutex(Run(Init(), steps[..|steps| - 1]), steps[|steps| - 1]);
    }
  }

  // In every interleaving at most one operation per battle is in the critical section, and whoever is in it has
  // every operation that arrived earlier behind it: they enter in arrival order, also when some throw.
  lemma MutualExclusion(steps: seq<Step>, k: nat, i: nat)
    requires k < i < |Run(Init(), steps).ops|
    requires Run(Init(), steps).ops[k].id == Run(Init(), steps).ops[i].id
    ensures var ops := Run(Init(), steps).ops;
            && !(Inside(ops[k]) && Inside(ops[i]))
            && (Inside(ops[i]) ==> ops[k].phase == Finished)
            && (Inside(ops[k]) ==> ops[i].phase == Waiting)
  {
    hide Run;
    RunMutex(steps);
  }

  // The tail map has an entry for an id exactly while some operation on it is unfinished, so it does not leak.
  lemma TailMapExact(steps: seq<Step>, id: string)
    ensures var s := Run(Init(), steps);
            id in s.tails <==> exists k :: 0 <= k < |s.ops| && s.ops[k].id == id && s.ops[k].phase != Finished
  {
    hide Run;
    RunMutex(steps);
  }
}
