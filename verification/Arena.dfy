// packages/arena-proxy/src/service.ts and types.ts: one battle record and the
// operations that read it, change it and put it back.

module Arena {
  import opened Wrappers
  import opened Strings

  // An ISO timestamp as taken from the clock.
  type Time = string

  datatype Side = A | B

  datatype Vote = ForSide(side: Side) | Tie | Stopped

  datatype Comparison =
    | Pending
    | Generating
    | Completed(summary: string)
    | Failed(error: string)
    | Unavailable(reason: string)

  datatype Assignment = Assignment(token: string, modelKey: string, modelId: string, completedAt: Option<Time>)

  datatype Battle = Battle(
    id: string,
    userId: string,
    prompt: string,
    createdAt: Time,
    updatedAt: Time,
    a: Assignment,
    b: Assignment,
    vote: Option<Vote>,
    winningSide: Option<Side>,
    decidedEarly: bool,
    decidedAt: Option<Time>,
    comparison: Comparison
  )
  {
    function On(side: Side): Assignment
    {
      if side == A then a else b
    }

    predicate BothComplete()
    {
      a.completedAt.Some? && b.completedAt.Some?
    }
  }

  const DECIDED_EARLY: string := "Comparison unavailable—battle decided early"
  const BATTLE_STOPPED: string := "Battle stopped"
  const NO_EDITS: string := "AI comparison skipped—neither agent edited files"

  // The closures handed to withMutation, with the clock readings they take.
  datatype Command =
    | MarkComplete(side: Side, completedNow: Time, now: Time)
    | CastVote(vote: Vote, now: Time)
    | Stop(now: Time)
    | StartComparison(prompt: string, changedFiles: real, hasEdits: bool, now: Time)
    | WriteComparison(comparison: Comparison, now: Time)

  // What a closure does with the record it read: it may put a new one, and may throw.
  datatype Effect = Effect(put: Option<Battle>, error: Option<string>)

  function Throws(error: string): Effect
  {
    Effect(None, Some(error))
  }

  function Puts(battle: Battle): Effect
  {
    Effect(Some(battle), None)
  }

  function Stamp(mark: Option<Time>, now: Time): Option<Time>
  {
    if mark.Some? then mark else Some(now)
  }

  function Apply(cmd: Command, read: Option<Battle>): (e: Effect)
    ensures e.put.None? || e.error.None?
    ensures read.None? ==> e.put.None?
  {
    if read.None? then Throws("Battle not found")
    else
      var record := read.value;
      match cmd
      case MarkComplete(side, completedNow, now) =>
        Puts((if side == A then record.(a := record.a.(completedAt := Stamp(record.a.completedAt, completedNow)))
              else record.(b := record.b.(completedAt := Stamp(record.b.completedAt, completedNow)))).(updatedAt := now))
      case CastVote(vote, now) => ApplyVote(record, vote, now)
      case Stop(now) =>
        if record.vote.Some? then Throws("Battle has already been decided")
        else
          Puts(record.(vote := Some(Stopped), winningSide := None, decidedAt := Some(now), updatedAt := now,
                       comparison := Unavailable(BATTLE_STOPPED)))
      case StartComparison(prompt, changedFiles, hasEdits, now) =>
        if record.vote == Some(Stopped) then Throws("Comparison is unavailable for a stopped battle")
        else if record.decidedEarly then Throws("Comparison is unavailable for an early decision")
        else if !record.BothComplete() then Throws("Both sides must finish before comparison")
        else if record.prompt != Trim(prompt) then Throws("Comparison prompt does not match battle")
        else if changedFiles.Floor as real != changedFiles || changedFiles < 0.0 then
          Throws("changedFiles must be a non-negative integer")
        else
          Puts(record.(comparison := if hasEdits then Generating else Unavailable(NO_EDITS), updatedAt := now))
      case WriteComparison(comparison, now) =>
        if record.vote == Some(Stopped) then Effect(None, None)
        else Puts(record.(comparison := comparison, updatedAt := now))
  }

  function ApplyVote(record: Battle, vote: Vote, now: Time): Effect
  {
    var winningSide := if vote.ForSide? then vote.side else A;
    if record.vote.Some? then Throws("Battle has already been decided")
    else if vote == Tie && !record.BothComplete() then Throws("Both sides must finish before recording a tie")
    else if record.On(winningSide).completedAt.None? then
      Throws(if winningSide == A then "Side A is not finished" else "Side B is not finished")
    else
      var decidedEarly := !record.BothComplete();
      Puts(record.(vote := Some(vote), winningSide := Some(winningSide), decidedEarly := decidedEarly,
                   decidedAt := Some(now), updatedAt := now,
                   comparison := if decidedEarly then Unavailable(DECIDED_EARLY) else record.comparison))
  }

  // What the clients of the proxy can ask for; a comparison is written by the background generation only.
  predicate External(cmd: Command)
  {
    match cmd
    case CastVote(vote, _) => vote != Stopped
    case WriteComparison(_, _) => false
    case _ => true
  }

  predicate Generated(comparison: Comparison)
  {
    comparison.Completed? || comparison.Failed?
  }

  // publicBattle: the models are revealed by a vote other than a stop.
  function Reveal(record: Battle): Option<(string, string)>
  {
    if record.vote.Some? && record.vote != Some(Stopped) then Some((record.a.modelId, record.b.modelId)) else None
  }

  function NewBattle(id: string, userId: string, prompt: string, now: Time, a: Assignment, b: Assignment): Battle
  {
    Battle(id, Trim(userId), Trim(prompt), now, now, a.(completedAt := None), b.(completedAt := None),
           None, None, false, None, Pending)
  }

  // ---- The life of a record ----

  ghost predicate BattleInv(r: Battle)
  {
    && (r.winningSide.Some? <==> r.vote.Some? && r.vote != Some(Stopped))
    && (r.vote.Some? && r.vote.value.ForSide? ==> r.winningSide == Some(r.vote.value.side))
    && (r.vote == Some(Tie) ==> r.winningSide == Some(A) && r.BothComplete())
    && (r.winningSide.Some? ==> r.On(r.winningSide.value).completedAt.Some?)
    && (r.decidedAt.Some? <==> r.vote.Some?)
    && (r.decidedEarly ==> r.winningSide.Some? && r.comparison.Unavailable?)
    && (r.vote == Some(Stopped) ==> r.comparison.Unavailable?)
    && (r.comparison.Unavailable? ==> Final(r) || Comparable(r))
    && Trim(r.prompt) == r.prompt
    && (r.comparison.Generating? || r.comparison.Completed? || r.comparison.Failed? ==> r.BothComplete() && !r.decidedEarly)
  }

  // A comparison may be written to this record: once true this stays true.
  predicate Comparable(r: Battle)
  {
    r.BothComplete() && !r.decidedEarly
  }

  // Decided for good: no operation brings a comparison back.
  predicate Final(r: Battle)
  {
    r.vote == Some(Stopped) || r.decidedEarly
  }

  lemma NewBattleInv(id: string, userId: string, prompt: string, now: Time, a: Assignment, b: Assignment)
    ensures BattleInv(NewBattle(id, userId, prompt, now, a, b))
  {
    TrimIdempotent(prompt);
  }

  // What no sequence of operations may undo.
  ghost predicate Evolves(r: Battle, t: Battle)
  {
    && t.id == r.id && t.userId == r.userId && t.prompt == r.prompt && t.createdAt == r.createdAt
    && t.a == r.a.(completedAt := t.a.completedAt) && t.b == r.b.(completedAt := t.b.completedAt)
    && (r.a.completedAt.Some? ==> t.a.completedAt == r.a.completedAt)
    && (r.b.completedAt.Some? ==> t.b.completedAt == r.b.completedAt)
    && (r.vote.Some? ==>
          t.vote == r.vote && t.winningSide == r.winningSide && t.decidedEarly == r.decidedEarly && t.decidedAt == r.decidedAt)
    && (Comparable(r) ==> Comparable(t))
    && (Final(r) ==> Final(t) && t.comparison == r.comparison)
  }

  // One operation on a well-formed record. A comparison is written only while the record is comparable.
  lemma ApplyEvolves(cmd: Command, r: Battle)
    requires BattleInv(r)
    requires cmd.CastVote? ==> cmd.vote != Stopped
    requires cmd.WriteComparison? ==> Comparable(r) && Generated(cmd.comparison)
    ensures var t := Apply(cmd, Some(r)).put; t.Some? ==> BattleInv(t.value) && Evolves(r, t.value)
  {
    hide Trim, ApplyVote;
    if cmd.CastVote? {
      VoteEvolves(r, cmd.vote, cmd.now);
    }
  }

  lemma VoteEvolves(r: Battle, vote: Vote, now: Time)
    requires BattleInv(r) && vote != Stopped
    ensures var t := ApplyVote(r, vote, now).put; t.Some? ==> BattleInv(t.value) && Evolves(r, t.value)
  {
    hide Trim;
  }

  lemma EvolvesTransitive(r: Battle, s: Battle, t: Battle)
    requires Evolves(r, s) && Evolves(s, t)
    ensures Evolves(r, t)
  {
  }

  // An accepted request for a comparison finds and leaves the record comparable.
  lemma AcceptedIsComparable(cmd: Command, r: Battle)
    requires cmd.StartComparison? && Apply(cmd, Some(r)).put.Some?
    ensures Comparable(r) && Comparable(Apply(cmd, Some(r)).put.value)
  {
    hide Trim;
  }

  // Operations applied one at a time.
  function ApplyAll(cmds: seq<Command>, r: Battle): Battle
  {
    if cmds == [] then r
    else
      var before := ApplyAll(cmds[..|cmds| - 1], r);
      var put := Apply(cmds[|cmds| - 1], Some(before)).put;
      if put.Some? then put.value else before
  }

  predicate Permitted(cmds: seq<Command>)
  {
    forall i :: 0 <= i < |cmds| ==> External(cmds[i])
  }

  lemma {:induction false} FinalStays(cmds: seq<Command>, r: Battle)
    requires BattleInv(r) && Final(r) && Permitted(cmds)
    ensures var t := ApplyAll(cmds, r); BattleInv(t) && Evolves(r, t)
  {
    if cmds != [] {
      var before := ApplyAll(cmds[..|cmds| - 1], r);
      FinalStays(cmds[..|cmds| - 1], r);
      ApplyEvolves(cmds[|cmds| - 1], before);
    }
  }

  // An unavailable comparison is the last word exactly when the battle was stopped or decided early: one
  // skipped for want of edits is replaced by the next request that has some.
  lemma UnavailableIsFinalIff(r: Battle)
    requires BattleInv(r) && r.comparison.Unavailable?
    ensures (forall cmds | Permitted(cmds) :: ApplyAll(cmds, r).comparison.Unavailable?) <==> Final(r)
  {
    if Final(r) {
      forall cmds | Permitted(cmds)
        ensures ApplyAll(cmds, r).comparison.Unavailable?
      {
        FinalStays(cmds, r);
      }
    } else {
      var again := [StartComparison(r.prompt, 0.0, true, r.updatedAt)];
      assert again[..0] == [];
      assert ApplyAll([], r) == r;
      assert ApplyAll(again, r).comparison == Generating;
      assert Permitted(again);
    }
  }
}
