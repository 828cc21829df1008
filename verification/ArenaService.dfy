// The mutable objects of packages/arena-proxy/src/service.ts: a record as read from the
// store and changed in place by the closures, and the service with its tail map.

module ArenaService {
  import opened Wrappers
  import opened Arena
  import S = ArenaSystem
  import T = ArenaTokens
  import L = ArenaLaws
  import Strings

  class BattleRecord {
    var id: string
    var userId: string
    var prompt: string
    var createdAt: Time
    var updatedAt: Time
    var a: Assignment
    var b: Assignment
    var vote: Option<Vote>
    var winningSide: Option<Side>
    var decidedEarly: bool
    var decidedAt: Option<Time>
    var comparison: Comparison

    function Value(): Battle
      reads this
    {
      Battle(id, userId, prompt, createdAt, updatedAt, a, b, vote, winningSide, decidedEarly, decidedAt, comparison)
    }

    // A fresh object parsed from the stored text.
    constructor (stored: Battle)
      ensures Value() == stored
    {
      id, userId, prompt, createdAt, updatedAt :=
        stored.id, stored.userId, stored.prompt, stored.createdAt, stored.updatedAt;
      a, b, vote, winningSide := stored.a, stored.b, stored.vote, stored.winningSide;
      decidedEarly, decidedAt, comparison := stored.decidedEarly, stored.decidedAt, stored.comparison;
    }

    // The outcome of a closure on this record: put says whether it goes on to store the record.
    ghost predicate Follows(before: Battle, cmd: Command, put: bool, threw: bool)
      reads this
    {
      var e := Apply(cmd, Some(before));
      && (put <==> e.put.Some?)
      && (threw <==> e.error.Some?)
      && (if put then Some(Value()) == e.put else Value() == before)
    }

    method MarkComplete(side: Side, completedNow: Time, now: Time)
      modifies this
      ensures Follows(old(Value()), Command.MarkComplete(side, completedNow, now), true, false)
    {
      if side == A {
        if a.completedAt.None? {
          a := a.(completedAt := Some(completedNow));
        }
      } else {
        if b.completedAt.None? {
          b := b.(completedAt := Some(completedNow));
        }
      }
      updatedAt := now;
    }

    method CastVote(v: Vote, now: Time) returns (threw: bool)
      requires v != Stopped
      modifies this
      ensures Follows(old(Value()), Command.CastVote(v, now), !threw, threw)
      ensures threw <==> !L.VoteOpen(old(Value()), v)
      ensures !threw ==> vote == Some(v) && winningSide == Some(if v == ForSide(B) then B else A) && decidedAt == Some(now)
      ensures !threw ==> (decidedEarly <==> old(a.completedAt.None? || b.completedAt.None?))
      ensures !threw ==> comparison == if decidedEarly then Unavailable(DECIDED_EARLY) else old(comparison)
      ensures threw ==> Value() == old(Value())
    {
      L.VoteAcceptedIff(Value(), v, now);
      hide Apply;
      threw := RecordVote(v, now);
    }

    // The branches of the closure.
    method RecordVote(v: Vote, now: Time) returns (threw: bool)
      requires v != Stopped
      modifies this
      ensures Follows(old(Value()), Command.CastVote(v, now), !threw, threw)
    {
      hide Strings.Trim;
      if vote.Some? {
        return true;
      }
      if v == Tie && (a.completedAt.None? || b.completedAt.None?) {
        return true;
      }
      var side := if v == Tie then A else v.side;
      if (if side == A then a else b).completedAt.None? {
        return true;
      }
      vote := Some(v);
      winningSide := Some(side);
      decidedEarly := a.completedAt.None? || b.completedAt.None?;
      decidedAt := Some(now);
      updatedAt := now;
      if decidedEarly {
        comparison := Unavailable(DECIDED_EARLY);
      }
      return false;
    }

    method Stop(now: Time) returns (threw: bool)
      modifies this
      ensures Follows(old(Value()), Command.Stop(now), !threw, threw)
      ensures threw <==> old(vote).Some?
      ensures !threw ==> vote == Some(Stopped) && winningSide == None && comparison == Unavailable(BATTLE_STOPPED)
    {
      if vote.Some? {
        return true;
      }
      vote := Some(Stopped);
      winningSide := None;
      decidedAt := Some(now);
      updatedAt := now;
      comparison := Unavailable(BATTLE_STOPPED);
      return false;
    }

    method StartComparison(text: string, changedFiles: real, hasEdits: bool, now: Time) returns (threw: bool)
      modifies this
      ensures Follows(old(Value()), Command.StartComparison(text, changedFiles, hasEdits, now), !threw, threw)
      ensures threw <==> !L.ComparisonOpen(old(Value()), text, changedFiles)
      ensures !threw ==> comparison == if hasEdits then Generating else Unavailable(NO_EDITS)
    {
      L.ComparisonAcceptedIff(Value(), text, changedFiles, hasEdits, now);
      hide Apply;
      threw := RecordRequest(text, changedFiles, hasEdits, now);
    }

    // The branches of the closure.
    method RecordRequest(text: string, changedFiles: real, hasEdits: bool, now: Time) returns (threw: bool)
      modifies this
      ensures Follows(old(Value()), Command.StartComparison(text, changedFiles, hasEdits, now), !threw, threw)
    {
      hide Strings.Trim, ApplyVote;
      if vote == Some(Stopped) || decidedEarly {
        return true;
      }
      if a.completedAt.None? || b.completedAt.None? {
        return true;
      }
      if prompt != Strings.Trim(text) {
        return true;
      }
      if changedFiles.Floor as real != changedFiles || changedFiles < 0.0 {
        return true;
      }
      comparison := if hasEdits then Generating else Unavailable(NO_EDITS);
      updatedAt := now;
      return false;
    }

    // The closure of generateComparison; without a put it returns early.
    method WriteComparison(result: Comparison, now: Time) returns (put: bool)
      modifies this
      ensures Follows(old(Value()), Command.WriteComparison(result, now), put, false)
      ensures put <==> old(vote) != Some(Stopped)
      ensures comparison == if put then result else old(comparison)
    {
      if vote == Some(Stopped) {
        return false;
      }
      comparison := result;
      updatedAt := now;
      return true;
    }
  }

  class ArenaProxyService {
    var store: map<string, Battle>
    // Each tail promise is named by the number of the operation that created it.
    var mutationTails: map<string, nat>

    constructor ()
      ensures store == S.Init().store && mutationTails == S.Init().tails
    {
      store, mutationTails := map[], map[];
    }

    // withMutation up to its first await: the tail found, and the own one in its place.
    method BeginMutation(id: string, current: nat) returns (previous: Option<nat>)
      modifies this`mutationTails
      ensures forall s: S.System, cmd: Command | s.tails == old(mutationTails) && |s.ops| == current ::
                var t := S.Arrive(s, id, cmd);
                t.ops[current].previous == previous && t.tails == mutationTails
    {
      previous := if id in mutationTails then Some(mutationTails[id]) else None;
      mutationTails := mutationTails[id := current];
    }

    // The finally block: the tail goes only if no later operation has replaced it.
    method EndMutation(id: string, current: nat)
      modifies this`mutationTails
      ensures forall s: S.System | s.tails == old(mutationTails) && current < |s.ops| && s.ops[current].id == id ::
                S.Release(s, current).tails == mutationTails
    {
      if id in mutationTails && mutationTails[id] == current {
        mutationTails := mutationTails - {id};
      }
    }

    // resolveModelToken on the battles the store lists.
    method ResolveModelToken(battles: seq<Battle>, token: string) returns (model: Option<string>)
      ensures model == T.Resolve(battles, token)
    {
      for i := 0 to |battles|
        invariant T.Resolve(battles, token) == T.Resolve(battles[i..], token)
      {
        var battle := battles[i];
        var sides := [A, B];
        assert battles[i..][0] == battle && battles[i..][1..] == battles[i + 1..];
        for j := 0 to |sides|
          invariant forall k :: 0 <= k < j ==> battle.On(sides[k]).token != token
        {
          if battle.On(sides[j]).token != token {
            continue;
          }
          assert j == 0 || (j == 1 && battle.On(sides[0]).token != token);
          return if battle.vote.Some? then None else Some(battle.On(sides[j]).modelId);
        }
        assert battle.On(sides[0]).token != token && battle.On(sides[1]).token != token;
      }
      return None;
    }
  }
}
