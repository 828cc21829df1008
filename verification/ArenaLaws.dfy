// When each operation of packages/arena-proxy/src/service.ts is accepted, and exactly what it
// then changes in the record.

module ArenaLaws {
  import opened Wrappers
  import opened Strings
  import opened Arena

  // A vote is accepted on an undecided battle whose chosen side is complete, both for a tie.
  predicate VoteOpen(r: Battle, v: Vote)
  {
    && r.vote.None?
    && (v == Tie ==> r.a.completedAt.Some? && r.b.completedAt.Some?)
    && (v.ForSide? ==> (v.side == A ==> r.a.completedAt.Some?) && (v.side == B ==> r.b.completedAt.Some?))
  }

  // The record behind an accepted vote: a tie counts for A; with a side unfinished the decision was early, and
  // there will be no comparison. Nothing else changes.
  predicate Voted(r: Battle, t: Battle, v: Vote, now: Time)
  {
    && t.vote == Some(v) && t.winningSide == Some(if v == ForSide(B) then B else A)
    && (t.decidedEarly <==> r.a.completedAt.None? || r.b.completedAt.None?)
    && t.decidedAt == Some(now) && t.updatedAt == now
    && t.comparison == (if t.decidedEarly then Unavailable("Comparison unavailable—battle decided early") else r.comparison)
    && t.id == r.id && t.userId == r.userId && t.prompt == r.prompt && t.createdAt == r.createdAt && t.a == r.a && t.b == r.b
  }

  // Accepted means something is put and nothing thrown; refused, the reverse.
  predicate Accepted(e: Effect)
  {
    e.error.None? && e.put.Some?
  }

  predicate Refused(e: Effect, reason: string)
  {
    e.error == Some(reason) && e.put.None?
  }

  function WhyNoVote(r: Battle, v: Vote): string
  {
    if r.vote.Some? then "Battle has already been decided"
    else if v == Tie then "Both sides must finish before recording a tie"
    else if v == ForSide(B) then "Side B is not finished"
    else "Side A is not finished"
  }

  lemma VoteAcceptedIff(r: Battle, v: Vote, now: Time)
    requires v != Stopped
    ensures var e := Apply(CastVote(v, now), Some(r));
            if VoteOpen(r, v) then Accepted(e) && Voted(r, e.put.value, v, now) else Refused(e, WhyNoVote(r, v))
  {
    hide Trim;
  }

  // Any undecided battle can be stopped: no winner, no comparison; a decided one cannot.
  predicate HasStopped(r: Battle, t: Battle, now: Time)
  {
    && t.vote == Some(Stopped) && t.winningSide == None && t.decidedAt == Some(now) && t.updatedAt == now
    && t.comparison == Unavailable("Battle stopped") && t.decidedEarly == r.decidedEarly
    && t.id == r.id && t.userId == r.userId && t.prompt == r.prompt && t.createdAt == r.createdAt && t.a == r.a && t.b == r.b
  }

  lemma StopAcceptedIff(r: Battle, now: Time)
    ensures var e := Apply(Stop(now), Some(r));
            if r.vote.None? then Accepted(e) && HasStopped(r, e.put.value, now)
            else Refused(e, "Battle has already been decided")
  {
    hide Trim;
  }

  // A completion is always accepted; only the first of a side is recorded.
  lemma CompletionRecorded(r: Battle, side: Side, completedNow: Time, now: Time)
    ensures var e := Apply(MarkComplete(side, completedNow, now), Some(r));
            && Accepted(e)
            && e.put.value.On(side) == r.On(side).(completedAt := Some(if r.On(side).completedAt.Some? then r.On(side).completedAt.value
                                                                       else completedNow))
            && e.put.value == r.(a := e.put.value.a, b := e.put.value.b, updatedAt := now)
            && (if side == A then e.put.value.b == r.b else e.put.value.a == r.a)
  {
    hide Trim;
  }

  predicate IsWhole(x: real, n: int)
  {
    x == n as real
  }

  ghost predicate ComparisonOpen(r: Battle, prompt: string, changedFiles: real)
  {
    && r.vote != Some(Stopped) && !r.decidedEarly && r.a.completedAt.Some? && r.b.completedAt.Some?
    && Trim(prompt) == r.prompt && 0.0 <= changedFiles && exists n :: IsWhole(changedFiles, n)
  }

  // The first of the conditions that does not hold.
  function WhyNoComparison(r: Battle, prompt: string): string
  {
    if r.vote == Some(Stopped) then "Comparison is unavailable for a stopped battle"
    else if r.decidedEarly then "Comparison is unavailable for an early decision"
    else if r.a.completedAt.None? || r.b.completedAt.None? then "Both sides must finish before comparison"
    else if Trim(prompt) != r.prompt then "Comparison prompt does not match battle"
    else "changedFiles must be a non-negative integer"
  }

  lemma ComparisonAcceptedIff(r: Battle, prompt: string, changedFiles: real, hasEdits: bool, now: Time)
    ensures var e := Apply(StartComparison(prompt, changedFiles, hasEdits, now), Some(r));
            if ComparisonOpen(r, prompt, changedFiles) then
              && Accepted(e) && e.put.value == r.(comparison := e.put.value.comparison, updatedAt := now)
              && (hasEdits ==> e.put.value.comparison == Generating)
              && (!hasEdits ==> e.put.value.comparison == Unavailable("AI comparison skipped—neither agent edited files"))
            else Refused(e, WhyNoComparison(r, prompt))
  {
    hide Trim;
    if exists n :: IsWhole(changedFiles, n) {
      var n :| IsWhole(changedFiles, n);
      assert changedFiles.Floor == n;
    } else {
      assert !IsWhole(changedFiles, changedFiles.Floor);
    }
  }

  // The result of a generation is written unless the battle was stopped meanwhile; then it is dropped in silence.
  lemma ResultWrittenIff(r: Battle, comparison: Comparison, now: Time)
    ensures var e := Apply(WriteComparison(comparison, now), Some(r));
            if r.vote == Some(Stopped) then e.put.None? && e.error.None?
            else Accepted(e) && e.put.value == r.(comparison := comparison, updatedAt := now)
  {
    hide Trim;
  }

  lemma UnknownBattleRefused(cmd: Command)
    ensures Refused(Apply(cmd, None), "Battle not found")
  {
  }

  // The models are shown to the public exactly after a vote for A, B or a tie.
  lemma RevealedIff(r: Battle)
    ensures Reveal(r).Some? <==> r.vote.Some? && r.vote.value != Stopped
    ensures Reveal(r).Some? ==> Reveal(r).value.0 == r.On(A).modelId && Reveal(r).value.1 == r.On(B).modelId
  {
  }

  // A battle starts undecided, with nobody complete, and with what it was asked without the spaces around it.
  lemma BattleStarts(id: string, userId: string, prompt: string, now: Time, a: Assignment, b: Assignment)
    ensures var r := NewBattle(id, userId, prompt, now, a, b);
            && r.vote == None && r.winningSide == None && !r.decidedEarly && r.decidedAt == None && r.comparison == Pending
            && r.a == a.(completedAt := None) && r.b == b.(completedAt := None)
            && r.createdAt == now && r.updatedAt == now && r.id == id
            && r.userId == Trim(userId) && r.prompt == Trim(prompt)
  {
    hide Trim;
  }
}
