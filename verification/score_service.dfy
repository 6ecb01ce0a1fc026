/**
 * Score submission, confirmation, correction and deletion (the ScoreService of
 * apps/scores/services.py). Every call checks, in this order, that the record
 * exists, that the acting user may act on it, that the match or score is in the
 * right state, that the sets are valid and that the submission is not a
 * duplicate; the first failed check is the call's error and leaves the store
 * unchanged.
 */
module ScoreService {
  import opened Base
  import opened Exceptions
  import opened SetScores
  import opened AccountModels
  import opened TournamentModels
  import opened ScoreModels
  import opened Db

  /** A player of the match, or the referee assigned to it. */
  predicate ActsForMatch(u: User, actor: UserId, m: Match) {
    (u.IsPlayer() && IsPlayerInMatch(m, actor)) || (u.IsReferee() && m.referee == Some(actor))
  }

  /** Whether `actor` has already submitted a score for the match. */
  predicate HasScoreFrom(scores: map<ScoreId, Score>, matchId: MatchId, actor: UserId) {
    exists id | id in scores :: scores[id].matchId == matchId && scores[id].submittedBy == actor
  }

  /** The user in a slot of the match (none when the slot is empty). */
  function SlotPlayer(m: Match, side: Side): Option<UserId> {
    if side == Player1 then m.player1 else m.player2
  }

  /**
   * The winner recorded with a score: the player in the slot the winner rule
   * picks, or none when the sets do not decide the match.
   */
  function ScoreWinner(m: Match, sets: seq<SetScore>): (w: Option<UserId>)
    ensures WinnerAmongPlayers(w, m)
    ensures MatchWinner(sets).None? ==> w.None?
    ensures w.Some? ==> exists side :: MatchWinner(sets) == Some(side) && SlotPlayer(m, side) == w
    ensures IsPlayerAssigned(m) ==> (w.Some? <==> MatchWinner(sets).Some?)
  {
    match MatchWinner(sets)
    case None => None
    case Some(side) => SlotPlayer(m, side)
  }

  /**
   * On an accepted score of a match between two different players, the recorded
   * winner has won strictly more sets than the opponent.
   */
  lemma ScoreWinnerWonMoreSets(m: Match, sets: seq<SetScore>)
    requires ValidateSetScores(sets).None?
    requires IsPlayerAssigned(m) && m.player1 != m.player2
    requires ScoreWinner(m, sets).Some?
    ensures ScoreWinner(m, sets) == m.player1 ==> SetsWon(sets, Player1) > SetsWon(sets, Player2)
    ensures ScoreWinner(m, sets) == m.player2 ==> SetsWon(sets, Player2) > SetsWon(sets, Player1)
  {
    var side := MatchWinner(sets).value;
    WinnerWonMoreSets(sets, side);
  }

  /** _finalize_match: the match is completed with the score's winner. */
  method FinalizeMatch(st: Store, matchId: MatchId, scoreId: ScoreId)
    requires st.Valid()
    requires scoreId in st.scores && st.scores[scoreId].matchId == matchId
    modifies st
    ensures st.Valid()
    ensures matchId in old(st.matches)
    ensures st.Snapshot() == old(st.Snapshot()).(matches := old(st.matches)[matchId :=
      old(st.matches[matchId]).(status := MatchStatus.Completed, winner := old(st.scores[scoreId].winner))])
  {
    var m := st.matches[matchId];
    st.matches := st.matches[matchId := m.(status := MatchStatus.Completed, winner := st.scores[scoreId].winner)];
  }

  /** A new score for a match past the scheduled state, from a new submitter and with a winner among the match's players, keeps the store consistent. */
  lemma NewScoreKeepsConsistent(t: Tables, s: Score)
    requires Consistent(t)
    requires s.matchId in t.matches && t.matches[s.matchId].status != Scheduled
    requires WinnerAmongPlayers(s.winner, t.matches[s.matchId])
    requires !HasScoreFrom(t.scores, s.matchId, s.submittedBy)
    ensures Consistent(t.(scores := t.scores[t.nextScoreId := s], nextScoreId := t.nextScoreId + 1))
  {
  }

  /** Rewriting a score in place, with the same match and submitter and a winner among the match's players, keeps the store consistent. */
  lemma ScoreEditKeepsConsistent(t: Tables, scoreId: ScoreId, s: Score)
    requires Consistent(t) && scoreId in t.scores
    requires s.matchId == t.scores[scoreId].matchId && s.submittedBy == t.scores[scoreId].submittedBy
    requires WinnerAmongPlayers(s.winner, t.matches[s.matchId])
    ensures Consistent(t.(scores := t.scores[scoreId := s]))
  {
  }

  /** Deleting a score and clearing the disputes that accepted it keeps the store consistent. */
  lemma ScoreRemovalKeepsConsistent(t: Tables, scoreId: ScoreId)
    requires Consistent(t)
    ensures Consistent(t.(scores := t.scores - {scoreId},
      disputes := map d | d in t.disputes :: ClearFinalScore(t.disputes[d], scoreId)))
  {
  }

  /**
   * Store a new score under the next key. The score's match has left the
   * scheduled state, its winner is a player of the match and its submitter has
   * no other score for that match.
   */
  method CreateScore(st: Store, s: Score) returns (id: ScoreId)
    requires st.Valid()
    requires s.matchId in st.matches && st.matches[s.matchId].status != Scheduled
    requires WinnerAmongPlayers(s.winner, st.matches[s.matchId])
    requires !HasScoreFrom(st.scores, s.matchId, s.submittedBy)
    modifies st
    ensures st.Valid()
    ensures id == old(st.nextScoreId) && id !in old(st.scores)
    ensures st.Snapshot() == old(st.Snapshot()).(scores := old(st.scores)[id := s], nextScoreId := id + 1)
  {
    NewScoreKeepsConsistent(st.Snapshot(), s);
    id := st.nextScoreId;
    st.scores := st.scores[id := s];
    st.nextScoreId := st.nextScoreId + 1;
  }

  /**
   * submit_score: a player of the match or its referee records a score for an
   * in-progress or completed match; a referee's score is confirmed at once and
   * completes the match.
   */
  method SubmitScore(st: Store, matchId: MatchId, sets: seq<SetScore>, actor: UserId) returns (r: Result<ScoreId>)
    requires st.Valid() && actor in st.users
    modifies st
    ensures st.Valid()
    ensures matchId !in old(st.matches) ==> r == Err(NotFound)
    ensures matchId in old(st.matches) ==>
      var m, u := old(st.matches[matchId]), old(st.users[actor]);
      r == (if !ActsForMatch(u, actor, m) then Err(PermissionDenied)
            else if m.status != MatchStatus.InProgress && m.status != MatchStatus.Completed then Err(InvalidState)
            else if ValidateSetScores(sets).Some? then Err(ValidationError)
            else if HasScoreFrom(old(st.scores), matchId, actor) then Err(ValidationError)
            else Ok(old(st.nextScoreId)))
    ensures r.Err? ==> st.Snapshot() == old(st.Snapshot())
    ensures r.Ok? ==>
      var m, u := old(st.matches[matchId]), old(st.users[actor]);
      var s := Score(matchId, actor, sets, ScoreWinner(m, sets), u.IsReferee(), None, None);
      st.Snapshot() == old(st.Snapshot()).(
        scores := old(st.scores)[r.value := s],
        nextScoreId := old(st.nextScoreId) + 1,
        matches := if u.IsReferee()
                   then old(st.matches)[matchId := m.(status := MatchStatus.Completed, winner := s.winner)]
                   else old(st.matches))
  {
    if matchId !in st.matches {
      return Err(NotFound);
    }
    var m := st.matches[matchId];
    var u := st.users[actor];
    if u.IsPlayer() {
      if !IsPlayerInMatch(m, actor) {
        return Err(PermissionDenied);
      }
    } else if u.IsReferee() {
      if m.referee != Some(actor) {
        return Err(PermissionDenied);
      }
    } else {
      return Err(PermissionDenied);
    }
    if m.status != MatchStatus.InProgress && m.status != MatchStatus.Completed {
      return Err(InvalidState);
    }
    if ValidateSetScores(sets).Some? {
      return Err(ValidationError);
    }
    if HasScoreFrom(st.scores, matchId, actor) {
      return Err(ValidationError);
    }
    var side := DetermineMatchWinner(sets);
    var winner := None;
    if side.Some? {
      winner := if side.value == Player1 then m.player1 else m.player2;
    }
    assert winner == ScoreWinner(m, sets);
    var id := CreateScore(st, Score(matchId, actor, sets, winner, u.IsReferee(), None, None));
    if u.IsReferee() {
      FinalizeMatch(st, matchId, id);
    }
    r := Ok(id);
  }

  /**
   * confirm_score: the opponent of the submitter or the match's referee confirms
   * a score, which completes the match with the score's winner.
   */
  method ConfirmScore(st: Store, scoreId: ScoreId, actor: UserId, now: Time) returns (r: Result<ScoreId>)
    requires st.Valid() && actor in st.users
    modifies st
    ensures st.Valid()
    ensures scoreId !in old(st.scores) ==> r == Err(NotFound)
    ensures scoreId in old(st.scores) ==>
      var s, u := old(st.scores[scoreId]), old(st.users[actor]);
      var m := old(st.matches[s.matchId]);
      r == (if !ActsForMatch(u, actor, m) then Err(PermissionDenied)
            else if u.IsPlayer() && s.submittedBy == actor then Err(ValidationError)
            else if s.isConfirmed then Err(ValidationError)
            else Ok(scoreId))
    ensures r.Err? ==> st.Snapshot() == old(st.Snapshot())
    ensures r.Ok? ==>
      var s := old(st.scores[scoreId]);
      var m := old(st.matches[s.matchId]);
      st.Snapshot() == old(st.Snapshot()).(
        scores := old(st.scores)[scoreId := s.(isConfirmed := true, confirmedBy := Some(actor), confirmedAt := Some(now))],
        matches := old(st.matches)[s.matchId := m.(status := MatchStatus.Completed, winner := s.winner)])
  {
    if scoreId !in st.scores {
      return Err(NotFound);
    }
    var s := st.scores[scoreId];
    var m := st.matches[s.matchId];
    var u := st.users[actor];
    if u.IsPlayer() {
      if !IsPlayerInMatch(m, actor) {
        return Err(PermissionDenied);
      }
      if s.submittedBy == actor {
        return Err(ValidationError);
      }
    } else if u.IsReferee() {
      if m.referee != Some(actor) {
        return Err(PermissionDenied);
      }
    } else {
      return Err(PermissionDenied);
    }
    if s.isConfirmed {
      return Err(ValidationError);
    }
    st.scores := st.scores[scoreId := s.(isConfirmed := true, confirmedBy := Some(actor), confirmedAt := Some(now))];
    FinalizeMatch(st, s.matchId, scoreId);
    r := Ok(scoreId);
  }

  /**
   * update_score: the submitter replaces the sets of an unconfirmed score; the
   * winner is recomputed, the match and the confirmation are left alone.
   */
  method UpdateScore(st: Store, scoreId: ScoreId, sets: seq<SetScore>, actor: UserId) returns (r: Result<ScoreId>)
    requires st.Valid()
    modifies st
    ensures st.Valid()
    ensures scoreId !in old(st.scores) ==> r == Err(NotFound)
    ensures scoreId in old(st.scores) ==>
      var s := old(st.scores[scoreId]);
      r == (if s.submittedBy != actor then Err(PermissionDenied)
            else if s.isConfirmed then Err(InvalidState)
            else if ValidateSetScores(sets).Some? then Err(ValidationError)
            else Ok(scoreId))
    ensures r.Err? ==> st.Snapshot() == old(st.Snapshot())
    ensures r.Ok? ==>
      var s := old(st.scores[scoreId]);
      var m := old(st.matches[s.matchId]);
      st.Snapshot() == old(st.Snapshot()).(
        scores := old(st.scores)[scoreId := s.(setScores := sets, winner := ScoreWinner(m, sets))])
  {
    if scoreId !in st.scores {
      return Err(NotFound);
    }
    var s := st.scores[scoreId];
    if s.submittedBy != actor {
      return Err(PermissionDenied);
    }
    if s.isConfirmed {
      return Err(InvalidState);
    }
    if ValidateSetScores(sets).Some? {
      return Err(ValidationError);
    }
    var side := DetermineMatchWinner(sets);
    var winner := None;
    if side.Some? {
      var m := st.matches[s.matchId];
      winner := if side.value == Player1 then m.player1 else m.player2;
    }
    ScoreEditKeepsConsistent(st.Snapshot(), scoreId, s.(setScores := sets, winner := winner));
    st.scores := st.scores[scoreId := s.(setScores := sets, winner := winner)];
    r := Ok(scoreId);
  }

  /** A dispute after the score it accepted is deleted (the reference is set to null). */
  function ClearFinalScore(d: Dispute, scoreId: ScoreId): (d': Dispute)
    ensures d'.finalScore == (if d.finalScore == Some(scoreId) then None else d.finalScore)
    ensures d' == d.(finalScore := d'.finalScore)
  {
    if d.finalScore == Some(scoreId) then d.(finalScore := None) else d
  }

  /**
   * delete_score: the submitter may delete an unconfirmed score and an organizer
   * any score; the match is never touched.
   */
  method DeleteScore(st: Store, scoreId: ScoreId, actor: UserId) returns (r: Result<()>)
    requires st.Valid() && actor in st.users
    modifies st
    ensures st.Valid()
    ensures scoreId !in old(st.scores) ==> r == Err(NotFound)
    ensures scoreId in old(st.scores) ==>
      var s, u := old(st.scores[scoreId]), old(st.users[actor]);
      r == (if s.submittedBy != actor && !u.IsOrganizer() then Err(PermissionDenied)
            else if s.isConfirmed && !u.IsOrganizer() then Err(InvalidState)
            else Ok(()))
    ensures r.Err? ==> st.Snapshot() == old(st.Snapshot())
    ensures r.Ok? ==>
      st.Snapshot() == old(st.Snapshot()).(
        scores := old(st.scores) - {scoreId},
        disputes := map d | d in old(st.disputes) :: ClearFinalScore(old(st.disputes[d]), scoreId))
  {
    if scoreId !in st.scores {
      return Err(NotFound);
    }
    var s := st.scores[scoreId];
    var u := st.users[actor];
    if s.submittedBy != actor && !u.IsOrganizer() {
      return Err(PermissionDenied);
    }
    if s.isConfirmed && !u.IsOrganizer() {
      return Err(InvalidState);
    }
    ScoreRemovalKeepsConsistent(st.Snapshot(), scoreId);
    st.scores := st.scores - {scoreId};
    st.disputes := map d | d in st.disputes :: ClearFinalScore(st.disputes[d], scoreId);
    r := Ok(());
  }
}
