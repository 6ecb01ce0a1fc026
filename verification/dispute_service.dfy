/**
 * The dispute workflow (the DisputeService of apps/scores/services.py): a player
 * of a match raises a dispute, the parties add evidence, a referee or organizer
 * reviews it and resolves it by naming a final score and/or a winner. A dispute
 * is active while it is open or under review, and a match has at most one
 * active dispute at a time.
 */
module DisputeService {
  import opened Base
  import opened Exceptions
  import opened AccountModels
  import opened TournamentModels
  import opened ScoreModels
  import opened Db

  /**
   * get_open_disputes: the disputes still being handled, i.e. those not resolved.
   * In a consistent store they belong to pairwise different matches.
   */
  function OpenDisputes(disputes: map<DisputeId, Dispute>): (r: set<DisputeId>)
    ensures forall id :: id in r <==> id in disputes && disputes[id].status != Resolved
    ensures OneActiveDispute(disputes) ==>
      forall a, b | a in r && b in r && a != b :: disputes[a].matchId != disputes[b].matchId
  {
    set id | id in disputes && disputes[id].status.IsActive()
  }

  /** Whether the match has an open or under-review dispute. */
  predicate HasActiveDispute(disputes: map<DisputeId, Dispute>, matchId: MatchId) {
    exists id | id in disputes :: disputes[id].matchId == matchId && disputes[id].status.IsActive()
  }

  /** Opening a dispute on a match without an active one, and marking the match disputed, keeps the store consistent. */
  lemma OpenKeepsConsistent(t: Tables, matchId: MatchId, actor: UserId, reason: string)
    requires Consistent(t) && matchId in t.matches && !HasActiveDispute(t.disputes, matchId)
    ensures Consistent(t.(
      disputes := t.disputes[t.nextDisputeId := Dispute(matchId, actor, reason, Open, None, "", None, None)],
      nextDisputeId := t.nextDisputeId + 1,
      matches := t.matches[matchId := t.matches[matchId].(status := Disputed)]))
  {
  }

  /**
   * create_dispute: a player of the match opens a dispute, unless one is already
   * active for it; the match becomes disputed whatever its status was.
   */
  method CreateDispute(st: Store, matchId: MatchId, reason: string, actor: UserId) returns (r: Result<DisputeId>)
    requires st.Valid() && actor in st.users
    modifies st
    ensures st.Valid()
    ensures matchId !in old(st.matches) ==> r == Err(NotFound)
    ensures matchId in old(st.matches) ==>
      var m, u := old(st.matches[matchId]), old(st.users[actor]);
      r == (if !u.IsPlayer() || !IsPlayerInMatch(m, actor) then Err(PermissionDenied)
            else if HasActiveDispute(old(st.disputes), matchId) then Err(DisputeError)
            else Ok(old(st.nextDisputeId)))
    ensures r.Err? ==> st.Snapshot() == old(st.Snapshot())
    ensures r.Ok? ==>
      var m := old(st.matches[matchId]);
      st.Snapshot() == old(st.Snapshot()).(
        disputes := old(st.disputes)[r.value := Dispute(matchId, actor, reason, Open, None, "", None, None)],
        nextDisputeId := r.value + 1,
        matches := old(st.matches)[matchId := m.(status := Disputed)])
  {
    if matchId !in st.matches {
      return Err(NotFound);
    }
    var m := st.matches[matchId];
    var u := st.users[actor];
    if !u.IsPlayer() || !IsPlayerInMatch(m, actor) {
      return Err(PermissionDenied);
    }
    if HasActiveDispute(st.disputes, matchId) {
      return Err(DisputeError);
    }
    OpenKeepsConsistent(st.Snapshot(), matchId, actor, reason);
    var id := st.nextDisputeId;
    st.disputes := st.disputes[id := Dispute(matchId, actor, reason, Open, None, "", None, None)];
    st.nextDisputeId := id + 1;
    st.matches := st.matches[matchId := m.(status := Disputed)];
    r := Ok(id);
  }

  /** An optional key counts as given only when it is present and not 0 (0 is false in the source). */
  predicate Given(key: Option<nat>) {
    key.Some? && key.value != 0
  }

  /**
   * The winner a resolution records: the declared winner when one is given, else
   * the winner of the accepted final score, else none. When the declared winner
   * is a player of the match and the final score belongs to the match, the
   * result is a player of the match.
   */
  function ResolvedWinner(m: Match, scores: map<ScoreId, Score>, finalScore: Option<ScoreId>, winnerId: Option<UserId>): (w: Option<UserId>)
    requires Given(finalScore) ==> finalScore.value in scores
    ensures Given(winnerId) ==> w == winnerId
    ensures !Given(winnerId) && !Given(finalScore) ==> w.None?
    ensures (Given(winnerId) ==> IsPlayerInMatch(m, winnerId.value)) &&
            (Given(finalScore) ==> WinnerAmongPlayers(scores[finalScore.value].winner, m))
            ==> WinnerAmongPlayers(w, m)
  {
    if Given(winnerId) then winnerId
    else if Given(finalScore) then scores[finalScore.value].winner
    else None
  }

  /** Closing a dispute and completing its match with a winner among its players keeps the store consistent. */
  lemma CloseKeepsConsistent(t: Tables, disputeId: DisputeId, d: Dispute, winner: Option<UserId>)
    requires Consistent(t) && disputeId in t.disputes
    requires d.matchId == t.disputes[disputeId].matchId && d.status == Resolved
    requires d.finalScore.Some? ==> d.finalScore.value in t.scores && t.scores[d.finalScore.value].matchId == d.matchId
    requires WinnerAmongPlayers(winner, t.matches[d.matchId])
    ensures Consistent(t.(disputes := t.disputes[disputeId := d],
      matches := t.matches[d.matchId := t.matches[d.matchId].(status := MatchStatus.Completed, winner := winner)]))
  {
  }

  /**
   * Store the resolved dispute and complete its match with the given winner,
   * which is a player of the match; the accepted score belongs to the match.
   */
  method CloseDispute(st: Store, disputeId: DisputeId, d: Dispute, winner: Option<UserId>)
    requires st.Valid() && disputeId in st.disputes
    requires d.matchId == st.disputes[disputeId].matchId && d.status == Resolved
    requires d.finalScore.Some? ==> d.finalScore.value in st.scores && st.scores[d.finalScore.value].matchId == d.matchId
    requires WinnerAmongPlayers(winner, st.matches[d.matchId])
    modifies st
    ensures st.Valid()
    ensures st.Snapshot() == old(st.Snapshot()).(
      disputes := old(st.disputes)[disputeId := d],
      matches := old(st.matches)[d.matchId := old(st.matches[d.matchId]).(status := MatchStatus.Completed, winner := winner)])
  {
    CloseKeepsConsistent(st.Snapshot(), disputeId, d, winner);
    st.disputes := st.disputes[disputeId := d];
    st.matches := st.matches[d.matchId := st.matches[d.matchId].(status := MatchStatus.Completed, winner := winner)];
  }

  /**
   * resolve_dispute: the match's referee or any organizer closes an unresolved
   * dispute, optionally accepting a score of the same match and/or naming a
   * player of the match as winner; the match is completed with that winner.
   */
  method ResolveDispute(st: Store, disputeId: DisputeId, notes: string, actor: UserId,
                        finalScore: Option<ScoreId>, winnerId: Option<UserId>, now: Time)
    returns (r: Result<DisputeId>)
    requires st.Valid() && actor in st.users
    modifies st
    ensures st.Valid()
    ensures disputeId !in old(st.disputes) ==> r == Err(NotFound)
    ensures disputeId in old(st.disputes) ==>
      var d, u := old(st.disputes[disputeId]), old(st.users[actor]);
      var m := old(st.matches[d.matchId]);
      r == (if !(u.IsReferee() || u.IsOrganizer()) then Err(PermissionDenied)
            else if u.IsReferee() && m.referee != Some(actor) then Err(PermissionDenied)
            else if d.status == Resolved then Err(InvalidState)
            else if Given(finalScore) &&
                    !(finalScore.value in old(st.scores) && old(st.scores[finalScore.value]).matchId == d.matchId)
            then Err(NotFound)
            else if Given(winnerId) && winnerId.value !in old(st.users) then Err(NotFound)
            else if Given(winnerId) && !IsPlayerInMatch(m, winnerId.value) then Err(ValidationError)
            else Ok(disputeId))
    ensures r.Err? ==> st.Snapshot() == old(st.Snapshot())
    ensures r.Ok? ==>
      var d := old(st.disputes[disputeId]);
      var m := old(st.matches[d.matchId]);
      var accepted := if Given(finalScore) then finalScore else None;
      st.Snapshot() == old(st.Snapshot()).(
        disputes := old(st.disputes)[disputeId := d.(status := Resolved, resolvedBy := Some(actor),
          resolutionNotes := notes, resolvedAt := Some(now), finalScore := accepted)],
        matches := old(st.matches)[d.matchId := m.(status := MatchStatus.Completed,
          winner := ResolvedWinner(m, old(st.scores), finalScore, winnerId))])
  {
    if disputeId !in st.disputes {
      return Err(NotFound);
    }
    var d := st.disputes[disputeId];
    var u := st.users[actor];
    var m := st.matches[d.matchId];
    if !(u.IsReferee() || u.IsOrganizer()) {
      return Err(PermissionDenied);
    }
    if u.IsReferee() && m.referee != Some(actor) {
      return Err(PermissionDenied);
    }
    if d.status == Resolved {
      return Err(InvalidState);
    }
    var accepted := None;
    if Given(finalScore) {
      if finalScore.value !in st.scores || st.scores[finalScore.value].matchId != d.matchId {
        return Err(NotFound);
      }
      accepted := finalScore;
    }
    var winner := None;
    if Given(winnerId) {
      if winnerId.value !in st.users {
        return Err(NotFound);
      }
      if !IsPlayerInMatch(m, winnerId.value) {
        return Err(ValidationError);
      }
      winner := winnerId;
    } else if accepted.Some? {
      winner := st.scores[accepted.value].winner;
    }
    assert winner == ResolvedWinner(m, st.scores, finalScore, winnerId);
    CloseDispute(st, disputeId, d.(status := Resolved, resolvedBy := Some(actor),
      resolutionNotes := notes, resolvedAt := Some(now), finalScore := accepted), winner);
    r := Ok(disputeId);
  }

  /** Evidence attached to an existing dispute, under a fresh key, keeps the store consistent. */
  lemma EvidenceKeepsConsistent(t: Tables, e: Evidence)
    requires Consistent(t) && e.disputeId in t.disputes
    ensures Consistent(t.(evidence := t.evidence[t.nextEvidenceId := e], nextEvidenceId := t.nextEvidenceId + 1))
  {
  }

  /**
   * add_evidence: while a dispute is unresolved, a player of its match, any
   * referee or any organizer may attach evidence to it.
   */
  method AddEvidence(st: Store, disputeId: DisputeId, file: Option<FileRef>, description: string, actor: UserId)
    returns (r: Result<EvidenceId>)
    requires st.Valid() && actor in st.users
    modifies st
    ensures st.Valid()
    ensures disputeId !in old(st.disputes) ==> r == Err(NotFound)
    ensures disputeId in old(st.disputes) ==>
      var d, u := old(st.disputes[disputeId]), old(st.users[actor]);
      var m := old(st.matches[d.matchId]);
      r == (if d.status == Resolved then Err(InvalidState)
            else if u.IsPlayer() && !IsPlayerInMatch(m, actor) then Err(PermissionDenied)
            else if u.IsSpectator() then Err(PermissionDenied)
            else Ok(old(st.nextEvidenceId)))
    ensures r.Err? ==> st.Snapshot() == old(st.Snapshot())
    ensures r.Ok? ==>
      st.Snapshot() == old(st.Snapshot()).(
        evidence := old(st.evidence)[r.value := Evidence(disputeId, actor, file, description)],
        nextEvidenceId := r.value + 1)
  {
    if disputeId !in st.disputes {
      return Err(NotFound);
    }
    var d := st.disputes[disputeId];
    if d.status == Resolved {
      return Err(InvalidState);
    }
    var m := st.matches[d.matchId];
    var u := st.users[actor];
    if u.IsPlayer() {
      if !IsPlayerInMatch(m, actor) {
        return Err(PermissionDenied);
      }
    } else if !(u.IsReferee() || u.IsOrganizer()) {
      return Err(PermissionDenied);
    }
    EvidenceKeepsConsistent(st.Snapshot(), Evidence(disputeId, actor, file, description));
    var id := st.nextEvidenceId;
    st.evidence := st.evidence[id := Evidence(disputeId, actor, file, description)];
    st.nextEvidenceId := id + 1;
    r := Ok(id);
  }

  /**
   * mark_under_review as written: any referee or organizer sets the status to
   * under review, whatever the status was, a resolved dispute included.
   */
  function MarkUnderReviewAsWritten(disputes: map<DisputeId, Dispute>, disputeId: DisputeId, u: User)
    : (r: Result<map<DisputeId, Dispute>>)
    ensures disputeId !in disputes ==> r == Err(NotFound)
    ensures disputeId in disputes && !(u.IsReferee() || u.IsOrganizer()) ==> r == Err(PermissionDenied)
    ensures disputeId in disputes && (u.IsReferee() || u.IsOrganizer()) ==> r.Ok?
    ensures r.Ok? ==> disputeId in disputes && r.value == disputes[disputeId := disputes[disputeId].(status := UnderReview)]
  {
    if disputeId !in disputes then Err(NotFound)
    else if !(u.IsReferee() || u.IsOrganizer()) then Err(PermissionDenied)
    else Ok(disputes[disputeId := disputes[disputeId].(status := UnderReview)])
  }

  /**
   * As written, reviewing a resolved dispute makes it active again: with a
   * resolved dispute 1 and an open dispute 2 on the same match, marking 1 under
   * review leaves two active disputes on that match.
   */
  lemma MarkUnderReviewReactivatesResolved()
    ensures
      var open := Dispute(7, 3, "second", Open, None, "", None, None);
      var closed := open.(reason := "first", status := Resolved, resolvedBy := Some(5));
      var disputes := map[1 := closed, 2 := open];
      var referee := User("ref", "ref@example.org", "pw", "", "", Referee, "", "", true, false, false);
      var after := MarkUnderReviewAsWritten(disputes, 1, referee);
      && OneActiveDispute(disputes)
      && after.Ok?
      && !OneActiveDispute(after.value)
  {
    var open := Dispute(7, 3, "second", Open, None, "", None, None);
    var closed := open.(reason := "first", status := Resolved, resolvedBy := Some(5));
    var disputes := map[1 := closed, 2 := open];
    var after := disputes[1 := closed.(status := UnderReview)];
    assert after[1].matchId == after[2].matchId && after[1].status.IsActive() && after[2].status.IsActive();
  }

  /**
   * Putting an unresolved dispute under review keeps at most one active dispute
   * per match: the dispute was active already, and no other dispute changes.
   */
  lemma ReviewKeepsOneActiveDispute(disputes: map<DisputeId, Dispute>, disputeId: DisputeId)
    requires OneActiveDispute(disputes)
    requires disputeId in disputes && disputes[disputeId].status != Resolved
    ensures OneActiveDispute(disputes[disputeId := disputes[disputeId].(status := UnderReview)])
  {
  }

  /**
   * mark_under_review, corrected: a resolved dispute stays resolved (the call is
   * refused with an invalid-state error), so at most one dispute per match is
   * ever active.
   */
  method MarkUnderReview(st: Store, disputeId: DisputeId, actor: UserId) returns (r: Result<DisputeId>)
    requires st.Valid() && actor in st.users
    modifies st
    ensures st.Valid()
    ensures disputeId !in old(st.disputes) ==> r == Err(NotFound)
    ensures disputeId in old(st.disputes) ==>
      var d, u := old(st.disputes[disputeId]), old(st.users[actor]);
      r == (if !(u.IsReferee() || u.IsOrganizer()) then Err(PermissionDenied)
            else if d.status == Resolved then Err(InvalidState)
            else Ok(disputeId))
    ensures r.Err? ==> st.Snapshot() == old(st.Snapshot())
    ensures r.Ok? ==>
      st.Snapshot() == old(st.Snapshot()).(
        disputes := old(st.disputes)[disputeId := old(st.disputes[disputeId]).(status := UnderReview)])
  {
    if disputeId !in st.disputes {
      return Err(NotFound);
    }
    var u := st.users[actor];
    if !(u.IsReferee() || u.IsOrganizer()) {
      return Err(PermissionDenied);
    }
    var d := st.disputes[disputeId];
    if d.status == Resolved {
      return Err(InvalidState);
    }
    ReviewKeepsOneActiveDispute(st.disputes, disputeId);
    st.disputes := st.disputes[disputeId := d.(status := UnderReview)];
    r := Ok(disputeId);
  }
}
