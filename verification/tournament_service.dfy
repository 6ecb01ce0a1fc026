/**
 * Tournament life cycle and membership (the TournamentService of
 * apps/tournaments/services.py). Only organizers may call these operations. A
 * tournament moves from draft to registration to in progress to completed, and
 * adding a player never takes the player set beyond the player limit.
 */
module TournamentService {
  import opened Base
  import opened Exceptions
  import opened AccountModels
  import opened TournamentModels
  import opened ScoreModels
  import opened Db

  /** `id` names a user with the given role (a lookup by id and role). */
  predicate HasRole(users: map<UserId, User>, id: UserId, role: Role) {
    id in users && users[id].role == role
  }

  /** create_tournament: an organizer creates a draft tournament with no players or referees. */
  method CreateTournament(st: Store, name: string, description: string, startDate: Time, endDate: Time,
                          location: string, maxPlayers: Option<nat>, actor: UserId)
    returns (r: Result<TournamentId>)
    requires st.Valid() && actor in st.users
    modifies st
    ensures st.Valid()
    ensures r == (if old(st.users[actor]).IsOrganizer() then Ok(old(st.nextTournamentId)) else Err(PermissionDenied))
    ensures r.Err? ==> st.Snapshot() == old(st.Snapshot())
    ensures r.Ok? ==>
      st.Snapshot() == old(st.Snapshot()).(
        tournaments := old(st.tournaments)[r.value := Tournament(name, description, startDate, endDate, location,
          Draft, maxPlayers.GetOr(DefaultMaxPlayers), actor, {}, {})],
        nextTournamentId := r.value + 1)
  {
    if !st.users[actor].IsOrganizer() {
      return Err(PermissionDenied);
    }
    var id := st.nextTournamentId;
    st.tournaments := st.tournaments[id := Tournament(name, description, startDate, endDate, location,
      Draft, maxPlayers.GetOr(DefaultMaxPlayers), actor, {}, {})];
    st.nextTournamentId := id + 1;
    r := Ok(id);
  }

  /** One entry of the update data of update_tournament: a field and its new value. */
  datatype TournamentField =
    | SetName(name: string)
    | SetDescription(description: string)
    | SetStartDate(startDate: Time)
    | SetEndDate(endDate: Time)
    | SetLocation(location: string)
    | SetStatus(status: TournamentStatus)
    | SetMaxPlayers(maxPlayers: nat)
    | SetCreatedBy(createdBy: UserId)

  function ApplyField(t: Tournament, f: TournamentField): Tournament {
    match f
    case SetName(v) => t.(name := v)
    case SetDescription(v) => t.(description := v)
    case SetStartDate(v) => t.(startDate := v)
    case SetEndDate(v) => t.(endDate := v)
    case SetLocation(v) => t.(location := v)
    case SetStatus(v) => t.(status := v)
    case SetMaxPlayers(v) => t.(maxPlayers := v)
    case SetCreatedBy(v) => t.(createdBy := v)
  }

  /** The tournament after the entries are written one after the other, later entries last. */
  function ApplyFields(t: Tournament, fs: seq<TournamentField>): Tournament {
    if |fs| == 0 then t else ApplyField(ApplyFields(t, fs[..|fs| - 1]), fs[|fs| - 1])
  }

  /** The update never changes who plays in or referees the tournament. */
  lemma {:induction false} ApplyFieldsKeepsParticipants(t: Tournament, fs: seq<TournamentField>)
    ensures ApplyFields(t, fs).players == t.players
    ensures ApplyFields(t, fs).referees == t.referees
  {
    if |fs| > 0 {
      ApplyFieldsKeepsParticipants(t, fs[..|fs| - 1]);
    }
  }

  /** Without a status entry the status is unchanged. */
  lemma {:induction false} NoStatusEntryKeepsStatus(t: Tournament, fs: seq<TournamentField>)
    requires forall i | 0 <= i < |fs| :: !fs[i].SetStatus?
    ensures ApplyFields(t, fs).status == t.status
  {
    if |fs| > 0 {
      NoStatusEntryKeepsStatus(t, fs[..|fs| - 1]);
    }
  }

  /** With status entries, the last one wins. */
  lemma {:induction false} LastStatusEntryWins(t: Tournament, fs: seq<TournamentField>, i: nat)
    requires i < |fs| && fs[i].SetStatus?
    requires forall j | i < j < |fs| :: !fs[j].SetStatus?
    ensures ApplyFields(t, fs).status == fs[i].status
  {
    if i < |fs| - 1 {
      LastStatusEntryWins(t, fs[..|fs| - 1], i);
    }
  }

  /**
   * update_tournament: unless the tournament is completed or cancelled, an
   * organizer writes the given fields in order.
   */
  method UpdateTournament(st: Store, tournamentId: TournamentId, fields: seq<TournamentField>, actor: UserId)
    returns (r: Result<TournamentId>)
    requires st.Valid() && actor in st.users && tournamentId in st.tournaments
    modifies st
    ensures st.Valid()
    ensures
      var t := old(st.tournaments[tournamentId]);
      r == (if !old(st.users[actor]).IsOrganizer() then Err(PermissionDenied)
            else if t.status == TournamentStatus.Completed || t.status == TournamentStatus.Cancelled then Err(InvalidState)
            else Ok(tournamentId))
    ensures r.Err? ==> st.Snapshot() == old(st.Snapshot())
    ensures r.Ok? ==>
      st.Snapshot() == old(st.Snapshot()).(
        tournaments := old(st.tournaments)[tournamentId := ApplyFields(old(st.tournaments[tournamentId]), fields)])
  {
    if !st.users[actor].IsOrganizer() {
      return Err(PermissionDenied);
    }
    var t := st.tournaments[tournamentId];
    if t.status == TournamentStatus.Completed || t.status == TournamentStatus.Cancelled {
      return Err(InvalidState);
    }
    var i := 0;
    while i < |fields|
      invariant 0 <= i <= |fields|
      invariant t == ApplyFields(st.tournaments[tournamentId], fields[..i])
    {
      assert fields[..i + 1][..i] == fields[..i];
      t := ApplyField(t, fields[i]);
      i := i + 1;
    }
    assert fields[..i] == fields;
    st.tournaments := st.tournaments[tournamentId := t];
    r := Ok(tournamentId);
  }

  /** The matches of other tournaments. */
  function MatchesOutside(matches: map<MatchId, Match>, tournamentId: TournamentId): (r: map<MatchId, Match>)
    ensures forall id :: id in r <==> id in matches && matches[id].tournamentId != tournamentId
    ensures forall id | id in r :: r[id] == matches[id]
  {
    map id | id in matches && matches[id].tournamentId != tournamentId :: matches[id]
  }

  /** The scores whose match is kept. */
  function ScoresOfMatches(scores: map<ScoreId, Score>, matches: map<MatchId, Match>): (r: map<ScoreId, Score>)
    ensures forall id :: id in r <==> id in scores && scores[id].matchId in matches
    ensures forall id | id in r :: r[id] == scores[id]
  {
    map id | id in scores && scores[id].matchId in matches :: scores[id]
  }

  /** The disputes whose match is kept. */
  function DisputesOfMatches(disputes: map<DisputeId, Dispute>, matches: map<MatchId, Match>): (r: map<DisputeId, Dispute>)
    ensures forall id :: id in r <==> id in disputes && disputes[id].matchId in matches
    ensures forall id | id in r :: r[id] == disputes[id]
  {
    map id | id in disputes && disputes[id].matchId in matches :: disputes[id]
  }

  /** The evidence whose dispute is kept. */
  function EvidenceOfDisputes(evidence: map<EvidenceId, Evidence>, disputes: map<DisputeId, Dispute>): (r: map<EvidenceId, Evidence>)
    ensures forall id :: id in r <==> id in evidence && evidence[id].disputeId in disputes
    ensures forall id | id in r :: r[id] == evidence[id]
  {
    map id | id in evidence && evidence[id].disputeId in disputes :: evidence[id]
  }

  /**
   * Deleting a tournament together with everything that depends on it leaves a
   * consistent set of tables: no record is left pointing at a deleted one.
   */
  lemma CascadeKeepsConsistency(tournaments: map<TournamentId, Tournament>, matches: map<MatchId, Match>,
                                scores: map<ScoreId, Score>, disputes: map<DisputeId, Dispute>,
                                evidence: map<EvidenceId, Evidence>, tournamentId: TournamentId)
    requires MatchesConsistent(matches, tournaments)
    requires ScoresConsistent(scores, matches) && OneScorePerSubmitter(scores)
    requires DisputesConsistent(disputes, scores, matches) && OneActiveDispute(disputes)
    requires EvidenceConsistent(evidence, disputes)
    ensures
      var ms := MatchesOutside(matches, tournamentId);
      var ss := ScoresOfMatches(scores, ms);
      var ds := DisputesOfMatches(disputes, ms);
      var es := EvidenceOfDisputes(evidence, ds);
      && MatchesConsistent(ms, tournaments - {tournamentId})
      && ScoresConsistent(ss, ms) && OneScorePerSubmitter(ss)
      && DisputesConsistent(ds, ss, ms) && OneActiveDispute(ds)
      && EvidenceConsistent(es, ds)
  {
    var ms := MatchesOutside(matches, tournamentId);
    var ss := ScoresOfMatches(scores, ms);
    var ds := DisputesOfMatches(disputes, ms);
    forall id | id in ds && ds[id].finalScore.Some?
      ensures ds[id].finalScore.value in ss
    {
      assert scores[disputes[id].finalScore.value].matchId == disputes[id].matchId;
    }
  }

  /** The whole store after the cascade, key counters unchanged, is consistent. */
  lemma CascadeKeepsStoreConsistent(t: Tables, tournamentId: TournamentId)
    requires Consistent(t)
    ensures
      var ms := MatchesOutside(t.matches, tournamentId);
      var ds := DisputesOfMatches(t.disputes, ms);
      Consistent(t.(tournaments := t.tournaments - {tournamentId}, matches := ms, scores := ScoresOfMatches(t.scores, ms),
        disputes := ds, evidence := EvidenceOfDisputes(t.evidence, ds), rankings := t.rankings - {tournamentId}))
  {
    CascadeKeepsConsistency(t.tournaments, t.matches, t.scores, t.disputes, t.evidence, tournamentId);
  }

  /**
   * delete_tournament: an organizer deletes a tournament that is not in progress,
   * with its matches, their scores, their disputes and the evidence of those
   * disputes, and its ranking rows.
   */
  method DeleteTournament(st: Store, tournamentId: TournamentId, actor: UserId) returns (r: Result<()>)
    requires st.Valid() && actor in st.users && tournamentId in st.tournaments
    modifies st
    ensures st.Valid()
    ensures r == (if !old(st.users[actor]).IsOrganizer() then Err(PermissionDenied)
                  else if old(st.tournaments[tournamentId]).status == TournamentStatus.InProgress then Err(InvalidState)
                  else Ok(()))
    ensures r.Err? ==> st.Snapshot() == old(st.Snapshot())
    ensures r.Ok? ==>
      var matches := MatchesOutside(old(st.matches), tournamentId);
      var disputes := DisputesOfMatches(old(st.disputes), matches);
      st.Snapshot() == old(st.Snapshot()).(
        tournaments := old(st.tournaments) - {tournamentId},
        matches := matches,
        scores := ScoresOfMatches(old(st.scores), matches),
        disputes := disputes,
        evidence := EvidenceOfDisputes(old(st.evidence), disputes),
        rankings := old(st.rankings) - {tournamentId})
  {
    if !st.users[actor].IsOrganizer() {
      return Err(PermissionDenied);
    }
    if st.tournaments[tournamentId].status == TournamentStatus.InProgress {
      return Err(InvalidState);
    }
    CascadeKeepsStoreConsistent(st.Snapshot(), tournamentId);
    var tournaments := st.tournaments - {tournamentId};
    var matches := MatchesOutside(st.matches, tournamentId);
    var scores := ScoresOfMatches(st.scores, matches);
    var disputes := DisputesOfMatches(st.disputes, matches);
    var evidence := EvidenceOfDisputes(st.evidence, disputes);
    var rankings := st.rankings - {tournamentId};
    ghost var after := st.Snapshot().(tournaments := tournaments, matches := matches, scores := scores,
      disputes := disputes, evidence := evidence, rankings := rankings);
    st.tournaments, st.matches, st.scores, st.disputes, st.evidence, st.rankings :=
      tournaments, matches, scores, disputes, evidence, rankings;
    assert st.Snapshot() == after;
    r := Ok(());
  }

  /**
   * add_player: while the tournament is a draft or open for registration, an
   * organizer adds a player-role user, unless the tournament is full or, checked
   * after that, the player is already in it.
   */
  method AddPlayer(st: Store, tournamentId: TournamentId, playerId: UserId, actor: UserId) returns (r: Result<TournamentId>)
    requires st.Valid() && actor in st.users && tournamentId in st.tournaments
    modifies st
    ensures st.Valid()
    ensures
      var t := old(st.tournaments[tournamentId]);
      r == (if !old(st.users[actor]).IsOrganizer() then Err(PermissionDenied)
            else if t.status != Draft && t.status != Registration then Err(InvalidState)
            else if !HasRole(old(st.users), playerId, Player) then Err(NotFound)
            else if PlayerCount(t) >= t.maxPlayers then Err(ValidationError)
            else if playerId in t.players then Err(ValidationError)
            else Ok(tournamentId))
    ensures r.Err? ==> st.Snapshot() == old(st.Snapshot())
    ensures r.Ok? ==>
      var t := old(st.tournaments[tournamentId]);
      && st.Snapshot() == old(st.Snapshot()).(tournaments := old(st.tournaments)[tournamentId := t.(players := t.players + {playerId})])
      && PlayerCount(st.tournaments[tournamentId]) == PlayerCount(t) + 1 <= t.maxPlayers
  {
    if !st.users[actor].IsOrganizer() {
      return Err(PermissionDenied);
    }
    var t := st.tournaments[tournamentId];
    if t.status != Draft && t.status != Registration {
      return Err(InvalidState);
    }
    if !HasRole(st.users, playerId, Player) {
      return Err(NotFound);
    }
    if PlayerCount(t) >= t.maxPlayers {
      return Err(ValidationError);
    }
    if playerId in t.players {
      return Err(ValidationError);
    }
    st.tournaments := st.tournaments[tournamentId := t.(players := t.players + {playerId})];
    r := Ok(tournamentId);
  }

  /** remove_player: an organizer removes a player (if present) from a tournament that is not in progress. */
  method RemovePlayer(st: Store, tournamentId: TournamentId, playerId: UserId, actor: UserId) returns (r: Result<()>)
    requires st.Valid() && actor in st.users && tournamentId in st.tournaments
    modifies st
    ensures st.Valid()
    ensures r == (if !old(st.users[actor]).IsOrganizer() then Err(PermissionDenied)
                  else if old(st.tournaments[tournamentId]).status == TournamentStatus.InProgress then Err(InvalidState)
                  else Ok(()))
    ensures r.Err? ==> st.Snapshot() == old(st.Snapshot())
    ensures r.Ok? ==>
      var t := old(st.tournaments[tournamentId]);
      st.Snapshot() == old(st.Snapshot()).(tournaments := old(st.tournaments)[tournamentId := t.(players := t.players - {playerId})])
  {
    if !st.users[actor].IsOrganizer() {
      return Err(PermissionDenied);
    }
    var t := st.tournaments[tournamentId];
    if t.status == TournamentStatus.InProgress {
      return Err(InvalidState);
    }
    st.tournaments := st.tournaments[tournamentId := t.(players := t.players - {playerId})];
    r := Ok(());
  }

  /** add_referee: an organizer adds a referee-role user not yet in the tournament, in any status. */
  method AddReferee(st: Store, tournamentId: TournamentId, refereeId: UserId, actor: UserId) returns (r: Result<TournamentId>)
    requires st.Valid() && actor in st.users && tournamentId in st.tournaments
    modifies st
    ensures st.Valid()
    ensures
      var t := old(st.tournaments[tournamentId]);
      r == (if !old(st.users[actor]).IsOrganizer() then Err(PermissionDenied)
            else if !HasRole(old(st.users), refereeId, Referee) then Err(NotFound)
            else if refereeId in t.referees then Err(ValidationError)
            else Ok(tournamentId))
    ensures r.Err? ==> st.Snapshot() == old(st.Snapshot())
    ensures r.Ok? ==>
      var t := old(st.tournaments[tournamentId]);
      st.Snapshot() == old(st.Snapshot()).(tournaments := old(st.tournaments)[tournamentId := t.(referees := t.referees + {refereeId})])
  {
    if !st.users[actor].IsOrganizer() {
      return Err(PermissionDenied);
    }
    if !HasRole(st.users, refereeId, Referee) {
      return Err(NotFound);
    }
    var t := st.tournaments[tournamentId];
    if refereeId in t.referees {
      return Err(ValidationError);
    }
    st.tournaments := st.tournaments[tournamentId := t.(referees := t.referees + {refereeId})];
    r := Ok(tournamentId);
  }

  /** Set the status of a tournament, leaving everything else as it is. */
  method SetTournamentStatus(st: Store, tournamentId: TournamentId, status: TournamentStatus)
    requires st.Valid() && tournamentId in st.tournaments
    modifies st
    ensures st.Valid()
    ensures st.Snapshot() == old(st.Snapshot()).(
      tournaments := old(st.tournaments)[tournamentId := old(st.tournaments[tournamentId]).(status := status)])
  {
    st.tournaments := st.tournaments[tournamentId := st.tournaments[tournamentId].(status := status)];
  }

  /** open_registration: an organizer opens a draft tournament for registration. */
  method OpenRegistration(st: Store, tournamentId: TournamentId, actor: UserId) returns (r: Result<TournamentId>)
    requires st.Valid() && actor in st.users && tournamentId in st.tournaments
    modifies st
    ensures st.Valid()
    ensures r == (if !old(st.users[actor]).IsOrganizer() then Err(PermissionDenied)
                  else if old(st.tournaments[tournamentId]).status != Draft then Err(InvalidState)
                  else Ok(tournamentId))
    ensures r.Err? ==> st.Snapshot() == old(st.Snapshot())
    ensures r.Ok? ==> st.Snapshot() == old(st.Snapshot()).(
      tournaments := old(st.tournaments)[tournamentId := old(st.tournaments[tournamentId]).(status := Registration)])
    ensures r.Ok? ==> IsRegistrationOpen(st.tournaments[tournamentId])
  {
    if !st.users[actor].IsOrganizer() {
      return Err(PermissionDenied);
    }
    if st.tournaments[tournamentId].status != Draft {
      return Err(InvalidState);
    }
    SetTournamentStatus(st, tournamentId, Registration);
    r := Ok(tournamentId);
  }

  /** start_tournament: an organizer starts a tournament open for registration with at least two players. */
  method StartTournament(st: Store, tournamentId: TournamentId, actor: UserId) returns (r: Result<TournamentId>)
    requires st.Valid() && actor in st.users && tournamentId in st.tournaments
    modifies st
    ensures st.Valid()
    ensures
      var t := old(st.tournaments[tournamentId]);
      r == (if !old(st.users[actor]).IsOrganizer() then Err(PermissionDenied)
            else if t.status != Registration then Err(InvalidState)
            else if PlayerCount(t) < 2 then Err(ValidationError)
            else Ok(tournamentId))
    ensures r.Err? ==> st.Snapshot() == old(st.Snapshot())
    ensures r.Ok? ==> st.Snapshot() == old(st.Snapshot()).(
      tournaments := old(st.tournaments)[tournamentId := old(st.tournaments[tournamentId]).(status := TournamentStatus.InProgress)])
  {
    if !st.users[actor].IsOrganizer() {
      return Err(PermissionDenied);
    }
    var t := st.tournaments[tournamentId];
    if t.status != Registration {
      return Err(InvalidState);
    }
    if PlayerCount(t) < 2 {
      return Err(ValidationError);
    }
    SetTournamentStatus(st, tournamentId, TournamentStatus.InProgress);
    r := Ok(tournamentId);
  }

  /** complete_tournament: an organizer marks a tournament completed, whatever its status. */
  method CompleteTournament(st: Store, tournamentId: TournamentId, actor: UserId) returns (r: Result<TournamentId>)
    requires st.Valid() && actor in st.users && tournamentId in st.tournaments
    modifies st
    ensures st.Valid()
    ensures r == (if old(st.users[actor]).IsOrganizer() then Ok(tournamentId) else Err(PermissionDenied))
    ensures r.Err? ==> st.Snapshot() == old(st.Snapshot())
    ensures r.Ok? ==> st.Snapshot() == old(st.Snapshot()).(
      tournaments := old(st.tournaments)[tournamentId := old(st.tournaments[tournamentId]).(status := TournamentStatus.Completed)])
  {
    if !st.users[actor].IsOrganizer() {
      return Err(PermissionDenied);
    }
    SetTournamentStatus(st, tournamentId, TournamentStatus.Completed);
    r := Ok(tournamentId);
  }
}

/**
 * Match creation, player and referee assignment and match start (the
 * MatchService of apps/tournaments/services.py).
 */
module MatchService {
  import opened Base
  import opened Exceptions
  import opened AccountModels
  import opened TournamentModels
  import opened Db
  import TournamentService

  /**
   * The registration check of assign_players counts the registered users among
   * {player1, player2} and wants two: both are registered and they differ.
   */
  lemma BothRegisteredCount(players: set<UserId>, p1: UserId, p2: UserId)
    ensures |{p1, p2} * players| == 2 <==> p1 != p2 && p1 in players && p2 in players
  {
    var both := {p1, p2} * players;
    if p1 == p2 {
      assert both <= {p1};
      assert |both| <= |{p1}|;
    } else if p1 in players && p2 in players {
      assert both == {p1, p2};
    } else if p1 in players {
      assert both == {p1};
    } else if p2 in players {
      assert both == {p2};
    } else {
      assert both == {};
    }
  }

  /** A consistent match of an existing tournament, stored under a fresh key, keeps the store consistent. */
  lemma NewMatchKeepsConsistent(t: Tables, m: Match)
    requires Consistent(t) && m.tournamentId in t.tournaments && MatchConsistent(m)
    ensures Consistent(t.(matches := t.matches[t.nextMatchId := m], nextMatchId := t.nextMatchId + 1))
  {
  }

  /**
   * create_match: an organizer creates a scheduled match, without winner, in a
   * tournament that is open for registration or in progress; the court defaults
   * to empty and the round to the round of 32.
   */
  method CreateMatch(st: Store, tournamentId: TournamentId, player1: Option<UserId>, player2: Option<UserId>,
                     referee: Option<UserId>, scheduledTime: Option<Time>, court: Option<string>, round: Option<Round>,
                     actor: UserId)
    returns (r: Result<MatchId>)
    requires st.Valid() && actor in st.users && tournamentId in st.tournaments
    modifies st
    ensures st.Valid()
    ensures
      var t := old(st.tournaments[tournamentId]);
      r == (if !old(st.users[actor]).IsOrganizer() then Err(PermissionDenied)
            else if t.status != Registration && t.status != TournamentStatus.InProgress then Err(InvalidState)
            else Ok(old(st.nextMatchId)))
    ensures r.Err? ==> st.Snapshot() == old(st.Snapshot())
    ensures r.Ok? ==> st.Snapshot() == old(st.Snapshot()).(
      matches := old(st.matches)[r.value := Match(tournamentId, player1, player2, referee, scheduledTime,
        court.GetOr(""), round.GetOr(DefaultRound), Scheduled, None)],
      nextMatchId := r.value + 1)
  {
    if !st.users[actor].IsOrganizer() {
      return Err(PermissionDenied);
    }
    var t := st.tournaments[tournamentId];
    if t.status != Registration && t.status != TournamentStatus.InProgress {
      return Err(InvalidState);
    }
    var m := Match(tournamentId, player1, player2, referee, scheduledTime, court.GetOr(""), round.GetOr(DefaultRound),
      Scheduled, None);
    NewMatchKeepsConsistent(st.Snapshot(), m);
    var id := st.nextMatchId;
    st.matches := st.matches[id := m];
    st.nextMatchId := id + 1;
    r := Ok(id);
  }

  /**
   * assign_players: an organizer fills both slots of a scheduled match with two
   * different player-role users registered in the match's tournament.
   */
  method AssignPlayers(st: Store, matchId: MatchId, player1: UserId, player2: UserId, actor: UserId)
    returns (r: Result<MatchId>)
    requires st.Valid() && actor in st.users && matchId in st.matches
    modifies st
    ensures st.Valid()
    ensures
      var m := old(st.matches[matchId]);
      var players := old(st.tournaments[m.tournamentId]).players;
      r == (if !old(st.users[actor]).IsOrganizer() then Err(PermissionDenied)
            else if m.status != Scheduled then Err(InvalidState)
            else if !TournamentService.HasRole(old(st.users), player1, Player) ||
                    !TournamentService.HasRole(old(st.users), player2, Player) then Err(NotFound)
            else if !(player1 != player2 && player1 in players && player2 in players) then Err(ValidationError)
            else Ok(matchId))
    ensures r.Err? ==> st.Snapshot() == old(st.Snapshot())
    ensures r.Ok? ==> st.Snapshot() == old(st.Snapshot()).(
      matches := old(st.matches)[matchId := old(st.matches[matchId]).(player1 := Some(player1), player2 := Some(player2))])
    ensures r.Ok? ==> IsPlayerAssigned(st.matches[matchId])
  {
    if !st.users[actor].IsOrganizer() {
      return Err(PermissionDenied);
    }
    var m := st.matches[matchId];
    if m.status != Scheduled {
      return Err(InvalidState);
    }
    if !TournamentService.HasRole(st.users, player1, Player) || !TournamentService.HasRole(st.users, player2, Player) {
      return Err(NotFound);
    }
    var players := st.tournaments[m.tournamentId].players;
    BothRegisteredCount(players, player1, player2);
    if |{player1, player2} * players| != 2 {
      return Err(ValidationError);
    }
    st.matches := st.matches[matchId := m.(player1 := Some(player1), player2 := Some(player2))];
    r := Ok(matchId);
  }

  /** assign_referee: an organizer sets the referee of a match, in any status, to a referee-role user. */
  method AssignReferee(st: Store, matchId: MatchId, refereeId: UserId, actor: UserId) returns (r: Result<MatchId>)
    requires st.Valid() && actor in st.users && matchId in st.matches
    modifies st
    ensures st.Valid()
    ensures r == (if !old(st.users[actor]).IsOrganizer() then Err(PermissionDenied)
                  else if !TournamentService.HasRole(old(st.users), refereeId, Referee) then Err(NotFound)
                  else Ok(matchId))
    ensures r.Err? ==> st.Snapshot() == old(st.Snapshot())
    ensures r.Ok? ==> st.Snapshot() == old(st.Snapshot()).(
      matches := old(st.matches)[matchId := old(st.matches[matchId]).(referee := Some(refereeId))])
  {
    if !st.users[actor].IsOrganizer() {
      return Err(PermissionDenied);
    }
    if !TournamentService.HasRole(st.users, refereeId, Referee) {
      return Err(NotFound);
    }
    st.matches := st.matches[matchId := st.matches[matchId].(referee := Some(refereeId))];
    r := Ok(matchId);
  }

  /**
   * start_match: an organizer or the match's own referee starts a scheduled
   * match whose two slots are filled.
   */
  method StartMatch(st: Store, matchId: MatchId, actor: UserId) returns (r: Result<MatchId>)
    requires st.Valid() && actor in st.users && matchId in st.matches
    modifies st
    ensures st.Valid()
    ensures
      var m, u := old(st.matches[matchId]), old(st.users[actor]);
      r == (if !(u.IsOrganizer() || (u.IsReferee() && m.referee == Some(actor))) then Err(PermissionDenied)
            else if m.status != Scheduled then Err(InvalidState)
            else if !IsPlayerAssigned(m) then Err(ValidationError)
            else Ok(matchId))
    ensures r.Err? ==> st.Snapshot() == old(st.Snapshot())
    ensures r.Ok? ==> st.Snapshot() == old(st.Snapshot()).(
      matches := old(st.matches)[matchId := old(st.matches[matchId]).(status := MatchStatus.InProgress)])
  {
    var m := st.matches[matchId];
    var u := st.users[actor];
    if !(u.IsOrganizer() || (u.IsReferee() && m.referee == Some(actor))) {
      return Err(PermissionDenied);
    }
    if m.status != Scheduled {
      return Err(InvalidState);
    }
    if !IsPlayerAssigned(m) {
      return Err(ValidationError);
    }
    st.matches := st.matches[matchId := m.(status := MatchStatus.InProgress)];
    r := Ok(matchId);
  }
}
