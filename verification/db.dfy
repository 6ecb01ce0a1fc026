/**
 * The persistent store the services read and write: one table per entity, each
 * a map from primary key to record, with auto-increment counters for new keys.
 * Ranking rows are kept per tournament and per player, so there is at most one
 * row per (player, tournament) pair and at most one global row per player.
 */
module Db {
  import opened Base
  import opened AccountModels
  import opened TournamentModels
  import opened ScoreModels
  import opened RankingModels

  /** Per-tournament ranking rows: tournament -> player -> row. */
  type RankingTable = map<TournamentId, map<UserId, Ranking>>

  /** The rows of one tournament (none when the tournament has no row yet). */
  function RowsOf(rankings: RankingTable, t: TournamentId): map<UserId, Ranking> {
    if t in rankings then rankings[t] else map[]
  }

  /** A match's winner is unset or one of its two players. */
  predicate WinnerAmongPlayers(w: Option<UserId>, m: Match) {
    w.None? || w == m.player1 || w == m.player2
  }

  predicate MatchConsistent(m: Match) {
    WinnerAmongPlayers(m.winner, m) && (m.status == Scheduled ==> m.winner.None?)
  }

  /** One score per (match, submitter) pair. */
  predicate OneScorePerSubmitter(scores: map<ScoreId, Score>) {
    forall a, b | a in scores && b in scores && a != b ::
      !(scores[a].matchId == scores[b].matchId && scores[a].submittedBy == scores[b].submittedBy)
  }

  /** At most one open or under-review dispute per match. */
  predicate OneActiveDispute(disputes: map<DisputeId, Dispute>) {
    forall a, b | a in disputes && b in disputes && a != b && disputes[a].matchId == disputes[b].matchId ::
      !(disputes[a].status.IsActive() && disputes[b].status.IsActive())
  }

  predicate MatchesConsistent(matches: map<MatchId, Match>, tournaments: map<TournamentId, Tournament>) {
    forall id | id in matches :: matches[id].tournamentId in tournaments && MatchConsistent(matches[id])
  }

  /**
   * Every score belongs to a match that has left the scheduled state, and its
   * winner is unset or one of that match's players.
   */
  predicate ScoresConsistent(scores: map<ScoreId, Score>, matches: map<MatchId, Match>) {
    forall id | id in scores ::
      && scores[id].matchId in matches
      && matches[scores[id].matchId].status != Scheduled
      && WinnerAmongPlayers(scores[id].winner, matches[scores[id].matchId])
  }

  /** Every dispute belongs to a match, and its final score (if any) is a score of that match. */
  predicate DisputesConsistent(disputes: map<DisputeId, Dispute>, scores: map<ScoreId, Score>, matches: map<MatchId, Match>) {
    forall id | id in disputes ::
      && disputes[id].matchId in matches
      && (disputes[id].finalScore.Some? ==>
            disputes[id].finalScore.value in scores &&
            scores[disputes[id].finalScore.value].matchId == disputes[id].matchId)
  }

  predicate EvidenceConsistent(evidence: map<EvidenceId, Evidence>, disputes: map<DisputeId, Dispute>) {
    forall id | id in evidence :: evidence[id].disputeId in disputes
  }

  predicate KeysBelow<V>(m: map<nat, V>, bound: nat) {
    forall k | k in m :: k < bound
  }

  /** The whole content of the store, as one value (used to say what a call leaves unchanged). */
  datatype Tables = Tables(
    users: map<UserId, User>,
    tournaments: map<TournamentId, Tournament>,
    matches: map<MatchId, Match>,
    scores: map<ScoreId, Score>,
    disputes: map<DisputeId, Dispute>,
    evidence: map<EvidenceId, Evidence>,
    rankings: RankingTable,
    globalRankings: map<UserId, GlobalRanking>,
    nextUserId: nat,
    nextTournamentId: nat,
    nextMatchId: nat,
    nextScoreId: nat,
    nextDisputeId: nat,
    nextEvidenceId: nat)

  /** Referential integrity (the cascades of the schema) and the business invariants, over a whole state. */
  ghost predicate Consistent(t: Tables) {
    && KeysBelow(t.users, t.nextUserId)
    && KeysBelow(t.tournaments, t.nextTournamentId)
    && KeysBelow(t.matches, t.nextMatchId)
    && KeysBelow(t.scores, t.nextScoreId)
    && KeysBelow(t.disputes, t.nextDisputeId)
    && KeysBelow(t.evidence, t.nextEvidenceId)
    && MatchesConsistent(t.matches, t.tournaments)
    && ScoresConsistent(t.scores, t.matches)
    && OneScorePerSubmitter(t.scores)
    && DisputesConsistent(t.disputes, t.scores, t.matches)
    && OneActiveDispute(t.disputes)
    && EvidenceConsistent(t.evidence, t.disputes)
    && (forall id | id in t.rankings :: id in t.tournaments)
  }

  class Store {
    var users: map<UserId, User>
    var tournaments: map<TournamentId, Tournament>
    var matches: map<MatchId, Match>
    var scores: map<ScoreId, Score>
    var disputes: map<DisputeId, Dispute>
    var evidence: map<EvidenceId, Evidence>
    var rankings: RankingTable
    var globalRankings: map<UserId, GlobalRanking>
    var nextUserId: nat
    var nextTournamentId: nat
    var nextMatchId: nat
    var nextScoreId: nat
    var nextDisputeId: nat
    var nextEvidenceId: nat

    function Snapshot(): Tables
      reads this
    {
      Tables(users, tournaments, matches, scores, disputes, evidence, rankings, globalRankings,
             nextUserId, nextTournamentId, nextMatchId, nextScoreId, nextDisputeId, nextEvidenceId)
    }

    /** Referential integrity (the cascades of the schema) and the business invariants. */
    ghost predicate Valid()
      reads this
    {
      Consistent(Snapshot())
    }

    /** An empty store; keys start at 1. */
    constructor ()
      ensures Valid()
      ensures users == map[] && tournaments == map[] && matches == map[] && scores == map[]
      ensures disputes == map[] && evidence == map[] && rankings == map[] && globalRankings == map[]
      ensures nextUserId == 1 && nextTournamentId == 1 && nextMatchId == 1
      ensures nextScoreId == 1 && nextDisputeId == 1 && nextEvidenceId == 1
    {
      users, tournaments, matches, scores := map[], map[], map[], map[];
      disputes, evidence, rankings, globalRankings := map[], map[], map[], map[];
      nextUserId, nextTournamentId, nextMatchId := 1, 1, 1;
      nextScoreId, nextDisputeId, nextEvidenceId := 1, 1, 1;
    }
  }
}
