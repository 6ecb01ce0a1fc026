/**
 * The RankingService of apps/rankings/services.py: crediting a completed
 * match to the tournament rows of its two players, renumbering positions,
 * the tournament winner's bonus, the global totals and the rows created when
 * a tournament's rankings are initialised.
 */
module RankingService {
  import opened Base
  import opened SetScores
  import opened TournamentModels
  import opened RankingModels
  import opened Ordering
  import opened Db
  import opened RankingRules

  /** What update_ranking_after_match did. */
  datatype RankingUpdate =
    | NotApplicable  // the match is not completed or has no winner: nothing to do
    | RolledBack     // the loser slot is empty: creating its row raises, the transaction is undone and the caller gets the error
    | Updated

  /** The loop of recalculate_positions: number the rows 1, 2, ... in ranking order. */
  method Renumber(rows: map<UserId, Ranking>) returns (out: map<UserId, Ranking>)
    ensures Repositioned(rows, out)
  {
    var keys := KeysOf(rows);
    var order := SortByKey(keys);
    out := rows;
    var i := 0;
    while i < |order|
      invariant 0 <= i <= |order|
      invariant forall p :: p in out <==> p in rows
      invariant forall p | p in rows :: out[p] == rows[p].(position := out[p].position)
      invariant forall j | 0 <= j < i :: out[order[j]].position == j + 1
    {
      var p := order[i];
      out := out[p := out[p].(position := i + 1)];
      i := i + 1;
    }
    NumberedAlongOrder(rows, order, out);
  }

  /** Save a tournament's rows. */
  method WriteRows(st: Store, tid: TournamentId, rows: map<UserId, Ranking>)
    requires st.Valid() && tid in st.tournaments
    modifies st
    ensures st.Valid()
    ensures st.Snapshot() == old(st.Snapshot()).(rankings := old(st.rankings)[tid := rows])
  {
    st.rankings := st.rankings[tid := rows];
  }

  /** Writing a key twice leaves what the second write put there. */
  lemma OverwriteTwice<K, V>(m: map<K, V>, k: K, first: V, second: V)
    ensures m[k := first][k := second] == m[k := second]
  {
  }

  /**
   * recalculate_positions: the tournament's rows are numbered 1, 2, ... in
   * ranking order; nothing but their positions changes.
   */
  method RecalculatePositions(st: Store, tid: TournamentId)
    requires st.Valid()
    modifies st
    ensures st.Valid()
    ensures st.Snapshot() == old(st.Snapshot()).(rankings := st.rankings)
    ensures st.rankings.Keys == old(st.rankings).Keys
    ensures forall t | t in old(st.rankings) && t != tid :: st.rankings[t] == old(st.rankings)[t]
    ensures tid in old(st.rankings) ==> st.rankings == old(st.rankings)[tid := st.rankings[tid]]
    ensures Repositioned(RowsOf(old(st.rankings), tid), RowsOf(st.rankings, tid))
  {
    var out := Renumber(RowsOf(st.rankings, tid));
    if tid in st.rankings {
      st.rankings := st.rankings[tid := out];
    }
  }

  /** The loop of recalculate_global_positions: number the global rows 1, 2, ... in global order. */
  method RenumberGlobal(rows: map<UserId, GlobalRanking>) returns (out: map<UserId, GlobalRanking>)
    ensures GlobalRepositioned(rows, out)
  {
    var keys := GlobalKeysOf(rows);
    var order := SortByKey(keys);
    out := rows;
    var i := 0;
    while i < |order|
      invariant 0 <= i <= |order|
      invariant forall p :: p in out <==> p in rows
      invariant forall p | p in rows :: out[p] == rows[p].(position := out[p].position)
      invariant forall j | 0 <= j < i :: out[order[j]].position == j + 1
    {
      var p := order[i];
      out := out[p := out[p].(position := i + 1)];
      i := i + 1;
    }
    GlobalNumberedAlongOrder(rows, order, out);
  }

  /**
   * recalculate_global_positions: every global row is numbered 1, 2, ... in
   * global ranking order; nothing but the positions changes.
   */
  method RecalculateGlobalPositions(st: Store)
    requires st.Valid()
    modifies st
    ensures st.Valid()
    ensures st.Snapshot() == old(st.Snapshot()).(globalRankings := st.globalRankings)
    ensures GlobalRepositioned(old(st.globalRankings), st.globalRankings)
  {
    var out := RenumberGlobal(st.globalRankings);
    st.globalRankings := out;
  }

  /**
   * The winner's and the loser's rows after the match: the result and the
   * round's points, then each set in turn, credited to the set's winner, and
   * its games.
   */
  method CreditMatch(winnerRow: Ranking, loserRow: Ranking, points: nat, sets: seq<SetScore>, winnerIs1: bool, loserIs1: bool)
    returns (wr: Ranking, lr: Ranking)
    ensures wr == CreditWinner(winnerRow, points, SetTally(sets, winnerIs1, loserIs1))
    ensures lr == CreditLoser(loserRow, points, SetTally(sets, winnerIs1, loserIs1))
  {
    wr := winnerRow.(wins := winnerRow.wins + 1, points := winnerRow.points + points);
    lr := loserRow.(losses := loserRow.losses + 1, points := loserRow.points + points / 4);
    ghost var t := Tally(0, 0, 0, 0);
    var i := 0;
    while i < |sets|
      invariant 0 <= i <= |sets|
      invariant t == SetTally(sets[..i], winnerIs1, loserIs1)
      invariant wr == CreditWinner(winnerRow, points, t)
      invariant lr == CreditLoser(loserRow, points, t)
    {
      SetTallyStep(sets, i, winnerIs1, loserIs1);
      var wg, lg := GamesIn(sets[i], winnerIs1), GamesIn(sets[i], loserIs1);
      if wg > lg {
        wr := wr.(setsWon := wr.setsWon + 1);
        lr := lr.(setsLost := lr.setsLost + 1);
      } else {
        wr := wr.(setsLost := wr.setsLost + 1);
        lr := lr.(setsWon := lr.setsWon + 1);
      }
      wr := wr.(gamesWon := wr.gamesWon + wg, gamesLost := wr.gamesLost + lg);
      lr := lr.(gamesWon := lr.gamesWon + lg, gamesLost := lr.gamesLost + wg);
      t := AddSet(t, sets[i], winnerIs1, loserIs1);
      i := i + 1;
    }
    assert sets[..i] == sets;
  }

  /**
   * update_ranking_after_match: for a completed match with a winner, the
   * winner's and the loser's rows in the match's tournament (created when
   * missing) are credited with the round's points, the result and the sets
   * and games of the newest confirmed score, then the tournament's positions
   * are recalculated.
   */
  method UpdateRankingAfterMatch(st: Store, matchId: MatchId) returns (outcome: RankingUpdate)
    requires st.Valid() && matchId in st.matches
    modifies st
    ensures st.Valid()
    ensures var m := old(st.matches[matchId]);
      outcome == (if m.status != MatchStatus.Completed || m.winner.None? then NotApplicable
                  else if Loser(m).None? then RolledBack
                  else Updated)
    ensures outcome != Updated ==> st.Snapshot() == old(st.Snapshot())
    ensures outcome == Updated ==>
      var m := old(st.matches[matchId]);
      var credited := CreditedRows(RowsOf(old(st.rankings), m.tournamentId), m.winner.value, Loser(m).value,
        RoundPoints(m.round), SetTally(CreditedSets(old(st.scores), matchId), m.winner == m.player1, Loser(m) == m.player1));
      && st.Snapshot() == old(st.Snapshot()).(rankings := st.rankings)
      && m.tournamentId in st.rankings
      && st.rankings == old(st.rankings)[m.tournamentId := st.rankings[m.tournamentId]]
      && Repositioned(credited, st.rankings[m.tournamentId])
  {
    var m := st.matches[matchId];
    if m.status != MatchStatus.Completed || m.winner.None? {
      return NotApplicable;
    }
    var loser := Loser(m);
    if loser.None? {
      return RolledBack;
    }
    var w, l := m.winner.value, loser.value;
    var rows := RowsOf(st.rankings, m.tournamentId);
    var wr, lr := CreditMatch(RowOr(rows, w), RowOr(rows, l), RoundPoints(m.round), CreditedSets(st.scores, matchId),
                              m.winner == m.player1, loser == m.player1);
    WriteRows(st, m.tournamentId, rows[w := wr][l := lr]);
    ghost var written := st.rankings;
    RecalculatePositions(st, m.tournamentId);
    assert st.rankings == written[m.tournamentId := st.rankings[m.tournamentId]];
    OverwriteTwice(old(st.rankings), m.tournamentId, rows[w := wr][l := lr], st.rankings[m.tournamentId]);
    outcome := Updated;
  }

  /** The global row of a player, or a fresh all-zero row when there is none (get_or_create). */
  function GlobalOr(rows: map<UserId, GlobalRanking>, p: UserId): GlobalRanking {
    if p in rows then rows[p] else NewGlobalRanking
  }

  /** The global rows with the row of `player` replaced by `g`, then renumbered. */
  method SetGlobalRow(globals: map<UserId, GlobalRanking>, player: UserId, g: GlobalRanking)
    returns (out: map<UserId, GlobalRanking>)
    ensures GlobalRepositioned(globals[player := g], out)
  {
    out := RenumberGlobal(globals[player := g]);
  }

  /** After replacing one global row and renumbering, the other rows keep their totals and all are ranked. */
  lemma SetGlobalRowFacts(globals: map<UserId, GlobalRanking>, player: UserId, g: GlobalRanking, out: map<UserId, GlobalRanking>)
    requires GlobalRepositioned(globals[player := g], out)
    ensures forall p :: p in out <==> p in globals || p == player
    ensures SameTotals(out[player], g)
    ensures forall p | p in globals && p != player :: SameTotals(out[p], globals[p])
    ensures GloballyRanked(out)
  {
    GlobalRepositionedIsRanked(globals[player := g], out);
  }

  /**
   * update_global_ranking: the player's global row (created when missing) gets
   * the totals over all the player's tournament rows, then every global
   * position is recalculated.
   */
  method UpdateGlobalRanking(st: Store, player: UserId)
    requires st.Valid()
    modifies st
    ensures st.Valid()
    ensures st.Snapshot() == old(st.Snapshot()).(globalRankings := st.globalRankings)
    ensures GlobalRepositioned(
      old(st.globalRankings)[player := WithTotals(GlobalOr(old(st.globalRankings), player), PlayerRows(st.rankings, player))],
      st.globalRankings)
  {
    var g := WithTotals(GlobalOr(st.globalRankings, player), PlayerRows(st.rankings, player));
    var out := SetGlobalRow(st.globalRankings, player, g);
    st.globalRankings := out;
  }

  /** A completed final of the tournament. */
  predicate IsCompletedFinal(m: Match, tid: TournamentId) {
    m.tournamentId == tid && m.round == Final && m.status == MatchStatus.Completed
  }

  /** The rows with the winner bonus added to the row of `winner`, when the winner has one. */
  function WithBonus(rows: map<UserId, Ranking>, winner: Option<UserId>): (r: map<UserId, Ranking>)
    ensures r.Keys == rows.Keys
    ensures forall p | p in rows && Some(p) != winner :: r[p] == rows[p]
  {
    if winner.Some? && winner.value in rows then
      rows[winner.value := rows[winner.value].(points := rows[winner.value].points + WinnerBonus)]
    else rows
  }

  /** The bonus raises the winner's points by exactly WinnerBonus and changes nothing else. */
  lemma BonusGoesToWinner(rows: map<UserId, Ranking>, w: UserId)
    requires w in rows
    ensures var r := WithBonus(rows, Some(w));
      r[w].points == rows[w].points + WinnerBonus && r[w] == rows[w].(points := r[w].points)
      && SumOf(r, PointsOf) == SumOf(rows, PointsOf) + WinnerBonus
  {
    SumOfUpdate(rows, w, rows[w].(points := rows[w].points + WinnerBonus), PointsOf);
  }

  /**
   * finalize_tournament_rankings: the winner of a completed final of the
   * tournament gets the winner bonus on their existing row; the tournament's
   * positions are recalculated; then the global row of every player with a row
   * in the tournament is brought up to date.
   */
  method FinalizeTournamentRankings(st: Store, tid: TournamentId) returns (finalMatch: Option<MatchId>)
    requires st.Valid() && tid in st.tournaments
    modifies st
    ensures st.Valid()
    ensures st.Snapshot() == old(st.Snapshot()).(rankings := st.rankings, globalRankings := st.globalRankings)
    ensures finalMatch.None? ==> forall id | id in old(st.matches) :: !IsCompletedFinal(old(st.matches)[id], tid)
    ensures finalMatch.Some? ==> finalMatch.value in old(st.matches) && IsCompletedFinal(old(st.matches)[finalMatch.value], tid)
    ensures var winner := if finalMatch.Some? then old(st.matches)[finalMatch.value].winner else None;
      Repositioned(WithBonus(RowsOf(old(st.rankings), tid), winner), RowsOf(st.rankings, tid))
    ensures st.rankings.Keys == old(st.rankings).Keys
    ensures forall t | t in old(st.rankings) && t != tid :: st.rankings[t] == old(st.rankings)[t]
    ensures forall p :: p in st.globalRankings <==> p in old(st.globalRankings) || p in RowsOf(st.rankings, tid)
    ensures forall p | p in RowsOf(st.rankings, tid) ::
      SameTotals(st.globalRankings[p], WithTotals(GlobalOr(old(st.globalRankings), p), PlayerRows(st.rankings, p)))
    ensures forall p | p in old(st.globalRankings) && p !in RowsOf(st.rankings, tid) ::
      SameTotals(st.globalRankings[p], old(st.globalRankings)[p])
    ensures RowsOf(st.rankings, tid) != map[] ==> GloballyRanked(st.globalRankings)
    ensures RowsOf(st.rankings, tid) == map[] ==> st.globalRankings == old(st.globalRankings)
  {
    finalMatch := FindCompletedFinal(st.matches, tid);
    var winner := if finalMatch.Some? then st.matches[finalMatch.value].winner else None;
    AwardBonus(st, tid, winner);
    RefreshTournamentPlayers(st, tid);
  }

  /**
   * The second half of finalize_tournament_rankings: update_global_ranking for
   * every player with a row in the tournament; nothing else changes.
   */
  method RefreshTournamentPlayers(st: Store, tid: TournamentId)
    requires st.Valid()
    modifies st
    ensures st.Valid()
    ensures st.Snapshot() == old(st.Snapshot()).(globalRankings := st.globalRankings)
    ensures forall p :: p in st.globalRankings <==> p in old(st.globalRankings) || p in RowsOf(st.rankings, tid)
    ensures forall p | p in RowsOf(st.rankings, tid) ::
      SameTotals(st.globalRankings[p], WithTotals(GlobalOr(old(st.globalRankings), p), PlayerRows(st.rankings, p)))
    ensures forall p | p in old(st.globalRankings) && p !in RowsOf(st.rankings, tid) ::
      SameTotals(st.globalRankings[p], old(st.globalRankings)[p])
    ensures RowsOf(st.rankings, tid) != map[] ==> GloballyRanked(st.globalRankings)
    ensures RowsOf(st.rankings, tid) == map[] ==> st.globalRankings == old(st.globalRankings)
  {
    var players := RowsOf(st.rankings, tid).Keys;
    assert RowsOf(st.rankings, tid) == map[] <==> players == {};
    var globals := RefreshGlobalRows(st.globalRankings, st.rankings, players);
    ghost var before := st.Snapshot();
    st.globalRankings := globals;
    assert st.Snapshot() == before.(globalRankings := globals);
  }

  /** The first half of finalize_tournament_rankings: the winner bonus, then the tournament's positions. */
  method AwardBonus(st: Store, tid: TournamentId, winner: Option<UserId>)
    requires st.Valid() && tid in st.tournaments
    modifies st
    ensures st.Valid()
    ensures st.Snapshot() == old(st.Snapshot()).(rankings := st.rankings)
    ensures st.rankings.Keys == old(st.rankings).Keys
    ensures forall t | t in old(st.rankings) && t != tid :: st.rankings[t] == old(st.rankings)[t]
    ensures Repositioned(WithBonus(RowsOf(old(st.rankings), tid), winner), RowsOf(st.rankings, tid))
  {
    if tid in st.rankings {
      WriteRows(st, tid, WithBonus(st.rankings[tid], winner));
    }
    RecalculatePositions(st, tid);
  }

  /** The lookup of finalize_tournament_rankings: some completed final of the tournament, if there is one. */
  method FindCompletedFinal(matches: map<MatchId, Match>, tid: TournamentId) returns (found: Option<MatchId>)
    ensures found.None? ==> forall id | id in matches :: !IsCompletedFinal(matches[id], tid)
    ensures found.Some? ==> found.value in matches && IsCompletedFinal(matches[found.value], tid)
  {
    var candidates := set id | id in matches && IsCompletedFinal(matches[id], tid);
    if candidates == {} {
      assert forall id | id in matches && IsCompletedFinal(matches[id], tid) :: id in candidates;
      return None;
    }
    var id :| id in candidates;
    found := Some(id);
  }

  /**
   * `out` is `globals` after update_global_ranking for each player in `done`:
   * those have their totals, the others keep theirs, and once any was updated
   * all positions follow the totals.
   */
  ghost predicate RefreshedFor(globals: map<UserId, GlobalRanking>, rankings: RankingTable, done: set<UserId>,
                               out: map<UserId, GlobalRanking>) {
    && (forall p :: p in out <==> p in globals || p in done)
    && (forall p | p in done :: SameTotals(out[p], WithTotals(NewGlobalRanking, PlayerRows(rankings, p))))
    && (forall p | p in globals && p !in done :: SameTotals(out[p], globals[p]))
  }

  /** Updating the totals of `p` alone extends a refresh over `done` to `done + {p}`. */
  lemma RefreshStep(globals: map<UserId, GlobalRanking>, rankings: RankingTable, done: set<UserId>,
                    out: map<UserId, GlobalRanking>, p: UserId, out': map<UserId, GlobalRanking>)
    requires RefreshedFor(globals, rankings, done, out)
    requires forall q :: q in out' <==> q in out || q == p
    requires SameTotals(out'[p], WithTotals(NewGlobalRanking, PlayerRows(rankings, p)))
    requires forall q | q in out && q != p :: SameTotals(out'[q], out[q])
    ensures RefreshedFor(globals, rankings, done + {p}, out')
  {
    forall q | q in done + {p}
      ensures SameTotals(out'[q], WithTotals(NewGlobalRanking, PlayerRows(rankings, q)))
    {
      if q != p {
        assert q in done && q in out;
      }
    }
    forall q | q in globals && q !in done + {p}
      ensures SameTotals(out'[q], globals[q])
    {
      assert q in out;
    }
  }

  /** One turn of the loop: update_global_ranking for `p`, one of the players still to do. */
  method RefreshOne(ghost globals: map<UserId, GlobalRanking>, rankings: RankingTable, ghost players: set<UserId>,
                    todo: set<UserId>, out: map<UserId, GlobalRanking>, p: UserId) returns (out': map<UserId, GlobalRanking>)
    requires p in todo && todo <= players
    requires RefreshedFor(globals, rankings, players - todo, out)
    ensures RefreshedFor(globals, rankings, players - (todo - {p}), out')
    ensures GloballyRanked(out')
  {
    assert (players - todo) + {p} == players - (todo - {p});
    var g := WithTotals(GlobalOr(out, p), PlayerRows(rankings, p));
    out' := SetGlobalRow(out, p, g);
    SetGlobalRowFacts(out, p, g, out');
    WithTotalsOverwritesTotals(g, NewGlobalRanking, PlayerRows(rankings, p));
    RefreshStep(globals, rankings, players - todo, out, p, out');
  }

  /** The loop of finalize_tournament_rankings: update_global_ranking for each of the players in turn. */
  method RefreshGlobalRows(globals: map<UserId, GlobalRanking>, rankings: RankingTable, players: set<UserId>)
    returns (out: map<UserId, GlobalRanking>)
    ensures RefreshedFor(globals, rankings, players, out)
    ensures players != {} ==> GloballyRanked(out)
    ensures players == {} ==> out == globals
  {
    out := globals;
    var todo := players;
    while todo != {}
      invariant todo <= players
      invariant RefreshedFor(globals, rankings, players - todo, out)
      invariant todo != players ==> GloballyRanked(out)
      invariant todo == players ==> out == globals
      decreases todo
    {
      var p :| p in todo;
      out := RefreshOne(globals, rankings, players, todo, out, p);
      todo := todo - {p};
    }
    assert players - todo == players;
  }

  /** The rows after get_or_create for each player: existing rows kept, missing ones created at zero. */
  function WithNewRows(rows: map<UserId, Ranking>, players: set<UserId>): map<UserId, Ranking> {
    map p | p in rows.Keys + players :: RowOr(rows, p)
  }

  /** Initialising twice is initialising once, and existing rows are never reset. */
  lemma InitializeIsIdempotent(rows: map<UserId, Ranking>, players: set<UserId>)
    ensures WithNewRows(WithNewRows(rows, players), players) == WithNewRows(rows, players)
    ensures forall p | p in rows :: WithNewRows(rows, players)[p] == rows[p]
    ensures forall p | p in players && p !in rows :: WithNewRows(rows, players)[p] == NewRanking
  {
  }

  /** The loop of initialize_tournament_rankings: get_or_create a row for each player in turn. */
  method AddMissingRows(rows: map<UserId, Ranking>, players: set<UserId>) returns (out: map<UserId, Ranking>)
    ensures out == WithNewRows(rows, players)
  {
    out := rows;
    var todo := players;
    while todo != {}
      invariant todo <= players
      invariant out == WithNewRows(rows, players - todo)
      decreases todo
    {
      var p :| p in todo;
      if p !in out {
        out := out[p := NewRanking];
      }
      todo := todo - {p};
    }
  }

  /** initialize_tournament_rankings: a row for each registered player of the tournament, created when missing. */
  method InitializeTournamentRankings(st: Store, tid: TournamentId)
    requires st.Valid() && tid in st.tournaments
    modifies st
    ensures st.Valid()
    ensures st.Snapshot() == old(st.Snapshot()).(rankings := st.rankings)
    ensures st.rankings == old(st.rankings)[tid := WithNewRows(RowsOf(old(st.rankings), tid), old(st.tournaments[tid]).players)]
  {
    var rows := AddMissingRows(RowsOf(st.rankings, tid), st.tournaments[tid].players);
    st.rankings := st.rankings[tid := rows];
  }

  /**
   * get_head_to_head: the completed matches with a winner played between the two
   * players, listed in the source's order (latest scheduled first, then latest
   * created), with the number of them each player won and their count.
   */
  method GetHeadToHead(tournaments: map<TournamentId, Tournament>, matches: map<MatchId, Match>, p1: UserId, p2: UserId)
    returns (h: HeadToHead)
    requires forall id | id in matches :: matches[id].tournamentId in tournaments
    ensures h.player1Id == p1 && h.player2Id == p2
    ensures IsRankOrder(MatchIdsOf(h.matches), HeadToHeadKeys(matches, HeadToHeadMatches(matches, p1, p2)))
    ensures forall k | 0 <= k < |h.matches| :: h.matches[k].id in matches && h.matches[k] == Summary(tournaments, matches, h.matches[k].id)
    ensures h.totalMatches == |h.matches| == |HeadToHeadMatches(matches, p1, p2)|
    ensures h.player1Wins == |ListedWins(h.matches, p1)| && h.player2Wins == |ListedWins(h.matches, p2)|
    ensures ListedWins(h.matches, p1) == WinsAmong(matches, HeadToHeadMatches(matches, p1, p2), p1)
    ensures ListedWins(h.matches, p2) == WinsAmong(matches, HeadToHeadMatches(matches, p1, p2), p2)
  {
    var ids := HeadToHeadMatches(matches, p1, p2);
    var keys := HeadToHeadKeys(matches, ids);
    var order := SortByKey(keys);
    var list := seq(|order|, k requires 0 <= k < |order| && order[k] in matches => Summary(tournaments, matches, order[k]));
    assert MatchIdsOf(list) == order;
    assert keys.Keys == ids;
    ListedWinsAreWins(matches, ids, order, list, p1);
    ListedWinsAreWins(matches, ids, order, list, p2);
    h := HeadToHead(p1, p2, |WinsAmong(matches, ids, p1)|, |WinsAmong(matches, ids, p2)|, |order|, list);
  }

  /** The listed matches a player won are the counted matches that player won. */
  lemma ListedWinsAreWins(matches: map<MatchId, Match>, ids: set<MatchId>, order: seq<MatchId>, list: seq<MatchSummary>, p: UserId)
    requires forall x :: x in ids <==> x in order
    requires forall k | 0 <= k < |order| :: order[k] in matches
    requires |list| == |order|
    requires forall k | 0 <= k < |list| :: list[k].id == order[k] && list[k].winnerId == matches[order[k]].winner
    ensures ListedWins(list, p) == WinsAmong(matches, ids, p)
  {
    forall x | x in WinsAmong(matches, ids, p)
      ensures x in ListedWins(list, p)
    {
      var k :| 0 <= k < |order| && order[k] == x;
      assert list[k].id == x;
    }
  }
}
