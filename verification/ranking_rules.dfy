/**
 * The arithmetic of the ranking engine (apps/rankings/services.py): points per
 * round, the set and game tally credited from a score, sums and counts over a
 * player's ranking rows, and head-to-head statistics.
 */
module RankingRules {
  import opened Base
  import opened SetScores
  import opened TournamentModels
  import opened ScoreModels
  import opened RankingModels
  import opened Ordering
  import opened Db

  /** Points for winning a match of the round; the loser gets a quarter, rounded down. */
  function RoundPoints(r: Round): (p: nat)
    ensures 10 <= p <= 800
    ensures p / 4 < p
  {
    match r
    case Round128 => 10
    case Round64 => 25
    case Round32 => 50
    case Round16 => 100
    case QuarterFinal => 200
    case SemiFinal => 400
    case Final => 800
  }

  /** Bonus for the winner of a tournament's final. */
  const WinnerBonus: nat := 500

  /** Bracket stage, 0 for the round of 128 up to 6 for the final. */
  function Stage(r: Round): nat {
    match r
    case Round128 => 0
    case Round64 => 1
    case Round32 => 2
    case Round16 => 3
    case QuarterFinal => 4
    case SemiFinal => 5
    case Final => 6
  }

  /** A later round is worth strictly more, to the winner and to the loser. */
  lemma LaterRoundsWorthMore(a: Round, b: Round)
    requires Stage(a) < Stage(b)
    ensures RoundPoints(a) < RoundPoints(b)
    ensures RoundPoints(a) / 4 < RoundPoints(b) / 4
  {
  }

  /** The sets and games of a score, seen from the match winner's side. */
  datatype Tally = Tally(winnerSets: nat, loserSets: nat, winnerGames: int, loserGames: int)

  /** Games of the slot the player occupies: slot 1 when `inSlot1`, otherwise slot 2. */
  function GamesIn(s: SetScore, inSlot1: bool): int {
    if inSlot1 then s.player1 else s.player2
  }

  /** One more set in the tally: it goes to the side with more games, and both sides add their games. */
  function AddSet(t: Tally, s: SetScore, winnerIs1: bool, loserIs1: bool): Tally {
    var wg, lg := GamesIn(s, winnerIs1), GamesIn(s, loserIs1);
    Tally(t.winnerSets + (if wg > lg then 1 else 0), t.loserSets + (if wg > lg then 0 else 1),
          t.winnerGames + wg, t.loserGames + lg)
  }

  /**
   * The tally over the sets: a set goes to the winner when the winner's games
   * exceed the loser's, otherwise to the loser; games are added on both sides.
   * `winnerIs1` and `loserIs1` say whether each is the player in slot 1.
   */
  function SetTally(sets: seq<SetScore>, winnerIs1: bool, loserIs1: bool): (t: Tally)
    ensures t.winnerSets + t.loserSets == |sets|
  {
    if |sets| == 0 then Tally(0, 0, 0, 0)
    else AddSet(SetTally(sets[..|sets| - 1], winnerIs1, loserIs1), sets[|sets| - 1], winnerIs1, loserIs1)
  }

  /** The tally of a prefix one set longer adds that set to the shorter prefix's tally. */
  lemma SetTallyStep(sets: seq<SetScore>, i: nat, winnerIs1: bool, loserIs1: bool)
    requires i < |sets|
    ensures SetTally(sets[..i + 1], winnerIs1, loserIs1) == AddSet(SetTally(sets[..i], winnerIs1, loserIs1), sets[i], winnerIs1, loserIs1)
  {
    assert sets[..i + 1][..i] == sets[..i];
  }

  /**
   * The tally credits sets as the winner rule does: with the winner in slot 1 it
   * gives each slot the sets the winner rule gives it; with the winner in slot
   * 2 it does so whenever no set is tied (as in any accepted score).
   */
  lemma {:induction false} TallyAgreesWithWinnerRule(sets: seq<SetScore>, winnerIs1: bool)
    requires !winnerIs1 ==> forall i | 0 <= i < |sets| :: sets[i].player1 != sets[i].player2
    ensures var t := SetTally(sets, winnerIs1, !winnerIs1);
      if winnerIs1 then t.winnerSets == SetsWon(sets, Player1) && t.loserSets == SetsWon(sets, Player2)
      else t.winnerSets == SetsWon(sets, Player2) && t.loserSets == SetsWon(sets, Player1)
  {
    if |sets| > 0 {
      TallyAgreesWithWinnerRule(sets[..|sets| - 1], winnerIs1);
    }
  }

  /**
   * For an accepted score whose decided winner is recorded in slot `side`, the
   * ranking tally credits that player with strictly more sets than the opponent.
   */
  lemma TallyFavoursScoreWinner(sets: seq<SetScore>, side: Side)
    requires ValidateSetScores(sets).None?
    requires MatchWinner(sets) == Some(side)
    ensures var t := SetTally(sets, side == Player1, side != Player1);
      t.winnerSets > t.loserSets
  {
    forall i | 0 <= i < |sets|
      ensures sets[i].player1 != sets[i].player2
    {
      AcceptedSetHasWinner(sets[i]);
    }
    TallyAgreesWithWinnerRule(sets, side == Player1);
    WinnerWonMoreSets(sets, side);
  }

  /** `m` is the smallest element of `s`. */
  predicate IsLeast(m: nat, s: set<nat>) {
    m in s && forall x | x in s :: m <= x
  }

  lemma {:induction false} MinExists(s: set<nat>)
    requires s != {}
    ensures exists m :: IsLeast(m, s)
    decreases |s|
  {
    var x :| x in s;
    var rest := s - {x};
    if rest == {} {
      assert s == {x};
      assert IsLeast(x, s);
    } else {
      assert |rest| < |s|;
      MinExists(rest);
      var m :| IsLeast(m, rest);
      var least := if x < m then x else m;
      forall y | y in s
        ensures least <= y
      {
        if y != x {
          assert y in rest;
        }
      }
      assert IsLeast(least, s);
    }
  }

  /** The smallest key of a non-empty set. */
  function MinKey(s: set<nat>): (k: nat)
    requires s != {}
    ensures IsLeast(k, s)
  {
    MinExists(s);
    var k :| IsLeast(k, s);
    k
  }

  /** Sum of `f` over the rows, taken in key order. */
  function SumOf<V>(rows: map<nat, V>, f: V -> int): int
    decreases |rows|
  {
    if |rows| == 0 then 0
    else
      var k := MinKey(rows.Keys);
      f(rows[k]) + SumOf(rows - {k}, f)
  }

  /** The sum does not depend on the order: any row can be taken out first. */
  lemma {:induction false} SumOfRemove<V>(rows: map<nat, V>, k: nat, f: V -> int)
    requires k in rows
    ensures SumOf(rows, f) == f(rows[k]) + SumOf(rows - {k}, f)
    decreases |rows|
  {
    var m := MinKey(rows.Keys);
    if m != k {
      SumOfRemove(rows - {m}, k, f);
      var rest := rows - {k};
      assert m in rest.Keys;
      assert MinKey(rest.Keys) == m;
      assert rows - {m} - {k} == rest - {m};
    }
  }

  /** Replacing or adding one row changes the sum by the difference of that row alone. */
  lemma SumOfUpdate<V>(rows: map<nat, V>, k: nat, v: V, f: V -> int)
    ensures SumOf(rows[k := v], f) == SumOf(rows, f) - (if k in rows then f(rows[k]) else 0) + f(v)
  {
    SumOfRemove(rows[k := v], k, f);
    assert rows[k := v] - {k} == rows - {k};
    if k in rows {
      SumOfRemove(rows, k, f);
    } else {
      assert rows - {k} == rows;
    }
  }

  /** Number of rows satisfying `p`. */
  function CountOf<V>(rows: map<nat, V>, p: V -> bool): (n: nat)
    ensures n <= |rows|
  {
    var ks := set k | k in rows && p(rows[k]);
    assert ks <= rows.Keys;
    Subcardinality(ks, rows.Keys);
    |ks|
  }

  lemma Subcardinality<T>(a: set<T>, b: set<T>)
    requires a <= b
    ensures |a| <= |b|
  {
    assert b == a + (b - a);
  }

  /** The matches get_head_to_head counts: completed, with a winner, both slots among the two players. */
  predicate HeadToHeadMatch(m: Match, p1: UserId, p2: UserId) {
    && m.status == MatchStatus.Completed
    && m.winner.Some?
    && m.player1.Some? && (m.player1.value == p1 || m.player1.value == p2)
    && m.player2.Some? && (m.player2.value == p1 || m.player2.value == p2)
  }

  /** One entry of the listing get_head_to_head returns: a match's id, tournament name, round, winner and time. */
  datatype MatchSummary = MatchSummary(id: MatchId, tournamentName: string, round: Round, winnerId: Option<UserId>,
                                       scheduledTime: Option<Time>)

  /** What get_head_to_head returns: the two players, their wins, the number of matches and the listing. */
  datatype HeadToHead = HeadToHead(player1Id: UserId, player2Id: UserId, player1Wins: nat, player2Wins: nat,
                                   totalMatches: nat, matches: seq<MatchSummary>)

  function HeadToHeadMatches(matches: map<MatchId, Match>, p1: UserId, p2: UserId): set<MatchId> {
    set id | id in matches && HeadToHeadMatch(matches[id], p1, p2)
  }

  function WinsAmong(matches: map<MatchId, Match>, ids: set<MatchId>, p: UserId): set<MatchId> {
    set id | id in ids && id in matches && matches[id].winner == Some(p)
  }

  /**
   * The listing order of get_head_to_head as a sort key, smallest first: the
   * latest scheduled time first, then the latest created (ids grow in creation
   * order). A match without a scheduled time comes before the scheduled ones,
   * where a descending order places nulls in PostgreSQL.
   */
  function HeadToHeadKey(id: MatchId, m: Match): seq<int> {
    match m.scheduledTime
    case None => [0, 0, -(id as int)]
    case Some(t) => [1, -t, -(id as int)]
  }

  function HeadToHeadKeys(matches: map<MatchId, Match>, ids: set<MatchId>): map<MatchId, seq<int>>
    requires ids <= matches.Keys
  {
    map id | id in ids :: HeadToHeadKey(id, matches[id])
  }

  /** The key ends with the match id, so no two listed matches tie and the listing order is fully determined. */
  lemma HeadToHeadKeysDistinct(matches: map<MatchId, Match>, ids: set<MatchId>)
    requires ids <= matches.Keys
    ensures DistinctKeys(HeadToHeadKeys(matches, ids))
  {
    var keys := HeadToHeadKeys(matches, ids);
    forall x, y | x in keys && y in keys && x != y
      ensures keys[x] != keys[y]
    {
      assert keys[x][2] == -(x as int) && keys[y][2] == -(y as int);
    }
  }

  /** The entry listed for a match. */
  function Summary(tournaments: map<TournamentId, Tournament>, matches: map<MatchId, Match>, id: MatchId): MatchSummary
    requires id in matches && matches[id].tournamentId in tournaments
  {
    var m := matches[id];
    MatchSummary(id, tournaments[m.tournamentId].name, m.round, m.winner, m.scheduledTime)
  }

  /** The ids of the listed matches, in listing order. */
  function MatchIdsOf(list: seq<MatchSummary>): (ids: seq<MatchId>)
    ensures |ids| == |list| && forall k | 0 <= k < |list| :: ids[k] == list[k].id
  {
    seq(|list|, k requires 0 <= k < |list| => list[k].id)
  }

  /** The listed matches won by `p`. */
  function ListedWins(list: seq<MatchSummary>, p: UserId): set<MatchId> {
    set k | 0 <= k < |list| && list[k].winnerId == Some(p) :: list[k].id
  }

  /** Asking with the players swapped counts the same matches, so the two players' wins swap. */
  lemma HeadToHeadSwapped(matches: map<MatchId, Match>, p1: UserId, p2: UserId)
    ensures HeadToHeadMatches(matches, p1, p2) == HeadToHeadMatches(matches, p2, p1)
  {
  }

  /**
   * When every match's winner is one of its players, each counted match between
   * two different players is a win for exactly one of them.
   */
  lemma HeadToHeadWinsAddUp(matches: map<MatchId, Match>, p1: UserId, p2: UserId)
    requires forall id | id in matches :: WinnerAmongPlayers(matches[id].winner, matches[id])
    requires p1 != p2
    ensures var ids := HeadToHeadMatches(matches, p1, p2);
      |WinsAmong(matches, ids, p1)| + |WinsAmong(matches, ids, p2)| == |ids|
  {
    var ids := HeadToHeadMatches(matches, p1, p2);
    var w1, w2 := WinsAmong(matches, ids, p1), WinsAmong(matches, ids, p2);
    assert ids == w1 + w2;
    assert w1 * w2 == {};
  }

  /**
   * Three completed matches between players 10 and 20, won by 10, 10 and 20
   * (the slots swapped in the second): three matches, two wins for 10, one for 20.
   */
  lemma HeadToHeadExample()
    ensures var ms := map[1 := Match(1, Some(10), Some(20), None, None, "", QuarterFinal, MatchStatus.Completed, Some(10)),
                          2 := Match(1, Some(20), Some(10), None, None, "", SemiFinal, MatchStatus.Completed, Some(10)),
                          3 := Match(1, Some(10), Some(20), None, None, "", Final, MatchStatus.Completed, Some(20))];
      var ids := HeadToHeadMatches(ms, 10, 20);
      |ids| == 3 && |WinsAmong(ms, ids, 10)| == 2 && |WinsAmong(ms, ids, 20)| == 1
  {
    var ms := map[1 := Match(1, Some(10), Some(20), None, None, "", QuarterFinal, MatchStatus.Completed, Some(10)),
                  2 := Match(1, Some(20), Some(10), None, None, "", SemiFinal, MatchStatus.Completed, Some(10)),
                  3 := Match(1, Some(10), Some(20), None, None, "", Final, MatchStatus.Completed, Some(20))];
    var ids := HeadToHeadMatches(ms, 10, 20);
    assert HeadToHeadMatch(ms[1], 10, 20) && HeadToHeadMatch(ms[2], 10, 20) && HeadToHeadMatch(ms[3], 10, 20);
    assert ids == {1, 2, 3};
    assert WinsAmong(ms, ids, 10) == {1, 2};
    assert WinsAmong(ms, ids, 20) == {3};
  }

  /** The loser: the player in slot 1 when slot 2 holds the winner, otherwise slot 2 (possibly empty). */
  function Loser(m: Match): Option<UserId> {
    if m.player2 == m.winner then m.player1 else m.player2
  }

  /** In a match between two different assigned players, the loser is the player who did not win. */
  lemma LoserIsTheOtherPlayer(m: Match)
    requires IsPlayerAssigned(m) && m.player1 != m.player2
    requires m.winner.Some? && WinnerAmongPlayers(m.winner, m)
    ensures Loser(m).Some? && Loser(m) != m.winner
    ensures Loser(m) == m.player1 || Loser(m) == m.player2
  {
  }

  /** The row of a player, or a fresh all-zero row when there is none (get_or_create). */
  function RowOr(rows: map<UserId, Ranking>, p: UserId): Ranking {
    if p in rows then rows[p] else NewRanking
  }

  /** The winner's row after the match: one more win, the round's points, the tally's sets and games. */
  function CreditWinner(r: Ranking, points: nat, t: Tally): Ranking {
    r.(wins := r.wins + 1, points := r.points + points,
       setsWon := r.setsWon + t.winnerSets, setsLost := r.setsLost + t.loserSets,
       gamesWon := r.gamesWon + t.winnerGames, gamesLost := r.gamesLost + t.loserGames)
  }

  /** The loser's row after the match: one more loss, a quarter of the points, the tally mirrored. */
  function CreditLoser(r: Ranking, points: nat, t: Tally): Ranking {
    r.(losses := r.losses + 1, points := r.points + points / 4,
       setsWon := r.setsWon + t.loserSets, setsLost := r.setsLost + t.winnerSets,
       gamesWon := r.gamesWon + t.loserGames, gamesLost := r.gamesLost + t.winnerGames)
  }

  /**
   * A tournament's rows after a match: both rows are read before either is
   * written, and the loser's row is written last.
   */
  function CreditedRows(rows: map<UserId, Ranking>, w: UserId, l: UserId, points: nat, t: Tally): map<UserId, Ranking> {
    rows[w := CreditWinner(RowOr(rows, w), points, t)][l := CreditLoser(RowOr(rows, l), points, t)]
  }

  function PointsOf(r: Ranking): int { r.points }
  function WinsOf(r: Ranking): int { r.wins }
  function LossesOf(r: Ranking): int { r.losses }
  function SetsWonOf(r: Ranking): int { r.setsWon }
  function SetsLostOf(r: Ranking): int { r.setsLost }
  function GamesWonOf(r: Ranking): int { r.gamesWon }
  function GamesLostOf(r: Ranking): int { r.gamesLost }

  /**
   * Every win recorded in a tournament's rows has a matching loss, every set won a
   * set lost and every game won a game lost.
   */
  predicate Balanced(rows: map<UserId, Ranking>) {
    && SumOf(rows, WinsOf) == SumOf(rows, LossesOf)
    && SumOf(rows, SetsWonOf) == SumOf(rows, SetsLostOf)
    && SumOf(rows, GamesWonOf) == SumOf(rows, GamesLostOf)
  }

  /** Crediting a match between two different players changes a sum by what the two rows gain. */
  lemma CreditChangesSum(rows: map<UserId, Ranking>, w: UserId, l: UserId, points: nat, t: Tally, f: Ranking -> int)
    requires w != l && f(NewRanking) == 0
    ensures SumOf(CreditedRows(rows, w, l, points, t), f)
         == SumOf(rows, f) - f(RowOr(rows, w)) - f(RowOr(rows, l))
            + f(CreditWinner(RowOr(rows, w), points, t)) + f(CreditLoser(RowOr(rows, l), points, t))
  {
    var mid := rows[w := CreditWinner(RowOr(rows, w), points, t)];
    assert RowOr(mid, l) == RowOr(rows, l);
    SumOfUpdate(rows, w, CreditWinner(RowOr(rows, w), points, t), f);
    SumOfUpdate(mid, l, CreditLoser(RowOr(rows, l), points, t), f);
  }

  /** Crediting a match between two different players keeps the rows balanced. */
  lemma CreditKeepsBalance(rows: map<UserId, Ranking>, w: UserId, l: UserId, points: nat, t: Tally)
    requires w != l && Balanced(rows)
    ensures Balanced(CreditedRows(rows, w, l, points, t))
  {
    CreditChangesSum(rows, w, l, points, t, WinsOf);
    CreditChangesSum(rows, w, l, points, t, LossesOf);
    CreditChangesSum(rows, w, l, points, t, SetsWonOf);
    CreditChangesSum(rows, w, l, points, t, SetsLostOf);
    CreditChangesSum(rows, w, l, points, t, GamesWonOf);
    CreditChangesSum(rows, w, l, points, t, GamesLostOf);
  }

  /** A match between two different players adds the round's points plus a quarter of them to the tournament. */
  lemma CreditAddsRoundPoints(rows: map<UserId, Ranking>, w: UserId, l: UserId, points: nat, t: Tally)
    requires w != l
    ensures SumOf(CreditedRows(rows, w, l, points, t), PointsOf) == SumOf(rows, PointsOf) + points + points / 4
  {
    CreditChangesSum(rows, w, l, points, t, PointsOf);
  }

  /**
   * Nothing records that a match was already counted: crediting the same
   * result again counts it twice.
   */
  lemma CreditTwiceCountsTwice(rows: map<UserId, Ranking>, w: UserId, l: UserId, points: nat, t: Tally)
    requires w != l
    ensures var once := CreditedRows(rows, w, l, points, t);
      var twice := CreditedRows(once, w, l, points, t);
      twice[w].wins == RowOr(rows, w).wins + 2 && twice[l].losses == RowOr(rows, l).losses + 2
      && twice != once
  {
  }

  lemma {:induction false} MaxExists(s: set<nat>)
    requires s != {}
    ensures exists m :: IsGreatest(m, s)
    decreases |s|
  {
    var x :| x in s;
    var rest := s - {x};
    if rest == {} {
      assert s == {x};
      assert IsGreatest(x, s);
    } else {
      assert |rest| < |s|;
      MaxExists(rest);
      var m :| IsGreatest(m, rest);
      var most := if x > m then x else m;
      forall y | y in s
        ensures y <= most
      {
        if y != x {
          assert y in rest;
        }
      }
      assert IsGreatest(most, s);
    }
  }

  /** `m` is the largest element of `s`. */
  predicate IsGreatest(m: nat, s: set<nat>) {
    m in s && forall x | x in s :: x <= m
  }

  /** The confirmed scores of a match. */
  function ConfirmedScores(scores: map<ScoreId, Score>, matchId: MatchId): set<ScoreId> {
    set id | id in scores && scores[id].matchId == matchId && scores[id].isConfirmed
  }

  /** The newest confirmed score of the match (scores are listed newest first). */
  function LatestConfirmed(scores: map<ScoreId, Score>, matchId: MatchId): (r: Option<ScoreId>)
    ensures r.None? <==> ConfirmedScores(scores, matchId) == {}
    ensures r.Some? ==> IsGreatest(r.value, ConfirmedScores(scores, matchId))
  {
    var ids := ConfirmedScores(scores, matchId);
    if ids == {} then None
    else
      MaxExists(ids);
      var k :| IsGreatest(k, ids);
      Some(k)
  }

  /** The sets credited for a match: those of its newest confirmed score, none when there is none. */
  function CreditedSets(scores: map<ScoreId, Score>, matchId: MatchId): (sets: seq<SetScore>)
    ensures sets != [] ==> exists id | id in ConfirmedScores(scores, matchId) :: scores[id].setScores == sets
  {
    match LatestConfirmed(scores, matchId)
    case None => []
    case Some(id) => scores[id].setScores
  }

  /** Sort keys of a tournament's rows. */
  function KeysOf(rows: map<UserId, Ranking>): map<UserId, seq<int>> {
    map p | p in rows :: RankingKey(rows[p])
  }

  function PositionsOf(rows: map<UserId, Ranking>): map<UserId, nat> {
    map p | p in rows :: rows[p].position
  }

  /**
   * `after` is `before` with positions 1, 2, ... assigned in the order
   * (-points, -wins, losses, -sets won); rows that tie on all four may come in
   * either order.
   */
  ghost predicate Repositioned(before: map<UserId, Ranking>, after: map<UserId, Ranking>) {
    && after.Keys == before.Keys
    && (forall p | p in before :: after[p] == before[p].(position := after[p].position))
    && Ranked(KeysOf(before), PositionsOf(after))
  }
  /** Rows numbered 1, 2, ... along a ranking order of their keys are repositioned. */
  lemma NumberedAlongOrder(rows: map<UserId, Ranking>, order: seq<UserId>, out: map<UserId, Ranking>)
    requires IsRankOrder(order, KeysOf(rows))
    requires forall p :: p in out <==> p in rows
    requires forall p | p in rows :: out[p] == rows[p].(position := out[p].position)
    requires forall j | 0 <= j < |order| :: order[j] in out && out[order[j]].position == j + 1
    ensures Repositioned(rows, out)
  {
    assert out.Keys == rows.Keys;
    assert PositionsFollowOrder(order, PositionsOf(out));
  }


  /** Facts about the position map read back as facts about the rows' positions. */
  lemma PositionsOfRows(rows: map<UserId, Ranking>, n: int)
    requires forall k | k in PositionsOf(rows) :: 1 <= PositionsOf(rows)[k] <= n
    requires forall a, b | a in PositionsOf(rows) && b in PositionsOf(rows) && a != b :: PositionsOf(rows)[a] != PositionsOf(rows)[b]
    ensures forall p | p in rows :: 1 <= rows[p].position <= n
    ensures forall a, b | a in rows && b in rows && a != b :: rows[a].position != rows[b].position
  {
    var pos := PositionsOf(rows);
    forall p | p in rows
      ensures 1 <= rows[p].position <= n
    {
      assert p in pos;
    }
    forall a, b | a in rows && b in rows && a != b
      ensures rows[a].position != rows[b].position
    {
      assert a in pos && b in pos && pos[a] != pos[b];
    }
  }

  /**
   * Recalculated positions number the rows 1 to n without repetition, a row
   * with a better key comes first, and the top row has the most points.
   */
  lemma RepositionedProperties(before: map<UserId, Ranking>, after: map<UserId, Ranking>)
    requires Repositioned(before, after)
    ensures forall p | p in after :: 1 <= after[p].position <= |after|
    ensures forall a, b | a in after && b in after && a != b :: after[a].position != after[b].position
    ensures forall a, b | a in after && b in after && after[a].points > after[b].points ::
      after[a].position < after[b].position
    ensures forall a, b | a in after && b in after && after[a].position == 1 :: after[a].points >= after[b].points
  {
    var keys, pos := KeysOf(before), PositionsOf(after);
    RankedPositions(keys, pos);
    assert |keys| == |after| by {
      assert keys.Keys == after.Keys;
    }
    PositionsOfRows(after, |keys|);
    forall a, b | a in after && b in after && after[a].points > after[b].points
      ensures after[a].position < after[b].position
    {
      MorePointsComesFirst(before[a], before[b]);
      assert pos[a] < pos[b];
    }
  }

  /** A row with more points has the smaller sort key, whatever its other totals. */
  lemma MorePointsComesFirst(x: Ranking, y: Ranking)
    requires x.points > y.points
    ensures LexLess(RankingKey(x), RankingKey(y))
  {
  }

  /** Positions do not enter the sort key. */
  lemma RepositionedKeepsKeys(before: map<UserId, Ranking>, after: map<UserId, Ranking>)
    requires after.Keys == before.Keys
    requires forall p | p in before :: after[p] == before[p].(position := after[p].position)
    ensures KeysOf(after) == KeysOf(before)
  {
  }

  /** Recalculating again, with no two rows tied, changes nothing. */
  lemma RepositionedTwiceIsOnce(rows: map<UserId, Ranking>, once: map<UserId, Ranking>, twice: map<UserId, Ranking>)
    requires Repositioned(rows, once) && Repositioned(once, twice)
    requires DistinctKeys(KeysOf(rows))
    ensures twice == once
  {
    RepositionedKeepsKeys(rows, once);
    var pos1, pos2 := PositionsOf(once), PositionsOf(twice);
    RankedUnique(KeysOf(rows), pos1, pos2);
    forall p | p in once
      ensures twice[p] == once[p]
    {
      assert pos1[p] == pos2[p];
    }
  }

  /** Sort keys of the global rows. */
  function GlobalKeysOf(rows: map<UserId, GlobalRanking>): map<UserId, seq<int>> {
    map p | p in rows :: GlobalKey(rows[p])
  }

  function GlobalPositionsOf(rows: map<UserId, GlobalRanking>): map<UserId, nat> {
    map p | p in rows :: rows[p].position
  }

  /** `after` is `before` with positions assigned in the order (-total points, -total wins, total losses). */
  ghost predicate GlobalRepositioned(before: map<UserId, GlobalRanking>, after: map<UserId, GlobalRanking>) {
    && after.Keys == before.Keys
    && (forall p | p in before :: after[p] == before[p].(position := after[p].position))
    && Ranked(GlobalKeysOf(before), GlobalPositionsOf(after))
  }
  /** Global rows numbered 1, 2, ... along a ranking order of their keys are repositioned. */
  lemma GlobalNumberedAlongOrder(rows: map<UserId, GlobalRanking>, order: seq<UserId>, out: map<UserId, GlobalRanking>)
    requires IsRankOrder(order, GlobalKeysOf(rows))
    requires forall p :: p in out <==> p in rows
    requires forall p | p in rows :: out[p] == rows[p].(position := out[p].position)
    requires forall j | 0 <= j < |order| :: order[j] in out && out[order[j]].position == j + 1
    ensures GlobalRepositioned(rows, out)
  {
    assert out.Keys == rows.Keys;
    assert PositionsFollowOrder(order, GlobalPositionsOf(out));
  }


  /**
   * The global positions are consistent with the current totals: they lie in
   * 1..n for n rows and are pairwise different, and a row with a better key
   * comes first.
   */
  predicate GloballyRanked(rows: map<UserId, GlobalRanking>) {
    && PositionsRespectKeys(GlobalKeysOf(rows), GlobalPositionsOf(rows))
    && (forall p | p in rows :: rows[p].position <= |rows|)
  }

  /** Repositioned rows are ranked by their own totals, since only positions changed. */
  lemma GlobalRepositionedIsRanked(before: map<UserId, GlobalRanking>, after: map<UserId, GlobalRanking>)
    requires GlobalRepositioned(before, after)
    ensures GloballyRanked(after)
  {
    assert GlobalKeysOf(after) == GlobalKeysOf(before);
    RankedRespectsKeys(GlobalKeysOf(before), GlobalPositionsOf(after));
    RankedPositions(GlobalKeysOf(before), GlobalPositionsOf(after));
    assert GlobalKeysOf(before).Keys == after.Keys;
    forall p | p in after
      ensures after[p].position <= |after|
    {
      assert GlobalPositionsOf(after)[p] == after[p].position;
    }
  }

  /** A player's rows across tournaments. */
  function PlayerRows(rankings: RankingTable, p: UserId): map<TournamentId, Ranking> {
    map t | t in rankings && p in rankings[t] :: rankings[t][p]
  }

  predicate IsFirst(r: Ranking) { r.position == 1 }

  /**
   * The global row after update_global_ranking: totals of points, wins and
   * losses over the player's rows, the number of those rows and of those in
   * first position; the position is left as it was.
   */
  function WithTotals(g: GlobalRanking, rows: map<TournamentId, Ranking>): (r: GlobalRanking)
    ensures r.position == g.position
  {
    g.(totalPoints := SumOf(rows, PointsOf), totalWins := SumOf(rows, WinsOf), totalLosses := SumOf(rows, LossesOf),
       tournamentsPlayed := |rows|, tournamentsWon := CountOf(rows, IsFirst))
  }

  /** The totals fields of two global rows agree. */
  predicate SameTotals(a: GlobalRanking, b: GlobalRanking) {
    && a.totalPoints == b.totalPoints && a.totalWins == b.totalWins && a.totalLosses == b.totalLosses
    && a.tournamentsPlayed == b.tournamentsPlayed && a.tournamentsWon == b.tournamentsWon
  }

  /** The totals do not depend on the previous totals. */
  lemma WithTotalsOverwritesTotals(a: GlobalRanking, b: GlobalRanking, rows: map<TournamentId, Ranking>)
    ensures SameTotals(WithTotals(a, rows), WithTotals(b, rows))
  {
  }

  /** A player cannot have won more tournaments than they played, one per tournament row. */
  lemma TournamentsWonAtMostPlayed(g: GlobalRanking, rows: map<TournamentId, Ranking>)
    ensures var r := WithTotals(g, rows);
      r.tournamentsWon <= r.tournamentsPlayed == |rows|
  {
  }

  /** A player's totals rise by exactly what one tournament row gains. */
  lemma TotalsFollowOneRow(rankings: RankingTable, t: TournamentId, p: UserId, r: Ranking, g: GlobalRanking)
    requires t in rankings
    ensures var before := WithTotals(g, PlayerRows(rankings, p));
      var row: map<UserId, Ranking> := rankings[t][p := r];
      var after := WithTotals(g, PlayerRows(rankings[t := row], p));
      after.totalPoints == before.totalPoints - RowOr(rankings[t], p).points + r.points
      && after.totalWins == before.totalWins - RowOr(rankings[t], p).wins + r.wins
      && after.totalLosses == before.totalLosses - RowOr(rankings[t], p).losses + r.losses
  {
    var rows := PlayerRows(rankings, p);
    var row: map<UserId, Ranking> := rankings[t][p := r];
    var rows' := PlayerRows(rankings[t := row], p);
    assert rows' == rows[t := r];
    assert p in rankings[t] ==> rows[t] == rankings[t][p];
    SumOfUpdate(rows, t, r, PointsOf);
    SumOfUpdate(rows, t, r, WinsOf);
    SumOfUpdate(rows, t, r, LossesOf);
  }
}
