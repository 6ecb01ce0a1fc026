/**
 * Set-score validation and the match-winner rule (core/utils.py).
 *
 * A submitted score is a sequence of sets, each the games won by the player in
 * slot 1 and the player in slot 2. Validation is a simplified form of rule 6 of
 * the ITF Rules of Tennis (a set is won with 6 games and a margin of two, or 7-5,
 * or 7-6 after a tie-break); the winner rule is rule 7 (best of three or five).
 */
module SetScores {
  import opened Base

  datatype SetScore = SetScore(player1: int, player2: int)

  /** A slot of a match: the player entered as player 1 or as player 2. */
  datatype Side = Player1 | Player2 {
    function Other(): Side {
      if this == Player1 then Player2 else Player1
    }
  }

  /** Why a list of sets is refused; `index` is the 1-based number of the offending set. */
  datatype SetScoreError =
    | WrongSetCount
    | NegativeGames(index: nat)
    | WinnerBelowSix(index: nat)
    | EqualGames(index: nat)
    | SixGamesMargin(index: nat)
    | SevenGamesMargin(index: nat)

  const MinSets: nat := 2
  const MaxSets: nat := 5

  function HigherGames(s: SetScore): int {
    if s.player1 >= s.player2 then s.player1 else s.player2
  }

  function LowerGames(s: SetScore): int {
    if s.player1 >= s.player2 then s.player2 else s.player1
  }

  /**
   * The sets the validator accepts, by case: 6 games against at most 4, 7 games
   * against 5 or 6, or 8 games or more against any smaller non-negative count
   * (the code does not check long sets any further, so 8-7 and 10-2 pass).
   */
  predicate AcceptedSet(s: SetScore) {
    var w, l := HigherGames(s), LowerGames(s);
    0 <= l < w &&
    ((w == 6 && l <= 4) || (w == 7 && 5 <= l <= 6) || w >= 8)
  }

  /** The checks made on set number `index`, in the order the code makes them. */
  function CheckSet(s: SetScore, index: nat): (r: Option<SetScoreError>)
    ensures r.None? <==> AcceptedSet(s)
    ensures r.Some? ==> r.value != WrongSetCount && r.value.index == index
    ensures r == Some(NegativeGames(index)) <==> s.player1 < 0 || s.player2 < 0
    ensures r == Some(EqualGames(index)) ==> s.player1 == s.player2 >= 6
  {
    if s.player1 < 0 || s.player2 < 0 then Some(NegativeGames(index))
    else if HigherGames(s) < 6 then Some(WinnerBelowSix(index))
    else if s.player1 == s.player2 then Some(EqualGames(index))
    else if HigherGames(s) == 6 && LowerGames(s) > 4 then Some(SixGamesMargin(index))
    else if HigherGames(s) == 7 && !(LowerGames(s) == 5 || LowerGames(s) == 6) then Some(SevenGamesMargin(index))
    else None
  }

  /** The first refused set from position `k` (0-based) on, reported with its 1-based number. */
  function FirstSetError(sets: seq<SetScore>, k: nat): (r: Option<SetScoreError>)
    requires k <= |sets|
    decreases |sets| - k
    ensures r.None? <==> forall i | k <= i < |sets| :: AcceptedSet(sets[i])
    ensures r.Some? ==>
      && r.value != WrongSetCount
      && k < r.value.index <= |sets|
      && r == CheckSet(sets[r.value.index - 1], r.value.index)
      && forall i | k <= i < r.value.index - 1 :: AcceptedSet(sets[i])
  {
    if k == |sets| then None
    else
      var e := CheckSet(sets[k], k + 1);
      if e.Some? then e else FirstSetError(sets, k + 1)
  }

  /**
   * validate_set_scores: None when the list is accepted, otherwise the first
   * reason to refuse it. The length is checked before any set.
   */
  function ValidateSetScores(sets: seq<SetScore>): (r: Option<SetScoreError>)
    ensures r.None? <==>
      MinSets <= |sets| <= MaxSets && forall i | 0 <= i < |sets| :: AcceptedSet(sets[i])
    ensures r == Some(WrongSetCount) <==> |sets| < MinSets || |sets| > MaxSets
    ensures r.Some? && r.value != WrongSetCount ==>
      && 1 <= r.value.index <= |sets|
      && !AcceptedSet(sets[r.value.index - 1])
      && r == CheckSet(sets[r.value.index - 1], r.value.index)
      && forall i | 0 <= i < r.value.index - 1 :: AcceptedSet(sets[i])
  {
    if |sets| < MinSets || |sets| > MaxSets then Some(WrongSetCount)
    else FirstSetError(sets, 0)
  }

  /** The slot credited with a set by the winner rule: player 1 only with strictly more games. */
  function SetWinner(s: SetScore): Side {
    if s.player1 > s.player2 then Player1 else Player2
  }

  /** Number of sets credited to `side` by the winner rule. */
  function SetsWon(sets: seq<SetScore>, side: Side): nat {
    if |sets| == 0 then 0
    else SetsWon(sets[..|sets| - 1], side) + (if SetWinner(sets[|sets| - 1]) == side then 1 else 0)
  }

  /** Sets needed to win: 2 in a match of up to 3 sets, otherwise 3. */
  function SetsToWin(setCount: nat): nat {
    if setCount <= 3 then 2 else 3
  }

  /** The decision of determine_match_winner, as a value. */
  function MatchWinner(sets: seq<SetScore>): Option<Side> {
    if SetsWon(sets, Player1) >= SetsToWin(|sets|) then Some(Player1)
    else if SetsWon(sets, Player2) >= SetsToWin(|sets|) then Some(Player2)
    else None
  }

  /** determine_match_winner: count the sets of each slot, then compare with the threshold. */
  method DetermineMatchWinner(sets: seq<SetScore>) returns (w: Option<Side>)
    ensures w == MatchWinner(sets)
    ensures w == Some(Player1) <==> SetsWon(sets, Player1) >= SetsToWin(|sets|)
    ensures |sets| <= MaxSets ==>
      (w == Some(Player2) <==> SetsWon(sets, Player2) >= SetsToWin(|sets|))
    ensures |sets| <= MaxSets ==>
      (w == None <==> SetsWon(sets, Player1) < SetsToWin(|sets|) && SetsWon(sets, Player2) < SetsToWin(|sets|))
  {
    var player1Sets, player2Sets := 0, 0;
    var i := 0;
    while i < |sets|
      invariant 0 <= i <= |sets|
      invariant player1Sets == SetsWon(sets[..i], Player1)
      invariant player2Sets == SetsWon(sets[..i], Player2)
    {
      assert sets[..i + 1][..i] == sets[..i];
      if sets[i].player1 > sets[i].player2 {
        player1Sets := player1Sets + 1;
      } else {
        player2Sets := player2Sets + 1;
      }
      i := i + 1;
    }
    assert sets[..|sets|] == sets;
    var setsToWin := if |sets| <= 3 then 2 else 3;
    if player1Sets >= setsToWin {
      w := Some(Player1);
    } else if player2Sets >= setsToWin {
      w := Some(Player2);
    } else {
      w := None;
    }
    if |sets| <= MaxSets {
      AtMostOneSideReachesThreshold(sets);
    }
  }

  /** Every set is credited to exactly one slot. */
  lemma {:induction false} SetsWonPartition(sets: seq<SetScore>)
    ensures SetsWon(sets, Player1) + SetsWon(sets, Player2) == |sets|
  {
    if |sets| > 0 {
      SetsWonPartition(sets[..|sets| - 1]);
    }
  }

  /** With at most five sets, the two slots never both reach the threshold. */
  lemma AtMostOneSideReachesThreshold(sets: seq<SetScore>)
    requires |sets| <= MaxSets
    ensures !(SetsWon(sets, Player1) >= SetsToWin(|sets|) && SetsWon(sets, Player2) >= SetsToWin(|sets|))
  {
    SetsWonPartition(sets);
  }

  /** A declared winner (of at most five sets) has won strictly more sets than the opponent. */
  lemma WinnerWonMoreSets(sets: seq<SetScore>, side: Side)
    requires |sets| <= MaxSets
    requires MatchWinner(sets) == Some(side)
    ensures SetsWon(sets, side) > SetsWon(sets, side.Other())
  {
    SetsWonPartition(sets);
  }

  /** In an accepted set one slot has strictly more games, and that slot is the one credited. */
  lemma AcceptedSetHasWinner(s: SetScore)
    requires AcceptedSet(s)
    ensures s.player1 != s.player2
    ensures SetWinner(s) == Player1 <==> s.player1 > s.player2
    ensures SetWinner(s) == Player2 <==> s.player2 > s.player1
  {
  }

  /** Straight sets for player 1 ([6-4, 6-3]) are accepted and give player 1. */
  lemma StraightSetsExample()
    ensures ValidateSetScores([SetScore(6, 4), SetScore(6, 3)]) == None
    ensures MatchWinner([SetScore(6, 4), SetScore(6, 3)]) == Some(Player1)
  {
    var sets := [SetScore(6, 4), SetScore(6, 3)];
    assert sets[..1] == [SetScore(6, 4)];
    assert sets[..1][..0] == [];
  }

  /** [6-4, 3-6, 6-2] is accepted and gives player 1, two sets to one. */
  lemma ThreeSetExample()
    ensures ValidateSetScores([SetScore(6, 4), SetScore(3, 6), SetScore(6, 2)]) == None
    ensures MatchWinner([SetScore(6, 4), SetScore(3, 6), SetScore(6, 2)]) == Some(Player1)
  {
    var s1, s2 := [SetScore(6, 4)], [SetScore(6, 4), SetScore(3, 6)];
    var sets := s2 + [SetScore(6, 2)];
    assert s1[..0] == [] && s2[..1] == s1 && sets[..2] == s2;
    assert SetsWon(s1, Player1) == 1;
    assert SetsWon(s2, Player1) == 1;
    assert SetsWon(sets, Player1) == 2;
    assert sets == [SetScore(6, 4), SetScore(3, 6), SetScore(6, 2)];
  }

  /** Tie-break sets and long sets pass: [7-5, 7-6] and [8-7, 10-2]. */
  lemma LongSetsExample()
    ensures ValidateSetScores([SetScore(7, 5), SetScore(7, 6)]) == None
    ensures ValidateSetScores([SetScore(8, 7), SetScore(10, 2)]) == None
  {
  }

  /**
   * A single set is refused for its length before its games are looked at, and
   * 6-5 in the second set is refused with that set's number.
   */
  lemma RefusedExamples()
    ensures ValidateSetScores([SetScore(6, 5)]) == Some(WrongSetCount)
    ensures ValidateSetScores([SetScore(5, 4)]) == Some(WrongSetCount)
    ensures ValidateSetScores([SetScore(6, 4), SetScore(6, 5)]) == Some(SixGamesMargin(2))
    ensures ValidateSetScores([SetScore(6, 4), SetScore(7, 3)]) == Some(SevenGamesMargin(2))
    ensures ValidateSetScores([SetScore(5, 5), SetScore(6, 4)]) == Some(WinnerBelowSix(1))
  {
  }
}
