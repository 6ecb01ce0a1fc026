# Tennis tournament management: a verified model of the service layer

This project models the core of a tennis tournament system in Dafny:
- users and their roles;
- tournaments and their life cycle (draft, registration, in progress, completed);
- matches and score submission;
- disputes and evidence;
- the ranking engine that turns completed matches into tournament and global standings.

The database is one `Db.Store` object. It holds a map from id to record for each table: users, tournaments, matches, scores, disputes and evidence. Tournament rankings are kept per tournament and player; global rankings are kept per player. There is also a counter per table for the next key.

`Db.Consistent` states what the foreign keys and the services guarantee together:
- every record id is below its table's counter;
- a match's tournament, a score's match, a dispute's match and its final score (which belongs to the same match), an evidence item's dispute and a tournament's ranking rows all point at existing records;
- a match's winner is one of its players, and a scheduled match has none;
- a score's match has left the scheduled state, and the score's winner is one of that match's players;
- there is at most one score per submitter and match;
- a match has at most one active (open or under review) dispute.

References to users are not checked. These are a tournament's creator, players and referees; a match's players, referee and winner; the submitter and confirmer of a score; the authors of disputes and evidence; and the player keys of both ranking tables. Deleting an account leaves them in place (see the "AccountService.DeleteAccount" line under "## Left out").

Every service operation is a method on the store. Its `ensures` clauses give:
- the error it reports, as a `Result`, checked in the source's order;
- the complete new state of the store;
- that the store stays consistent.

The pure rules are functions with lemmas about them:
- set validation and the winner rule (`SetScores`);
- round points, set tallies and head-to-head counts (`RankingRules`);
- the lexicographic ordering behind every position (`Ordering`).

The methods that number positions, credit matches and refresh global totals have loops. Each loop is proved against one of those functions.

Modules:
- `Base` and `Exceptions`: ids, `Option`, `Result` and the error kinds.
- `AccountModels`, `TournamentModels`, `ScoreModels`, `RankingModels` (in `models.dfy`): the records.
- `SetScores`: `validate_set_scores` and `determine_match_winner`.
- `Db`: the store and its consistency predicate.
- `ScoreService`, `DisputeService`: the two halves of the score services.
- `TournamentService`, `MatchService`: the tournament services.
- `AccountService`: the account services.
- `Ordering`, `RankingRules`, `RankingService`: the ranking engine.

## Model

| member | source | states |
|---|---|---|
| RankingModels.WinPercentage | apps/rankings/models.py:31-39 | 0 when no match has been played; between 0 and 100 when the counters are non-negative; 100 when the player has wins and no losses. |
| SetScores.CheckSet | core/utils.py:18-48 | A set is refused exactly when it is not an accepted set. Negative games are reported exactly when a side is negative; equal games are reported only for a tie at 6 or more. The error carries the set's 1-based number. |
| SetScores.FirstSetError | core/utils.py:18-48 | No error exactly when every set from k on is accepted; otherwise the error is that of the first refused set. |
| SetScores.ValidateSetScores | core/utils.py:11-50 | Accepted exactly when there are 2 to 5 sets and all are accepted. WrongSetCount is reported exactly when the count is out of range. Any other error is that of the first refused set. |
| SetScores.DetermineMatchWinner | core/utils.py:53-70 | The loop counts each side's sets. Player 1 wins exactly when it reaches the threshold (2 of up to 3 sets, else 3); player 2 wins when it alone reaches it. |
| SetScores.SetsWonPartition | core/utils.py:57-61 | Every set is credited to exactly one side, so the two counts add up to the number of sets. |
| SetScores.AtMostOneSideReachesThreshold | core/utils.py:63-70 | With at most five sets, the two sides never both reach the threshold. |
| SetScores.WinnerWonMoreSets | core/utils.py:63-70 | A declared winner has won strictly more sets than the opponent. |
| SetScores.AcceptedSetHasWinner | core/utils.py:34-48 | In an accepted set one side has strictly more games, and that side is credited with the set. |
| SetScores.StraightSetsExample | apps/scores/tests/test_services.py:63-74 | [6-4, 6-3] is accepted and gives player 1. |
| SetScores.ThreeSetExample | apps/scores/tests/test_integration.py:90-100 | [6-4, 3-6, 6-2] is accepted and gives player 1. |
| SetScores.LongSetsExample | core/utils.py:40-48 | [7-5, 7-6] and the long sets [8-7, 10-2] are accepted. |
| SetScores.RefusedExamples | apps/scores/tests/test_services.py:101-106 | A single set fails on the count before its games are checked. 6-5 and 7-3 in set 2 fail with that set's number; 5-5 fails as a winner below six. |
| ScoreService.ScoreWinner | apps/scores/services.py:58-62 | The recorded winner is the player in the slot the winner rule picks, or none when the sets do not decide. |
| ScoreService.ScoreWinnerWonMoreSets | apps/scores/services.py:49-62 | On an accepted score between two different players, the recorded winner won strictly more sets. |
| ScoreService.FinalizeMatch | apps/scores/services.py:194-197 | The match becomes completed with the score's winner; nothing else changes; the store stays consistent. |
| ScoreService.NewScoreKeepsConsistent | apps/scores/services.py:64-70 | A new score from a new submitter, whose winner is a player of the match, keeps the tables consistent. |
| ScoreService.ScoreEditKeepsConsistent | apps/scores/services.py:155-162 | Rewriting a score in place, with the same match and submitter, keeps the tables consistent. |
| ScoreService.ScoreRemovalKeepsConsistent | apps/scores/services.py:167-186 | Deleting a score and clearing it from the disputes that accepted it keeps the tables consistent. |
| ScoreService.CreateScore | apps/scores/services.py:64-70 | The score is stored under the next key, and only that changes. |
| ScoreService.SubmitScore | apps/scores/services.py:19-76 | Errors in the source's order: not found, not a player or the referee, wrong match state, invalid sets, duplicate submitter. On success the new score has the computed winner. A referee's score is confirmed at once and completes the match. |
| ScoreService.ConfirmScore | apps/scores/services.py:80-122 | A player of the match other than the submitter, or the match's referee, may confirm a score not yet confirmed. The score records who confirmed it and when, and the match is completed with its winner. |
| ScoreService.UpdateScore | apps/scores/services.py:125-164 | Only the submitter may update, and only while unconfirmed. The sets are validated and the winner recomputed; the match is untouched. |
| ScoreService.ClearFinalScore | apps/scores/migrations/0001_initial.py:111-119 | A dispute that accepted the deleted score loses that reference, and nothing else about it changes. |
| ScoreService.DeleteScore | apps/scores/services.py:167-186 | The submitter may delete an unconfirmed score and an organizer any score. Disputes that referenced it are cleared; the match is untouched. |
| DisputeService.OpenDisputes | apps/scores/services.py:204-207 | Exactly the disputes that are not resolved. In a consistent store no two of them share a match. |
| DisputeService.OpenKeepsConsistent | apps/scores/services.py:210-249 | Opening a dispute on a match with no active one, and marking the match disputed, keeps the tables consistent. |
| DisputeService.CreateDispute | apps/scores/services.py:210-249 | Refused for a non-player or a match with an active dispute. Otherwise an open dispute is stored and the match becomes disputed. |
| DisputeService.ResolvedWinner | apps/scores/services.py:283-300 | The declared winner if given, else the accepted score's winner, else none. Under the guards it is a player of the match. |
| DisputeService.CloseKeepsConsistent | apps/scores/services.py:302-313 | Closing a dispute and completing its match with a winner among its players keeps the tables consistent. |
| DisputeService.CloseDispute | apps/scores/services.py:302-313 | The dispute is stored resolved and the match is completed with the winner; the store stays consistent. |
| DisputeService.ResolveDispute | apps/scores/services.py:253-315 | Only the referee of the match or an organizer may resolve. Refused when already resolved, when the final score is missing or belongs to another match, or when the winner is not a player of the match. Otherwise the dispute is resolved and the match completed. |
| DisputeService.EvidenceKeepsConsistent | apps/scores/services.py:318-355 | Evidence attached to an existing dispute under a fresh key keeps the tables consistent. |
| DisputeService.AddEvidence | apps/scores/services.py:318-355 | Allowed for a player of the match, any referee or an organizer, and only while the dispute is unresolved. The evidence is stored under the next key. |
| DisputeService.MarkUnderReviewAsWritten | apps/scores/services.py:363-376 | The source as written: a missing dispute is not found and a user who is neither referee nor organizer is refused. Otherwise the result is Ok with the dispute under review, whatever its status was. |
| DisputeService.MarkUnderReviewReactivatesResolved | apps/scores/services.py:370-374 | As written, reviewing a resolved dispute can leave two active disputes on one match. |
| DisputeService.ReviewKeepsOneActiveDispute | apps/scores/services.py:363-376 | Putting an unresolved dispute under review keeps at most one active dispute per match. |
| DisputeService.MarkUnderReview | apps/scores/services.py:363-376 | Corrected: a referee or organizer puts an unresolved dispute under review; a resolved one is refused. The store stays consistent. |
| TournamentService.CreateTournament | apps/tournaments/services.py:18-41 | Only organizers. The new tournament is a draft with no players or referees; the player limit defaults to 32. |
| TournamentService.ApplyFieldsKeepsParticipants | apps/tournaments/services.py:62-64 | The field updates never change who plays or referees. |
| TournamentService.NoStatusEntryKeepsStatus | apps/tournaments/services.py:62-64 | Without a status entry the status is unchanged. |
| TournamentService.LastStatusEntryWins | apps/tournaments/services.py:62-64 | With status entries, the status is that of the last one. |
| TournamentService.UpdateTournament | apps/tournaments/services.py:44-66 | Only organizers, and not on a completed or cancelled tournament. The fields are written in order. |
| TournamentService.CascadeKeepsConsistency | apps/tournaments/services.py:69-83 | Removing a tournament together with its matches, their scores and disputes, their evidence and its rankings leaves no dangling reference. |
| TournamentService.CascadeKeepsStoreConsistent | apps/tournaments/services.py:69-83 | The whole store after the cascade is consistent. |
| TournamentService.DeleteTournament | apps/tournaments/services.py:69-83 | Only organizers, and not while in progress. The tournament and everything depending on it are removed. |
| TournamentService.AddPlayer | apps/tournaments/services.py:86-116 | Checks in order: organizer, draft or registration status, an existing player-role user, room left, not already in. The player count never exceeds the player limit. |
| TournamentService.RemovePlayer | apps/tournaments/services.py:119-134 | Only organizers, and not while in progress. The player is removed if present. |
| TournamentService.AddReferee | apps/tournaments/services.py:137-161 | Only organizers. A referee-role user not yet in the tournament is added, whatever the status. |
| TournamentService.OpenRegistration | apps/tournaments/services.py:164-174 | Only a draft moves to registration. |
| TournamentService.StartTournament | apps/tournaments/services.py:177-190 | Only a tournament open for registration with at least two players starts. |
| TournamentService.CompleteTournament | apps/tournaments/services.py:193-200 | An organizer completes a tournament, whatever its status. |
| MatchService.BothRegisteredCount | apps/tournaments/services.py:280-282 | Two registered users among {player1, player2} means both are registered and they differ. |
| MatchService.NewMatchKeepsConsistent | apps/tournaments/services.py:225-252 | A consistent match of an existing tournament under a fresh key keeps the tables consistent. |
| MatchService.CreateMatch | apps/tournaments/services.py:225-252 | Only organizers, and only in registration or in progress. A scheduled match with no winner is stored; the round defaults to the round of 32. |
| MatchService.AssignPlayers | apps/tournaments/services.py:255-287 | Only organizers and only on a scheduled match. Both players must be player-role users, different and registered in the tournament. |
| MatchService.AssignReferee | apps/tournaments/services.py:290-312 | Only organizers. The referee must have the referee role; any match status is allowed. |
| MatchService.StartMatch | apps/tournaments/services.py:315-328 | An organizer or the match's referee starts a scheduled match whose two slots are filled. |
| AccountService.NormalizeEmail | apps/accounts/services.py:31-40 | The address create_user stores, as Django's normalize_email computes it: without an '@' in the stripped address, the address exactly as given; with one, an address as long as the stripped one. |
| AccountService.NormalizeEmailChangesCaseOnly | apps/accounts/services.py:31-40 | With an '@' present, the stored address is the stripped address up to the case of its letters. |
| AccountService.NormalizeEmailIdempotent | apps/accounts/services.py:31-40 | The address the user manager stores (stripped, the part after the last '@' lower-cased) normalises to itself. |
| AccountService.NormalizeEmailExamples | apps/accounts/services.py:31-40 | "b@X.com" is stored as "b@x.com", and "b@x.com" is kept. |
| AccountService.NormalizeEmailStripExample | apps/accounts/services.py:31-40 | " Ann@Example.COM " is stored as "Ann@example.com": only the domain is lower-cased. |
| AccountService.NormalizeEmailNoAtExample | apps/accounts/services.py:31-40 | An address without '@' is stored exactly as given, spaces included. |
| AccountService.NewUser | apps/accounts/services.py:31-40 | The account create_user stores is active, neither staff nor superuser, and has the spectator role when none is given. |
| AccountService.RegisterRefusalAsWritten | apps/accounts/services.py:25-40 | register_user as written: the account is created exactly when the username and the email as given are both unused and the username is not empty; the ValueError comes exactly when only the empty username stops it. |
| AccountService.RegisterAsWrittenDuplicatesEmail | apps/accounts/services.py:25-40 | With the duplicate check on the address as given, "b@X.com" passes next to a stored "b@x.com", and the new account then shares its email. |
| AccountService.RegisterUser | apps/accounts/services.py:15-41 | Refused when the username, then the normalised email, is taken, then with a ValueError when the username is empty. Otherwise an active non-staff account with the given or default role and the normalised email is stored. Usernames and emails stay unique. |
| AccountService.ProfileUpdateKeepsProtectedFields | apps/accounts/services.py:76-78 | A profile update never changes the password, the role or the staff and superuser flags. |
| AccountService.ProtectedEntriesChangeNothing | apps/accounts/services.py:76-78 | Entries that are all protected leave the user unchanged. |
| AccountService.UpdateProfile | apps/accounts/services.py:65-80 | The loop writes the entries in order, skipping protected ones; only that user changes. |
| AccountService.ChangePassword | apps/accounts/services.py:83-95 | The password changes exactly when the old one matches; otherwise a validation error and no change. |
| AccountService.DeleteAccount | apps/accounts/services.py:98-109 | Users may delete their own account and organizers any account; others are refused. |
| AccountService.UsersByRole | apps/accounts/services.py:112-122 | Exactly the active users with the role. |
| AccountService.AllPlayers | apps/accounts/services.py:125-127 | Exactly the active player-role users. |
| AccountService.AllReferees | apps/accounts/services.py:130-132 | Exactly the active referee-role users. |
| AccountService.RoleQueriesPartitionActiveUsers | apps/accounts/services.py:112-132 | The four role queries together list exactly the active users, and queries for two different roles share no user. |
| Ordering.LexLessIrreflexive | apps/rankings/services.py:82-84 | No key sorts before itself. |
| Ordering.LexLessTransitive | apps/rankings/services.py:82-84 | The key order is transitive. |
| Ordering.LexLessTotal | apps/rankings/services.py:82-84 | Two different keys are always ordered one way or the other. |
| Ordering.LexLessAsymmetric | apps/rankings/services.py:82-84 | The key order is asymmetric. |
| Ordering.InsertByKey | apps/rankings/services.py:82-84 | Inserting a row keeps the listing sorted and duplicate-free, and adds exactly that row. |
| Ordering.InsertAtBoundaryKeepsSorted | apps/rankings/services.py:82-84 | Inserting just before the first larger key keeps a sorted listing sorted. |
| Ordering.SortByKey | apps/rankings/services.py:82-84 | The result lists every row exactly once, sorted by key. |
| Ordering.RankOrderRespectsKeys | apps/rankings/services.py:82-84 | In a rank order, a strictly smaller key comes strictly earlier. |
| Ordering.SortedListsEqual | apps/rankings/services.py:82-84 | Two sorted duplicate-free listings of the same rows with distinct keys are equal. |
| Ordering.RankOrderUnique | apps/rankings/services.py:82-84 | With distinct keys there is only one rank order. |
| Ordering.RankedPositions | apps/rankings/services.py:86-88 | Numbered positions run from 1 to n without repetition, and a smaller key gets a smaller position. |
| Ordering.RankedRespectsKeys | apps/rankings/services.py:86-88 | Numbered positions respect the keys. |
| Ordering.RankedUnique | apps/rankings/services.py:81-88 | With distinct keys the positions are determined by the keys. |
| Ordering.SameOrderSamePositions | apps/rankings/services.py:86-88 | Numbering one listing twice gives the same positions. |
| RankingRules.RoundPoints | apps/rankings/services.py:12-20 | Each round is worth between 10 and 800 points, and the loser's quarter is strictly less. |
| RankingRules.LaterRoundsWorthMore | apps/rankings/services.py:12-20 | A later round is worth strictly more, to the winner and to the loser. |
| RankingRules.SetTally | apps/rankings/services.py:51-73 | Every set goes to exactly one side of the tally. |
| RankingRules.SetTallyStep | apps/rankings/services.py:51-73 | The tally of a prefix one set longer adds that set to the shorter prefix's tally. |
| RankingRules.TallyAgreesWithWinnerRule | apps/rankings/services.py:51-73 | The tally credits each player with the sets the winner rule gives that player's slot (with the winner in slot 2, when no set is tied). |
| RankingRules.TallyFavoursScoreWinner | apps/rankings/services.py:51-73 | For an accepted score, the recorded winner is credited with strictly more sets than the loser. |
| RankingRules.HeadToHeadKeysDistinct | apps/rankings/services.py:174 | The sort keys (scheduled time descending, then creation descending) of two different matches differ, so the listing order is fully determined. |
| RankingService.GetHeadToHead | apps/rankings/services.py:165-196 | Lists every completed match with a winner between the two players exactly once, latest scheduled first, then latest created. Each entry carries that match's id, tournament name, round, winner and time. Each player's wins are the listed matches that player won, and the total is the length of the list. |
| RankingService.ListedWinsAreWins | apps/rankings/services.py:177-178 | Counting a player's wins over the listed entries gives that player's wins among the counted matches. |
| RankingRules.HeadToHeadSwapped | apps/rankings/services.py:166-175 | Swapping the players counts the same matches. |
| RankingRules.HeadToHeadWinsAddUp | apps/rankings/services.py:177-185 | Between two different players, when every winner is a player of the match, the wins add up to the number of matches. |
| RankingRules.HeadToHeadExample | apps/rankings/tests/test_services.py:184-216 | Three completed matches, one with the players' slots swapped, count as 3 matches: 2 wins and 1 win. |
| RankingRules.LoserIsTheOtherPlayer | apps/rankings/services.py:32 | With two different assigned players and a winner among them, the loser is the other player. |
| RankingRules.CreditChangesSum | apps/rankings/services.py:43-76 | Crediting a match changes any column total by exactly what the two rows gain. |
| RankingRules.CreditKeepsBalance | apps/rankings/services.py:43-76 | Crediting keeps the total wins equal to the total losses, and likewise for sets and for games. |
| RankingRules.CreditAddsRoundPoints | apps/rankings/services.py:41-47 | A match adds the round's points plus a quarter of them to the tournament total. |
| RankingRules.CreditTwiceCountsTwice | apps/rankings/services.py:26-78 | Nothing records that a match was already credited: crediting it again counts the win and the loss twice. |
| RankingRules.LatestConfirmed | apps/rankings/services.py:49-50 | None exactly when the match has no confirmed score; otherwise the newest confirmed score. |
| RankingRules.CreditedSets | apps/rankings/services.py:49-73 | The credited sets are those of a confirmed score of the match. |
| RankingRules.NumberedAlongOrder | apps/rankings/services.py:86-88 | Numbering rows 1, 2, ... along a rank order changes only their positions and ranks them. |
| RankingRules.PositionsOfRows | apps/rankings/services.py:86-88 | Position bounds and uniqueness carry over from the position map to the rows. |
| RankingRules.RepositionedProperties | apps/rankings/services.py:81-88 | After recalculation, positions run from 1 to n without repetition, more points means a better position, and the top row has the most points. |
| RankingRules.MorePointsComesFirst | apps/rankings/services.py:82-84 | More points sorts first, whatever the other columns. |
| RankingRules.RepositionedKeepsKeys | apps/rankings/services.py:86-88 | Changing only positions leaves the sort keys unchanged. |
| RankingRules.RepositionedTwiceIsOnce | apps/rankings/services.py:81-88 | With no ties, recalculating again changes nothing. |
| RankingRules.GlobalNumberedAlongOrder | apps/rankings/services.py:130-137 | Numbering global rows along a rank order changes only their positions and ranks them. |
| RankingRules.GlobalRepositionedIsRanked | apps/rankings/services.py:130-137 | Renumbered global rows are ranked by their own totals, with positions in 1..n for n rows. |
| RankingRules.WithTotals | apps/rankings/services.py:118-125 | Setting the totals leaves the global position as it was. |
| RankingRules.TournamentsWonAtMostPlayed | apps/rankings/services.py:123-124 | Tournaments won never exceed tournaments played, which is the number of the player's rows. |
| RankingRules.TotalsFollowOneRow | apps/rankings/services.py:118-124 | Changing one tournament row changes the points, wins and losses totals by exactly that row's change. |
| RankingService.Renumber | apps/rankings/services.py:86-88 | The loop numbers the rows 1, 2, ... along a rank order. |
| RankingService.WriteRows | apps/rankings/services.py:75-76 | Only the tournament's rows are replaced; the store stays consistent. |
| RankingService.RecalculatePositions | apps/rankings/services.py:81-88 | Only the tournament's positions change, and the rows are ranked. |
| RankingService.RenumberGlobal | apps/rankings/services.py:135-137 | The loop numbers the global rows along a global rank order. |
| RankingService.RecalculateGlobalPositions | apps/rankings/services.py:130-137 | Only global positions change, and the global rows are ranked. |
| RankingService.CreditMatch | apps/rankings/services.py:43-73 | The loop yields the winner's and the loser's rows credited with the result, the round's points and the tally of the sets. |
| RankingService.UpdateRankingAfterMatch | apps/rankings/services.py:26-78 | Does nothing unless the match is completed with a winner. Otherwise only the two players' rows (created when missing) are credited, then the tournament's positions are recalculated. |
| RankingService.SetGlobalRow | apps/rankings/services.py:115-127 | One global row is replaced and all global rows are renumbered. |
| RankingService.SetGlobalRowFacts | apps/rankings/services.py:115-127 | After that, the updated row has the new totals, the others keep theirs, and all are ranked. |
| RankingService.UpdateGlobalRanking | apps/rankings/services.py:115-127 | The player's global row (created when missing) gets the totals over the player's tournament rows, then every global position is recalculated. |
| RankingService.WithBonus | apps/rankings/services.py:99-106 | The bonus changes only the winner's row. |
| RankingService.BonusGoesToWinner | apps/rankings/services.py:99-106 | The winner's points rise by exactly 500 and nothing else changes. |
| RankingService.FindCompletedFinal | apps/rankings/services.py:93-97 | Some completed final of the tournament, or none when there is none. |
| RankingService.AwardBonus | apps/rankings/services.py:99-108 | The bonus goes to the winner's existing row, then the tournament is repositioned. |
| RankingService.RefreshStep | apps/rankings/services.py:110-111 | Refreshing one more player extends a refresh over the players done so far. |
| RankingService.RefreshOne | apps/rankings/services.py:110-111 | One loop turn brings one more player's totals up to date and leaves the global rows ranked. |
| RankingService.RefreshGlobalRows | apps/rankings/services.py:110-111 | The loop gives every listed player totals over their rows, keeps the others' totals, and ranks the global rows. With no players the global rows come back unchanged. |
| RankingService.RefreshTournamentPlayers | apps/rankings/services.py:110-111 | Only the global rows change: every player with a row in the tournament gets up-to-date totals and the rows are ranked. A tournament without rows leaves them exactly as they were. |
| RankingService.FinalizeTournamentRankings | apps/rankings/services.py:92-111 | Bonus to the winner of a completed final, then the tournament is repositioned. Every player with a row then has up-to-date global totals, and the global rows are ranked. A tournament without rows leaves the global rows exactly as they were. |
| RankingService.InitializeIsIdempotent | apps/rankings/services.py:160-162 | Initialising twice equals once; existing rows are never reset; missing ones start at zero. |
| RankingService.AddMissingRows | apps/rankings/services.py:160-162 | The loop adds a zero row for each player without one. |
| RankingService.InitializeTournamentRankings | apps/rankings/services.py:160-162 | Only the tournament's rows change: a row for every registered player, created when missing. |

## Left out

- login and logout: they act on the HTTP session, not on stored data.
- Password hashing: a password is an opaque value compared for equality.
- Avatars, uploaded evidence files and their upload paths: a file is an opaque reference. The file system and random names are not modelled.
- Timestamps: the current time is a parameter wherever a time is recorded.
- The read-only queries are not modelled. These are get_match_scores, get_dispute_evidence, get_tournament_matches, get_user_tournaments, get_user_matches, get_match_by_id, get_tournament_leaderboard, get_global_leaderboard and get_player_rankings. They list records and change nothing; the orders they use are the positions covered above.
- Argument types: records and ids are typed, so the source's type checks on its arguments always pass.
- Ids that name missing records: ids the source receives as model instances are required to exist.
- AccountService.UpdateProfile: the unique-username constraint that the database applies on save is not modelled. Only the user's modelled fields can be written.
- AccountService.DeleteAccount: removes the user only. The database's effects on records that reference the user (cascade or set-null) are not modelled.
- TournamentService.UpdateTournament: only the tournament's own scalar fields can be written. As in the source, nothing stops the update from setting the status or lowering the player limit below the player count.
- RankingService.UpdateRankingAfterMatch: no score or dispute operation calls it; it is a separate entry point, as in the source. It takes the newest confirmed score to be the one with the largest id, since ids grow in creation order. A match without a loser makes get_or_create for the missing player raise. The transaction is rolled back and the exception reaches the caller. The model returns `RolledBack` for that error and leaves the store as it was. When winner and loser are the same user, the loser's write is the one kept.
- RankingService.FindCompletedFinal: returns some completed final, where the source takes the first in the table's default order.
- RankingRules.RoundPoints: the 50-point default for an unknown round cannot happen, because the round is an enumeration.
- Ordering.SortByKey: rows with equal sort keys may come in any order, as the database leaves their order undefined. Positions among tied rows are therefore not determined.
- RankingService.SetGlobalRowFacts: the global totals are compared through SameTotals, the totals fields only.
- SetScores.ValidateSetScores: the length is checked before the games, so a single 6-5 set is refused for the number of sets, not for the 6-games margin.
- DisputeService.AddEvidence: any referee may add evidence, not only the match's referee, as the code does.
- ScoreModels: the source's scores model file declares only Score. Dispute and Evidence follow the tables declared in apps/scores/migrations/0001_initial.py.
- AccountService.RegisterUser: the username's NFKC normalisation by the user manager is not modelled; usernames are stored and compared as given. The email's lower-casing covers ASCII letters only, and lookups compare exactly, as on a case-sensitive database. Of Django's user manager, the model keeps the ValueError for an empty username, normalize_email (as `NormalizeEmail`) and the stored defaults (as `NewUser`). Password hashing and the username's normalisation are left out.
- RankingService.GetHeadToHead: creation times are not stored; match ids stand in for creation order. Unscheduled matches come first, as PostgreSQL orders nulls in a descending sort; other databases differ. The listed entries do not carry the creation time.
- AccountModels: apps/accounts/models.py contains unresolved merge-conflict markers; both sides agree on the roles and the default modelled here.

## Findings

| source | as written | input that shows it | evidently intended | confidence | as-written member | corrected member |
|---|---|---|---|---|---|---|
| apps/scores/services.py:370-374 | mark_under_review sets the status to under review whatever it was, so a resolved dispute becomes active again | a resolved dispute 1 and an open dispute 2 on the same match; a referee marks dispute 1 under review | refuse a resolved dispute, keeping at most one active dispute per match | not executed | DisputeService.MarkUnderReviewReactivatesResolved | DisputeService.MarkUnderReview |
| apps/accounts/services.py:28-40 | the duplicate-email lookup compares the address as given, while create_user stores it with the domain lower-cased | stored user "bob" with "b@x.com"; register "ann" with "b@X.com" | look up the address as it will be stored | not executed | AccountService.RegisterAsWrittenDuplicatesEmail | AccountService.RegisterUser |
