# FinOpenPOS tournament core, modelled in Dafny

This project models the tournament logic of FinOpenPOS, a point-of-sale and
club management application. The main component builds a playoff bracket
from the teams that qualified from the group stage. The steps are:

- rank the group winners, runners-up and thirds into one global seed list;
- size the first round so that the round after it has a power-of-two number
  of places, giving the best seeds a bye when the team count is not a power
  of two;
- place bye teams and first-round matches on bracket positions through the
  standard seed order (1 v 8, 4 v 5, 2 v 7, 3 v 6 for eight places). First
  round pairs never join two teams of one group when another choice
  remains;
- build the round after the first, and every later round as "Ganador"
  (winner) placeholders down to the final.

Five smaller components are modelled beside it:

- the ranking points a scoring tournament awards when it finishes;
- the yearly per-category player ranking built from those points;
- the category-eligibility check on registrations;
- the per-product stock statistics built from aggregated stock movements;
- the pure logic of the tournaments API route: the `status` filter of the
  listing, date normalisation and the expansion of time blocks into match
  slots.

Modules follow the source's structure:

| module | file | models |
|---|---|---|
| `Common` | common.dfy | `Option` and `Result` |
| `Collections` | collections.dfy | filter, `findIndex`, stable sort by an integer key (JavaScript's `Array.prototype.sort` is stable) |
| `Text` | text.dfy | decimal printing, `trim`, `split`, `padStart`, `parseInt(…, 10) \|\| 0`, capitalisation |
| `PlayoffTeams` | playoff_teams.dfy | `buildGlobalRanking`, `group_order` lookup |
| `RoundSizing` | round_sizing.dfy | `calculateFirstRound`, round names |
| `SeedOrder` | seed_order.dfy | `getStandardSeedOrder` |
| `ByeSeeding` | bye_seeding.dfy | `seedByeTeams` and `pickBestPosition` |
| `FirstRoundPairing` | first_round.dfy | `generateFirstRoundMatches` |
| `NextRound` | next_round.dfy | `calculateMatchStrength`, `generateNextRoundWithByes` |
| `Bracket` | bracket.dfy | `generatePlayoffBracket`, `generatePlayoffs` |
| `RankingPoints` | ranking_points.dfy | `computeAndSaveTournamentRankingPoints` |
| `PlayerPoints` | player_points.dfy | `getRankingByCategoryAndYear` |
| `CategoryEligibility` | category_eligibility.dfy | `validateCategoryEligibility` |
| `StockStatistics` | stock_statistics.dfy | `StockMovementsStatisticsService.getStatistics` |
| `TournamentsRoute` | tournaments_route.dfy | the `GET` status filter and the `POST` helpers of the tournaments route |

The source keeps some state step by step: arrays filled in place, maps and
lists built in loops. That state is written as imperative Dafny: methods with
`while` loops, an `array` for the bye slots, and a `seq` or `map` for each
JavaScript list or `Map` that a loop builds. Each such method is proved equal
to a specification function. The properties the source promises are proved
about those functions as lemmas.

Database reads become input sequences and maps, and the rows written back
become the result. A JavaScript exception becomes the `Failure` case of a
`Result`, and `null`/`undefined` become `None`. JavaScript's `Infinity`
strength or opponent seed becomes the sentinel `|rankedTeams|`, which is
larger than every real index.

Two places where the code does something its own comments or its shape
might not suggest:

- `generateNextRoundWithByes` sorts the first-round matches strongest
  first, although the comment at the sort (tournament-playoffs.ts:521) says
  weakest first. The open positions are sorted by the seed of the bye they
  face, best first, and position `i` receives match `length - 1 - i`
  (tournament-playoffs.ts:575-577). So a position facing a better bye seed
  never receives a stronger match than one facing a worse seed. The
  best-placed position receives the weakest match only when there are as
  many open positions as first-round matches. With more open positions,
  the best-placed ones receive no match; with fewer, the best-placed
  position receives match `|open| - 1`, which need not be the weakest.
  `NextRound.NextRoundAssignment` states the monotone property.
- The bye branch of `generatePlayoffBracket` seeds the whole ranked list for
  the first-round slots (tournament-playoffs.ts:662-663), and only the bye
  teams for the round after it (tournament-playoffs.ts:688-694, called with
  an empty list of first-round matches).

## Model

| member | source | states |
|---|---|---|
| PlayoffTeams.BuildGlobalRanking | src/lib/tournament-playoffs.ts:39-57 | the ranking holds exactly the firsts, seconds and thirds, and only teams placed 1 to 3 |
| PlayoffTeams.GlobalRankingOrdered | src/lib/tournament-playoffs.ts:39-57 | firsts come before seconds before thirds; firsts and thirds ascend by group order, seconds descend |
| PlayoffTeams.BlocksRanked | src/lib/tournament-playoffs.ts:55-56 | three blocks sorted by their own keys concatenate into a ranking-ordered list |
| PlayoffTeams.FilterPositionsSplit | src/lib/tournament-playoffs.ts:41-43 | the three position filters split the top-three teams as a multiset |
| PlayoffTeams.GlobalRankingPermutation | src/lib/tournament-playoffs.ts:41-56 | the ranking is a permutation of the input teams placed 1 to 3 |
| PlayoffTeams.GlobalRankingStable | src/lib/tournament-playoffs.ts:47-53 | teams with equal group order keep their input order (stable sort) |
| PlayoffTeams.GlobalRankingExample | src/lib/tournament-playoffs.ts:39-57 | a worked five-team ranking: 1A, 1B, 1C, 2B, 2A |
| PlayoffTeams.FindIndexById | src/lib/tournament-playoffs.ts:381-382 | `findIndex` by team id: the first index with that id, or -1 exactly when none has it |
| PlayoffTeams.FindIndexOfMember | src/lib/tournament-playoffs.ts:381-382 | with distinct ids, a team's lookup returns its own index |
| PlayoffTeams.AttachGroupOrder | src/lib/tournament-playoffs.ts:835-838 | each team keeps its fields and gets its group's order, 999 for an unknown group |
| RoundSizing.CeilPow2 | src/lib/tournament-playoffs.ts:87-91 | the result is a power of two at least the target whose half is below it |
| RoundSizing.CeilPow2Least | src/lib/tournament-playoffs.ts:87-91 | it is the least power of two at or above the target |
| RoundSizing.CeilPow2OfPow2 | src/lib/tournament-playoffs.ts:87-93 | a power of two is its own ceiling |
| RoundSizing.SmallestPowerOfTwoAtLeast | src/lib/tournament-playoffs.ts:88-91 | the doubling loop computes `CeilPow2` |
| RoundSizing.FirstRound | src/lib/tournament-playoffs.ts:69-143 | teams playing and teams with a bye partition the teams |
| RoundSizing.CalculateFirstRound | src/lib/tournament-playoffs.ts:69-143 | the method computes `FirstRound`, the correction branch included |
| RoundSizing.FirstRoundShape | src/lib/tournament-playoffs.ts:84-140 | from 3 teams up: a power-of-two next round below n, an even positive number playing, byes fewer than next-round places, winners plus byes filling it, no byes exactly for a power of two, and the round named after the next round's size |
| RoundSizing.NextRoundBounds | src/lib/tournament-playoffs.ts:87-100 | the next round size is an even power of two between n/2 and n |
| RoundSizing.FirstRoundOfTen | src/lib/tournament-playoffs.ts:84-87 | the worked example: ten teams give "octavos" with 4 playing, 6 byes and 8 places next |
| RoundSizing.ThresholdNameIsSlotName | src/lib/tournament-playoffs.ts:124-140 | the first-round name for p next-round places is `getRoundName(2p)` |
| SeedOrder.Identity | src/lib/tournament-playoffs.ts:151-164 | the fallback order 1..n |
| SeedOrder.Interleave | src/lib/tournament-playoffs.ts:166-171 | each seed of the half is followed by its mirror `size + 1 - seed` |
| SeedOrder.StandardSeedOrder | src/lib/tournament-playoffs.ts:149-172 | the order has `size` entries, one for a size below 1 |
| SeedOrder.GetStandardSeedOrder | src/lib/tournament-playoffs.ts:149-172 | the recursive method with its push loop computes `StandardSeedOrder` |
| SeedOrder.PushMirrored | src/lib/tournament-playoffs.ts:166-171 | the push loop builds `Interleave` |
| SeedOrder.IdentityIsPermutation | src/lib/tournament-playoffs.ts:151-164 | the fallback order is a permutation of 1..n |
| SeedOrder.InterleaveIsPermutation | src/lib/tournament-playoffs.ts:166-171 | mirroring a permutation of 1..h gives a permutation of 1..2h |
| SeedOrder.InterleaveRange | src/lib/tournament-playoffs.ts:166-171 | even places hold the top half of the seeds and odd places the bottom half |
| SeedOrder.InterleaveDistinct | src/lib/tournament-playoffs.ts:166-171 | mirroring keeps the seeds distinct |
| SeedOrder.InterleaveCovers | src/lib/tournament-playoffs.ts:166-171 | mirroring covers every seed 1..2h |
| SeedOrder.SeedOrderIsPermutation | src/lib/tournament-playoffs.ts:149-172 | for every size from 1 up, the order is a permutation of 1..size |
| SeedOrder.SeedOrderPairs | src/lib/tournament-playoffs.ts:166-171 | each adjacent pair of places holds seeds summing to size + 1, the better one first |
| SeedOrder.TopSeedsInOppositeHalves | src/lib/tournament-playoffs.ts:146-172 | seed 1 opens the top half and seed 2 the bottom half |
| SeedOrder.SeedOrderStartsWithOne | src/lib/tournament-playoffs.ts:146-172 | for every size from 1, the order starts with seed 1 |
| SeedOrder.SeedOrderOdd | src/lib/tournament-playoffs.ts:155-157 | an odd size falls back to 1..size |
| SeedOrder.SeedOrderOfEight | src/lib/tournament-playoffs.ts:146-147 | the documented pattern [1, 8, 4, 5, 2, 7, 3, 6] |
| ByeSeeding.SortedPositionsSeeds | src/lib/tournament-playoffs.ts:193-194 | sorting positions by seed puts the place of seed k at index k - 1 |
| ByeSeeding.PositionsRange | src/lib/tournament-playoffs.ts:193-194 | the sorted positions are n distinct positions below n |
| ByeSeeding.SortedPositionsInverse | src/lib/tournament-playoffs.ts:193-194 | the sorted positions invert the seed order |
| ByeSeeding.PositionsByQualityInverse | src/lib/tournament-playoffs.ts:191-194 | `positionsByQuality` inverts the standard seed order |
| ByeSeeding.FirstAvailableIndex | src/lib/tournament-playoffs.ts:209-219 | the first available position in quality order, or -1 exactly when none is available |
| ByeSeeding.PickBestPosition | src/lib/tournament-playoffs.ts:209-219 | the loop returns the first available position in quality order, or null |
| ByeSeeding.AvailableAfter | src/lib/tournament-playoffs.ts:235-242 | after i winners the best free position is the i-th by quality, and taking it leaves the rest |
| ByeSeeding.HalfMapOfWinners | src/lib/tournament-playoffs.ts:241 | each placed winner's group records the half of the bracket it went to |
| ByeSeeding.HalfMapValues | src/lib/tournament-playoffs.ts:241 | recorded halves are 0 (top) or 1 (bottom) |
| ByeSeeding.FindSecond | src/lib/tournament-playoffs.ts:255-261 | `seconds.find`: the first runner-up, in list order, that is unplaced and allowed in this half, or none exactly when no runner-up is |
| ByeSeeding.SeedByeTeams | src/lib/tournament-playoffs.ts:187-304 | the method (phase 1 and phase 2a on an array) computes `SeedByes` |
| ByeSeeding.PlaceWinners | src/lib/tournament-playoffs.ts:235-242 | phase 1 on the array: the first m winners go to the m best positions, with the free set and group halves updated |
| ByeSeeding.WinnerStep | src/lib/tournament-playoffs.ts:236-241 | one winner's assignment updates exactly one slot and one group half |
| ByeSeeding.PlaceHeadSeconds | src/lib/tournament-playoffs.ts:245-267 | phase 2a on the array fills the bracket heads as the specification of that phase says |
| ByeSeeding.FirstsPlacedSeeds | src/lib/tournament-playoffs.ts:235-242 | after phase 1, the place of seed s holds the s-th winner when s is at most m, and is empty otherwise |
| ByeSeeding.AvailableSeeds | src/lib/tournament-playoffs.ts:235-242 | the free positions are exactly those whose seed exceeds m |
| ByeSeeding.PlaceHeadGood | src/lib/tournament-playoffs.ts:252-267 | placing one head keeps winners in place and puts only eligible runners-up in head places |
| ByeSeeding.PlaceHeadsGood | src/lib/tournament-playoffs.ts:245-267 | the same holds over all bracket heads |
| ByeSeeding.SeedByesPlacement | src/lib/tournament-playoffs.ts:187-268 | the result places winners by seed, leaves places with seed above 2 empty of runners-up, and puts in head places only runners-up in the half opposite their group's winner |
| ByeSeeding.SeedByesRunnerUpOpposite | src/lib/tournament-playoffs.ts:251-261 | a runner-up placed by seeding sits in the other half from its own group's winner |
| ByeSeeding.PlacementOpposite | src/lib/tournament-playoffs.ts:255-261 | the same opposite-half fact, for any placement |
| ByeSeeding.SeedByesEmpty | src/lib/tournament-playoffs.ts:188-189 | no teams give all-empty slots |
| ByeSeeding.PlaceHeadSettled | src/lib/tournament-playoffs.ts:252-267 | one head step keeps the free set equal to the empty slots, records only ids that sit in a slot, and leaves a head empty only when no runner-up is eligible for it |
| ByeSeeding.PlaceHeadsSettled | src/lib/tournament-playoffs.ts:245-267 | the same holds after every head has been visited |
| ByeSeeding.SettledExhausted | src/lib/tournament-playoffs.ts:245-252 | every head position (seed 1 or 2) is among the visited heads |
| ByeSeeding.SeedByesHeadsExhausted | src/lib/tournament-playoffs.ts:187-267 | a head left empty by seeding has no unplaced runner-up whose group winner is outside its half: every such runner-up already sits in a slot |
| ByeSeeding.SeedByesTopWinners | src/lib/tournament-playoffs.ts:236-242 | with two or more winners, the best opens the top half and the second the bottom half |
| FirstRoundPairing.LastFree | src/lib/tournament-playoffs.ts:340-347 | the last unused index from another group in the bottom half, or -1 exactly when there is none |
| FirstRoundPairing.FirstFree | src/lib/tournament-playoffs.ts:350-358 | the first such index, or -1 exactly when there is none |
| FirstRoundPairing.AscendingSearchRedundant | src/lib/tournament-playoffs.ts:337-359 | the ascending fallback search finds something exactly when the descending one does |
| FirstRoundPairing.OpponentShape | src/lib/tournament-playoffs.ts:328-362 | the opponent is in the bottom half; it is the mirror seed unless the mirror shares the group, and otherwise an unused team from another group |
| FirstRoundPairing.OpponentsPrefix | src/lib/tournament-playoffs.ts:328-367 | earlier pairings do not depend on later ones |
| FirstRoundPairing.OpponentAt | src/lib/tournament-playoffs.ts:328-367 | opponent i is chosen with the opponents before it marked used |
| FirstRoundPairing.OpponentsShape | src/lib/tournament-playoffs.ts:325-367 | every opponent satisfies the one-step rule given what was used before it |
| FirstRoundPairing.SearchFromEnd | src/lib/tournament-playoffs.ts:340-347 | the descending loop finds exactly `LastFree` |
| FirstRoundPairing.SearchFromStart | src/lib/tournament-playoffs.ts:350-358 | the ascending loop finds exactly `FirstFree` |
| FirstRoundPairing.PairTeams | src/lib/tournament-playoffs.ts:325-367 | the pairing loop builds `Pairs` |
| FirstRoundPairing.PairsEntries | src/lib/tournament-playoffs.ts:325-367 | pair i joins seed i with its chosen bottom-half opponent |
| FirstRoundPairing.PairsTopBottom | src/lib/tournament-playoffs.ts:325-367 | pair i's better seed is seed i + 1 |
| FirstRoundPairing.LayOutPairs | src/lib/tournament-playoffs.ts:373-393 | the layout loop places each pair at the position of its better seed |
| FirstRoundPairing.ByPositionSnoc | src/lib/tournament-playoffs.ts:377-393 | one iteration writes one pair at its position and nothing else |
| FirstRoundPairing.ByPositionSeeds | src/lib/tournament-playoffs.ts:377-393 | after j pairs, the position of seed s holds pair s when s is at most j, and is empty otherwise |
| FirstRoundPairing.ListOccupied | src/lib/tournament-playoffs.ts:402-412 | the loop lists the occupied positions |
| FirstRoundPairing.FindPlaced | src/lib/tournament-playoffs.ts:427-428 | `find` by position: an entry at that position, or none exactly when there is none |
| FirstRoundPairing.FindOccupied | src/lib/tournament-playoffs.ts:402-412 | looking up a position in the list gives the pair stored there |
| FirstRoundPairing.OccupiedSorted | src/lib/tournament-playoffs.ts:402-415 | the list is already sorted by position, so the sort at line 415 keeps it |
| FirstRoundPairing.NumberSlots | src/lib/tournament-playoffs.ts:420-440 | the numbering loop builds `FinalPairs` |
| FirstRoundPairing.FinalPairsLayout | src/lib/tournament-playoffs.ts:420-440 | when every slot pair is filled, match p + 1 is the pair at slot pair p |
| FirstRoundPairing.Rows | src/lib/tournament-playoffs.ts:443-452 | one match row per numbered pair, in order |
| FirstRoundPairing.EmitRows | src/lib/tournament-playoffs.ts:443-452 | the loop builds `Rows` |
| FirstRoundPairing.RowsInOrder | src/lib/tournament-playoffs.ts:455 | the final sort by bracket position changes nothing |
| FirstRoundPairing.StandardOrderPaired | src/lib/tournament-playoffs.ts:370 | the seed order for an even size pairs each better seed with its mirror |
| FirstRoundPairing.PlaceMatchesLayout | src/lib/tournament-playoffs.ts:370-452 | there are n/2 matches, and match p + 1 holds the pair of the better seed at slot pair p |
| FirstRoundPairing.GenerateFirstRoundMatches | src/lib/tournament-playoffs.ts:315-458 | the method computes `FirstRoundMatches` |
| FirstRoundPairing.FirstRoundLayout | src/lib/tournament-playoffs.ts:315-458 | for distinct teams and an even count up to 1024, every match is laid out by the seed order with the chosen opponents |
| FirstRoundPairing.FirstRoundNumbering | src/lib/tournament-playoffs.ts:420-455 | there are n/2 matches of the round, numbered 1..n/2 |
| FirstRoundPairing.FirstRoundOfTwo | src/lib/tournament-playoffs.ts:315-458 | two teams give the single match seed 1 against seed 2 |
| FirstRoundPairing.DuplicateOpponentExample | src/lib/tournament-playoffs.ts:333-362 | a four-team input where the mirror opponent is already used but kept, so one team is paired twice |
| NextRound.MatchStrength | src/lib/tournament-playoffs.ts:468-489 | defined exactly for matches with both teams ranked, and then the better of the two team indices |
| NextRound.StrengthKey | src/lib/tournament-playoffs.ts:468-489 | the sort key, equal to the Infinity sentinel exactly when the strength is undefined |
| NextRound.SortedMatches | src/lib/tournament-playoffs.ts:518-522 | a permutation of the first-round matches in ascending strength |
| NextRound.OpenPositions | src/lib/tournament-playoffs.ts:525-537 | exactly the empty positions, in ascending order |
| NextRound.ByeSeeds | src/lib/tournament-playoffs.ts:525-537 | exactly the occupied positions, each mapped to its team's ranking index |
| NextRound.OpponentSeeds | src/lib/tournament-playoffs.ts:542-558 | exactly the empty positions facing a bye, each mapped to that bye's seed |
| NextRound.ClassifySlots | src/lib/tournament-playoffs.ts:525-537 | the loop builds `OpenPositions` and `ByeSeeds` |
| NextRound.MapOpponentSeeds | src/lib/tournament-playoffs.ts:542-558 | the loop builds `OpponentSeeds` |
| NextRound.AssignMatches | src/lib/tournament-playoffs.ts:571-579 | the loop builds the reversed assignment |
| NextRound.AssignmentsLookup | src/lib/tournament-playoffs.ts:571-579 | the i-th open position gets match `length - 1 - i` when that match exists, and no match otherwise |
| NextRound.SortedOpenPositionsDistinct | src/lib/tournament-playoffs.ts:562-566 | the sorted open positions are distinct and are exactly the empty positions |
| NextRound.WeakerWinnerFacesBetterBye | src/lib/tournament-playoffs.ts:562-579 | with both lists sorted, a position with a better opponent gets a match at least as weak |
| NextRound.NextRoundAssignment | src/lib/tournament-playoffs.ts:518-579 | open positions get distinct matches, and a position facing a better bye seed never gets a stronger match |
| NextRound.EmitRoundRows | src/lib/tournament-playoffs.ts:586-625 | the row loop builds `RoundRows` |
| NextRound.RoundRowsIndex | src/lib/tournament-playoffs.ts:586-625 | row i is the row of slot pair i |
| NextRound.RoundRowsAt | src/lib/tournament-playoffs.ts:586-625 | row i has the round, number i + 1, a bye team or a "Ganador" source on each side, and a source exactly when a match was assigned |
| NextRound.GenerateNextRoundWithByes | src/lib/tournament-playoffs.ts:501-628 | the method computes `NextRoundMatches` |
| NextRound.NextRoundShape | src/lib/tournament-playoffs.ts:501-628 | there are nextRoundSize/2 rows, each showing the seeded bye teams in its two slots |
| NextRound.AssignmentsEmpty | src/lib/tournament-playoffs.ts:571-579 | with no matches nothing is assigned |
| NextRound.NextRoundWithoutFirstRound | src/lib/tournament-playoffs.ts:688-694 | with the empty match list the bracket passes, no row has a source |
| Bracket.WinnersRound | src/lib/tournament-playoffs.ts:707-721 | a placeholder round has the required number of matches |
| Bracket.EmitWinnersRound | src/lib/tournament-playoffs.ts:707-721 | the loop builds `WinnersRound` |
| Bracket.WinnersRoundSnoc | src/lib/tournament-playoffs.ts:707-721 | each iteration appends the next placeholder row |
| Bracket.AppendRemainingRounds | src/lib/tournament-playoffs.ts:740-766 | the round loop appends `LaterRounds` to the matches so far |
| Bracket.LaterRoundsFirst | src/lib/tournament-playoffs.ts:740-761 | the first later round pairs winners of matches 2i+1 and 2i+2 under the capitalised previous name |
| Bracket.LaterRoundsShape | src/lib/tournament-playoffs.ts:740-766 | from k matches there are k - 1 later matches, the last being the final between the two semifinal winners |
| Bracket.LaterRoundsEnd | src/lib/tournament-playoffs.ts:740-766 | the later rounds number k - 1 and end with the final |
| Bracket.LaterRoundsAfterNext | src/lib/tournament-playoffs.ts:698-725 | after a next round of nrs places come nrs/2 - 1 matches ending with the final |
| Bracket.SlotsRound | src/lib/tournament-playoffs.ts:666-683 | one first-round slot row per next-round place |
| Bracket.SlotsRoundAt | src/lib/tournament-playoffs.ts:666-683 | slot row i holds the seeded team of place i and nothing else |
| Bracket.EmitSlots | src/lib/tournament-playoffs.ts:666-683 | the loop builds `SlotsRound` |
| Bracket.ByePairsRound | src/lib/tournament-playoffs.ts:774-789 | one row per pair of seeded places |
| Bracket.EmitByePairs | src/lib/tournament-playoffs.ts:774-789 | the loop builds `ByePairsRound` |
| Bracket.GenerateWithByes | src/lib/tournament-playoffs.ts:660-725 | the bye branch computes `WithByes` |
| Bracket.GenerateAllByeRounds | src/lib/tournament-playoffs.ts:767-818 | the all-bye branch computes `AllByes` |
| Bracket.GeneratePlayoffBracket | src/lib/tournament-playoffs.ts:636-821 | the method computes `PlayoffBracket` |
| Bracket.BracketFailure | src/lib/tournament-playoffs.ts:639-641 | the bracket fails exactly for fewer than two teams, with the "at least 2 teams" error |
| Bracket.SomeTeamsPlay | src/lib/tournament-playoffs.ts:767-818 | two or more teams always have a first-round match, so the all-bye branch is never taken |
| Bracket.BracketOfNoByes | src/lib/tournament-playoffs.ts:726-766 | without byes the bracket is the first round plus the winner rounds |
| Bracket.NoByesForPow2 | src/lib/tournament-playoffs.ts:69-143 | a power of two has no byes, everyone plays, and the round is named for n/2 places next |
| Bracket.WithoutByesShape | src/lib/tournament-playoffs.ts:726-766 | the no-bye bracket starts with the first round and has n - 1 matches, the last a final |
| Bracket.FirstRoundEnd | src/lib/tournament-playoffs.ts:729 | the first round of a power of two has n/2 matches, and is the final for two teams |
| Bracket.TwoRounds | src/lib/tournament-playoffs.ts:726-766 | the first round plus n/2 - 1 later matches, ending with the final, form the no-bye shape |
| Bracket.BracketWithoutByes | src/lib/tournament-playoffs.ts:636-766 | for 2 to 1024 distinct teams in a power of two, the bracket succeeds with n - 1 matches: first the first round, last the final |
| Bracket.BracketOfByes | src/lib/tournament-playoffs.ts:660-725 | with byes, the bracket is the bye branch's output |
| Bracket.WithByesShape | src/lib/tournament-playoffs.ts:660-725 | the bye branch has nrs slot rows, nrs/2 next-round rows without sources, and later rounds ending in the final |
| Bracket.ThreeRounds | src/lib/tournament-playoffs.ts:660-725 | slots, next round and later rounds concatenate into the bye shape |
| Bracket.BracketWithByes | src/lib/tournament-playoffs.ts:636-725 | from 3 teams up, not a power of two, the bracket succeeds with the bye shape |
| Bracket.NumberedBefore | src/lib/tournament-playoffs.ts:639-821 | a round numbered 1..k followed by numbered rounds is a bracket numbered round by round |
| Bracket.WinnersRoundNumbered | src/lib/tournament-playoffs.ts:707-721 | a placeholder round is numbered 1..k |
| Bracket.LaterRoundsNumbered | src/lib/tournament-playoffs.ts:740-766 | the placeholder rounds after k matches are numbered round by round, each half the size of the one before, down to one match |
| Bracket.FirstThenLater | src/lib/tournament-playoffs.ts:726-766 | a numbered round followed by its placeholder rounds is numbered round by round, halving to the final |
| Bracket.SlotsNumbered | src/lib/tournament-playoffs.ts:666-683 | the slot rows are numbered 1..nrs |
| Bracket.NextNumbered | src/lib/tournament-playoffs.ts:688-694 | the round after the first has nrs/2 rows numbered 1..nrs/2 |
| Bracket.SlotsThenRest | src/lib/tournament-playoffs.ts:660-725 | slots, next round and later rounds are numbered round by round |
| Bracket.WithoutByesNumbered | src/lib/tournament-playoffs.ts:726-766 | the no-bye bracket is numbered round by round from n/2 matches down |
| Bracket.WithByesNumbered | src/lib/tournament-playoffs.ts:660-725 | the bye bracket is numbered round by round from nrs slot rows down |
| Bracket.NoByeRoundsNumbered | src/lib/tournament-playoffs.ts:636-766 | for a power of two, the bracket succeeds and is numbered round by round from n/2 matches down |
| Bracket.ByeRoundsNumbered | src/lib/tournament-playoffs.ts:636-725 | otherwise, from 3 teams, it succeeds and is numbered round by round from nrs rows down |
| Bracket.BracketRoundsNumbered | src/lib/tournament-playoffs.ts:636-821 | for 2 to 1024 distinct teams, every round's bracket positions run 1..k with no gap, and the round sizes halve from a power of two down to the single final |
| Bracket.TwoTeamFinal | src/lib/tournament-playoffs.ts:636-766 | two teams give exactly one final between them |
| Bracket.WithoutByesOfTwo | src/lib/tournament-playoffs.ts:737-740 | a single first-round match has no later rounds |
| Bracket.GeneratePlayoffs | src/lib/tournament-playoffs.ts:830-845 | the method computes `Playoffs` |
| Bracket.PlayoffsFailure | src/lib/tournament-playoffs.ts:830-845 | the public entry fails exactly when fewer than two teams placed 1 to 3 |
| RankingPoints.PointsGrowWithStage | src/lib/tournament-ranking-points.ts:11-19 | points rise with the stage reached, from 10 to 100, and an unknown round is worth the 20 of "octavos" (line 83) |
| RankingPoints.Starters | src/lib/tournament-ranking-points.ts:40-46 | exactly the non-substitute teams |
| RankingPoints.InitialPoints | src/lib/tournament-ranking-points.ts:54-57 | every starter at the group stage value |
| RankingPoints.MatchesById | src/lib/tournament-ranking-points.ts:75-77 | defined exactly on the ids of the matches, each mapped to a match with that id |
| RankingPoints.FinishedMatches | src/lib/tournament-ranking-points.ts:66-74 | exactly the finished input matches a playoff row names |
| RankingPoints.WinnerLoser | src/lib/tournament-ranking-points.ts:84-89 | the two teams of the match, in some order |
| RankingPoints.WinnerRule | src/lib/tournament-ranking-points.ts:84-89 | team 1 wins exactly when it has more sets, a missing count being 0; a tie goes to team 2 |
| RankingPoints.Scored | src/lib/tournament-ranking-points.ts:80-81 | a row counts exactly when its match is known and has both teams |
| RankingPoints.IgnoredRow | src/lib/tournament-ranking-points.ts:80-81 | a row that does not count changes nothing |
| RankingPoints.ScoredRow | src/lib/tournament-ranking-points.ts:79-108 | a counting row overwrites only the loser, and in a final also the winner (finalist and champion), and only if the team is a starter |
| RankingPoints.ApplyRowsKeeps | src/lib/tournament-ranking-points.ts:79-109 | entries stay consistent with the points table, and no team outside the starters appears |
| RankingPoints.ApplyRowsAppend | src/lib/tournament-ranking-points.ts:79-109 | the row loop processes rows strictly left to right |
| RankingPoints.UntouchedKept | src/lib/tournament-ranking-points.ts:54-109 | a team no counting row names keeps its entry |
| RankingPoints.PointRowsShape | src/lib/tournament-ranking-points.ts:112-132 | two rows per team, one per player, with the team's points, stage, tournament, category and year |
| RankingPoints.NothingToScore | src/lib/tournament-ranking-points.ts:30-35 | a missing tournament is the "not found" error, and one that does not score or has no category saves nothing |
| RankingPoints.FinalPointsEntries | src/lib/tournament-ranking-points.ts:48-110 | the final map covers exactly the starters, consistently, and a starter no match names stays at groups |
| RankingPoints.RankingPointsRows | src/lib/tournament-ranking-points.ts:112-147 | a scoring tournament with a category saves two rows per starter, with its final entry |
| RankingPoints.NoStartersSaveNothing | src/lib/tournament-ranking-points.ts:134 | with no starters nothing is saved |
| RankingPoints.InitTeamPoints | src/lib/tournament-ranking-points.ts:55-57 | the loop builds `InitialPoints` |
| RankingPoints.ApplyPlayoffRows | src/lib/tournament-ranking-points.ts:79-109 | the loop builds `ApplyRows` |
| RankingPoints.BuildPointRows | src/lib/tournament-ranking-points.ts:112-132 | the loop builds `PointRows` |
| RankingPoints.ComputeTournamentRankingPoints | src/lib/tournament-ranking-points.ts:21-148 | the method computes `TournamentRankingPoints` |
| PlayerPoints.PlayerIds | src/repositories/player-tournament-points.repository.ts:53 | the player id of each row, in order |
| PlayerPoints.CountOfPositive | src/repositories/player-tournament-points.repository.ts:52-58 | a player has a positive row count exactly when they appear |
| PlayerPoints.NoRowsNoPoints | src/repositories/player-tournament-points.repository.ts:54-56 | a player without rows has no points |
| PlayerPoints.TalliesCorrect | src/repositories/player-tournament-points.repository.ts:52-58 | the map holds exactly the players with rows, each with their point sum and row count |
| PlayerPoints.TalliesInFirstAppearanceOrder | src/repositories/player-tournament-points.repository.ts:52-59 | the map iterates players in order of first appearance |
| PlayerPoints.TalliesConserve | src/repositories/player-tournament-points.repository.ts:52-58 | the totals sum to all points and the counts to the number of rows |
| PlayerPoints.AddRowSums | src/repositories/player-tournament-points.repository.ts:54-57 | one row adds its points to the total sum and one to the count sum |
| PlayerPoints.Entries | src/repositories/player-tournament-points.repository.ts:59-64 | one standing per map entry, in map order |
| PlayerPoints.EntriesAreStandings | src/repositories/player-tournament-points.repository.ts:59-64 | the entries are the players' standings, each player once |
| PlayerPoints.StandingsPermuted | src/repositories/player-tournament-points.repository.ts:65 | a reordering of the standings is still the standings |
| PlayerPoints.RankingCorrect | src/repositories/player-tournament-points.repository.ts:52-65 | the ranking is each player's standing once, from the highest total down |
| PlayerPoints.RankingConserves | src/repositories/player-tournament-points.repository.ts:52-65 | the ranking keeps every point and every row |
| PlayerPoints.TiesKeepFirstAppearance | src/repositories/player-tournament-points.repository.ts:59-65 | players with equal totals keep their first-appearance order |
| PlayerPoints.SortedEntriesStable | src/repositories/player-tournament-points.repository.ts:65 | the sort is stable on equal totals |
| PlayerPoints.TallyRows | src/repositories/player-tournament-points.repository.ts:52-58 | the loop builds `Tallies` |
| PlayerPoints.GetRankingByCategoryAndYear | src/repositories/player-tournament-points.repository.ts:34-66 | the method returns `Ranking` of the rows of that category and year |
| CategoryEligibility.CheckPlayer | src/lib/tournament-category-eligibility.ts:31-46 | a player is refused exactly when not eligible; the refusal names them, and it is "unknown category" exactly when the category has no order |
| CategoryEligibility.UnrestrictedAllowsAll | src/lib/tournament-category-eligibility.ts:17-29 | an unrestricted tournament, or one whose category has no order, allows every pair |
| CategoryEligibility.AllowedIffBothEligible | src/lib/tournament-category-eligibility.ts:21-49 | otherwise a pair is allowed exactly when both players are eligible |
| CategoryEligibility.FirstFailureReported | src/lib/tournament-category-eligibility.ts:31-46 | the refusal reports the first player's failure, and the second player's only when the first passes |
| CategoryEligibility.SameOrLowerCategoryPasses | src/lib/tournament-category-eligibility.ts:32-41 | a missing player, a player without a category, and one at or below the tournament's category pass |
| StockStatistics.Opening | src/services/stock-movements-statistics.service.ts:43-52 | a new product starts balanced at zero |
| StockStatistics.Add | src/services/stock-movements-statistics.service.ts:54-64 | adding a movement keeps the stock balanced and the product's identity |
| StockStatistics.FirstCounted | src/services/stock-movements-statistics.service.ts:38-43 | the first counted row of a product, which supplies its name and category |
| StockStatistics.AggregateCorrect | src/services/stock-movements-statistics.service.ts:37-67 | the map holds exactly the counted products, each with its totals per movement kind and the name and category of its first counted row |
| StockStatistics.CountedIdsMembers | src/services/stock-movements-statistics.service.ts:38 | a product has a counted row exactly when its id is among the ids of the counted rows |
| StockStatistics.AggregateFirstAppearanceOrder | src/services/stock-movements-statistics.service.ts:43-66 | the map iterates its products in the order of their first counted row |
| StockStatistics.AggregateStep | src/services/stock-movements-statistics.service.ts:37-67 | one more row keeps the summary correct |
| StockStatistics.AddExpected | src/services/stock-movements-statistics.service.ts:43-66 | a counted row extends its product's expected totals |
| StockStatistics.UncountedRowsIgnored | src/services/stock-movements-statistics.service.ts:38 | rows of products not using stock change nothing |
| StockStatistics.Values | src/services/stock-movements-statistics.service.ts:70-73 | the map's values in iteration order |
| StockStatistics.NameLeqTotal | src/services/stock-movements-statistics.service.ts:75 | the name order compares every two names |
| StockStatistics.NameLeqTransitive | src/services/stock-movements-statistics.service.ts:75 | the name order is transitive |
| StockStatistics.InsertByName | src/services/stock-movements-statistics.service.ts:75 | insertion adds exactly one item |
| StockStatistics.InsertByNameSorted | src/services/stock-movements-statistics.service.ts:75 | insertion keeps the list sorted by name |
| StockStatistics.SortByName | src/services/stock-movements-statistics.service.ts:75 | a permutation sorted by product name |
| StockStatistics.KeptExpected | src/services/stock-movements-statistics.service.ts:69-73 | the category filter keeps correct items, all of that category |
| StockStatistics.SortedExpected | src/services/stock-movements-statistics.service.ts:75 | sorting keeps correct items |
| StockStatistics.ReportCorrect | src/services/stock-movements-statistics.service.ts:69-75 | the report is sorted by name, each product once, each item balanced with its exact totals and in the category asked for |
| StockStatistics.ReportComplete | src/services/stock-movements-statistics.service.ts:69-75 | every counted product of the category appears in the report |
| StockStatistics.StatisticsCorrect | src/services/stock-movements-statistics.service.ts:26-76 | the service result is sorted by name, each product once, with its exact balanced totals |
| StockStatistics.StatisticsComplete | src/services/stock-movements-statistics.service.ts:26-76 | every counted product of the category appears |
| StockStatistics.AggregateMovements | src/services/stock-movements-statistics.service.ts:35-67 | the `forEach` loop builds `Aggregate` |
| StockStatistics.GetStatistics | src/services/stock-movements-statistics.service.ts:26-76 | the method computes `Statistics` |
| TournamentsRoute.TrimAll | src/app/api/tournaments/route.ts:23 | each part trimmed |
| TournamentsRoute.DedupeMembers | src/app/api/tournaments/route.ts:19-21 | `Array.from(new Set(…))` has no repeats and the same members |
| TournamentsRoute.DedupeFirstSeenOrder | src/app/api/tournaments/route.ts:19-21 | and keeps the order of first appearance |
| TournamentsRoute.RequestedStatusesCorrect | src/app/api/tournaments/route.ts:18-27 | the requested statuses are the allowed trimmed parts, each once, in order of first naming |
| TournamentsRoute.EmptyParamNamesNothing | src/app/api/tournaments/route.ts:18-27 | an empty parameter names no allowed status |
| TournamentsRoute.NoFilterWithoutStatuses | src/app/api/tournaments/route.ts:28-31 | no filter is given exactly when no part is an allowed status |
| TournamentsRoute.FilterContents | src/app/api/tournaments/route.ts:18-31 | a filter holds exactly the allowed parts, each once, in order |
| TournamentsRoute.NormalizeDate | src/app/api/tournaments/route.ts:58-61 | a missing or blank date becomes null, any other date is kept unchanged |
| TournamentsRoute.SlotDuration | src/app/api/tournaments/route.ts:78 | the slot duration is 60 when missing or zero, 15 for a non-zero value below 15, and the given one from 15 up |
| TournamentsRoute.TimeToMinutes | src/app/api/tournaments/route.ts:80-87 | at the end of a block, midnight is the end of the day |
| TournamentsRoute.MinutesToTime | src/app/api/tournaments/route.ts:88-93 | the end of the day and later print as "00:00" |
| TournamentsRoute.PrintedTime | src/app/api/tournaments/route.ts:88-93 | a time of day prints as two-digit hours, a colon and two-digit minutes |
| TournamentsRoute.SplitDigitFields | src/app/api/tournaments/route.ts:83 | splitting "hh:mm" at the colon gives the two fields |
| TournamentsRoute.TrimDigitFields | src/app/api/tournaments/route.ts:81 | trimming leaves "hh:mm" unchanged |
| TournamentsRoute.TimeRoundTrip | src/app/api/tournaments/route.ts:80-93 | parsing a printed time of day gives back its minutes |
| TournamentsRoute.SlotCount | src/app/api/tournaments/route.ts:108 | a block yields as many slots as whole durations fit in it |
| TournamentsRoute.SlotStartAt | src/app/api/tournaments/route.ts:108-114 | slot k starts k durations after the block start and ends within the block |
| TournamentsRoute.PushBlockSlots | src/app/api/tournaments/route.ts:108-114 | the inner loop appends the block's slots |
| TournamentsRoute.ExpandGroupSlots | src/app/api/tournaments/route.ts:77-119 | the block loop computes `GroupSlots` |
| Text.DigitChar | src/app/api/tournaments/route.ts:92 | a digit character with the given value |
| Text.NatToString | src/app/api/tournaments/route.ts:92 | `String(n)`: decimal digits with no leading zero |
| Text.DigitsValueOfNatToString | src/app/api/tournaments/route.ts:92 | printed digits read back as the number |
| Text.LeadingDigits | src/app/api/tournaments/route.ts:84-85 | the longest digit prefix, which is what `parseInt` reads |
| Text.LeadingDigitsOfDigits | src/app/api/tournaments/route.ts:84-85 | a digit string is its own prefix |
| Text.DigitsValueLeadingZero | src/app/api/tournaments/route.ts:84-85 | a leading zero does not change the value |
| Text.ParseNatToString | src/app/api/tournaments/route.ts:84-85 | parsing a printed number gives it back |
| Text.PadStart2 | src/app/api/tournaments/route.ts:92 | `padStart(2, "0")`: at least two characters, the original at the end, zeros in front |
| Text.ParsePadded | src/app/api/tournaments/route.ts:84-92 | a padded two-digit field parses back to its number |
| Text.TrimStart | src/app/api/tournaments/route.ts:81 | removes exactly the leading blanks |
| Text.TrimEnd | src/app/api/tournaments/route.ts:81 | removes exactly the trailing blanks |
| Text.Trim | src/app/api/tournaments/route.ts:81 | no blank at either end, empty exactly for an all-blank string |
| Text.TrimOfTrimmed | src/app/api/tournaments/route.ts:81 | a trimmed string is unchanged by trimming |
| Text.Split | src/app/api/tournaments/route.ts:22 | at least one part, none containing the separator |
| Text.IndexOfChar | src/app/api/tournaments/route.ts:83 | the first occurrence of a character, or -1 exactly when absent |
| Text.JoinSplit | src/app/api/tournaments/route.ts:83 | joining the parts gives back the string |
| Text.SplitJoin | src/app/api/tournaments/route.ts:83 | splitting joined separator-free parts gives back the parts |
| Text.FirstSeparator | src/app/api/tournaments/route.ts:83 | the first separator ends the first part |
| Text.Capitalize | src/lib/tournament-playoffs.ts:583-584 | `charAt(0).toUpperCase() + slice(1)`: same length and same tail |
| Collections.Filter | src/lib/tournament-playoffs.ts:41-43 | only elements satisfying the predicate |
| Collections.FilterAppend | src/lib/tournament-playoffs.ts:41-43 | filtering distributes over concatenation |
| Collections.FilterMembership | src/lib/tournament-playoffs.ts:41-43 | an element is kept exactly when it is present and satisfies the predicate |
| Collections.IndexOf | src/lib/tournament-playoffs.ts:386 | `findIndex` by value: the first index of the value, or -1 exactly when absent |
| Collections.SortByKey | src/lib/tournament-playoffs.ts:47-53 | a permutation sorted by the key |
| Collections.InsertSorted | src/lib/tournament-playoffs.ts:47-53 | insertion keeps a sorted list sorted |
| Collections.InsertPermutes | src/lib/tournament-playoffs.ts:47-53 | insertion adds exactly the new element |
| Collections.SortByKeyStable | src/lib/tournament-playoffs.ts:47-53 | elements with equal keys keep their order |
| Collections.SortByKeyOfSorted | src/lib/tournament-playoffs.ts:415 | sorting a sorted list changes nothing |

## Left out

- Database access, authentication and HTTP handling are not modelled: the
  Supabase queries, the repositories, `NextResponse` and the error-to-status
  mapping. Query results are inputs, and thrown errors are `Failure` values.
- `getTournamentYear` reads the clock and parses dates. The year is a
  parameter of the ranking points model.
- The SQL function behind `aggregateStatistics` is not part of this model.
  Its rows, with the date range already applied, are the input.
- The categories repository becomes a map from category id to display
  order.
- `Number(row.total_quantity)` and every other JavaScript number are
  unbounded integers. Floating point, `NaN`, and `parseInt`'s handling of
  signs and leading blanks inside a part are not modelled.
- The name sort in the stock statistics uses `localeCompare`. The model
  uses code-unit lexicographic order, a total order standing in for the
  locale's collation.
- `getStandardSeedOrder`'s non-integer sizes are not modelled; sizes are
  natural numbers. Sizes above 1024 take the identity fallback as in the
  code, but the bracket theorems assume at most 1024 teams.
- `pickBestPositionWithRival` is defined but never called, and phases 2a.2,
  2b and 3 of `seedByeTeams` are commented out. None of them is modelled.
  Runners-up that phase 2a does not place stay unplaced, as in the code.
- `requireHalf` of `pickBestPosition` is never passed by the active code,
  so the model has no half parameter.
- FirstRoundPairing.Pairs: when neither search finds a free opponent from
  another group, the code keeps the mirror opponent even if it was already
  used. The model keeps that behaviour; `DuplicateOpponentExample` shows one
  team paired twice. The placement theorems assume distinct team ids, and
  hold for whatever opponents the pairing chose.
- POST `/tournaments` request validation (the required name), the payload
  defaults passed to `create`, and `GET`'s `findAll` call are not modelled.
  A block is modelled with optional fields, `None` standing for a value that
  is not a string. A `status` parameter equal to "" is treated like a
  missing one, as the code's truthiness test does.
- `replaceForTournament`, `hasPointsForTournament` and
  `findByCategoryAndYear` only run queries and are not modelled;
  `computeAndSaveTournamentRankingPoints` performs the same delete-then-insert,
  returned here as the rows to write.
- TournamentsRoute.TimeToMinutes: its own contract states only the
  end-of-day rule. The parse of every time of day that `MinutesToTime`
  prints is stated by `TimeRoundTrip`. Other inputs follow the body
  (leading digits of each part, 0 when there are none).
- Text.Capitalize: upper-cases only the letters a to z, where `toUpperCase`
  maps all of Unicode. The names it capitalises are the fixed ASCII round
  names, for which the two agree.
- The user interface and the type-only model files are not modelled.
