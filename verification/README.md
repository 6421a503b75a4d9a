# Poker table: a Dafny model

A model of a poker server's table: who sits where, who is still in the hand, whose turn it is, what everybody has
staked, how the pot is divided, how hands are ranked and dealt, and how an amount is shown in chips.

## How it is put together

The table is modelled twice. `Protocol.dfy` gives every table operation as a function on values: a `State` holds the
seats by player id, the full ring of everybody seated and the active ring of everybody still in the hand, read from the
player on turn. `Nodes.dfy` and `Tables.dfy` are the linked form: `Node` objects with `nextf`/`prevf` and `next`/`prev`
links, a `CardGame` object and a `Table` whose methods walk and relink them in place. Each `Table` method is proved to
keep both rings linked and to change the table's `Value()` exactly as the protocol function of the same name says. What
the rest of the project proves about the protocol therefore holds of the linked table.

| file | content |
|---|---|
| `Sums`, `Orders`, `Sorting`, `Sieves` | sums over seats, enumerations, three-way orders, stable sort, lists kept in order |
| `Cards`, `Games`, `Deals` | the card byte, the deck, the three games, card replacement, every deal by position |
| `HandRanks`, `Straights`, `Evaluation`, `Highlights`, `PickOrder` | the rank order, straights, classification, the cards shown |
| `SidePots`, `Showdowns` | the level sweep for any total order of ranks, then at the table, and when the map order shows in it |
| `Outsiders`, `Survivors`, `Endings`, `MapOrder` | newcomers at a running hand, the last fold, the showdown a command leads to, commands and the map order |
| `Protocol`, `Rings`, `Driver`, `Commands`, `Runs` | the state machine, its ring invariants, client commands, each command in amounts and positions, whole runs |
| `Conservation`, `Betting`, `Turns`, `Limits`, `Termination`, `Dealing` | chips, round closing, who gets a turn, the table bet and 64-bit range, endings, cards |
| `Witnesses`, `Openings`, `ThreeHanded`, `DrawnOut` | runs from the empty table to the tables on which the program surprises |
| `Nodes`, `Tables` | the linked nodes and the table that relinks them |
| `ChipStacks` | the chip breakdown |

Three things that the program takes from outside are parameters: the iteration order of the player map (`order`), the
shuffled deck (`deck`) and the moment at which a turn expires (a command `Expire`). A command is one atomic step.

## What the program does that one might not expect

- A raise need not reach the table bet, and then lowers it. `Witnesses.ShortRaiseReached` is a run of two joins, a start and
  raises of 50, 50 and 10 after which a check subtracts below zero; `Limits.RaiseCappedIff` and `Limits.CheckUnderflowIff` say
  exactly when that is so.
- A refused raise still makes its player the bettor. `Termination.IdleStep` says exactly which refused raises set a hand back:
  those of a settled player on turn who is not yet the bettor. Without them every hand is carried to its end
  (`Termination.NoEndlessHand`); with them two players can go round for ever (`Termination.RefusalsForEver`), on a table that
  three commands and a check reach (`Witnesses.RefusalsReached`).
- Betting rounds nevertheless close only when everybody is settled, short raises and leaves included
  (`Betting.RoundClosesSettled`): closing tests every other stake, and the player who has just acted is matched, all in, or the
  bettor.
- A round may close before everybody who can bet has had a turn in it: exactly when the player to whom the turn would pass has
  had none (`Turns.PassedOverIff`), and never when the table bet is no longer the one the round opened with
  (`Turns.RaisedPassesNobody`). It happens when the bettor is out of chips (`ThreeHanded.BrokeBettorReached`), to the blind of Hold'em before the flop
  (`ThreeHanded.BlindReached`), and when a bettor folds and the mark moves back (`ThreeHanded.MovedMarkReached`).
- When the bettor or the largest staker leaves, the table bet can stand above every seated stake (`Limits.RemoveReachedIff`,
  `ThreeHanded.UnstakedBetReached`).
- A player on turn who leaves hands the turn back to the predecessor; the table does not advance it.
- A newcomer in the middle of a hand counts as unfolded without being in the active ring, without cards and without a stake
  (`Outsiders.StepOutsiders`), and is ranked by the bare board. In Hold'em with a board such a player can be recorded the winner
  and take the chips that lie above the survivor's stake (`Witnesses.NewcomerTakesTheRest`); `Survivors.LastFoldPays` says
  exactly when. Two players without a card tie, and then the order of the player map decides (`Witnesses.OrderShows`);
  `MapOrder.RunningContestedIff` and `MapOrder.CommandOrderIff` say exactly when that order shows.
- In Five Card Draw the deck can run out. A player may then change cards for none and go on without a card
  (`DrawnOut.NoCardReached`), or hold four cards and name them all, on which the program fails (`DrawnOut.PanicReached`).
- Kickers keep hand order with the ace as 1 and are compared from the back. The order is a total order all the same, equal only
  on equal ranks. Because cards are picked with the ace as 14, an ace kicker is never highlighted, while every
  other kicker called for is (`Highlights.ShownKickers`); `Witnesses.AceKickerUnseen` gives two hands told apart by nothing else.
- The flush test looks at the whole hand, and a hand with two triples is three of a kind, not a full house.

## Model

| member | source | states |
|---|---|---|
| Tables.Table.constructor | Server/src/lib.rs:103-111 | A new table is well formed and empty. |
| Tables.Table.Raise | Server/src/lib.rs:215-233 | The in-place raise changes the table's value as the protocol's raise does: refusals in the source's order, the bettor set before the funds are tested, the table bet set to the raiser's stake even when that is lower. |
| Tables.Table.AllIn | Server/src/lib.rs:235-256 | The whole wallet goes to stake and pot; bet and bettor move only when the stake tops the table bet. |
| Tables.Table.Check | Server/src/lib.rs:258-279 | Pays the difference to the table bet, refuses it when the wallet is short, and reports the subtraction below zero. |
| Tables.Table.Unhook | Server/src/lib.rs:287-296 | Taking a node out of the active ring leaves both rings linked, returns the two former neighbours, and touches nothing else. |
| Tables.Table.Fold | Server/src/lib.rs:282-324 | Relinks the ring, moves the four markers, and holds the showdown exactly when the two neighbours coincide. |
| Tables.Table.RemovePlayer | Server/src/lib.rs:326-354 | A leave folds, bridges the full ring, moves the head, forgets the player and rebuilds the ring; both rings stay linked. |
| Tables.Table.RebuildFullRing | Server/src/lib.rs:122-159 | Links exactly the players of the map, in any iteration order, into one ring; keeps head and blind if they are still there; clears an empty table. |
| Tables.Table.AddPlayer | Server/src/lib.rs:174-209 | Seats a newcomer just before the head, up to five players; the table stays well formed. |
| Tables.Table.SeatEverybody | Server/src/lib.rs:378-396 | One lap of the full ring deals everybody in and copies the full links to the active ones, each node once. |
| Tables.Table.CollectAntes | Server/src/lib.rs:412-429 | One lap of the full ring is one check per player, in ring order. |
| Tables.Table.StartGame | Server/src/lib.rs:364-439 | Rebuild, deal in, blind, antes, turn and first deal together are the protocol's start; the table stays well formed. |
| Tables.Table.PayShowdownPots | Server/src/lib.rs:682-745 | The loop over the levels, with its running `previous` and `paid`, credits every wallet the recursive pay-out and changes nothing else. |
| Tables.Table.EndGame | Server/src/lib.rs:441-535 | Pays out, clears hands, stakes and active links, makes the winner head, moves the blind on, empties the pot. |
| Tables.Table.NextBettingNode | Server/src/lib.rs:650-667 | The ring walk ends, and finds the first other player in ring order who is unfolded with chips, or null exactly when there is none. |
| Tables.Table.AllMatched | Server/src/lib.rs:557-578 | The ring walk answers whether everybody but the player who acted is out of chips or level with the table bet. |
| Tables.Table.AdvanceTurn | Server/src/lib.rs:537-587 | Passes the turn, opens the next round when the lap is complete and all are matched, or plays the hand out. |
| Tables.Table.RoundAction | Server/src/lib.rs:641-648 | Opens the round or holds the showdown. |
| Tables.Table.FinishRemainingRounds | Server/src/lib.rs:673-680 | At most twenty rounds are played out, stopping at the showdown. |
| Tables.Table.KeepPlaying | Server/src/lib.rs:612-623 | Accepted only after a showdown and from a seated player. |
| Tables.Table.GameActions | Server/src/lib.rs:356-362 | Hands a command to the game; a refusal changes nothing, an accepted replacement swaps cards. |
| Tables.Table.RunAction | Server/src/web.rs:417-481 | The gate, the game action, the bet action and the advance form one protocol step that keeps the table well formed; the rows of `Commands` below say what that step does for each command. |
| Tables.Table.ExpireTurn | Server/src/lib.rs:589-610 | An expired turn removes the player and advances the turn if the hand still runs. |
| Commands.RaiseCommand | Server/src/lib.rs:215-233 | RAISE by the player on turn: exactly which amounts are accepted, wallet, stake, pot, table bet and bettor in amounts, nothing else changed, and each refusal with what it leaves. |
| Commands.AllInCommand | Server/src/lib.rs:235-256 | ALL_IN: wallet 0, stake and pot up by the wallet; table bet and bettor move exactly when the new stake tops the table bet. |
| Commands.CheckCommand | Server/src/lib.rs:258-279 | CHECK: the three cases of the stake against the table bet and the wallet, in amounts. |
| Commands.FoldCommand | Server/src/lib.rs:282-324 | FOLD among three or more: the others keep their order, turn, bettor and blind marks go to the predecessor, the head to the successor, no chip moves. |
| Commands.LastTwoCommand | Server/src/lib.rs:318-320 | A fold, leave or expiry among the last two: the same withdrawal, then the showdown. |
| Commands.DrawCommand | Poker/src/games/fivecarddraw.rs:68-86 | In the draw round only a replacement is accepted, by the ace rule, and it changes one hand and the deck. |
| Commands.RefusedCommand | Server/src/web.rs:437-475 | Off turn, reading, confirming and unreadable commands: the answer and what it leaves. |
| Commands.JoinCommand | Server/src/lib.rs:174-209 | Where a newcomer sits, with which seat, and when the table refuses. |
| Commands.LeaveCommand | Server/src/lib.rs:326-354 | A leave from a ring of three or more, by position. |
| Commands.BystanderLeaves | Server/src/lib.rs:326-354 | A leave by somebody not in the hand; a leaving head or blind hands over to the first of the new ring. |
| Commands.LastSeatLeaves | Server/src/lib.rs:122-133 | The last leave empties the table. |
| Commands.TurnPasses | Server/src/lib.rs:537-587 | While the hand goes on the turn goes to the first player behind the actor who is unfolded with chips, the ring keeps its order, and no chip, stake or other mark moves. |
| Commands.ShowdownLeaves | Server/src/lib.rs:441-535 | After a showdown the winner is head, the blind has moved on by one seat, and every seat is without stake and cards. |
| Commands.StartCommand | Server/src/lib.rs:364-439 | A hand starts with the ring read from the blind, or from behind it in Hold'em, the blind's 50, and in the ante games 50 from everybody who can pay; nobody pays if the blind cannot. |
| Commands.ExpireCommand | Server/src/lib.rs:589-610 | An expired turn is a leave by position, followed by the advance. |
| Nodes.CardGame.Deal | Poker/src/deck.rs:31-34 | Cuts up to n cards off the tail; deck and dealt cards together are the old deck. |
| Nodes.CardGame.DealFaceUp | Poker/src/deck.rs:36-40 | The same cards with the flag set. |
| Nodes.CardGame.DealToPlayer | Poker/src/games/sevencardstud.rs:63-80 | Deals an unfolded player the round's cards, down then up; a folded player gets none. |
| Nodes.CardGame.DealRing | Poker/src/games/fivecarddraw.rs:88-103 | The walk round the active links deals to every node of the ring exactly once, in ring order. |
| Nodes.CardGame.HandleRoundAction | Poker/src/games/texasholdem.rs:49-77 | What each of the three games deals when a round opens, and when it asks for the showdown. |
| Nodes.CardGame.Replace | Poker/src/games/fivecarddraw.rs:15-43 | All or nothing: any refusal leaves hand and deck alone, and the replacement is accepted exactly when at most four cards are named, the hand holds them, and, when four are named, the first card to stay is an ace. |
| Games.RemoveEachIff | Poker/src/games/fivecarddraw.rs:21-28 | The removal loop succeeds exactly when the named cards, counted with repetition, are in the hand, and leaves the rest. |
| Games.ReplaceAcceptedIff | Poker/src/games/fivecarddraw.rs:15-35 | That condition over hand and discard, and the exact condition of each refusal. |
| Games.ReplacedHand | Poker/src/games/fivecarddraw.rs:20-41 | What an accepted replacement leaves: the cards that stay in hand order, of equal cards the later ones, then the tail of the deck. |
| Games.ReplaceSwaps | Poker/src/games/fivecarddraw.rs:30-42 | An accepted replacement swaps exactly the named cards for the tail of the deck. |
| Deals.DealtTo | Poker/src/games/sevencardstud.rs:63-80 | A deal appends to the hand the tail of the deck as it lies, then the next tail turned up; a folded player gets nothing. |
| Deals.DealtAround | Poker/src/games/sevencardstud.rs:43-58 | The i-th player of the ring gets the i-th share from the tail of the deck. |
| Deals.BoardDealt | Poker/src/games/texasholdem.rs:71-73 | The board grows at its end by three, one and one cards from the tail of the deck, turned up. |
| Games.DealAroundKeepsCards | Poker/src/games/sevencardstud.rs:43-58 | Dealing round a ring neither makes nor loses a copy of any card. |
| Cards.NewDeckCopies | Poker/src/deck.rs:20-29 | An unshuffled deck holds each of the 52 faces once and nothing else. |
| Protocol.NextBetting | Server/src/lib.rs:650-667 | The position returned can bet, none before it can, and it is the end of the ring exactly when nobody can. |
| Rings.FoldSeated | Server/src/lib.rs:282-324 | A fold takes exactly one player out of the active ring and ends the hand exactly when two were left. |
| Rings.RemoveSeated | Server/src/lib.rs:326-354 | A leaver disappears from both rings and every marker; the rest stay seated. |
| Rings.AddSeated | Server/src/lib.rs:174-209 | A newcomer joins the full ring and leaves the active ring as it was. |
| Rings.StartSeated | Server/src/lib.rs:364-439 | With two or more seated a hand starts with everybody in the active ring and the blind as bettor. |
| Rings.FinishSeated | Server/src/lib.rs:673-680 | Playing out the remaining rounds reaches the showdown within the bound: no turn, no active ring, an empty pot. |
| Driver.StepWellFormed | Server/src/web.rs:417-481 | Every join, command, start and expiry keeps both rings well formed, turn and bettor in the active ring, at least two players in a running hand. |
| Runs.EveryRun | Server/src/web.rs:133-167 | In every state reachable from an empty table the rings are in order, the pot is funded, the betting level, the hands of the right size, no card twice in play, newcomers bare, and the chips are exactly those brought and not taken away. |
| Runs.FullRaisesCapped | Server/src/lib.rs:258-279 | After any run whose raises reach the table bet, no command is refused for a subtraction below zero. |
| Conservation.EndGameChips | Server/src/lib.rs:441-535 | The showdown moves the whole pot into wallets and clears all stakes. |
| Conservation.StepChips | Server/src/lib.rs:215-354 | Wallets plus pot change by a joiner's wallet or a leaver's settled wallet and by nothing else; between hands the pot is empty, so the reset drops no chip. |
| Conservation.RunChips | Server/src/lib.rs:161-164 | The same over any run. |
| SidePots.SweepIsShare | Server/src/lib.rs:683-723 | For any total order of ranks the level sweep pays each seat exactly its share: from every stake the part between the best hand covering the seat and the seat's own stake. |
| SidePots.BestHandTakesItsReach | Server/src/lib.rs:683-723 | The best unfolded hand takes min(own stake, bet) from every seat, and nobody takes more than that for their own stake. |
| SidePots.LayerPotIsProduct | Server/src/lib.rs:697-701 | A layer's pot, counted seat by seat, is its height times its contributors. |
| SidePots.LayerCake | Server/src/lib.rs:693-702 | The layers stacked from the lowest to the highest level are exactly the seated stakes. |
| SidePots.SweepPaid | Server/src/lib.rs:717-722 | The sweep pays the layers up to the highest stake still in and never more than the stakes. |
| SidePots.PayoutsConserve | Server/src/lib.rs:725-744 | Sweep and remainder together credit exactly the pot. |
| Showdowns.SweptAtTable | Server/src/lib.rs:704-722 | The share formula with the evaluator's ranks, summed over all seats. |
| Showdowns.ShowdownOrderIff | Server/src/lib.rs:441-535 | For any table the showdown, with its winner and every wallet, is the same for all iteration orders of the player map exactly when no two players tie for the best hand on a layer both have staked, or for the table at large. |
| MapOrder.RunningContestedIff | Poker/src/games/texasholdem.rs:95-106 | In a running hand with one deck's cards that happens exactly when two players still in hold no card and nobody with a better hand outdoes them on what both have staked. |
| MapOrder.LastFoldOrderIff | Server/src/lib.rs:318-320 | Folding one of the last two hands depends on the map order exactly when two players without a card are left and the other's hand does not outrank the bare board. |
| MapOrder.CommandOrderIff | Server/src/web.rs:417-481 | The result of any command on a running hand depends on the map order exactly when the command leads to a showdown at which two players tie for the best hand on a layer both have staked. |
| Runs.ReachableOrderIff | Server/src/web.rs:417-481 | On every reachable table: exactly when it leads to a showdown at which two players without a card so tie. |
| Runs.ReachableForgetsOrder | Server/src/web.rs:417-481 | In Stud, and in Hold'em with at most one newcomer, no command's result depends on it. |
| Survivors.LoneSurvivor | Server/src/lib.rs:725-744 | The last player in the hand takes the whole pot exactly when nothing lies above the player's own stake or no newcomer has a better place; otherwise the rest goes to a newcomer, who is recorded the winner and becomes head. |
| Survivors.LastFoldPays | Server/src/lib.rs:318-320 | The same for the fold or leave of one of the last two in a running hand, with any number of newcomers at the table. |
| Survivors.LastFoldWithoutBoard | Server/src/lib.rs:318-320 | In Draw, in Stud and in Hold'em before the flop the other player, holding any card, always takes the whole pot. |
| Survivors.LastFoldWithBoard | Poker/src/games/texasholdem.rs:115-119 | With a board: exactly when nothing is left over, nobody has joined, or the player's hand outranks the bare board. |
| Outsiders.StepOutsiders | Server/src/web.rs:355-367 | Whoever joined during the hand holds no cards and has no stake, after any command. |
| Witnesses.NewcomerTakesTheRest | Server/src/lib.rs:725-742 | A run from the empty table after which a newcomer without a card is recorded the winner and takes the hundred chips a leaver left. |
| Witnesses.OrderShows | Server/src/lib.rs:441-463 | The same run with a second newcomer: two map orders give different results. |
| Betting.StepLevel | Server/src/lib.rs:537-587 | Every player between the bettor and the turn is settled, through every step, short raises and leaves included. |
| Betting.AdvanceLevel | Server/src/lib.rs:537-587 | The advance closes a round or plays the hand out only when every active player is out of chips or level with the table bet, or when at most one of them has chips. |
| Betting.RoundClosesSettled | Server/src/lib.rs:557-586 | When any command, an expiry included, closes a round with the hand still running, every active player is out of chips or level with the table bet; when the advance ends the hand, the same, or nobody but the player who has just acted has chips. |
| Turns.StepInTurn | Server/src/lib.rs:537-667 | With the set of those who have had an accepted command in the round carried along: behind a player who has acted nobody who can bet waits, and whoever waits has staked nothing or what the round opened with; every command keeps this. |
| Turns.ClosesIff | Server/src/lib.rs:549-586 | When the turn advances the round changes exactly when it closes, and the hand ends only when it closes or nobody is next. |
| Turns.PassedOverIff | Server/src/lib.rs:537-587 | A round closes over somebody who can bet and has not acted in it exactly when the player to whom the turn would pass has not; who that is, is known before the command. |
| Turns.RaisedPassesNobody | Server/src/lib.rs:557-586 | When the table bet is no longer the one the round opened with, everybody who can bet has acted. |
| Turns.BettorPassedOverIff | Server/src/lib.rs:549-555 | When the bettor has chips, a closing round passes somebody over exactly when the bettor has not acted. |
| Turns.CheckPassesOverIff | Server/src/lib.rs:549-580 | With everybody settled, an accepted check closes the round over somebody exactly when the next player has not acted and either is the bettor or the bettor is out of chips. |
| Runs.ReachablePassedOverIff | Server/src/lib.rs:537-587 | The same for every command on every reachable table. |
| ThreeHanded.BrokeBettorReached | Server/src/lib.rs:549-555 | A Stud table of three, reached from the empty one, whose bettor is out of chips: one check closes the round over the other two. |
| ThreeHanded.MovedMarkReached | Server/src/lib.rs:305-314 | The bettor folds, the mark moves back, and a check closes the round over its new holder. |
| ThreeHanded.BlindReached | Server/src/lib.rs:430-431 | A Hold'em table on which a check closes the first round over the blind. |
| Limits.RaiseCappedIff | Server/src/lib.rs:215-233 | A raise keeps the table bet above every stake exactly when it reaches every other stake. |
| Limits.CheckUnderflowIff | Server/src/lib.rs:268-269 | The subtraction falls below zero exactly for a stake above the table bet. |
| Witnesses.ShortRaiseReached | Server/src/lib.rs:227-268 | A run from the empty table, with raises of 50, 50 and 10, after which a check subtracts below zero. |
| Limits.WrappedCheckIsUnpayable | Server/src/lib.rs:268-269 | Where the subtraction wraps at 64 bits, the difference is more than the wallet holds. |
| Limits.StepCapped | Server/src/lib.rs:215-279 | With raises that reach the table bet, no stake ever exceeds it. |
| Limits.StepReached | Server/src/lib.rs:215-279 | Until somebody leaves, the table bet is a stake somebody has made. |
| Limits.RemoveReachedIff | Server/src/lib.rs:326-354 | A leave keeps that true exactly when another player has staked the table bet. |
| ThreeHanded.UnstakedBetReached | Server/src/lib.rs:326-354 | A run whose last leaver puts the table bet at 100 above the stakes of 50 of all who stay. |
| Limits.AmountsFit | Server/src/lib.rs:224-272 | If all chips fit in 64 bits, so does every sum that betting forms. |
| Limits.PayoutFits | Server/src/lib.rs:697-742 | So does every product, running total and credit of the pay-out. |
| Termination.MoveDescends | Server/src/lib.rs:537-587 | Every accepted move by the player on turn ends the hand or lowers (active players, their chips, rounds left, lap to the bettor). |
| Termination.ProductiveDescends | Server/src/web.rs:417-481 | The same for leaves and expired turns. |
| Termination.IdleStep | Server/src/lib.rs:215-222 | A command that does not carry the hand forward keeps the active ring, and sets the measure back exactly when it is a refused raise beyond the wallet by a settled player on turn who is not yet the bettor. |
| Termination.NoEndlessHand | Server/src/lib.rs:537-587 | Whatever commands a hand meets, joins, reads and refusals included: if from some moment on none of them is such a raise, then from some moment on none of them is an accepted move, a leave from the hand or an expiry. |
| Termination.AlwaysAMove | Server/src/web.rs:451-474 | The player on turn always has an accepted move. |
| Termination.RefusalsForEver | Server/src/lib.rs:217-222 | With such raises two matched players can go on for ever, every other command an accepted check. |
| Witnesses.RefusalsReached | Server/src/lib.rs:217-222 | A Stud table that reaches this after two joins, a start and a check. |
| Dealing.StartCards | Server/src/lib.rs:398-435 | A hand starts with one copy of each of the 52 faces in play. |
| Dealing.StepCards | Server/src/web.rs:417-481 | While a hand runs, cards in play plus the cards a command discards or carries off stay the same. |
| Dealing.DeckAccounted | Poker/src/games/texasholdem.rs:49-87 | At every moment of a hand each of the 52 faces is in exactly one place. |
| Dealing.StepSingle | Server/src/web.rs:417-481 | While a hand runs no face is in play twice, after any command. |
| Runs.ReachableCardsDiffer | Poker/src/games/texasholdem.rs:49-87 | In every reachable running hand no face shows twice, neither in one hand nor across two. |
| Dealing.StepPortions | Poker/src/games/sevencardstud.rs:40-80 | At every moment of a hand a Stud player holds 3 + round cards with 1 + min(round, 3) face up, a Hold'em player two beside a board of the right size. |
| Endings.FinishIsShowdown | Server/src/lib.rs:673-680 | Playing the remaining rounds out is dealing them all and then one showdown, whatever the map order. |
| Endings.StepShowsDown | Server/src/lib.rs:318-320 | A command ends a running hand exactly when it leads to a showdown, and its result is that showdown, followed by the departure of a leaver. |
| Endings.ShownDownCards | Server/src/lib.rs:673-680 | When a hand ends with two or more still in it, each shows seven cards in Stud, four of them face up, or two beside a board of five in Hold'em, stakes and pot as they were and no face twice: no deal comes up short, those of the rounds played out included. |
| Games.ReplaceKeepsSizeIff | Poker/src/games/fivecarddraw.rs:37-40 | A replacement keeps the size of the hand exactly when the deck holds as many cards as are named. |
| Games.ReplacePanicsIff | Poker/src/games/fivecarddraw.rs:30-35 | The look at the one card kept beside four discards fails exactly when the four are the whole hand. |
| DrawnOut.NoCardReached | Poker/src/games/fivecarddraw.rs:15-43 | A Draw hand, reached from the empty table, in which a player goes on without a card. |
| DrawnOut.DrawOrderShows | Server/src/lib.rs:441-463 | A newcomer joins that hand, and a fold has different results for two map orders. |
| DrawnOut.PanicReached | Poker/src/games/fivecarddraw.rs:30-35 | A Draw hand, reached from the empty table, in which naming the last four cards fails. |
| HandRanks.CompareByKey | Poker/src/hand.rs:212-251 | Each arm of the comparison is one lexicographic order of four fields; the arm that panics is not needed. |
| HandRanks.CategoryDecides | Poker/src/hand.rs:212-217 | The higher category wins. |
| HandRanks.PrimariesDecide | Poker/src/hand.rs:218-248 | Within a category the primary values decide, of two pairs the higher first, of a full house the three first. |
| HandRanks.LastKickerDecides | Poker/src/hand.rs:40-42 | Between even ranks the last kicker that differs decides, whatever stands before it. |
| HandRanks.FewerKickersLose | Poker/src/hand.rs:40-42 | Kickers that only end the other's list lose. |
| HandRanks.FirstCardDecides | Poker/src/hand.rs:218-248 | With equal kickers the first card that differs decides. |
| HandRanks.CompareEqual | Poker/src/hand.rs:212-251 | Equal means structurally equal. |
| HandRanks.CompareIsTotalOrder | Poker/src/hand.rs:212-251 | The order is reflexive, antisymmetric up to equality and transitive, comparing from the back included. |
| Straights.CheckStraight | Poker/src/hand.rs:459-478 | The window loop returns the recursive height; the window subtraction stays within the naturals. |
| Straights.StraightTopMeaning | Poker/src/hand.rs:459-478 | The height is 5 for exactly the five-card wheel, otherwise the largest top of five consecutive values with the ace as 14, otherwise none. |
| Evaluation.CountValues | Poker/src/hand.rs:480-484 | The counting loop gives each value its multiplicity. |
| Evaluation.EvaluateCategory | Poker/src/hand.rs:358-450 | A hand of any length gets a category exactly when it meets that category's declarative condition. |
| Evaluation.EvaluateDescribes | Poker/src/hand.rs:390-449 | The primary values lead the multiplicity profile; each value that is not primary stands among the kickers behind as many as come before it in the hand; the tie-break cards are the hand by falling value, then falling suit. |
| Evaluation.ProfileForgetsMapOrder | Poker/src/hand.rs:376-378 | The sorted profile is the same for every iteration order of the count map. |
| Evaluation.EvaluateOfPermutation | Poker/src/hand.rs:358-450 | Rearranging a hand of distinct cards changes at most the order of its kickers. |
| Evaluation.DifferentCardsDifferentRanks | Poker/src/hand.rs:358-450 | Non-empty hands of different cards never tie. |
| Highlights.ShownAlone | Poker/src/hand.rs:44-111 | The cards shown for a hand of different deck cards are different cards of that hand with exactly the heights of its category in order; for a flush the five highest, or all, in falling height, for a high card the highest; evaluated alone they have the same category and primary values, a straight keeping its height. |
| PickOrder.ShownInHandOrder | Poker/src/hand.rs:44-133 | Every card shown, alone or against opponents, is the first of its height in the hand that is not shown yet. |
| Highlights.NeededKickers | Poker/src/hand.rs:135-146 | The nested loops return the own kickers up to the length the opponents call for. |
| Highlights.NeededIsMaximum | Poker/src/hand.rs:135-146 | That length is the maximum over the opponents of the first difference plus one, or the common length. |
| Highlights.CalledForIff | Poker/src/hand.rs:135-203 | A kicker is called for exactly when some opponent of the same category and primary values has the same kickers before it and one in its place. |
| Highlights.KickersTellApart | Poker/src/hand.rs:158-206 | The kicker values called for distinguish the player from every opponent of equal primary values who differs within the common length. |
| Highlights.ShownKickers | Poker/src/hand.rs:125-206 | Each kicker called for adds a card of its own of that height, in order and after the cards that make the hand, exactly when it is not an ace. |
| Highlights.ShownTellApartIff | Poker/src/hand.rs:125-206 | When the kickers shown themselves tell a rival apart: always if neither of the first differing kickers is an ace, never if the own one is an ace and the last called for, and in between exactly when the lists without aces differ from there on. |
| Witnesses.AceKickerUnseen | Poker/src/hand.rs:125-206 | Two hands of one deck that only an ace kicker sets apart: no kicker is shown, and the ace counts below the two. |
| Highlights.AddKickers | Poker/src/hand.rs:125-133 | The loop adds, per value, the first such card not already shown. |
| Highlights.SelectCards | Poker/src/hand.rs:113-209 | For the rank of a hand of different deck cards: different cards of that hand, first those that make it, then one for each kicker called for that is not an ace. |
| Highlights.ShownAgainst | Poker/src/hand.rs:113-209 | It never repeats a card, never leaves the hand, and only adds to the cards shown unless the hand is a high card. |
| ChipStacks.BestStack | Server/src/web/app.js:64-79 | The table filled from below ends with a smallest stack for the total, or the single made-up chip when there is none. |
| ChipStacks.CountChips | Server/src/web/app.js:80-87 | The piles, largest chips first, spread out to the chips counted. |
| ChipStacks.ChipBreakdown | Server/src/web/app.js:63-88 | Descending piles with the fewest 500, 100, 25 and 10 chips that make the amount, or one chip of the amount when none do. |
| ChipStacks.PayableIff | Server/src/web/app.js:65-79 | Stacks make exactly the multiples of five other than 5 and 15. |

## Left out

- Sockets, threads, discovery, prompts, pings, cookies and page rendering: they rest on the operating system or are cosmetic.
- Storage, broadcasting and sending to players (`persist_player`, `trigger_save`, `player_send`): they succeed and change no table state here; player names are dropped with them.
- Locks: each table method is one atomic step; poisoned locks do not occur.
- Tables.Table.RunAction: is one step, while web.rs:437-478 takes the table lock separately for the turn gate, the game action, the bet and the advance; commands that slip in between those scopes are not modelled.
- Wall-clock time: when a turn expires is a free choice of the command sequence.
- Shuffling: the deck of a hand is any rearrangement of the unshuffled deck.
- `remove_unconfirmed_players`: it is a sequence of leaves.
- The showdown record: only the winner's id is kept; the cards shown per player are modelled by themselves in `Highlights.dfy`.
- Debug commands and the older TCP client loop: they bypass the driver whose invariants are proved.
- A table started with a single player: its ring walks visit the player twice; the monitor starts a hand with two or more.
- Driver.StepWellFormed: command texts are already parsed; a number that does not parse is an action without its amount or cards.
- Dealing.StepPortions: says nothing about hand sizes in Five Card Draw after round 0, because a player handed the turn back by a leaver may draw a second time and the deck may run out; `Games.ReplaceKeepsSizeIff` says what each draw does.
- ChipStacks.ChipBreakdown: takes whole amounts only.
