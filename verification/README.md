# Verified models of the GoAkt examples

This project models the rules, protocols and state machines behind four of the GoAkt example programs and proves what
they promise, for all inputs and all runs:

- **Scrabble** (`goakt-scrabble`): the trie dictionary, the move validator and scorer, the Appel/Jacobson move
  generator with its in-place backtracking, bag, racks and end of game, the wire forms, and the room that runs a game.
- **Tetris** (`goakt-tetris`): a match, from the falling piece to the clearing of lines.
- **Blockchain** (`goakt-blockchain`): chains and their store, replicas that catch up and restart, and the node with its
  broker and miner.
- **Money transfers** (`goakt-2pc`, `goakt-saga`): two-phase commit and sagas over shared accounts.

Dafny 4.11 checks the whole project with `dafny verify dfyconfig.toml`.

## Main results

1. *The move generator is exact.* The recursive search over the linked trie, which counts tiles down and up again and
   appends to a list, records exactly the moves described by `Search.Generated` (`Bots.RunSearch`). Each of those is
   payable, and legal unless it plays a blank as letter 0 (`SearchSound.GeneratedIsLegal`); every legal payable move is
   among them up to the order of its placements (`SearchComplete.LegalIsGenerated`). So `Bots.GenerateMoves` lists all legal
   moves and nothing else, and `Bots.BestMove` is empty exactly when nothing is playable and otherwise cannot be outscored.
   None of this needs the board to be reachable.
2. *The validator decides the rule of the game.* `Moves.Legal` states the rule by the maximal runs of the resulting board;
   `MoveLaws.AcceptedIffLegal` shows that the engine's checks, in their order, accept exactly that; the words it reports
   are exactly the new runs, each once; and neither verdict nor words nor score depend on the order of the placements.
   Each error is the answer exactly under its own condition (`Refusals.RefusedIff`), and a word scores what is printed on
   its tiles under the premiums of the squares it newly covers (`Scoring.WordScoreIs`, `Layout.LayoutIs`).
3. *Whole games.* Every board of every game is connected around the centre and holds only dictionary words; over every run
   of the room's turn loop no tile is lost, racks keep their size, turns are bounded by a measure, and the end is settled
   in one of two exact ways; a bot's answer is never refused. Until the end each score is what the player's own accepted
   moves have earned (`Turns.ScoresOverRun`), and turns go round the seats (`Turns.TurnsGoRound`).
4. *Tetris.* No message leaves a full row or an overlapping piece; locking overwrites nothing, so at most four rows clear at
   once, and every locked square is on the board or was cleared with its line. The landing hint is where a hard drop ends,
   and so does waiting: without input a piece is locked there after a number of ticks known beforehand, with the same board
   and two points less for each row (`TetrisLaws.WaitingIsDropping`).
5. *Replicated chain.* With the host's replica up to date when a proof is accepted, any two replicas agree as far as both
   go, under loss, repetition and reordering of announcements, catch-ups and restarts. That condition is needed: a block
   minted on the host's replica extends the chain exactly when that replica is up to date (`Replication.StaleHostForks`),
   and two proofs accepted by a lagging host end in replicas that disagree (`Replication.LaggingHostDivides`). Under the
   same condition transactions are included once and in order (`Minting.TransactionsInOrder`); a proof becomes a block exactly when its request was read from a host
   that held every block minted by the time the proof is handled (`Minting.ProofIsUsedIff`), and a request made too early
   is dropped (`Minting.StaleRequestIsDropped`).
6. *Transfers.* A failed two-phase transfer never changes a balance and none is applied twice; totals are conserved once
   both commits are processed. Balances can become negative (`TwoPhase.OverlappingDebitsOverdraw`); they do not in any run
   in which each prepared debit is covered together with those prepared before (`TwoPhase.NeverNegative`). Sagas keep
   balances non-negative in every run, even when messages are delivered long after their Asks have failed; a failed saga
   leaves no trace exactly when no failed Ask had an effect and the refund was made (`Saga.FailedLeavesNoTrace`), and then
   money is conserved; a completed one has moved exactly what was asked for (`Saga.CompletedMoves`).

## How the source is modelled

- The mutable parts are classes with the fields of the source: `Boards.Board`, `Dawgs.Node`, `Dawgs.DAWG`,
  `Generator.GenState`, `Racks.Bag`, `Racks.Rack`, `Rooms.Room`, `Tetris.Match`, `Chains.Chain`, `Chains.PebbleStore`,
  `Replicas.Replica` and the two `AccountEntity` classes. Ghost fields hold their value as a mathematical object.
- Protocols between actors (`Turns`, `Replication`, `Minting`, `TwoPhase`, `Saga`) are state machines whose steps are the
  handlers; a run is any sequence of enabled steps.
- Randomness is an arbitrary choice: the shuffle swaps each slot with any slot that is not after it, and the next Tetris
  piece is any kind. Time, hashes, proofs and the encoding of blocks are parameters about which nothing is known, except
  that decoding undoes encoding.
- Letters are one byte; the cross-check sets keep only letters below 32, as the 32-bit words of the source do, and the
  generator asks for an alphabet of at most 32 letters.
- A blank with letter 0 counts as unassigned, so a blank can never be played as the first letter of the alphabet, although
  the comment in `goakt-scrabble/scrabble/tile.go` lets a blank stand for any letter; the model follows the code.

Assumptions, as the source relies on them: seats are fixed from the start of a game, and the tile set has at least seven
tiles per player (`Turns.EnglishIsEnough`); alphabets on the wire are upper case and contain neither `*` nor `?`; chains
have fewer than 2^63 blocks; messages from one actor to another arrive in order; the node's host holds every minted block
when a proof is handled; a two-phase transfer has different accounts and a positive amount. That in a saga an Ask which
returns an error had no effect, and that the compensating credit succeeds, is no assumption of the model but the exact
condition of `Saga.FailedLeavesNoTrace`. `Chains.NoCollisions`, where a result needs it, says that no two blocks have the
same digest.

## Model

| member | source | states |
|---|---|---|
| Tiles.RuneThenId | goakt-scrabble/scrabble/lang.go:80-90 | on an upper-case alphabet, looking up a letter's character gives the letter back |
| Tiles.NormalizeIs | goakt-scrabble/scrabble/lang.go:97-112 | a word is normalized to the letters that spell it, one by one and in order and in either case, exactly when all its characters are in the alphabet |
| Tiles.CostCounts | goakt-scrabble/wire.go:126-141 | tiles cost as many of each rack tile as there are tiles paid with it: a placed blank with a blank, any other tile with itself |
| Racks.FullSetSize | goakt-scrabble/scrabble/lang.go:69-78 | the full set built by the bag has the advertised number of tiles, all of the alphabet and blanks without a letter |
| Racks.FullSetCounts | goakt-scrabble/scrabble/bag.go:34-53 | the full set has each letter as often as the language distributes it, its blanks, and nothing else |
| Grids.RunAtIsTheRun | goakt-scrabble/scrabble/move.go:346-373 | the word found by walking out from a filled square is the maximal run through it |
| Grids.WordsAreLocal | goakt-scrabble/scrabble/move.go:346-373 | the run through a square and its letters depend only on the tiles of that line |
| Boards.Board.constructor | goakt-scrabble/scrabble/board.go:60-71 | a new board is empty, with every premium in its place and a zero counter |
| Boards.Board.Clone | goakt-scrabble/scrabble/board.go:98-103 | a clone holds the same tiles in its own squares |
| Boards.Board.Place | goakt-scrabble/scrabble/board.go:83-96 | a tile goes on an empty square and is counted; an occupied square is refused and nothing changes |
| Boards.EmptyIsEmpty | goakt-scrabble/scrabble/board.go:78-81 | the counter is zero exactly on the empty board |
| Dawgs.Node.Search | goakt-scrabble/scrabble/dawg.go:141-150 | bisection finds the first edge whose letter is not below the wanted one |
| Dawgs.Node.Edge | goakt-scrabble/scrabble/dawg.go:139-151 | an edge is found exactly when there is one with that letter, and leads to its target |
| Dawgs.Node.AddEdge | goakt-scrabble/scrabble/dawg.go:184-192 | the new edge is inserted where the order wants it; nothing else moves |
| Dawgs.DAWG.Insert | goakt-scrabble/scrabble/dawg.go:160-182 | the set of words grows by exactly the word, and the answer tells whether it was new; the trie stays well formed |
| Dawgs.DAWG.Contains | goakt-scrabble/scrabble/dawg.go:104-122 | a word is found exactly when it was inserted and has at least two letters |
| Dawgs.SpaceDoesNotCount | goakt-scrabble/scrabble/dawg.go:67-72 | a word is found on a line whatever space stands around it |
| Dawgs.WordOnIs | goakt-scrabble/scrabble/dawg.go:67-84 | the word on a line is what is left without the space around it, unless that is empty, starts a comment, cannot be spelled or is too short |
| Dawgs.WordsOnAre | goakt-scrabble/scrabble/dawg.go:67-84 | a word is among those of the list exactly when it has two letters and some line spells it, character by character |
| Dawgs.BuildDAWG | goakt-scrabble/scrabble/dawg.go:57-92 | unless reading fails, the trie holds exactly the words of at least two letters that some line of the list, without the space around it and not a comment, spells character by character; its size counts each distinct word once |
| Dawgs.PrefixesAreNodes | goakt-scrabble/scrabble/dawg.go:160-182 | every prefix of a path of the trie is a path of the trie |
| Moves.SortedIsSorted | goakt-scrabble/scrabble/move.go:257-275 | sorting orders the placements along the line and keeps them as a multiset |
| Moves.NoFaultIsWellPlaced | goakt-scrabble/scrabble/move.go:197-225 | the per-placement checks pass exactly when one to seven tiles go on distinct empty squares of the board and every blank has a letter |
| MoveLaws.SortedUnique | goakt-scrabble/scrabble/move.go:257-275 | an ordered list of distinct squares is determined by its elements, whatever sort is used |
| MoveLaws.OrderIrrelevant | goakt-scrabble/scrabble/move.go:97-162 | acceptance, words and score do not depend on the order of the placements |
| MoveLaws.MainRun | goakt-scrabble/scrabble/move.go:277-303 | a move that passes the line and gap checks lies in one maximal run of the resulting board |
| MoveLaws.CollectedAreTheNewWords | goakt-scrabble/scrabble/move.go:325-344 | the collected runs are exactly the runs of at least two tiles that contain a new one, each once |
| MoveLaws.ExtendsExistingIsTouching | goakt-scrabble/scrabble/move.go:381-393 | some collected word has a square that is not new exactly when one contains a tile that was there before |
| MoveLaws.JudgeIsRule | goakt-scrabble/scrabble/move.go:119-160 | after the line and gap checks the remaining checks are the rest of the rule |
| MoveLaws.AcceptedIffLegal | goakt-scrabble/scrabble/move.go:97-162 | the validator accepts exactly the legal moves |
| MoveLaws.ReportsExactlyTheNewWords | goakt-scrabble/scrabble/move.go:135-151 | the report of an accepted move has one entry for each new word and no others |
| Refusals.SpellingReads | goakt-scrabble/scrabble/move.go:403-409 | the reported word is what is written on the squares of its run, in reading order |
| Refusals.RefusedIff | goakt-scrabble/scrabble/move.go:97-162 | each error is the answer exactly under its condition on board and move: the first faulty placement, the line, the gap, no word, the centre, no contact, or the first unknown word in reading order with its spelling |
| Scoring.ScoreIsSum | goakt-scrabble/scrabble/move.go:134-157 | the score is the sum of the words' scores, plus the bonus exactly when all seven tiles were placed |
| Scoring.PlainWordScore | goakt-scrabble/scrabble/move.go:411-440 | premiums count only under new tiles: a word without one there scores its face value |
| Scoring.WordScoreIs | goakt-scrabble/scrabble/move.go:411-440 | from what is printed on the tiles: new tiles on double and triple letters count once or twice more, then each new tile on a double word doubles and each on a triple word triples |
| Scoring.OnePremium | goakt-scrabble/scrabble/move.go:411-440 | what a single premium does to the face value of a word: adds its tile once or twice more, doubles or triples the word |
| Layout.LayoutIsSymmetric | goakt-scrabble/scrabble/board.go:110-140 | the premiums are the same under both reflections and transposition |
| Layout.LayoutIs | goakt-scrabble/scrabble/board.go:110-140 | the columns of each kind of premium, row by row |
| Layout.LayoutCounts | goakt-scrabble/scrabble/board.go:110-140 | 8 triple words, 17 double words with the centre, 12 triple letters and 24 double letters |
| Validator.CheckPlacements | goakt-scrabble/scrabble/move.go:197-225 | the loop over the placements returns the first fault in order, if there is one |
| Validator.CheckConnectivity | goakt-scrabble/scrabble/move.go:277-303 | the walk between the first and last tile finds a gap exactly when there is one |
| Validator.ExtractWord | goakt-scrabble/scrabble/move.go:346-373 | walking back and forth from a square collects the tiles of its run in reading order |
| Validator.CollectWords | goakt-scrabble/scrabble/move.go:325-344 | the main word and the cross words of at least two tiles, in order |
| Validator.ScoreWord | goakt-scrabble/scrabble/move.go:411-440 | one pass over a word gives its letter points times its word multiplier |
| Validator.Apply | goakt-scrabble/scrabble/move.go:164-174 | places the tiles up to the first occupied square; on a well-placed move never stops early |
| Validator.Validate | goakt-scrabble/scrabble/move.go:97-162 | the answer is the specified outcome, error by error, and the board is not changed |
| Game.LegalMoveKeepsBoard | goakt-scrabble/scrabble/move.go:97-174 | a legal move keeps the board connected around the centre with only dictionary words on it |
| Game.EveryGameKeepsBoard | goakt-scrabble/scrabble/move.go:97-174 | this holds of every board of every game, and the board holds exactly the tiles played |
| CrossChecks.ReverseInPlace | goakt-scrabble/scrabble/bot.go:392-396 | swapping the ends until they meet reverses the slice |
| CrossChecks.CandidateIsCrossWord | goakt-scrabble/scrabble/bot.go:341-378 | prefix, letter and suffix spell the perpendicular word of the board with that letter placed |
| CrossChecks.ComputeCrossChecks | goakt-scrabble/scrabble/bot.go:341-378 | for every empty square a letter is allowed exactly when it forms no perpendicular word there or one in the dictionary |
| CrossChecks.BuildAnchorGrid | goakt-scrabble/scrabble/bot.go:406-433 | marks exactly the empty squares with a filled neighbour |
| Search.CrossWordAfterMove | goakt-scrabble/scrabble/bot.go:85-94 | the check before the move agrees with the cross word that the validator extracts after it |
| Search.RightChoices | goakt-scrabble/scrabble/bot.go:281-312 | on an empty square the walk records the path if it is a word, or places one more tile |
| Search.LeftChoices | goakt-scrabble/scrabble/bot.go:218-241 | the search extends the left part as it is, or adds one more tile to it |
| SearchSound.WalkContinues | goakt-scrabble/scrabble/bot.go:273-319 | a walk, tile by tile, has passed all checks on the finished word and is paid from the rack |
| SearchSound.AnchorMoveSound | goakt-scrabble/scrabble/bot.go:142-157 | every move recorded from an anchor completes a word through the anchor, paid from the rack |
| SearchSound.GeneratedIsLegal | goakt-scrabble/scrabble/bot.go:128-140 | every recorded move is payable, and legal exactly when it plays no blank as letter 0 |
| SearchSound.BlankFirstIsRecorded | goakt-scrabble/scrabble/bot.go:273-319 | a word with a blank for its first letter is recorded whatever the letter, and is legal exactly when that is not letter 0 |
| SearchComplete.FirstStart | goakt-scrabble/scrabble/bot.go:50-60 | the word of a legal move has a first square from which the search starts |
| SearchComplete.CompletedIsRecorded | goakt-scrabble/scrabble/bot.go:142-157 | a payable word through an anchor, with no anchor before it, is recorded from that anchor |
| SearchComplete.LegalIsGenerated | goakt-scrabble/scrabble/bot.go:35-63 | every legal payable move is recorded, up to the order of its placements |
| SearchSets.DeadEnd | goakt-scrabble/scrabble/bot.go:314-318 | where the trie has no node the search would record nothing |
| SearchSets.Choices | goakt-scrabble/scrabble/bot.go:281-312 | trying only the node's edges loses no move |
| Generator.GenState.constructor | goakt-scrabble/scrabble/bot.go:109-126 | the counters hold exactly the tiles of the rack |
| Generator.GenState.ExtendRight | goakt-scrabble/scrabble/bot.go:271-319 | records exactly the moves within reach, and leaves the counters as it found them |
| Generator.GenState.PlaceTile | goakt-scrabble/scrabble/bot.go:295-307 | takes a tile, walks on and puts it back; records exactly what that tile leads to |
| Generator.GenState.BuildLeftPlacements | goakt-scrabble/scrabble/bot.go:251-269 | lays the left part out so that it ends just before the anchor |
| Generator.GenState.ExtendLeft | goakt-scrabble/scrabble/bot.go:216-241 | records exactly the moves over all left parts of at most the limit, and leaves the counters as it found them |
| Generator.GenState.ComputeLeftLimit | goakt-scrabble/scrabble/bot.go:192-206 | counts the empty squares before the anchor up to the next filled square or anchor |
| Generator.GenState.WalkLeftExisting | goakt-scrabble/scrabble/bot.go:159-190 | follows the tiles before the anchor through the trie, and fails exactly when they are no path of it |
| Generator.GenState.RunFromAnchor | goakt-scrabble/scrabble/bot.go:142-157 | records exactly the moves from the anchor, and leaves the counters as it found them |
| Bots.RunSearch | goakt-scrabble/scrabble/bot.go:38-63 | all anchors and both directions together record exactly the specified moves |
| Bots.Scored | goakt-scrabble/scrabble/bot.go:128-140 | keeps exactly the recorded moves that the validator accepts, each with its result |
| Bots.GenerateMoves | goakt-scrabble/scrabble/bot.go:35-63 | every entry is legal and payable with its words and score, and every legal payable move has an entry |
| Bots.BestMove | goakt-scrabble/scrabble/bot.go:65-83 | none exactly when nothing is playable, otherwise a playable move that no other outscores |
| Racks.CompactExcluding | goakt-scrabble/scrabble/rack.go:153-169 | the tiles on the slots that are not listed, in order |
| Racks.PickedAndRest | goakt-scrabble/scrabble/rack.go:121-127 | what is taken from distinct slots and what stays make up the rack |
| Racks.Bag.constructor | goakt-scrabble/scrabble/bag.go:34-53 | a new bag holds a full set, in some order |
| Racks.Bag.Draw | goakt-scrabble/scrabble/bag.go:60-77 | takes the last tiles, or all if there are fewer |
| Racks.Bag.Return | goakt-scrabble/scrabble/bag.go:79-90 | the tiles are added, blanks without their letter, whatever the shuffle |
| Racks.MatchRack | goakt-scrabble/scrabble/rack.go:134-151 | finds a slot with the wanted tile exactly when there is one |
| Racks.Rack.Remove | goakt-scrabble/scrabble/rack.go:76-99 | succeeds exactly when the rack holds all needed tiles, takes exactly those, and otherwise changes nothing |
| Racks.Rack.Refill | goakt-scrabble/scrabble/rack.go:65-74 | draws what the rack lacks, as far as the bag goes |
| Racks.Rack.Exchange | goakt-scrabble/scrabble/rack.go:101-132 | swaps the listed slots for fresh tiles exactly when the bag holds seven and the slots are distinct and in range |
| Racks.ExchangeKeepsTiles | goakt-scrabble/scrabble/rack.go:101-132 | an exchange keeps the number of tiles on either side and the same tiles together |
| Endgame.IsGameOver | goakt-scrabble/scrabble/endgame.go:41-51 | true exactly after six scoreless turns or when the bag and some rack are empty |
| Endgame.FinalScores | goakt-scrabble/scrabble/endgame.go:65-97 | everyone loses what is left on the rack; the first with an empty rack gains what the others lose |
| Endgame.EachFinalScore | goakt-scrabble/scrabble/endgame.go:65-97 | each final score: the first player without tiles gains what is printed on the other racks, everyone else loses what is on the own rack |
| Endgame.SettlingKeepsTotal | goakt-scrabble/scrabble/endgame.go:65-97 | the total stays when someone went out, and otherwise falls by the value of all racks |
| Wires.TileRoundTrip | goakt-scrabble/bot.go:157-181 | reading the wire form of a tile gives the tile back |
| Wires.TileReadIff | goakt-scrabble/bot.go:157-181 | a tile is read from exactly the strings that write it: a question mark, a star and a letter, or a letter |
| Wires.BoardToWire | goakt-scrabble/wire.go:41-58 | each cell is the wire form of its square, or empty |
| Wires.WireToBoard | goakt-scrabble/bot.go:116-137 | from rows that may be missing or short, the board holds exactly the tiles that are written; it is refused only if some cell cannot be read |
| Wires.BoardRoundTrip | goakt-scrabble/bot.go:116-137 | reading what was written gives the board back |
| Wires.WireToRack | goakt-scrabble/bot.go:139-155 | reads a rack exactly when each tile can be read |
| Wires.ToEnginePlacements | goakt-scrabble/wire.go:96-124 | reads the placements, or reports the first that is malformed |
| Wires.ReadIff | goakt-scrabble/wire.go:96-124 | placements are read exactly as their squares, marks and characters say, one by one; reading fails with the reason of the first that cannot be read |
| Wires.PlacementsRoundTrip | goakt-scrabble/bot.go:183-196 | placements survive their wire form |
| Wires.TilesUsed | goakt-scrabble/wire.go:126-141 | the rack tiles that the placements cost, in order |
| Turns.StartKeeps | goakt-scrabble/room.go:190-206 | a game that starts with a rackful for everyone satisfies the invariant |
| Turns.PlaceConserves | goakt-scrabble/room.go:372-380 | an accepted placement moves tiles from rack and bag to the board and loses none |
| Turns.ExchangeKeeps | goakt-scrabble/room.go:399-418 | an exchange keeps the invariant and the sizes of rack and bag |
| Turns.StepProgress | goakt-scrabble/room.go:208-303 | every message keeps the invariant; a completed turn lowers the measure, any other message changes at most the order of a hand and the pause |
| Turns.EveryRunKeeps | goakt-scrabble/room.go:344-442 | over every run tiles are conserved, hands hold at most seven and exactly seven while the bag is not empty, the board stays good, and the number of turns is bounded |
| Turns.EndIsSettled | goakt-scrabble/room.go:486-516 | the game ends with the mover as the only one out and the total unchanged but for the move, or after six scoreless turns with no rack empty and the total less all racks |
| Turns.StepEffect | goakt-scrabble/room.go:344-442 | what a message does to seats, scores and board: the points of an accepted move go to the player whose turn it is and to nobody else, the move is on the board, and turns go round |
| Turns.StepTurn | goakt-scrabble/room.go:344-442 | a message completes a turn exactly when it takes it; what happens to rack and bag; the game ends exactly after six scoreless turns or with bag and some rack empty; pauses happen exactly when asked for |
| Turns.ScoresOverRun | goakt-scrabble/room.go:344-442 | in every run, until the game is over, each score is the first one and what the accepted moves sent with that player's id have earned |
| Turns.TurnsGoRound | goakt-scrabble/room.go:438-442 | in every run, until the game is over, the player whose turn it is is found by counting the turns taken round the seats |
| Rooms.Room.constructor | goakt-scrabble/room.go:190-206 | the room starts linked to a state that satisfies the invariant |
| Rooms.Room.FinishTurn | goakt-scrabble/room.go:438-442 | the game is settled if it is over, otherwise the next player is up |
| Rooms.Room.EnterGameOver | goakt-scrabble/room.go:502-516 | the final scores are written to the players |
| Rooms.Room.ApplyPlace | goakt-scrabble/room.go:344-397 | makes a place step: refused without loss, or played, scored and refilled; the points go to the seat of its sender alone |
| Rooms.Room.ApplyExchange | goakt-scrabble/room.go:399-418 | makes an exchange step |
| Rooms.Room.ApplyPass | goakt-scrabble/room.go:420-436 | makes a pass step |
| Rooms.Room.HandleBotPlay | goakt-scrabble/room.go:472-484 | an empty answer is a pass, any other a placement; answers out of turn are ignored |
| Rooms.Room.Receive | goakt-scrabble/room.go:208-303 | every message of a turn, a pause or a resumption makes a step of the turn loop with its effect on seats, scores and board, and keeps the invariant |
| Rooms.BotReply | goakt-scrabble/bot.go:90-114 | for wire forms of a board and a hand, the answer is empty exactly when nothing is playable and otherwise a best move |
| Rooms.BotNeverRefused | goakt-scrabble/room.go:472-484 | an answer computed from the current board and rack completes the turn |
| Rooms.Room.BotTurn | goakt-scrabble/room.go:455-484 | a bot's whole turn, over the wire and back, ends with its best move on the board or, if there is none, a pass |
| Tetris.CellsApart | goakt-tetris/match.go:77-89 | the four cells of a piece are different squares in every rotation |
| Tetris.PieceCells | goakt-tetris/match.go:77-89 | turning the offsets in place gives the rotated shape |
| TetrisLaws.TurnsAre | goakt-tetris/match.go:77-89 | a quarter turn takes what is on the right below; four of them are none |
| Tetris.CollapsedCounts | goakt-tetris/match.go:272-303 | collapsing leaves no full row and takes away exactly ten squares for each full one |
| TetrisLaws.FullRowsAre | goakt-tetris/match.go:272-303 | the lines cleared at once are counted as the rows without an empty square |
| TetrisLaws.RowsComeDown | goakt-tetris/match.go:272-303 | a row that is not full comes down by the number of full rows below it |
| Tetris.LockedCounts | goakt-tetris/match.go:250-258 | locking a piece that fits overwrites nothing and completes at most four rows |
| TetrisLaws.LockedIs | goakt-tetris/match.go:250-258 | a locked piece has written its number on the squares it covers and left all others as they were |
| Tetris.Match.CanPlace | goakt-tetris/match.go:204-220 | true exactly when every cell is inside the walls and floor and on no filled square |
| Tetris.Match.ClearLines | goakt-tetris/match.go:272-303 | the two-pointer loop yields empty rows followed by the rows that are not full, in order |
| Tetris.FirstPieceFits | goakt-tetris/match.go:189-202 | every first piece fits the empty board |
| Tetris.Match.Reset | goakt-tetris/match.go:171-187 | the board is empty, all counters are at their start, a fitting piece is at the top and the game is on |
| Tetris.Match.LockPiece | goakt-tetris/match.go:248-270 | the new board, lines, score, level, piece and end of the game; the score table is never read out of range |
| Tetris.Match.SpawnPiece | goakt-tetris/match.go:189-202 | the next piece comes in at the top, and the game is over when it does not fit |
| Tetris.Match.TryFall | goakt-tetris/match.go:238-246 | one row down and nothing else if it fits, otherwise locked |
| Tetris.Match.Step | goakt-tetris/match.go:222-236 | a tick counts down; the last one moves the piece down or locks it and starts the next countdown |
| Tetris.Match.Receive | goakt-tetris/match.go:157-163 | a tick makes that step exactly while the match is neither over nor paused, and otherwise changes nothing; a key has its effect |
| Tetris.LandingUnique | goakt-tetris/match.go:406-423 | there is one landing row |
| Tetris.Match.HardDrop | goakt-tetris/match.go:348-359 | the piece is locked at the one landing row; two points for each row on the way and the lines it completes are scored |
| Tetris.Match.GhostY | goakt-tetris/match.go:406-423 | the landing hint is the landing row, and the loop ends |
| Tetris.Match.HandleInput | goakt-tetris/match.go:305-361 | what each key does to the whole visible state, and that a paused or finished match ignores all but the pause and the restart |
| Tetris.Match.Play | goakt-tetris/match.go:131-169 | every run of messages shows one step for each of them, the fall of the piece included, and leaves no full row, a fitting piece unless the game is over, and as many filled squares and ten per line as were locked |
| TetrisLaws.GravityIs | goakt-tetris/match.go:265-269 | a row takes fifty ticks at first, four fewer at each level, and never fewer than six |
| TetrisLaws.OneRowDown | goakt-tetris/match.go:222-246 | as many ticks as the countdown shows, without input, bring a piece that fits there exactly one row down and change nothing else |
| TetrisLaws.WaitingLocks | goakt-tetris/match.go:222-270 | left alone, a piece is locked at its landing row after a number of ticks known beforehand |
| TetrisLaws.WaitingIsDropping | goakt-tetris/match.go:222-359 | waiting ends where a hard drop does, with the same board, lines, level and next piece, and two points less for each row |
| Chains.NextBlockFollows | goakt-blockchain/chain/chain.go:111-142 | a block built on another is accepted after it exactly when its proof is valid |
| Chains.HashFixesChain | goakt-blockchain/chain/chain.go:125-150 | unless hashes collide, chains whose blocks share a hash are the same up to there: nothing in a chain can be changed without changing the hash of its tip |
| Chains.SinceIsSuffix | goakt-blockchain/chain/chain.go:99-109 | on a chain the blocks from an index on are a suffix, for any index |
| Chains.Chain.Append | goakt-blockchain/chain/chain.go:125-142 | a block is appended exactly when index, previous hash, proof and own hash are right after the tip, and the chain stays a chain |
| Chains.Chain.Blocks | goakt-blockchain/chain/chain.go:90-97 | the blocks, most recent first |
| Chains.KeyOrder | goakt-blockchain/persistence/pebble.go:105-109 | keys sort like non-negative indexes; negative ones sort after all others |
| Chains.SetKeepsSorted | goakt-blockchain/persistence/pebble.go:79-81 | a write keeps the entries in the order of their keys |
| Chains.HoldsMore | goakt-blockchain/persistence/pebble.go:74-83 | the next block goes to the end of the ordered store |
| Chains.HoldsSorted | goakt-blockchain/persistence/pebble.go:39-42 | a store that holds the blocks of a chain is in key order |
| Chains.PebbleStore.Load | goakt-blockchain/persistence/pebble.go:85-103 | decodes every value in key order or fails on one that cannot be read; on a stored chain this gives its blocks in index order |
| Replicas.Replica.PreStart | goakt-blockchain/actors/replica.go:73-87 | a restart rejects nothing and rebuilds the chain, less its last block if that was not written |
| Replicas.Replica.CatchUp | goakt-blockchain/actors/replica.go:145-182 | appends the longest answer until a block does not follow or a write fails; memory and store agree |
| Replicas.Replica.Append | goakt-blockchain/actors/replica.go:123-143 | an announced block is appended and written if it follows the tip; otherwise the replica catches up |
| Replicas.Replica.GetBlocksFrom | goakt-blockchain/actors/replica.go:101-102 | answers with the suffix from an index on: everything for a negative one, nothing past the end |
| Replication.CatchUpReaches | goakt-blockchain/actors/replica.go:145-182 | catching up stays on the minted chain and reaches at least the longest chain that answered, if no write fails; the peers may answer at different moments |
| Replication.StepKeeps | goakt-blockchain/actors/replica.go:126-182 | every step keeps every replica on the one minted chain |
| Replication.StepReaches | goakt-blockchain/actors/replica.go:126-182 | in every run an announced block is appended if the replica is waiting for it; on any other announcement, and on a request to synchronize, the replica gets at least as long as every peer that answers if no write fails; no step shortens a replica or changes another one |
| Replication.ReplicasAgree | goakt-blockchain/actors/replica.go:126-182 | in every run any two replicas agree as far as both go, and each is a valid prefix of the minted chain |
| Replication.StaleHostForks | goakt-blockchain/actors/node.go:113-132 | a block minted on the host's replica extends the minted chain exactly when that replica is up to date and the proof is valid |
| Replication.LaggingHostDivides | goakt-blockchain/actors/node.go:113-132 | a run without the assumption on the host that ends with two replicas neither of which is a prefix of the other |
| Minting.ProofIsUsedOrDropped | goakt-blockchain/actors/node.go:113-132 | a proof for the hash of the tip becomes the next block, accepted, with that proof and time and made of everything pending and the reward; any other is dropped and what is pending stays |
| Minting.MintKeepsTransactions | goakt-blockchain/actors/node.go:113-132 | handling a proof, used or dropped, loses and repeats no transaction |
| Minting.MinerKeeps | goakt-blockchain/actors/miner.go:49-87 | the miner's two behaviours keep exactly one token under way while it is busy |
| Minting.BrokerKeeps | goakt-blockchain/actors/broker.go:45-63 | handling one message of the mailbox changes nothing about what will be pending |
| Minting.EveryRunKeeps | goakt-blockchain/actors/node.go:106-132 | with the host up to date when proofs are handled, each submitted transaction is in one block or still pending, every block ends with its reward, and the miner is busy exactly while one computation, proof or Ready is under way |
| Minting.TransactionsInOrder | goakt-blockchain/actors/node.go:106-132 | the transactions of the blocks, block after block, and then the pending ones are the submitted ones in the order of their submission |
| Minting.ProofIsUsedIff | goakt-blockchain/actors/node.go:110-119 | a handled proof answers the request of an earlier step, and becomes the next block exactly when the host held, at that step, every block minted by now |
| Minting.FreshProofsAreUsed | goakt-blockchain/actors/node.go:110-119 | if the host is up to date whenever a request is made, no proof is dropped |
| Minting.StaleRequestIsDropped | goakt-blockchain/actors/node.go:115-118 | a run in which a request is made before the host has appended the last block, and its proof is dropped |
| TwoPhase.AccountEntity.HandlePrepare | goakt-2pc/actors/account_entity.go:133-166 | the vote and the prepared entry; the balance is not touched |
| TwoPhase.AccountEntity.HandleCommit | goakt-2pc/actors/account_entity.go:168-200 | applies a prepared transfer and forgets it; a second commit changes nothing |
| TwoPhase.AccountEntity.HandleAbort | goakt-2pc/actors/account_entity.go:202-213 | forgets a prepared transfer without touching the balance |
| TwoPhase.CommitsOverdraw | goakt-2pc/actors/account_entity.go:144-200 | committing all prepared debits of an account, however many and in any order, overdraws it exactly when the balance does not cover their sum |
| TwoPhase.StepKeeps | goakt-2pc/actors/coordinator.go:73-182 | every step keeps phases, messages, prepared entries and balances consistent |
| TwoPhase.RequestsKept | goakt-2pc/actors/coordinator.go:73-79 | in every run the transfers have the accounts and amounts that were asked for, in order |
| TwoPhase.CommitsMove | goakt-2pc/actors/coordinator.go:73-167 | the steps of a transfer have taken its amount from the account that pays, and added it to the one that is paid, exactly if the commit was delivered there, and changed no other balance; to a failed transfer no commit is delivered |
| TwoPhase.AbortIsSafe | goakt-2pc/actors/coordinator.go:170-182 | a transfer answered as failed never changes any balance, and either account applies a transfer at most once |
| TwoPhase.NeverNegative | goakt-2pc/actors/account_entity.go:144-163 | in every run in which each prepared debit is covered together with those prepared before, no balance is ever negative |
| TwoPhase.OverlappingDebitsOverdraw | goakt-2pc/actors/account_entity.go:144-163 | for any two amounts that a balance covers one by one but not together, a run from the opening that overdraws it |
| TwoPhase.TotalIsKept | goakt-2pc/actors/coordinator.go:139-167 | the total differs from the first by the transfers that one side alone has applied; with both commits processed it is unchanged |
| Saga.AccountEntity.HandleDebit | goakt-saga/actors/account_entity.go:100-116 | debits exactly when the balance covers the amount |
| Saga.AccountEntity.HandleCredit | goakt-saga/actors/account_entity.go:118-129 | adds the amount |
| Saga.StepKeeps | goakt-saga/actors/saga_orchestrator.go:73-160 | every step keeps balances non-negative, and balances and total explained by the delivered messages |
| Saga.RequestsKept | goakt-saga/actors/saga_orchestrator.go:73-79 | in every run the transfers have the accounts and amounts that were asked for, in order |
| Saga.EveryRunKeeps | goakt-saga/actors/saga_orchestrator.go:73-160 | this holds in every run, under any interleaving, also when messages are lost or delivered after their Ask has failed |
| Saga.OwnChangeIs | goakt-saga/actors/account_entity.go:100-129 | the changes that a saga's own steps make to a balance add up to the effect of its delivered messages |
| Saga.CompletedMoves | goakt-saga/actors/saga_orchestrator.go:84-128 | the steps of a completed saga have taken the amount of its request from the account that pays, added it to the one that is paid, and changed no other balance |
| Saga.DeliveredMoves | goakt-saga/actors/account_entity.go:100-129 | what the delivery of a debit, a credit or a refund does to every balance |
| Saga.FailedLeavesNoTrace | goakt-saga/actors/saga_orchestrator.go:94-97 | the steps of a failed saga have changed no balance in sum exactly when no debit or credit was made whose Ask failed and the refund was made if it was asked for |
| Saga.HonestRunConserves | goakt-saga/actors/saga_orchestrator.go:73-160 | in runs of which that is true, accounts plus money on the way is constant |
| Saga.EndedRunConserves | goakt-saga/actors/saga_orchestrator.go:131-160 | once all sagas of such a run have ended, the accounts hold what they held at first |
| Saga.LateCreditCreatesMoney | goakt-saga/actors/saga_orchestrator.go:117-142 | a run in which a credit is delivered after the refund: the saga has failed and the accounts hold more than at first |

## Left out

- HTTP and WebSocket gateways, sessions, clients, commands, generated code, language-model clients and database plumbing: input and output.
- Actor mailboxes, scheduling, clustering and publish/subscribe: only their delivery assumptions are modelled.
- Timers, the time left at a pause and stale timeouts in the rooms; the choice of the winner and the leaderboard.
- Rooms.Room.Receive: has no messages for players who join or leave during a game, because the seats are fixed from its start.
- The text of error messages: errors are modelled by their kind, and a word that is not in the dictionary by its letters.
- The cross-check tables and the anchor grid are maps and sets instead of fixed arrays, and a table entry is the set of its bits; the 32-bit width is kept, the arithmetic on bits is not.
- Slices in the generator are values: that a left part or a list of placements is copied before it grows is not modelled, so neither is what would happen if it were shared.
- The sort of the placements is a sort by insertion; any other sort gives the same list, as `MoveLaws.SortedUnique` shows.
- Dawgs.BuildDAWG: takes the list line by line, and does not model the upper case of letters beyond A to Z.
- A player's entry in the room is a value that holds a reference to the rack; names, sessions and processes are left out.
- The steps of the coordinators and orchestrators are those that send, answer or change a phase; the stored status of a transfer and failures to write it after the first are not modelled, since nothing reads it back.
- Account restarts that drop prepared transfers, and the creation of an account that has already been credited.
- SHA-256, JSON and the search for a proof, whose end nothing guarantees; the Ask timeouts of the node.
- Balances and values are integers; floating-point rounding is not modelled.
- The other examples of the repository: they would add easier members only.
