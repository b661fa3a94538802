# Staked tic-tac-toe: a verified model

This project models the logic of a staked tic-tac-toe program that runs as a provable guest over a
key-value store, and of the node that indexes it, and proves what the two promise.

- **The match.** A board, per-seat round counters, a clock and two rings of pre-committed cells. A turn
  lands on the board or in the mover's queue; queued moves cascade, across rounds, until the match is
  decided, possibly by an early clinch. `Rules`, `Match` and `MatchInvariant` give the rules, the
  value-level machine and what every reachable match satisfies; `MatchReplay` proves that the order in
  which the two players' turns arrive does not matter; `MatchEffects` says what a mark, a forfeit and the
  clock amount to; `GameBody` is the in-place form, proved equal.
- **The ledger.** Users, games and one config, addressed by derived ids (hashes are free constructors).
  `Ledger` gives every action on values; `ApplyContext` performs them slot by slot as the guest does and
  is proved equal; `LedgerEffects` says what each action and each transaction leaves behind;
  `LedgerInvariant`, `LedgerConservation`, `LedgerPayouts` and `LedgerAccess` prove placement, counters,
  conservation, payouts, overflow freedom and authority over whole runs. `Signers`
  models how signers resolve late, `LedgerSigners` what they ask of a transaction, and `SignerPromise` when
  the multisig bucket is what it is said to be.
- **The exit index.** Families of withdrawal leaves keyed by the root of their tree, advanced by claims,
  undone by reorgs and mirrored in memory. `ExitTree` is the tree, `ExitIndex` the hooks on values,
  `ExitIndexer` the hooks as written, `ExitIndexProofs` and `ExitHistory` their theorems, `ExitViews` the
  served Merkle data.
- **The game indexes.** An event log and a status index kept by diff and inverse diff (`GameIndex`,
  `GameIndexer`, `GameIndexProofs`), and the paged scans over them (`Lex`, `GameScans`). `LedgerListing`
  shows that the ledger's games live as the event rules assume.
- **The codec.** `Wire` encodes, `WireReading` proves that encoded bytes can be read in one way only,
  `Decoder` is the guest's decoder and `Carriers` the web client's independent one.

Check it with `dafny verify dfyconfig.toml`.

Three places where the code does not do what its comments say. The config is rewritten without the write
gate that every write is said to pass (`LedgerAccess.ConfigUpdateSkipsTheWriteGate`; exactly when:
`LedgerAccess.WriteGateIsExact`). A late multisig signer can open a second entry for a resource that is said
to have one, or join its entry out of wire order (`SignerPromise.MixedSignersSplitAnEntry`,
`SignerPromise.MixedSignersSwapKeys`; exactly when: `SignerPromise.RunIsExact`). And a claim can land on
another family's key, for families that are not identical (`ExitIndexProofs.CollisionLosesAFamily`; exactly
when it can be undone: `ExitIndexProofs.RevertUndoesClaim`).

Some methods carry a ghost argument that stands for any value: the contract says that if the input is the
encoding of that value, the value is what is returned. A ghost argument cannot influence a result, so this
is a statement about all values.

## Model

| member | source | states |
|---|---|---|
| `Rules.LinesAreExact` | guest/src/program/rules.rs:11-13 | the lines are exactly the three rows, the three columns and the two diagonals |
| `Rules.WinnerIsALine` | guest/src/program/rules.rs:21-26 | `winner` finds a mark iff some line is filled with marks, and then that mark fills a line |
| `Rules.PlacedMarkIsTheOnlyWinner` | guest/src/program/rules.rs:21-26 | on a board without a line, one placed mark can complete only its own line |
| `Rules.ToMovePlaysTheAwaitedMark` | guest/src/program/rules.rs:34-50 | the seat to move is the one whose mark the ply parity calls for: X on even plies, O on odd, in every round |
| `Rules.MarksSwapEveryRound` | guest/src/program/rules.rs:34-43 | the creator starts with its own mark, the seats hold opposite marks and swap them every round, so the opening move changes seat every round |
| `Rules.ClinchIsExact` | guest/src/program/rules.rs:52-73 | the match is decided for `s` iff every way to play the remaining rounds ends in `s` by final count |
| `Rules.UndecidedIsOpen` | guest/src/program/rules.rs:52-73 | no result is given iff two continuations of the remaining rounds end differently |
| `MatchInvariant.PlaceSound` | guest/src/program/action/game.rs:331-365 | a mark of the seat to move keeps the match sound: X ahead by 0 or 1, no line, board not full, rounds left, result not yet decided; or a decided match with a cleared board |
| `MatchInvariant.PlayTurnValid` | guest/src/program/action/game.rs:261-303 | an accepted turn with its cascade ends in a valid match; a playing match has an empty queue for the seat to move, every other one has empty queues and an empty board |
| `MatchInvariant.ForfeitValid` | guest/src/program/action/game.rs:308-327 | an accepted forfeit, with its cascade, ends in a valid match |
| `MatchInvariant.FreshValid` | guest/src/program/resources/game.rs:295-317 | a freshly written game is a valid open match |
| `MatchInvariant.DrainStep` | guest/src/program/action/game.rs:294-303 | one turn of the cascade pops exactly one entry and leaves a state from which the cascade ends alike |
| `MatchInvariant.DrainSpends` | guest/src/program/action/game.rs:294-303 | the marks a cascade places come out of the budget of cells and rounds left |
| `MatchInvariant.RunIsBounded` | guest/src/program/action/game.rs:261-365 | over any accepted run of turns and forfeits the match stays valid, and its marks and forfeits are paid from a budget that only shrinks |
| `MatchInvariant.MatchLength` | guest/src/program/action/game.rs:261-365 | from creation on, at most 9 x `rounds_total` marks and `rounds_total` forfeits fit in a match |
| `MatchInvariant.NeverReopens` | guest/src/program/action/game.rs:261-327 | a match that has left Open never returns to it, over any run |
| `MatchReplay.DrainIsReplay` | guest/src/program/action/game.rs:290-303 | the cascade over the queues is the declarative replay: the seat to move consumes its next cell, dropping a taken one |
| `MatchReplay.TurnIsReplay` | guest/src/program/action/game.rs:261-288 | an accepted turn equals replaying with one more cell submitted by its seat |
| `MatchReplay.ReplayAppend` | guest/src/program/action/game.rs:290-303 | replaying early and again with more cells equals replaying everything at once |
| `MatchReplay.RunIsReplay` | guest/src/program/resources/game.rs:25-32 | after any run of accepted turns the match is the replay of the two lists of cells the seats submitted |
| `MatchReplay.InterleavingsAgree` | guest/src/program/resources/game.rs:25-32 | two accepted interleavings of the same two lists reach the same board, counters, result and queues |
| `MatchEffects.PlaceEffect` | guest/src/program/action/game.rs:331-365 | a mark of the seat to move wins that seat the round iff it completes a line, draws it iff it fills the board without one, and otherwise changes only its cell; the match ends iff every continuation has the same result, in favour of whoever leads |
| `MatchEffects.TurnIsAccepted` | guest/src/program/action/game.rs:261-288 | a turn is accepted iff the match plays, the cell is open, and it is the mover's ply or its queue has room |
| `MatchEffects.ForfeitIsAccepted` | guest/src/program/action/game.rs:308-319 | a claim is accepted iff the match plays, the deadline fits in u64 and has been reached |
| `MatchEffects.ForfeitEffect` | guest/src/program/action/game.rs:320-327 | the round goes to the seat that was waiting, the board is cleared, the clock shows the claim, and the queued cells are replayed from there |
| `MatchEffects.ForfeitOnce` | guest/src/program/action/game.rs:305-307 | after a claim no second one is accepted at the same time, unless turns are given no time at all |
| `MatchEffects.MatchIsItsRounds` | guest/src/program/action/game.rs:261-365 | from creation on, over any run, the counters count the rounds each seat won by a line or by the other's timeout and the drawn ones, and the match has ended with a result iff every way to play the remaining rounds gives it |
| `MatchEffects.ClockIsLastTime` | guest/src/program/action/game.rs:329-335 | over any run the clock shows the time of the last input that placed a mark or claimed a round |
| `MatchEffects.JoinStartsTheClock` | guest/src/program/action/game.rs:133-140 | and until there is one, the time of the join |
| `GameBody.PendingQueue.Zeroed` | guest/src/program/resources/game.rs:285-289 | a zeroed ring is an empty queue |
| `GameBody.PendingQueue.Push` | guest/src/program/resources/game.rs:107-117 | push appends in order or reports a full ring and changes nothing |
| `GameBody.PendingQueue.Pop` | guest/src/program/resources/game.rs:119-129 | pop removes and returns the oldest entry; nothing when empty |
| `GameBody.PendingQueue.Peek` | guest/src/program/resources/game.rs:131-134 | peek returns the oldest entry and leaves the ring alone |
| `GameBody.PendingQueue.Clear` | guest/src/program/resources/game.rs:284-289 | clearing leaves an empty queue |
| `GameBody.GameBody.WriteGame` | guest/src/program/resources/game.rs:292-317 | every field not named has its birth value: open, zero counters, no joiner, empty queues, empty board |
| `GameBody.GameBody.MarkAndRound` | guest/src/program/action/game.rs:384-388 | the round index is the sum of the counters and stays within its byte |
| `GameBody.GameBody.ToMove` | guest/src/program/action/game.rs:378-382 | the in-place seat to move is the rule's |
| `GameBody.GameBody.EndMatchIfDecided` | guest/src/program/action/game.rs:357-365 | the result is stored and both queues are zeroed exactly when the counters decide the match |
| `GameBody.GameBody.CloseRound` | guest/src/program/action/game.rs:351-355 | the board is cleared, then the match ends if decided |
| `GameBody.GameBody.ScoreMove` | guest/src/program/action/game.rs:337-349 | the in-place scoring is the value-level one, whose effect is `MatchEffects.PlaceEffect`: a completed line counts for the mover, a full board without one as a draw, and either closes the round |
| `GameBody.GameBody.ApplyMove` | guest/src/program/action/game.rs:329-349 | the in-place move is the value-level move, clock included |
| `GameBody.GameBody.DrainPending` | guest/src/program/action/game.rs:290-303 | the loop over the rings ends and computes the value-level cascade |
| `GameBody.GameBody.CommitExplicit` | guest/src/program/action/game.rs:276-288 | the turn lands on the board on the mover's own ply, in the mover's queue otherwise; an occupied cell or a full queue is an error that changes nothing |
| `GameBody.GameBody.SeatOf` | guest/src/program/action/game.rs:367-376 | finds a seat iff the mover sits at one, namely the first it sits at; the error leaves no other reading |
| `GameBody.GameBody.PlayTurn` | guest/src/program/action/game.rs:258-274 | the whole turn in place equals the value-level turn; a rejected one leaves the body untouched |
| `GameBody.GameBody.ForfeitRound` | guest/src/program/action/game.rs:305-327 | the forfeit in place equals the value-level forfeit, the deadline overflow and the unexpired clock being errors that change nothing |
| `GameBody.GameBody.AwardRound` | guest/src/program/action/game.rs:320-324 | the in-place award is the value-level one, whose effect is `MatchEffects.ForfeitEffect`: the waiting seat gets the round and the clock restarts at the claim |
| `LedgerEffects.TransferEffect` | guest/src/program/action/user.rs:22-120 | a transfer moves its amount from source to destination, or founds the destination with it under the given lock, and touches nothing else |
| `LedgerEffects.DepositEffect` | guest/src/program/action/deposit.rs:15-126 | a deposit credits, or founds under its lock, the named user with the value of the output it names, which it consumes, and touches nothing else |
| `LedgerEffects.WithdrawEffect` | guest/src/program/action/withdraw.rs:16-50 | a withdrawal takes its amount from the user and emits one exit of that amount to its destination, and touches nothing else |
| `LedgerEffects.WithdrawIsAccepted` | guest/src/program/action/withdraw.rs:16-50 | it is accepted iff the current lock, the config's minimum, the balance, the write gate and the exit sink allow it |
| `LedgerEffects.LockEffect` | guest/src/program/action/user.rs:122-142 | rotating a lock needs the lock it replaces, stores the new one and touches nothing else |
| `LedgerEffects.ConfigEffect` | guest/src/program/action/config.rs:16-113 | a config is born at its one address by the genesis key, and rewritten under its current lock with the action's fields, its covenant aside |
| `LedgerEffects.CovenantIsForever` | guest/src/program/action/config.rs:16-54 | over any run the covenant of a config never changes |
| `LedgerEffects.CreateEffect` | guest/src/program/action/game.rs:32-89 | the creator pays its stake and counts one more game; the game stands open under that number with the stake, rounds and mark asked for |
| `LedgerEffects.JoinEffect` | guest/src/program/action/game.rs:97-142 | another user pays the same stake under its own lock, becomes the joiner, and the match plays from that moment |
| `LedgerEffects.TurnEffect` | guest/src/program/action/game.rs:155-178 | a turn needs the mover's lock and plays the mover's own seat: the creator 0, the joiner 1 |
| `LedgerEffects.TimeoutEffect` | guest/src/program/action/game.rs:188-204 | a claim needs no lock and runs on the time the config allows a turn |
| `LedgerEffects.TransactionEmits` | guest/src/program/run.rs:75-110 | an accepted transaction emits exactly the destinations and amounts of its withdrawals, in order, and consumes exactly the outputs its deposits name |
| `LedgerInvariant.NextGameSlotIsFree` | guest/src/program/action/game.rs:60-65 | the slot CreateGame derives from the creator's counter is always free |
| `LedgerInvariant.BirthSound` | guest/src/program/action.rs:386-410 | a newborn user sits at the address of its initial lock, and no game occupies any slot its address derives |
| `LedgerInvariant.CreateSound` | guest/src/program/action/game.rs:32-89 | creating a game fills exactly slot `games_started` of its creator and advances the counter |
| `LedgerInvariant.GamesNeedTheirCreator` | guest/src/program/resources/id.rs:26-34 | a game exists only while its creator's user resource does |
| `LedgerInvariant.StrangersHaveNoGames` | guest/src/program/action/game.rs:220-254 | no stored game names an id that is not a live user |
| `LedgerInvariant.PayEffect` | guest/src/program/action/game.rs:231-254 | one payout credits one player, adds one finished game and at most one won, and touches nobody else |
| `LedgerInvariant.SettleEffect` | guest/src/program/action/game.rs:206-256 | settlement gives the winner both stakes or each player its own, and adds one finished game to each player and one won to the winner |
| `LedgerInvariant.SettleKeeps` | guest/src/program/action/game.rs:206-256 | settling a match that just finished keeps every account counter exact |
| `LedgerInvariant.LockKeeps` | guest/src/program/resources/ext.rs:183-197 | rotating a lock keeps address and counters, hence every invariant |
| `LedgerInvariant.TransferKeeps` | guest/src/program/action/user.rs:22-120 | a transfer, creating or crediting, keeps every store invariant |
| `LedgerInvariant.DepositKeeps` | guest/src/program/action/deposit.rs:52-123 | a deposit, creating or crediting, keeps every store invariant |
| `LedgerInvariant.CreateGameKeeps` | guest/src/program/action/game.rs:32-89 | creating a game keeps every store invariant, `games_started` included |
| `LedgerInvariant.JoinGameKeeps` | guest/src/program/action/game.rs:97-142 | joining keeps every store invariant: two distinct live players and a valid match that has just started |
| `LedgerInvariant.ActionKeeps` | guest/src/program/action.rs:308-367 | every accepted action keeps the store reachable: ids derived, matches valid, counters exact |
| `LedgerInvariant.RunsAreReachable` | guest/src/program/run.rs:75-110 | after any run of transactions every resource sits at its derived id, slot `k` of a user is occupied iff `k < games_started`, every match is valid, and the three counters count exactly the games started, finished and won |
| `LedgerConservation.ActionConserves` | guest/src/program/action.rs:308-367 | every accepted action keeps balances + escrow + exits - credited deposits |
| `LedgerConservation.SettleHeld` | guest/src/program/action/game.rs:220-254 | a settlement pays out exactly the pot |
| `LedgerConservation.Conservation` | guest/src/program/run.rs:75-110 | over whole runs, balances plus escrow plus emitted exits equal the credited deposits |
| `LedgerConservation.DepositsAreBacked` | guest/src/program/action/deposit.rs:23-108 | a transaction credits each of its outputs at most once, and only outputs that pay the one covenant it records |
| `LedgerConservation.EscrowLeavesOnce` | guest/src/program/action/game.rs:170-177 | escrow leaves a game only in the action that finishes it, and a finished game does not change in that action or any other |
| `LedgerConservation.FinishedForever` | guest/src/program/action/game.rs:267-269 | once finished, a game is the same after every later run |
| `LedgerPayouts.PayoutIsExact` | guest/src/program/action/game.rs:170-254 | the action that ends a match moves every balance by exactly what the match owes: both stakes to its winner, its own stake to each player on a draw, nothing to anybody else |
| `LedgerPayouts.EndsByPlay` | guest/src/program/action/game.rs:155-204 | only a turn in a game, or a claim on it, ends it |
| `LedgerPayouts.EachMatchPaysOnce` | guest/src/program/action/game.rs:170-254 | over any run, the list of what a match paid to a user has one entry, its prize, iff the match has ended, and none before |
| `LedgerConservation.SettlementNeverOverflows` | guest/src/program/action/game.rs:220-241 | if all deposits fit in u64, then in every reachable state so does each pot, alone and on top of any balance |
| `LedgerConservation.NoOverflowMidTransaction` | guest/src/program/action/user.rs:99-105 | the same between the actions of a transaction, for every credit from one account or game to another |
| `LedgerConservation.DepositFitsMidTransaction` | guest/src/program/action/deposit.rs:89-91 | the same for an output still to be credited |
| `LedgerAccess.WritesAreDeclared` | guest/src/program/resources/ext.rs:1-12 | an action changes only resources declared writable, the config of Update and Init excepted, and removes nothing |
| `LedgerAccess.WriteGateIsExact` | guest/src/program/resources/ext.rs:1-12 | everything an accepted action changes was declared writable iff the action is not an Update or Init that changes the config through a slot not declared so |
| `LedgerAccess.ConfigUpdateSkipsTheWriteGate` | guest/src/program/action/config.rs:94-113 | such a write exists: an authorized Update that the decoder delivers, covenant of 32 bytes, rewrites a config declared read-only, although the module comment says every write passes the gate |
| `LedgerAccess.SpendingNeedsTheLock` | guest/src/program/action/game.rs:102-107 | a user loses balance or changes lock only in an action its current lock authorizes; every other action can only credit it |
| `ApplyContext.ApplyContext.ModifyUser` | guest/src/program/resources/ext.rs:98-104 | a user is rewritten iff the slot is writable and holds a live user |
| `ApplyContext.ApplyContext.ModifyGame` | guest/src/program/resources/ext.rs:106-112 | a game is rewritten iff the slot is writable and holds a live game |
| `ApplyContext.ApplyContext.InitUser` | guest/src/program/resources/ext.rs:132-148 | a user is created iff the slot is writable and empty, with zero counters |
| `ApplyContext.ApplyContext.ValidateUserCreate` | guest/src/program/action.rs:386-410 | accepts exactly the lock's derived address with at least the minimum funding |
| `ApplyContext.ApplyContext.ApplyUpdate` | guest/src/program/action/config.rs:16-54 | the slot-by-slot action succeeds iff the value-level one is allowed, and leaves its state |
| `ApplyContext.ApplyContext.ApplyInit` | guest/src/program/action/config.rs:56-92 | likewise for the config's birth |
| `ApplyContext.ApplyContext.ApplyTransfer` | guest/src/program/action/user.rs:22-120 | likewise: equal indexes, missing lock, short balance and overflow are errors; credit or create by the slot's live state |
| `ApplyContext.ApplyContext.ApplyUpdateUserLock` | guest/src/program/action/user.rs:122-142 | likewise for lock rotation under the current lock |
| `ApplyContext.ApplyContext.ApplyDeposit` | guest/src/program/action/deposit.rs:15-126 | likewise: consumed outputs, wrong destination, address mismatch, overflow and a conflicting sink are errors |
| `ApplyContext.ApplyContext.ApplyWithdraw` | guest/src/program/action/withdraw.rs:16-50 | likewise: the debit and the exit happen together or not at all |
| `ApplyContext.ApplyContext.ApplyCreateGame` | guest/src/program/action/game.rs:32-89 | likewise for creation, with the derived slot checked against the counter |
| `ApplyContext.ApplyContext.ApplyJoinGame` | guest/src/program/action/game.rs:97-142 | likewise for joining |
| `ApplyContext.ApplyContext.UserSlotOf` | guest/src/program/action/game.rs:390-393 | finds the slot of an id, if one is attached |
| `ApplyContext.ApplyContext.Pay` | guest/src/program/action/game.rs:231-254 | one player's payout in place equals the value-level payout |
| `ApplyContext.ApplyContext.SettleMatch` | guest/src/program/action/game.rs:206-256 | the settlement loop over both players equals the value-level settlement |
| `ApplyContext.ApplyContext.ApplyTurn` | guest/src/program/action/game.rs:155-178 | the turn, its lock check and the settlement it triggers equal the value-level action |
| `ApplyContext.ApplyContext.ApplyTimeout` | guest/src/program/action/game.rs:188-204 | likewise for the permissionless forfeit claim |
| `ApplyContext.ApplyContext.ApplyAction` | guest/src/program/action.rs:308-367 | dispatch: every action agrees with its value-level form |
| `ApplyContext.Program.RunActions` | guest/src/program/run.rs:56-110 | signers are tried up front and before each action; the first failing signer or action, or a signer left pending, is an error, and otherwise the state is that of the value-level transaction and the multisig bucket that of its rounds |
| `ApplyContext.Program.Run` | guest/src/program/run.rs:39-110 | a transaction commits all of its actions or leaves the store as it was, its signers deciding with the actions |
| `LedgerSigners.ExecuteIff` | guest/src/program/run.rs:57-110 | a transaction is accepted iff its actions are, every signer resolves to a key, and every pointer signer's resource bears a lock at the start or before some action (the last action comes too late); its state is then that of the actions alone |
| `LedgerSigners.LiveIsUserOrConfig` | guest/src/program/run.rs:142-152 | a resource bears a lock iff it is attached and holds a user or the config |
| `LedgerSigners.BucketIsExact` | guest/src/program/run.rs:57-86 | inside any transaction, the bucket its actions find is what it is said to be iff every resource born since the start has its keys in turn on the wire and every round since merged |
| `Signers.AuthContext.AppendMultisigContrib` | guest/src/program/run.rs:185-202 | extends the last entry when it is the resource's and opens a new one otherwise |
| `Signers.AuthContext.ResolvePending` | guest/src/program/run.rs:112-139 | one round: fails iff a signer that need not wait fails to resolve; otherwise the waiting ones stay pending in wire order, and both buckets gain the others' keys and are sorted |
| `Signers.EachWaitsOrResolves` | guest/src/program/run.rs:116-133 | a round loses no signer and resolves none twice |
| `Signers.PendingIsExact` | guest/src/program/run.rs:112-115 | after any rounds exactly the pointer signers whose resource was never live are pending |
| `Signers.PendingByTag` | guest/src/program/run.rs:116-133 | in the terms of the wire: the signers left pending are those of tag 1 or 3 whose resource was never live |
| `Signers.KeysByTag` | guest/src/program/run.rs:159-183 | the keys of tags 3 and 4 go to the multisig bucket, those of the other tags to the single one |
| `SignerPromise.RoundIsExact` | guest/src/runtime/auth_context.rs:12-24 | a round keeps the promise (sorted, one entry per resource, keys in wire order) iff each resource whose late keys find an entry is the first of the round and the last of the bucket, and each resource born in it has the keys that need not wait before those that do |
| `SignerPromise.RunIsExact` | guest/src/runtime/auth_context.rs:12-24 | the same over a whole run, in terms of the wire and the live sets alone |
| `SignerPromise.RunKeepsEntries` | guest/src/program/run.rs:185-202 | after a run there is one entry per resource iff every round but the first merges |
| `SignerPromise.RunGathers` | guest/src/program/run.rs:112-139 | what is gathered of a resource: all its keys in wire order if it was live at the start, otherwise the keys that need not wait and behind them, once it is born, the others |
| `SignerPromise.InTurn` | guest/src/runtime/auth_context.rs:12-24 | a resource has its keys in turn when no key that may wait stands before one that need not |
| `SignerPromise.OnlyInTurn` | guest/src/runtime/auth_context.rs:12-24 | and, if its keys all differ, only then |
| `SignerPromise.RunsKeepThePromise` | guest/src/runtime/auth_context.rs:12-24 | if no resource mixes waiting and immediate multisig signers, the promise holds over any rounds |
| `SignerPromise.MixedSignersSplitAnEntry` | guest/src/runtime/auth_context.rs:12-24 | with mixed kinds the promise fails: a concrete instruction leaves two entries for one resource |
| `SignerPromise.MixedSignersSwapKeys` | guest/src/runtime/auth_context.rs:12-24 | another leaves one entry whose keys are not in wire order |
| `ExitTree.DepthIsSmallest` | node/src/da_store.rs:251-262 | the tree is no deeper than its leaves need |
| `ExitTree.RootOfUp` | node/src/da_store.rs:264-272 | building level by level reaches the recursively defined root |
| `ExitTree.FoldIsRootOfUpdate` | node/src/da_store.rs:278-303 | folding any hash up the tree's own siblings gives the root of the tree with that slot replaced |
| `ExitTree.PostClaimRoot` | node/src/da_store.rs:289-303 | the folded post-claim root is the family's root with that slot emptied too |
| `ExitTree.SlotVerifies` | node/src/da_store.rs:278-288 | each slot verifies against the family's root along its own siblings |
| `ExitTree.RootInjective` | node/src/da_store.rs:251-272 | distinct slot contents have distinct roots |
| `ExitTree.ClaimMovesRoot` | node/src/exit_index.rs:162-171 | claiming an unclaimed leaf always moves the root |
| `ExitTree.RootsCollideAcrossFamilies` | node/src/exit_index.rs:222-226 | a two-leaf family with its second slot emptied shares its root with a fresh family of the first leaf |
| `ExitIndexProofs.StepMirrors` | node/src/exit_index.rs:93-262 | every hook, with any arguments, keeps the mirror equal to the store |
| `ExitIndexProofs.StepAccounts` | node/src/exit_index.rs:93-262 | a hook keeps every record's unclaimed and emptied counts adding up, with distinct leaves, iff it is not a claim whose leaf index, cut to 32 bits, names a leaf already emptied |
| `ExitIndexProofs.CountsAddUp` | node/src/exit_index.rs:93-262 | counts add up over every run whose leaf indexes fit in 32 bits, in any order |
| `ExitIndexProofs.MirrorEqualsStore` | node/src/exit_index.rs:23-38 | mirror equals store over every run of hooks, replays and unknown reverts included |
| `ExitIndexProofs.ReseedMirrors` | node/src/exit_index.rs:41-60 | a cold mirror becomes the store's mirror by reseeding |
| `ExitIndexProofs.ReplayIsIdle` | node/src/exit_index.rs:150-161 | delivering a claim twice is delivering it once, iff it is not a claim of a live leaf beyond 32 bits that leaves its record live under the same key |
| `ExitIndexProofs.ReplayedClaimIsIdle` | node/src/exit_index.rs:133-178 | so a claim the chain can make, which moves its family's root, is never counted twice |
| `ExitHistory.ClaimEffect` | node/src/exit_index.rs:133-178 | a fresh claim marks its leaf and lists it with its transaction and deduction; unless it is the last it moves the record under the new root and its anchor to the output it created |
| `ExitHistory.AnchorsStayTrue` | node/src/exit_index.rs:133-213 | along every orderly run in which claims spend what the chain lets them, each live record is anchored at the end of the chain of outputs its unreverted claims form, and a drained one where it was before its last claim |
| `ExitHistory.LiveAnchor` | node/src/exit_index.rs:162-171 | from the empty index: the output served for the next claim is the continuation of the family's latest unreverted claim, or output 1 of a settlement of its leaves |
| `ExitHistory.RevertHidesOne` | node/src/exit_index.rs:215-239 | a reverted settlement hides one family at most: one with its leaves, or what stands at their fresh root when none has them |
| `ExitHistory.RevertUndoesSettlement` | node/src/exit_index.rs:215-239 | undoing a settlement whose leaves and root were new brings the families back as they were |
| `ExitHistory.ReseedFillsIn` | node/src/exit_index.rs:41-60 | a restart adds the stored families the mirror lacks and overwrites none |
| `ExitHistory.RecordsAreSettled` | node/src/exit_index.rs:78-91 | over every run a record keeps the leaves, the score and the rent it settled with |
| `ExitHistory.LatestRow` | node/src/exit_index.rs:94-131 | over every run the row served is that of the last settlement, with the permission root of the last one that brought any |
| `ExitIndexProofs.SpentKeepsKeys` | node/src/exit_index.rs:162-177 | a true claim leaves each record keyed by the root of its tree with its emptied slots folded, or by its last key once drained |
| `ExitIndexProofs.RevertKeepsKeys` | node/src/exit_index.rs:193-212 | undoing the latest claim of the history puts its record back under the root its tree had before that claim; the root is derived from the claims made, not given |
| `ExitIndexProofs.RevertOutOfOrderBreaksKey` | node/src/exit_index.rs:193-212 | undoing an earlier claim first does not: the record ends under a root its tree no longer has |
| `ExitIndexProofs.KeysStayTrue` | node/src/exit_index.rs:78-91 | keys stay true over every run of settlements, reseedings, true claims and reverts of the latest claim, with the stack of unreverted claims as the only ordering |
| `ExitIndexProofs.KeysAreTrue` | node/src/exit_index.rs:78-91 | from the empty index, after any such run: mirror equals store, counts add up, every key is its tree's root, and every emptied leaf lies inside its family |
| `ExitIndexProofs.RevertUndoesClaim` | node/src/exit_index.rs:180-213 | reverting a fresh claim restores mirror, records, marks, anchor and claim order iff no stale mark stood under its key, nobody stood under the new root and the true prior outpoint is given |
| `ExitIndexProofs.UnwindRestores` | node/src/exit_index.rs:180-213 | any sequence of such claims followed by its reverts in reverse order restores the index |
| `ExitIndexProofs.CollisionLosesAFamily` | node/src/exit_index.rs:162-171 | when another family stands under the new root, the claim overwrites it and after the revert nothing stands there, in mirror and store |
| `ExitIndexer.Store.ExitRoots` | node/src/da_store.rs:176-194 | lists each stored record's root once |
| `ExitIndexer.TicTacToeExitIndexer.Reseed` | node/src/exit_index.rs:41-60 | adds the stored records the mirror lacks and the latest row if unset |
| `ExitIndexer.TicTacToeExitIndexer.OnExitsCommitted` | node/src/exit_index.rs:94-112 | mirror and applied batch become the specified state: a fresh record under its padded root and the latest row |
| `ExitIndexer.TicTacToeExitIndexer.OnSettlementObserved` | node/src/exit_index.rs:114-131 | likewise: a settlement without exits carries the last permission root forward |
| `ExitIndexer.TicTacToeExitIndexer.OnPermissionSpent` | node/src/exit_index.rs:133-178 | likewise: mark, then advance, drain, hide or ignore |
| `ExitIndexer.TicTacToeExitIndexer.OnPermissionSpendReverted` | node/src/exit_index.rs:180-213 | likewise: unmark, then restore whichever record carries the spend |
| `ExitIndexer.TicTacToeExitIndexer.OnExitsReverted` | node/src/exit_index.rs:215-239 | likewise: the family found by its leaves is hidden |
| `ExitIndexer.TicTacToeExitIndexer.OnExitsRecommitted` | node/src/exit_index.rs:241-261 | likewise: the record is rebuilt fresh |
| `ExitViews.BuildSlots` | node/src/da_store.rs:251-262 | level 0 is the padded tree with emptied slots and padding at the empty hash |
| `ExitViews.BuildLevels` | node/src/da_store.rs:264-272 | the levels are the tree's, up to a single root |
| `ExitViews.SiblingPath` | node/src/da_store.rs:278-288 | the path read off the levels is the slot's path in the tree |
| `ExitViews.FullClaimRoot` | node/src/da_store.rs:289-303 | the loop folds to the root of the tree with the slot emptied |
| `ExitViews.ViewOf` | node/src/da_store.rs:246-305 | a view is truthful at any depth: every leaf verifies along its siblings, and every post-claim root is that of the rebuilt tree |
| `ExitViews.AllViews` | node/src/da_store.rs:243-307 | one truthful view per stored record, provided emptied leaves lie inside their families |
| `ExitViews.ViewsNeverPanic` | node/src/da_store.rs:243-307 | which they do after every orderly run of the index |
| `ExitViews.ServedDataMatchesTheIndex` | node/src/da_store.rs:237-242 | a live family's fresh leaf verifies against the key it is served under, and a non-terminal claim moves the record to exactly the served post-claim root |
| `Lex.ZeroSuffixIsSuccessor` | node/src/indexer.rs:288-305 | `key || 0x00` is the immediate successor of `key` in byte order |
| `Lex.BigEndianOrders` | node/src/indexer.rs:76-97 | equal-length big-endian numbers order as their bytes do |
| `GameIndex.EventKeyInjective` | node/src/indexer.rs:99-109 | event keys with equal bytes name the same player, event, version and game |
| `GameIndex.StatusKeyInjective` | node/src/indexer.rs:138-142 | status keys with equal bytes name the same bucket and game |
| `GameIndex.KeyspacesDisjoint` | node/src/indexer.rs:76-136 | no event key is a status key |
| `GameIndexer.TicTacToeIndexer.IndexDiff` | node/src/indexer.rs:197-231 | the batch of puts and deletes, applied, is the specified index step |
| `GameIndexer.TicTacToeIndexer.RevertDiff` | node/src/indexer.rs:233-263 | likewise for the inverse diff |
| `GameIndexProofs.RollbackLog` | node/src/indexer.rs:244-250 | a rollback removes precisely the events its diff inserted |
| `GameIndexProofs.StepExact` | node/src/indexer.rs:196-264 | an advance or a rollback keeps both indexes equal to the surviving history |
| `GameIndexProofs.IndexesEqualHistory` | node/src/indexer.rs:196-264 | after any stack-like run the log holds exactly the surviving diffs' events, and each game has exactly its current status key, whose version lies on its surviving history |
| `GameIndexProofs.EventsCompose` | node/src/indexer.rs:168-194 | for a game that only moves on, the events of two steps together are the events of the step that skips the middle |
| `GameIndexProofs.EventsOnceEach` | node/src/indexer.rs:168-194 | a whole life logs one Created for the creator, one Joined for the joiner, and, once the match has ended, Won for the winner, Lost for the loser or Drew for both, each once |
| `LedgerListing.GamesFollow` | guest/src/program/action/game.rs:261-327 | between any two points of a ledger run every game only moves on, as the event rules assume |
| `LedgerListing.RunLogsOnceEach` | node/src/indexer.rs:168-194 | over any ledger run, however cut into versions, a stored game has logged Won once for exactly the player the ledger counts as its winner, Lost once for the other, Drew once for each player of a draw |
| `GameScans.ScanIsAfter` | node/src/indexer.rs:285-331 | a range scan from the cursor's successor to the prefix's end is the filtered stream after the cursor |
| `GameScans.AfterPage` | node/src/indexer.rs:266-273 | what follows a page's last key is the rest of the stream |
| `GameScans.PagesCoverTheScan` | node/src/indexer.rs:275-331 | for any positive limit the pages concatenate to the unlimited scan |
| `GameScans.PagesCoverTheWholeScan` | node/src/indexer.rs:275-377 | walked from the start, the pages concatenate to the whole stream, none lost and none repeated |
| `GameScans.ScanPlayerEvents` | node/src/indexer.rs:275-331 | returns the first `limit` canonical events after the cursor |
| `GameScans.ScanGamesByStatus` | node/src/indexer.rs:333-377 | returns the first `limit` canonical games of the bucket after the cursor |
| `GameScans.EventKeysOrderByVersion` | node/src/indexer.rs:266-273 | cursor order is version first, then game id |
| `GameScans.StatusScanIsExact` | node/src/indexer.rs:333-377 | over a run's index, an unlimited scan of a bucket lists exactly the games whose current state maps to it |
| `GameScans.BucketsByState` | node/src/indexer.rs:333-377 | the open bucket lists exactly the games waiting for a joiner, the playing one those being played, the finished one those that ended in any way |
| `GameScans.EventScanIsExact` | node/src/indexer.rs:275-331 | over a run's index, an unlimited scan lists exactly the canonical events of the surviving history |
| `GameScans.RunWellKeyed` | node/src/indexer.rs:321-376 | no run ever writes a key or value on which the scans would panic |
| `Wire.LittleEndianRoundTrip` | guest/src/program/action/encode.rs:28-33 | a number that fits its bytes reads back |
| `Wire.LittleEndianOfBytes` | guest/src/program/action.rs:201-215 | bytes read as a number write back |
| `WireReading.LockPrefixFree` | guest/src/runtime/lock.rs:25-34 | at one place at most one lock can be read |
| `WireReading.ActionPrefixFree` | guest/src/program/action/encode.rs:21-157 | at one place at most one well-formed action can be read |
| `WireReading.SectionsPrefixFree` | guest/src/runtime/ix.rs:1-8 | an instruction carries one list of signers and one list of actions, whatever its tail |
| `Decoder.ReadResourceIdx` | guest/src/runtime/ix.rs:81-94 | accepts exactly an index below the number of resources |
| `Decoder.DecodeLock` | guest/src/runtime/lock.rs:25-34 | an accepted lock re-encodes to the bytes read, and an encoded lock decodes to itself |
| `Decoder.DecodeSigner` | guest/src/runtime/signer.rs:33-57 | likewise for a signer entry of any of the five kinds |
| `Decoder.DecodeMark` | guest/src/program/action.rs:275-280 | the mark byte is accepted iff it is X or O |
| `Decoder.DecodeTurn` | guest/src/program/action.rs:288-298 | a turn is accepted iff its cell is on the board; what is accepted re-encodes to the bytes read |
| `Decoder.DecodeAction` | guest/src/program/action.rs:197-306 | an accepted action re-encodes to the bytes read, and an encoded action decodes to itself, for all ten kinds |
| `Decoder.ReadSigners` | guest/src/runtime/ix.rs:65-74 | the loop accepts a run of signers iff they ascend by resource, repeats allowed |
| `Decoder.DecodeIx` | guest/src/runtime/ix.rs:48-79 | an instruction is accepted iff it starts with two well-formed sections; the result is those sections and the offset right behind them, for any tail |
| `Carriers.U64Stands` | web/src/carriers.ts:65-75 | two 32-bit reads give the 64-bit number that was encoded |
| `Carriers.SkipLock` | web/src/carriers.ts:84-89 | steps over exactly one encoded lock |
| `Carriers.SkipSpk` | web/src/carriers.ts:91-95 | steps over exactly one encoded destination |
| `Carriers.SkipSigner` | web/src/carriers.ts:112-124 | steps over exactly one encoded signer, of any of the five kinds |
| `Carriers.NameAction` | web/src/carriers.ts:126-178 | names the encoded action that stands at the reader and stops behind it, for all ten kinds |
| `Carriers.NamesShowRoles` | web/src/carriers.ts:126-178 | the ids a name shows are those of the resources the action names, each in its own role |
| `Carriers.DecodeLanePayload` | web/src/carriers.ts:97-180 | on every encoded payload the client names the same actions, in order, with the ids their indexes stand for |

## Left out

- Signature checks: whether a lock is satisfied is an oracle per action, slot and lock, and a signer's key or failure is part of its input; the lock matchers that read the gathered buckets are not part of this model.
- SHA-256, lock identity hashes and Merkle hashes are free constructors, so distinct inputs never collide.
- The bodies of witness signers: one input index and three offsets, the thirteen bytes the web client documents; the library that checks them is not part of this model.
- The lock library: which multisig thresholds and keys it accepts is a parameter; the wire tag of the Unlocked lock is taken as 3.
- The smallest exit tree: taken as two slots deep one, as the repository's own examples have it; the depth function itself is in a library that is not part of this model.
- Byte layouts of users, games and configs: resources are typed records. The joiner of an open game is an absent value rather than an all-zero id.
- `Ledger` stores a game as a value: the ring position inside its queues is visible only in `GameBody`.
- The exit sink's own limits and the commitment inside the deposit sink: emission is an oracle, the sink holds the covenant last set.
- The order that an unstable sort gives to equal indexes: `Signers` sorts stably, which matters only for entries with the same index.
- MatchReplay.InterleavingsAgree: leaves out the clock, because `last_move_at` is the time of the last placed mark and differs between interleavings.
- Carriers.DecodeLanePayload: says nothing about payloads that are not encodings; the hexadecimal input is taken as bytes.
- Concurrency of reseeding with running hooks, and the node's storage engine: hooks run one at a time, a batch is an in-order list of writes, a store a map.
- Bounds on `games_started` and `games_finished` in u64: their overflow is an error path, but no supply bound rules it out.
- The sorted access helpers of the encoder: they would only add easy members.
- HTTP handlers, the runner, the settler, the demo chain, storage mass and fees, the user interface, configuration and command lines.
