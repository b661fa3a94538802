/** Money: conservation over whole runs, payouts that happen once, and no arithmetic failure below
    the supply bound. */
module LedgerConservation {
  import opened Prelude
  import opened Resources
  import opened Actions
  import opened Ledger
  import opened Totals
  import opened LedgerInvariant
  import opened LedgerSigners

  /** What a game holds for its players: one stake while it waits, both while it is played. */
  function Escrow(g: Game): nat {
    match g.play.core.state
    case Open => g.stake
    case Playing => 2 * g.stake
    case _ => 0
  }

  function Worth(r: Resource): int {
    match r
    case ConfigRes(_) => 0
    case UserRes(u) => u.balance
    case GameRes(g) => Escrow(g)
  }

  /** The money in balances and escrow. */
  ghost function Held(s: Store): int {
    Total(s, Worth)
  }

  /** Money held and paid out, less what the transaction's deposits brought in. */
  ghost function Position(tx: Tx, s: TxState): int {
    Held(s.store) + ExitSum(s.exits) - OutputSum(tx.outputs, s.consumed)
  }

  lemma PutUserHeld(s: Store, id: Id, u: User)
    requires id in s ==> s[id].UserRes?
    ensures Held(PutUser(s, id, u)) ==
            Held(s) + u.balance - (if id in s then s[id].user.balance else 0)
  {
    TotalWrite(s, id, UserRes(u), Worth);
  }

  lemma PutGameHeld(s: Store, id: Id, g: Game)
    requires id in s ==> s[id].GameRes?
    ensures Held(PutGame(s, id, g)) ==
            Held(s) + Escrow(g) - (if id in s then Escrow(s[id].game) else 0)
  {
    TotalWrite(s, id, GameRes(g), Worth);
  }

  lemma AppendSums(exits: seq<Exit>, e: Exit, outputs: seq<TxOut>, idxs: seq<u32>, i: u32)
    ensures ExitSum(exits + [e]) == ExitSum(exits) + e.amount
    ensures OutputSum(outputs, idxs + [i]) ==
            OutputSum(outputs, idxs) + (if i < |outputs| then outputs[i].value else 0)
  {
    assert (exits + [e])[..|exits|] == exits;
    assert (idxs + [i])[..|idxs|] == idxs;
  }

  // ---------- each action moves money, none makes or loses it ----------

  lemma TransferConserves(tx: Tx, k: nat, s: TxState, a: Action)
    requires DistinctIds(tx.access) && a.Transfer? && a.sourceIdx < |tx.access| && a.destIdx < |tx.access|
    requires ApplyTransfer(tx, k, s, a).Some?
    ensures Position(tx, ApplyTransfer(tx, k, s, a).value) == Position(tx, s)
  {
    var src, dst := IdAt(tx, a.sourceIdx), IdAt(tx, a.destIdx);
    assert src != dst;
    var s' := ApplyTransfer(tx, k, s, a).value;
    var from := s.store[src].user;
    var debited := PutUser(s.store, src, from.(balance := from.balance - a.amount));
    PutUserHeld(s.store, src, from.(balance := from.balance - a.amount));
    PutUserHeld(debited, dst, s'.store[dst].user);
    assert s'.store == PutUser(debited, dst, s'.store[dst].user);
  }

  /** A deposit writes one user, whose balance grows by the value of the output it consumes. */
  lemma DepositWrites(tx: Tx, k: nat, s: TxState, a: Action)
    requires a.Deposit? && a.userIdx < |tx.access| && a.configIdx < |tx.access|
    requires ApplyDeposit(tx, k, s, a).Some?
    ensures a.outputIdx < |tx.outputs|
    ensures var s' := ApplyDeposit(tx, k, s, a).value;
            var id := IdAt(tx, a.userIdx);
            && (id in s.store ==> s.store[id].UserRes?)
            && FindUser(s'.store, id).Some? && s'.store == PutUser(s.store, id, s'.store[id].user)
            && s'.store[id].user.balance ==
               (if id in s.store then s.store[id].user.balance else 0) + tx.outputs[a.outputIdx].value
            && s'.exits == s.exits && s'.consumed == s.consumed + [a.outputIdx]
  {
  }

  lemma DepositConserves(tx: Tx, k: nat, s: TxState, a: Action)
    requires a.Deposit? && a.userIdx < |tx.access| && a.configIdx < |tx.access|
    requires ApplyDeposit(tx, k, s, a).Some?
    ensures Position(tx, ApplyDeposit(tx, k, s, a).value) == Position(tx, s)
  {
    DepositWrites(tx, k, s, a);
    var id := IdAt(tx, a.userIdx);
    var s' := ApplyDeposit(tx, k, s, a).value;
    PutUserHeld(s.store, id, s'.store[id].user);
    AppendSums([], Exit(ScriptHash([]), 0), tx.outputs, s.consumed, a.outputIdx);
  }

  lemma WithdrawConserves(tx: Tx, k: nat, s: TxState, a: Action)
    requires a.Withdraw? && a.userIdx < |tx.access| && a.configIdx < |tx.access|
    requires ApplyWithdraw(tx, k, s, a).Some?
    ensures Position(tx, ApplyWithdraw(tx, k, s, a).value) == Position(tx, s)
  {
    var id := IdAt(tx, a.userIdx);
    var s' := ApplyWithdraw(tx, k, s, a).value;
    PutUserHeld(s.store, id, s'.store[id].user);
    AppendSums(s.exits, Exit(a.dest, a.amount), [], [], 0);
    assert s'.store == PutUser(s.store, id, s'.store[id].user);
  }

  lemma CreateGameConserves(tx: Tx, k: nat, s: TxState, a: Action)
    requires a.CreateGame? && a.creatorIdx < |tx.access| && a.gameIdx < |tx.access|
    requires ApplyCreateGame(tx, k, s, a).Some?
    ensures Position(tx, ApplyCreateGame(tx, k, s, a).value) == Position(tx, s)
  {
    var creator, id := IdAt(tx, a.creatorIdx), IdAt(tx, a.gameIdx);
    var s' := ApplyCreateGame(tx, k, s, a).value;
    var u := s.store[creator].user;
    var paid := PutUser(s.store, creator, u.(balance := u.balance - a.stake, started := u.started + 1));
    PutUserHeld(s.store, creator, u.(balance := u.balance - a.stake, started := u.started + 1));
    PutGameHeld(paid, id, s'.store[id].game);
    assert s'.store == PutGame(paid, id, s'.store[id].game);
  }

  lemma JoinGameConserves(tx: Tx, k: nat, s: TxState, a: Action)
    requires a.JoinGame? && a.joinerIdx < |tx.access| && a.gameIdx < |tx.access|
    requires ApplyJoinGame(tx, k, s, a).Some?
    ensures Position(tx, ApplyJoinGame(tx, k, s, a).value) == Position(tx, s)
  {
    var joiner, id := IdAt(tx, a.joinerIdx), IdAt(tx, a.gameIdx);
    var s' := ApplyJoinGame(tx, k, s, a).value;
    var u := s.store[joiner].user;
    var paid := u.(balance := u.balance - s.store[id].game.stake);
    PutUserHeld(s.store, joiner, paid);
    PutGameHeld(PutUser(s.store, joiner, paid), id, s'.store[id].game);
    assert s'.store == PutGame(PutUser(s.store, joiner, paid), id, s'.store[id].game);
  }

  lemma PayHeld(tx: Tx, s: Store, player: Id, credit: nat, won: bool)
    requires Pay(tx, s, player, credit, won).Some?
    ensures Held(Pay(tx, s, player, credit, won).value) == Held(s) + credit
  {
    var s' := Pay(tx, s, player, credit, won).value;
    PutUserHeld(s, player, s'[player].user);
    assert s' == PutUser(s, player, s'[player].user);
  }

  /** A settlement pays exactly the pot. */
  lemma SettleHeld(tx: Tx, s: Store, g: Game)
    requires SettleMatch(tx, s, g).Some?
    ensures Held(SettleMatch(tx, s, g).value) == Held(s) + 2 * g.stake
  {
    var first := Pay(tx, s, g.creator, Share(g, 0), WonBySeat(g, 0)).value;
    PayHeld(tx, s, g.creator, Share(g, 0), WonBySeat(g, 0));
    PayHeld(tx, first, g.joiner.value, Share(g, 1), WonBySeat(g, 1));
  }

  /** Whatever an action that ends a match takes out of escrow, it pays out, in the same action. */
  lemma ConcludeConserves(tx: Tx, s: TxState, id: Id, g: Game)
    requires FindGame(s.store, id).Some? && PlayedOn(s.store[id].game, g)
    requires Conclude(tx, s, id, Ok(g)).Some?
    ensures Position(tx, Conclude(tx, s, id, Ok(g)).value) == Position(tx, s)
  {
    PutGameHeld(s.store, id, g);
    if g.play.core.Finished() {
      SettleHeld(tx, PutGame(s.store, id, g), g);
    }
  }

  lemma QuietActionConserves(tx: Tx, k: nat, s: TxState, a: Action)
    requires Sound(s.store) && Admitted(a, |tx.access|) && (a.Update? || a.Init? || a.UpdateUserLock?)
    requires ApplyAction(tx, k, s, a).Some?
    ensures Position(tx, ApplyAction(tx, k, s, a).value) == Position(tx, s)
  {
    assert Indexes(a)[0] < |tx.access|;
    var id := IdAt(tx, Indexes(a)[0]);
    var s' := ApplyAction(tx, k, s, a).value;
    TotalWrite(s.store, id, s'.store[id], Worth);
    assert s'.store == s.store[id := s'.store[id]];
  }

  /** Every accepted action keeps balances + escrow + exits - deposits. */
  lemma ActionConserves(tx: Tx, k: nat, s: TxState, a: Action)
    requires Reachable(s.store) && DistinctIds(tx.access) && Admitted(a, |tx.access|)
    requires ApplyAction(tx, k, s, a).Some?
    ensures Position(tx, ApplyAction(tx, k, s, a).value) == Position(tx, s)
  {
    var ix := Indexes(a);
    assert ix[0] < |tx.access| && (|ix| == 2 ==> ix[1] < |tx.access|);
    if a.Turn? || a.Timeout? {
      PlaysOn(tx, k, s, a);
      var g :| PlayedOn(s.store[IdAt(tx, a.gameIdx)].game, g)
               && ApplyAction(tx, k, s, a) == Conclude(tx, s, IdAt(tx, a.gameIdx), Ok(g));
      ConcludeConserves(tx, s, IdAt(tx, a.gameIdx), g);
    } else if a.Update? || a.Init? || a.UpdateUserLock? {
      QuietActionConserves(tx, k, s, a);
    } else {
      match a
      case Transfer(_, _, _, _) => TransferConserves(tx, k, s, a);
      case Deposit(_, _, _, _) => DepositConserves(tx, k, s, a);
      case Withdraw(_, _, _, _) => WithdrawConserves(tx, k, s, a);
      case CreateGame(_, _, _, _, _) => CreateGameConserves(tx, k, s, a);
      case JoinGame(_, _) => JoinGameConserves(tx, k, s, a);
    }
  }

  lemma {:induction false} AllConserves(tx: Tx, k: nat, s: TxState)
    requires Reachable(s.store) && DistinctIds(tx.access) && k <= |tx.actions|
    requires ApplyAll(tx, k, s).Some?
    ensures Position(tx, ApplyAll(tx, k, s).value) == Position(tx, s)
    decreases |tx.actions| - k
  {
    if k < |tx.actions| {
      ActionConserves(tx, k, s, tx.actions[k]);
      ActionKeeps(tx, k, s, tx.actions[k]);
      AllConserves(tx, k + 1, ApplyAction(tx, k, s, tx.actions[k]).value);
    }
  }

  /** Conservation over whole runs: balances plus escrow plus emitted exits equal the credited
      deposits, after any sequence of transactions, accepted or not. */
  lemma {:induction false} Conservation(txs: seq<Tx>)
    ensures var l := TransactAll(GENESIS, txs);
            Reachable(l.store) && Held(l.store) + l.exited == l.deposited
  {
    RunsAreReachable(txs);
    if txs != [] {
      Conservation(txs[..|txs| - 1]);
      var l := TransactAll(GENESIS, txs[..|txs| - 1]);
      var tx := txs[|txs| - 1];
      if DistinctIds(tx.access) && Execute(tx, Begin(l)).Some? {
        ExecuteApplies(tx, Begin(l));
        AllConserves(tx, 0, Begin(l));
      }
    }
  }

  // ---------- deposits are backed by outputs ----------

  /** The outputs credited so far are distinct outputs of the transaction that pay the deposit
      address of the covenant recorded in the sink. */
  predicate Backed(tx: Tx, s: TxState) {
    && (forall i, j :: 0 <= i < j < |s.consumed| ==> s.consumed[i] != s.consumed[j])
    && (forall i :: 0 <= i < |s.consumed| ==>
          && s.consumed[i] < |tx.outputs| && s.sink.Some?
          && tx.outputs[s.consumed[i]].spkVersion == 0
          && tx.outputs[s.consumed[i]].script == DelegateEntry(s.sink.value))
  }

  lemma ActionKeepsBacking(tx: Tx, k: nat, s: TxState, a: Action)
    requires Backed(tx, s) && Admitted(a, |tx.access|) && ApplyAction(tx, k, s, a).Some?
    ensures Backed(tx, ApplyAction(tx, k, s, a).value)
  {
    var ix := Indexes(a);
    assert ix[0] < |tx.access| && (|ix| == 2 ==> ix[1] < |tx.access|);
    var s' := ApplyAction(tx, k, s, a).value;
    if a.Deposit? {
      assert s'.consumed == s.consumed + [a.outputIdx];
    } else {
      assert s'.consumed == s.consumed && s'.sink == s.sink;
    }
  }

  /** One transaction credits each of its outputs at most once, and only those paying the covenant. */
  lemma {:induction false} DepositsAreBacked(tx: Tx, k: nat, s: TxState)
    requires Backed(tx, s) && k <= |tx.actions| && ApplyAll(tx, k, s).Some?
    ensures Backed(tx, ApplyAll(tx, k, s).value)
    decreases |tx.actions| - k
  {
    if k < |tx.actions| {
      ActionKeepsBacking(tx, k, s, tx.actions[k]);
      DepositsAreBacked(tx, k + 1, ApplyAction(tx, k, s, tx.actions[k]).value);
    }
  }

  // ---------- payouts happen once ----------

  /** A finished game never changes again, and escrow only ever leaves a game in the action that
      finishes it. */
  lemma EscrowLeavesOnce(tx: Tx, k: nat, s: TxState, a: Action, id: Id)
    requires Reachable(s.store) && DistinctIds(tx.access) && Admitted(a, |tx.access|)
    requires ApplyAction(tx, k, s, a).Some? && FindGame(s.store, id).Some?
    ensures FindGame(ApplyAction(tx, k, s, a).value.store, id).Some?
    ensures var g, g' := s.store[id].game, ApplyAction(tx, k, s, a).value.store[id].game;
            && (g.play.core.Finished() ==> g' == g)
            && (Escrow(g') < Escrow(g) ==> g.play.core.state.Playing? && g'.play.core.Finished())
  {
    if a.Turn? || a.Timeout? {
      PlaysOn(tx, k, s, a);
      var g :| PlayedOn(s.store[IdAt(tx, a.gameIdx)].game, g)
               && ApplyAction(tx, k, s, a) == Conclude(tx, s, IdAt(tx, a.gameIdx), Ok(g));
      ConcludeTouches(tx, s, IdAt(tx, a.gameIdx), g, id);
    } else if a.JoinGame? {
      JoinTouches(tx, k, s, a, id);
    } else {
      OthersKeepGames(tx, k, s, a, id);
    }
  }

  lemma JoinTouches(tx: Tx, k: nat, s: TxState, a: Action, id: Id)
    requires a.JoinGame? && Admitted(a, |tx.access|) && ApplyAction(tx, k, s, a).Some?
    requires FindGame(s.store, id).Some?
    ensures FindGame(ApplyAction(tx, k, s, a).value.store, id).Some?
    ensures var g, g' := s.store[id].game, ApplyAction(tx, k, s, a).value.store[id].game;
            g' == g || (g.play.core.state.Open? && g'.play.core.state.Playing? && g'.stake == g.stake)
  {
    assert Indexes(a)[0] < |tx.access| && Indexes(a)[1] < |tx.access|;
  }

  /** The remaining actions write users, the config, or a fresh slot. */
  lemma OthersKeepGames(tx: Tx, k: nat, s: TxState, a: Action, id: Id)
    requires Sound(s.store) && Admitted(a, |tx.access|) && ApplyAction(tx, k, s, a).Some?
    requires !a.Turn? && !a.Timeout? && !a.JoinGame? && FindGame(s.store, id).Some?
    ensures FindGame(ApplyAction(tx, k, s, a).value.store, id) == FindGame(s.store, id)
  {
    var ix := Indexes(a);
    assert ix[0] < |tx.access| && (|ix| == 2 ==> ix[1] < |tx.access|);
    assert Placed(s.store, id);
    if a.Deposit? {
      DepositWrites(tx, k, s, a);
    }
  }

  /** Settlement writes users only, so a conclusion changes no game but its own. */
  lemma ConcludeTouches(tx: Tx, s: TxState, played: Id, g: Game, id: Id)
    requires FindGame(s.store, played).Some? && FindGame(s.store, id).Some?
    requires Conclude(tx, s, played, Ok(g)).Some?
    ensures FindGame(Conclude(tx, s, played, Ok(g)).value.store, id)
         == Some(if id == played then g else s.store[id].game)
  {
  }

  lemma {:induction false} FinishedThroughTx(tx: Tx, k: nat, s: TxState, id: Id)
    requires Reachable(s.store) && DistinctIds(tx.access) && k <= |tx.actions|
    requires ApplyAll(tx, k, s).Some?
    requires FindGame(s.store, id).Some? && s.store[id].game.play.core.Finished()
    ensures FindGame(ApplyAll(tx, k, s).value.store, id) == FindGame(s.store, id)
    decreases |tx.actions| - k
  {
    if k < |tx.actions| {
      EscrowLeavesOnce(tx, k, s, tx.actions[k], id);
      ActionKeeps(tx, k, s, tx.actions[k]);
      FinishedThroughTx(tx, k + 1, ApplyAction(tx, k, s, tx.actions[k]).value, id);
    }
  }

  /** Once a match has finished, and so has been paid, no later run changes it. */
  lemma {:induction false} FinishedForever(before: seq<Tx>, after: seq<Tx>, id: Id)
    requires var g := FindGame(TransactAll(GENESIS, before).store, id);
             g.Some? && g.value.play.core.Finished()
    ensures FindGame(TransactAll(GENESIS, before + after).store, id)
         == FindGame(TransactAll(GENESIS, before).store, id)
    decreases |after|
  {
    if after == [] {
      assert before + after == before;
    } else {
      var init := after[..|after| - 1];
      var tx := after[|after| - 1];
      assert (before + after)[..|before + after| - 1] == before + init;
      FinishedForever(before, init, id);
      RunsAreReachable(before + init);
      var l := TransactAll(GENESIS, before + init);
      if DistinctIds(tx.access) && Execute(tx, Begin(l)).Some? {
        ExecuteApplies(tx, Begin(l));
        FinishedThroughTx(tx, 0, Begin(l), id);
      }
    }
  }

  // ---------- no arithmetic failure under the supply bound ----------

  lemma WorthNonNegative(s: Store)
    ensures forall id :: id in s ==> 0 <= Worth(s[id])
  {
  }

  /** With the money held below 2^64, the pot and every credit that settlement or transfer adds to
      another account fits. */
  lemma CreditsFit(s: Store, payer: Id, payee: Id)
    requires Held(s) < U64_LIMIT && payer in s && IsUser(s, payee) && payer != payee
    ensures s[payee].user.balance + Worth(s[payer]) < U64_LIMIT
  {
    WorthNonNegative(s);
    TotalCoversTwo(s, payer, payee, Worth);
  }

  /** In a run whose deposits fit in u64, the overflow checks of settlement never fire: the pot fits,
      and so does the pot on top of any balance. */
  lemma SettlementNeverOverflows(txs: seq<Tx>, game: Id, user: Id)
    requires var l := TransactAll(GENESIS, txs);
             && l.deposited < U64_LIMIT
             && FindGame(l.store, game).Some? && l.store[game].game.play.core.state.Playing?
             && IsUser(l.store, user)
    ensures var l := TransactAll(GENESIS, txs);
            && 2 * l.store[game].game.stake < U64_LIMIT
            && l.store[user].user.balance + 2 * l.store[game].game.stake < U64_LIMIT
  {
    Conservation(txs);
    CreditsFit(TransactAll(GENESIS, txs).store, game, user);
  }

  /** The same inside a transaction: at every point of an accepted prefix, a playing game's pot on
      top of any balance, and any transfer between two users, fits in u64. */
  lemma NoOverflowMidTransaction(txs: seq<Tx>, tx: Tx, k: nat, s: TxState, payer: Id, payee: Id)
    requires DistinctIds(tx.access) && k <= |tx.actions|
    requires StateBefore(tx, k, Begin(TransactAll(GENESIS, txs))) == Some(s)
    requires TransactAll(GENESIS, txs).deposited + OutputSum(tx.outputs, s.consumed) < U64_LIMIT
    requires payer in s.store && IsUser(s.store, payee) && payer != payee
    ensures s.store[payee].user.balance + Worth(s.store[payer]) < U64_LIMIT
  {
    var l := TransactAll(GENESIS, txs);
    Conservation(txs);
    PrefixConserves(tx, k, l);
    CreditsFit(s.store, payer, payee);
  }

  /** And any output the transaction still credits fits on top of any balance. */
  lemma DepositFitsMidTransaction(txs: seq<Tx>, tx: Tx, k: nat, s: TxState, user: Id, value: u64)
    requires DistinctIds(tx.access) && k <= |tx.actions|
    requires StateBefore(tx, k, Begin(TransactAll(GENESIS, txs))) == Some(s)
    requires TransactAll(GENESIS, txs).deposited + OutputSum(tx.outputs, s.consumed) + value < U64_LIMIT
    requires IsUser(s.store, user)
    ensures s.store[user].user.balance + value < U64_LIMIT
  {
    var l := TransactAll(GENESIS, txs);
    Conservation(txs);
    PrefixConserves(tx, k, l);
    WorthNonNegative(s.store);
    TotalCovers(s.store, user, Worth);
  }

  lemma {:induction false} PrefixConserves(tx: Tx, k: nat, l: Ledger)
    requires Reachable(l.store) && DistinctIds(tx.access) && k <= |tx.actions|
    requires StateBefore(tx, k, Begin(l)).Some?
    ensures Reachable(StateBefore(tx, k, Begin(l)).value.store)
    ensures Position(tx, StateBefore(tx, k, Begin(l)).value) == Held(l.store)
  {
    if k == 0 {
      assert Position(tx, Begin(l)) == Held(l.store);
    } else {
      PrefixConserves(tx, k - 1, l);
      var s := StateBefore(tx, k - 1, Begin(l)).value;
      ActionConserves(tx, k - 1, s, tx.actions[k - 1]);
      ActionKeeps(tx, k - 1, s, tx.actions[k - 1]);
      assert StateBefore(tx, k, Begin(l)) == ApplyAction(tx, k - 1, s, tx.actions[k - 1]);
    }
  }
}
