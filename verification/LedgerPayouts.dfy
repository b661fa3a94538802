/** Who is paid by a match, how much, and how often. */
module LedgerPayouts {
  import opened Prelude
  import opened Resources
  import opened Actions
  import opened Ledger
  import opened LedgerInvariant
  import opened LedgerSigners
  import opened LedgerConservation

  /** A user's balance; nothing for an id that is no user. */
  function BalanceOf(s: Store, user: Id): nat {
    if IsUser(s, user) then s[user].user.balance else 0
  }

  predicate Ended(s: Store, id: Id) {
    FindGame(s, id).Some? && s[id].game.play.core.Finished()
  }

  /** What an ended match owes: both stakes to its winner, on a draw each player its own, nothing to anybody else. */
  function Prize(g: Game, user: Id): nat {
    if Won(g, user) then 2 * g.stake
    else if g.play.core.state.Draw? && Sits(g, user) then g.stake
    else 0
  }

  lemma SettledPlayersAreUsers(tx: Tx, s: Store, g: Game, user: Id)
    requires SettleMatch(tx, s, g).Some? && g.joiner.value != g.creator && Sits(g, user)
    ensures IsUser(s, user)
  {
  }

  lemma ConcludePays(tx: Tx, s: TxState, id: Id, g: Game, user: Id)
    requires Reachable(s.store) && FindGame(s.store, id).Some? && PlayedOn(s.store[id].game, g)
    requires g.play.core.Finished() && Conclude(tx, s, id, Ok(g)).Some?
    ensures BalanceOf(Conclude(tx, s, id, Ok(g)).value.store, user) == BalanceOf(s.store, user) + Prize(g, user)
  {
    assert Placed(s.store, id);
    var store := PutGame(s.store, id, g);
    SettleEffect(tx, store, g, user);
    if Sits(g, user) {
      SettledPlayersAreUsers(tx, store, g, user);
    }
  }

  /** No action puts an ended game where there was none: settlement writes users, and a created game is open. */
  lemma NewGamesAreOpen(tx: Tx, k: nat, s: TxState, a: Action, id: Id)
    requires Sound(s.store) && Admitted(a, |tx.access|) && ApplyAction(tx, k, s, a).Some?
    requires !a.Turn? && !a.Timeout? && FindGame(s.store, id).None?
    ensures !Ended(ApplyAction(tx, k, s, a).value.store, id)
  {
    var ix := Indexes(a);
    assert ix[0] < |tx.access| && (|ix| == 2 ==> ix[1] < |tx.access|);
    if a.Deposit? {
      DepositWrites(tx, k, s, a);
    }
  }

  lemma ConcludeAddsNoGame(tx: Tx, s: TxState, played: Id, g: Game, id: Id)
    requires FindGame(s.store, played).Some? && FindGame(s.store, id).None? && Conclude(tx, s, played, Ok(g)).Some?
    ensures FindGame(Conclude(tx, s, played, Ok(g)).value.store, id).None?
  {
  }

  /** Only a turn in a game, or a claim on it, ends it. */
  lemma EndsByPlay(tx: Tx, k: nat, s: TxState, a: Action, id: Id)
    requires Reachable(s.store) && DistinctIds(tx.access) && Admitted(a, |tx.access|)
    requires ApplyAction(tx, k, s, a).Some?
    requires !Ended(s.store, id) && Ended(ApplyAction(tx, k, s, a).value.store, id)
    ensures (a.Turn? || a.Timeout?) && a.gameIdx < |tx.access| && IdAt(tx, a.gameIdx) == id
  {
    if a.Turn? || a.Timeout? {
      PlaysOn(tx, k, s, a);
      var played := IdAt(tx, a.gameIdx);
      var g :| PlayedOn(s.store[played].game, g) && ApplyAction(tx, k, s, a) == Conclude(tx, s, played, Ok(g));
      if FindGame(s.store, id).Some? {
        ConcludeTouches(tx, s, played, g, id);
      } else {
        ConcludeAddsNoGame(tx, s, played, g, id);
      }
    } else if FindGame(s.store, id).None? {
      NewGamesAreOpen(tx, k, s, a, id);
    } else if a.JoinGame? {
      JoinTouches(tx, k, s, a, id);
    } else {
      OthersKeepGames(tx, k, s, a, id);
    }
  }

  /** The action that ends a match moves every balance by exactly what the match owes. */
  lemma PayoutIsExact(tx: Tx, k: nat, s: TxState, a: Action, id: Id, user: Id)
    requires Reachable(s.store) && DistinctIds(tx.access) && Admitted(a, |tx.access|)
    requires ApplyAction(tx, k, s, a).Some?
    requires !Ended(s.store, id) && Ended(ApplyAction(tx, k, s, a).value.store, id)
    ensures var s' := ApplyAction(tx, k, s, a).value;
      BalanceOf(s'.store, user) == BalanceOf(s.store, user) + Prize(s'.store[id].game, user)
  {
    EndsByPlay(tx, k, s, a, id);
    PlaysOn(tx, k, s, a);
    var g :| PlayedOn(s.store[id].game, g) && ApplyAction(tx, k, s, a) == Conclude(tx, s, id, Ok(g));
    ConcludeTouches(tx, s, id, g, id);
    ConcludePays(tx, s, id, g, user);
  }

  // ---------- over whole runs ----------

  /** What `user` receives in an action that ends the match of `id`; nothing is listed for other actions. */
  function ActionPayout(before: Store, after: Store, id: Id, user: Id): seq<int> {
    if !Ended(before, id) && Ended(after, id) then [BalanceOf(after, user) - BalanceOf(before, user)] else []
  }

  /** The payouts of a transaction's actions from position `k` on. */
  function TxPayouts(tx: Tx, k: nat, s: TxState, id: Id, user: Id): seq<int>
    requires k <= |tx.actions|
    decreases |tx.actions| - k
  {
    if k == |tx.actions| || !Admitted(tx.actions[k], |tx.access|) then []
    else
      match ApplyAction(tx, k, s, tx.actions[k])
      case None => []
      case Some(s') => ActionPayout(s.store, s'.store, id, user) + TxPayouts(tx, k + 1, s', id, user)
  }

  /** The payouts of a run's accepted transactions. */
  function RunPayouts(txs: seq<Tx>, id: Id, user: Id): seq<int> {
    if txs == [] then []
    else
      var init, tx := txs[..|txs| - 1], txs[|txs| - 1];
      var l := TransactAll(GENESIS, init);
      RunPayouts(init, id, user)
      + (if DistinctIds(tx.access) && Execute(tx, Begin(l)).Some? then TxPayouts(tx, 0, Begin(l), id, user) else [])
  }

  /** What has to have been paid of a match. */
  function Due(s: Store, id: Id, user: Id): seq<int> {
    if Ended(s, id) then [Prize(s[id].game, user)] else []
  }

  lemma ActionPays(tx: Tx, k: nat, s: TxState, a: Action, id: Id, user: Id)
    requires Reachable(s.store) && DistinctIds(tx.access) && Admitted(a, |tx.access|)
    requires ApplyAction(tx, k, s, a).Some?
    ensures var s' := ApplyAction(tx, k, s, a).value;
      Due(s.store, id, user) + ActionPayout(s.store, s'.store, id, user) == Due(s'.store, id, user)
  {
    if Ended(s.store, id) {
      EscrowLeavesOnce(tx, k, s, a, id);
    } else if Ended(ApplyAction(tx, k, s, a).value.store, id) {
      PayoutIsExact(tx, k, s, a, id, user);
    }
  }

  lemma Regroup(a: seq<int>, b: seq<int>, c: seq<int>)
    ensures (a + b) + c == a + (b + c)
  {
  }

  lemma {:induction false} TxPays(tx: Tx, k: nat, s: TxState, id: Id, user: Id)
    requires Reachable(s.store) && DistinctIds(tx.access) && k <= |tx.actions|
    requires ApplyAll(tx, k, s).Some?
    ensures Due(s.store, id, user) + TxPayouts(tx, k, s, id, user) == Due(ApplyAll(tx, k, s).value.store, id, user)
    decreases |tx.actions| - k
  {
    if k < |tx.actions| {
      var s' := ApplyAction(tx, k, s, tx.actions[k]).value;
      ActionKeeps(tx, k, s, tx.actions[k]);
      ActionPays(tx, k, s, tx.actions[k], id, user);
      TxPays(tx, k + 1, s', id, user);
      Regroup(Due(s.store, id, user), ActionPayout(s.store, s'.store, id, user), TxPayouts(tx, k + 1, s', id, user));
    }
  }

  /** Every match pays each player its prize exactly once over any run, in the action that ends it, and pays
      nothing before and nothing after. */
  lemma {:induction false} EachMatchPaysOnce(txs: seq<Tx>, id: Id, user: Id)
    ensures var s := TransactAll(GENESIS, txs).store;
      RunPayouts(txs, id, user) == if Ended(s, id) then [Prize(s[id].game, user) as int] else []
  {
    if txs != [] {
      var init, tx := txs[..|txs| - 1], txs[|txs| - 1];
      EachMatchPaysOnce(init, id, user);
      RunsAreReachable(init);
      var l := TransactAll(GENESIS, init);
      if DistinctIds(tx.access) && Execute(tx, Begin(l)).Some? {
        ExecuteApplies(tx, Begin(l));
        TxPays(tx, 0, Begin(l), id, user);
      }
    }
  }
}
