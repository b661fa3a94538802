/** What each action leaves behind, field by field: whose balance moves and by how much, what is written where, and
    which exits and outputs a whole transaction accounts for. */
module LedgerEffects {
  import opened Prelude
  import opened Rules
  import M = Match
  import opened Resources
  import opened Actions
  import opened GameBody
  import opened Ledger
  import opened LedgerSigners
  import opened LedgerConservation

  /** Nothing changed but at these ids. */
  ghost predicate SameBut(s: Store, s': Store, ids: set<Id>) {
    forall id :: id !in ids ==> Lookup(s', id) == Lookup(s, id)
  }

  /** The user's balance moved by `change`, and nothing else of it. */
  predicate Moved(s: Store, s': Store, id: Id, change: int) {
    && FindUser(s, id).Some? && FindUser(s', id).Some?
    && var u, u' := s[id].user, s'[id].user;
    && u'.balance == u.balance + change
    && u'.started == u.started && u'.finished == u.finished && u'.won == u.won
    && u'.ilh == u.ilh && u'.lock == u.lock
  }

  /** A user was born under this lock, with nothing but this balance. */
  predicate Newborn(s: Store, s': Store, id: Id, lock: Lock, balance: nat) {
    && id !in s && FindUser(s', id).Some?
    && var u := s'[id].user;
    && u.balance == balance && u.started == u.finished == u.won == 0
    && u.ilh == LockHash(lock) && u.lock == lock && id == UserId(LockHash(lock))
  }

  predicate Emits(s: TxState, s': TxState, exits: seq<Exit>, consumed: seq<u32>) {
    s'.exits == s.exits + exits && s'.consumed == s.consumed + consumed
  }

  // ---------- money ----------

  lemma TransferEffect(tx: Tx, k: nat, s: TxState, a: Action)
    requires DistinctIds(tx.access) && Admitted(a, |tx.access|) && a.Transfer? && ApplyAction(tx, k, s, a).Some?
    ensures Indexes(a)[0] < |tx.access| && Indexes(a)[1] < |tx.access|
    ensures var s', src, dst := ApplyAction(tx, k, s, a).value, IdAt(tx, a.sourceIdx), IdAt(tx, a.destIdx);
      && src != dst && SameBut(s.store, s'.store, {src, dst}) && Emits(s, s', [], [])
      && Moved(s.store, s'.store, src, 0 - a.amount)
      && (if dst in s.store then Moved(s.store, s'.store, dst, a.amount)
          else a.destInit.Some? && a.amount >= 1000 && Newborn(s.store, s'.store, dst, a.destInit.value, a.amount))
  {
    var ix := Indexes(a);
    assert ix[0] < |tx.access| && ix[1] < |tx.access|;
  }

  lemma DepositEffect(tx: Tx, k: nat, s: TxState, a: Action)
    requires Admitted(a, |tx.access|) && a.Deposit? && ApplyAction(tx, k, s, a).Some?
    ensures Indexes(a)[0] < |tx.access| && Indexes(a)[1] < |tx.access| && a.outputIdx < |tx.outputs|
    ensures var s', id := ApplyAction(tx, k, s, a).value, IdAt(tx, a.userIdx);
      var value := tx.outputs[a.outputIdx].value;
      && SameBut(s.store, s'.store, {id}) && Emits(s, s', [], [a.outputIdx]) && a.outputIdx !in s.consumed
      && (if id in s.store then Moved(s.store, s'.store, id, value) && s.store[id].user.ilh == LockHash(a.lock)
          else value >= 1000 && Newborn(s.store, s'.store, id, a.lock, value))
  {
    var ix := Indexes(a);
    assert ix[0] < |tx.access| && ix[1] < |tx.access|;
  }

  /** A withdrawal sends its amount to its destination, at the user's expense alone. */
  lemma WithdrawEffect(tx: Tx, k: nat, s: TxState, a: Action)
    requires Admitted(a, |tx.access|) && a.Withdraw? && ApplyAction(tx, k, s, a).Some?
    ensures Indexes(a)[0] < |tx.access| && Indexes(a)[1] < |tx.access|
    ensures var s', id := ApplyAction(tx, k, s, a).value, IdAt(tx, a.userIdx);
      && SameBut(s.store, s'.store, {id}) && Moved(s.store, s'.store, id, 0 - a.amount)
      && |s'.exits| == |s.exits| + 1 && s'.exits[..|s.exits|] == s.exits
      && s'.exits[|s.exits|].dest == a.dest && s'.exits[|s.exits|].amount == a.amount
      && s'.consumed == s.consumed && s'.sink == s.sink
  {
    var ix := Indexes(a);
    assert ix[0] < |tx.access| && ix[1] < |tx.access|;
  }

  /** It is accepted iff the user's lock, the config's minimum, the balance, the write gate and the exit sink all
      allow it. */
  lemma WithdrawIsAccepted(tx: Tx, k: nat, s: TxState, a: Action)
    requires Admitted(a, |tx.access|) && a.Withdraw?
    ensures Indexes(a)[0] < |tx.access| && Indexes(a)[1] < |tx.access|
    ensures ApplyAction(tx, k, s, a).Some? <==>
      var u, c := FindUser(s.store, IdAt(tx, a.userIdx)), FindConfig(s.store, IdAt(tx, a.configIdx));
      && u.Some? && c.Some? && tx.unlocks(k, a.userIdx, u.value.lock) && tx.access[a.userIdx].writable
      && c.value.minWithdrawal <= a.amount && a.amount <= u.value.balance
      && tx.emits(s.exits, Exit(a.dest, a.amount))
  {
    var ix := Indexes(a);
    assert ix[0] < |tx.access| && ix[1] < |tx.access|;
  }

  // ---------- locks and config ----------

  /** Rotating a lock needs the lock it replaces, and replaces nothing else. */
  lemma LockEffect(tx: Tx, k: nat, s: TxState, a: Action)
    requires Admitted(a, |tx.access|) && a.UpdateUserLock? && ApplyAction(tx, k, s, a).Some?
    ensures Indexes(a)[0] < |tx.access|
    ensures var s', id := ApplyAction(tx, k, s, a).value, IdAt(tx, a.userIdx);
      && SameBut(s.store, s'.store, {id}) && Emits(s, s', [], [])
      && FindUser(s.store, id).Some? && FindUser(s'.store, id).Some?
      && var u, u' := s.store[id].user, s'.store[id].user;
      && tx.unlocks(k, a.userIdx, u.lock)
      && u'.lock == a.lock && u'.ilh == u.ilh && u'.balance == u.balance
      && u'.started == u.started && u'.finished == u.finished && u'.won == u.won
  {
    var ix := Indexes(a);
    assert ix[0] < |tx.access|;
  }

  /** A config is born by the genesis key at its one address, and later rewritten by its current lock, but for its
      covenant. */
  lemma ConfigEffect(tx: Tx, k: nat, s: TxState, a: Action)
    requires Admitted(a, |tx.access|) && (a.Update? || a.Init?) && ApplyAction(tx, k, s, a).Some?
    ensures Indexes(a)[0] < |tx.access|
    ensures var s', id := ApplyAction(tx, k, s, a).value, IdAt(tx, a.configIdx);
      && SameBut(s.store, s'.store, {id}) && Emits(s, s', [], [])
      && FindConfig(s'.store, id).Some?
      && (var c := s'.store[id].config;
          c.minWithdrawal == a.minWithdrawal && c.turnTtl == a.turnTtl && c.covenant == a.covenant && c.lock == a.lock)
      && (a.Init? ==> id == ConfigId && id !in s.store && tx.unlocks(k, a.configIdx, tx.genesis))
      && (a.Update? ==> FindConfig(s.store, id).Some? && tx.unlocks(k, a.configIdx, s.store[id].config.lock)
                        && s.store[id].config.covenant == a.covenant)
  {
    var ix := Indexes(a);
    assert ix[0] < |tx.access|;
  }

  // ---------- games ----------

  /** The creator puts up its stake for an open game under its next number, with the mark and rounds it asked for. */
  lemma CreateEffect(tx: Tx, k: nat, s: TxState, a: Action)
    requires DistinctIds(tx.access) && Admitted(a, |tx.access|) && a.CreateGame? && ApplyAction(tx, k, s, a).Some?
    ensures Indexes(a)[0] < |tx.access| && Indexes(a)[1] < |tx.access|
    ensures var s', creator, id := ApplyAction(tx, k, s, a).value, IdAt(tx, a.creatorIdx), IdAt(tx, a.gameIdx);
      && SameBut(s.store, s'.store, {creator, id}) && Emits(s, s', [], [])
      && FindUser(s.store, creator).Some? && FindUser(s'.store, creator).Some?
      && id !in s.store && FindGame(s'.store, id).Some?
      && (var u, u' := s.store[creator].user, s'.store[creator].user;
          && tx.unlocks(k, a.creatorIdx, u.lock) && id == GameId(u.ilh, u.started)
          && u'.balance == u.balance - a.stake && u'.started == u.started + 1
          && u'.finished == u.finished && u'.won == u.won && u'.ilh == u.ilh && u'.lock == u.lock)
      && (var g := s'.store[id].game;
          && g.creator == creator && g.joiner == None && g.stake == a.stake && g.play.core.state.Open?
          && g.play.core.roundsTotal == a.rounds && a.rounds >= 1 && g.play.core.creatorMark == a.mark
          && g.play.core.w0 == g.play.core.w1 == g.play.core.draws == 0
          && g.play.core.board == EMPTY_BOARD && g.play.q0 == g.play.q1 == [])
  {
    var ix := Indexes(a);
    assert ix[0] < |tx.access| && ix[1] < |tx.access|;
  }

  /** The joiner puts up the same stake; the game is its own from then on, and its clock starts. */
  lemma JoinEffect(tx: Tx, k: nat, s: TxState, a: Action)
    requires DistinctIds(tx.access) && Admitted(a, |tx.access|) && a.JoinGame? && ApplyAction(tx, k, s, a).Some?
    ensures Indexes(a)[0] < |tx.access| && Indexes(a)[1] < |tx.access|
    ensures var s', joiner, id := ApplyAction(tx, k, s, a).value, IdAt(tx, a.joinerIdx), IdAt(tx, a.gameIdx);
      && SameBut(s.store, s'.store, {joiner, id}) && Emits(s, s', [], [])
      && FindGame(s.store, id).Some? && FindGame(s'.store, id).Some?
      && var g, g' := s.store[id].game, s'.store[id].game;
      && Moved(s.store, s'.store, joiner, 0 - g.stake) && tx.unlocks(k, a.joinerIdx, s.store[joiner].user.lock)
      && joiner != g.creator && g'.creator == g.creator && g'.joiner == Some(joiner) && g'.stake == g.stake
      && g.play.core.state.Open? && g'.play.core == g.play.core.(state := Playing)
      && g'.play.lastMoveAt == tx.now && g'.play.q0 == g.play.q0 && g'.play.q1 == g.play.q1
  {
    var ix := Indexes(a);
    assert ix[0] < |tx.access| && ix[1] < |tx.access|;
  }

  /** A turn is its mover's, under the mover's lock: the creator plays seat 0, the joiner seat 1. */
  lemma TurnEffect(tx: Tx, k: nat, s: TxState, a: Action)
    requires Admitted(a, |tx.access|) && a.Turn? && ApplyAction(tx, k, s, a).Some?
    ensures Indexes(a)[0] < |tx.access| && Indexes(a)[1] < |tx.access|
    ensures var s', mover, id := ApplyAction(tx, k, s, a).value, IdAt(tx, a.userIdx), IdAt(tx, a.gameIdx);
      && FindUser(s.store, mover).Some? && tx.unlocks(k, a.userIdx, s.store[mover].user.lock)
      && FindGame(s.store, id).Some? && FindGame(s'.store, id).Some? && Emits(s, s', [], [])
      && var g, g' := s.store[id].game, s'.store[id].game;
      && g'.creator == g.creator && g'.joiner == g.joiner && g'.stake == g.stake
      && (g.creator == mover || g.joiner == Some(mover))
      && M.PlayTurn(g.play, if g.creator == mover then 0 else 1, a.cell, tx.now) == Ok(g'.play)
  {
    var ix := Indexes(a);
    assert ix[0] < |tx.access| && ix[1] < |tx.access|;
    var id := IdAt(tx, a.gameIdx);
    var played := PlayGame(s.store[id].game, IdAt(tx, a.userIdx), a.cell, tx.now);
    ConcludeTouches(tx, s, id, played.value, id);
  }

  /** A forfeit claim needs nobody's lock, and runs on the time the config allows a turn. */
  lemma TimeoutEffect(tx: Tx, k: nat, s: TxState, a: Action)
    requires Admitted(a, |tx.access|) && a.Timeout? && ApplyAction(tx, k, s, a).Some?
    ensures Indexes(a)[0] < |tx.access| && Indexes(a)[1] < |tx.access|
    ensures var s', id, config := ApplyAction(tx, k, s, a).value, IdAt(tx, a.gameIdx), IdAt(tx, a.configIdx);
      && FindConfig(s.store, config).Some?
      && FindGame(s.store, id).Some? && FindGame(s'.store, id).Some? && Emits(s, s', [], [])
      && var g, g' := s.store[id].game, s'.store[id].game;
      && g'.creator == g.creator && g'.joiner == g.joiner && g'.stake == g.stake
      && M.Forfeit(g.play, s.store[config].config.turnTtl, tx.now) == Ok(g'.play)
  {
    var ix := Indexes(a);
    assert ix[0] < |tx.access| && ix[1] < |tx.access|;
    var id := IdAt(tx, a.gameIdx);
    var ttl := s.store[IdAt(tx, a.configIdx)].config.turnTtl;
    ConcludeTouches(tx, s, id, ForfeitGame(s.store[id].game, ttl, tx.now).value, id);
  }

  // ---------- whole transactions ----------

  /** The destinations and amounts of the withdrawals, in order. */
  function WithdrawalsOf(actions: seq<Action>): seq<Exit> {
    if actions == [] then []
    else (if actions[0].Withdraw? then [Exit(actions[0].dest, actions[0].amount)] else []) + WithdrawalsOf(actions[1..])
  }

  /** The outputs the deposits name, in order. */
  function DepositsOf(actions: seq<Action>): seq<u32> {
    if actions == [] then []
    else (if actions[0].Deposit? then [actions[0].outputIdx] else []) + DepositsOf(actions[1..])
  }

  lemma ActionEmits(tx: Tx, k: nat, s: TxState, a: Action)
    requires Admitted(a, |tx.access|) && ApplyAction(tx, k, s, a).Some?
    ensures Emits(s, ApplyAction(tx, k, s, a).value,
                  if a.Withdraw? then [Exit(a.dest, a.amount)] else [],
                  if a.Deposit? then [a.outputIdx] else [])
  {
    if a.Turn? {
      TurnEffect(tx, k, s, a);
    } else if a.Timeout? {
      TimeoutEffect(tx, k, s, a);
    } else {
      var ix := Indexes(a);
      assert ix[0] < |tx.access| && (|ix| == 2 ==> ix[1] < |tx.access|);
    }
  }

  lemma EmitsTwice(a: TxState, b: TxState, c: TxState, e: seq<Exit>, f: seq<Exit>, i: seq<u32>, j: seq<u32>)
    requires Emits(a, b, e, i) && Emits(b, c, f, j)
    ensures Emits(a, c, e + f, i + j)
  {
    assert (a.exits + e) + f == a.exits + (e + f);
    assert (a.consumed + i) + j == a.consumed + (i + j);
  }

  lemma {:induction false} AllEmit(tx: Tx, k: nat, s: TxState)
    requires k <= |tx.actions| && ApplyAll(tx, k, s).Some?
    ensures Emits(s, ApplyAll(tx, k, s).value, WithdrawalsOf(tx.actions[k..]), DepositsOf(tx.actions[k..]))
    decreases |tx.actions| - k
  {
    if k < |tx.actions| {
      var a, rest := tx.actions[k], tx.actions[k + 1..];
      var s' := ApplyAction(tx, k, s, a).value;
      ActionEmits(tx, k, s, a);
      AllEmit(tx, k + 1, s');
      assert tx.actions[k..] == [a] + rest && ([a] + rest)[1..] == rest;
      EmitsTwice(s, s', ApplyAll(tx, k, s).value,
                 if a.Withdraw? then [Exit(a.dest, a.amount)] else [], WithdrawalsOf(rest),
                 if a.Deposit? then [a.outputIdx] else [], DepositsOf(rest));
    }
  }

  /** An accepted transaction emits exactly what its withdrawals ask for, in order, and consumes exactly the outputs
      its deposits name. */
  lemma TransactionEmits(tx: Tx, l: Ledger)
    requires Execute(tx, Begin(l)).Some?
    ensures Execute(tx, Begin(l)).value.exits == WithdrawalsOf(tx.actions)
    ensures Execute(tx, Begin(l)).value.consumed == DepositsOf(tx.actions)
  {
    ExecuteApplies(tx, Begin(l));
    AllEmit(tx, 0, Begin(l));
    assert tx.actions[0..] == tx.actions;
  }

  // ---------- the covenant ----------

  predicate KeepsCovenant(s: Store, s': Store, id: Id) {
    FindConfig(s, id).Some? ==>
      FindConfig(s', id).Some? && s'[id].config.covenant == s[id].config.covenant
  }

  lemma ConcludeKeepsConfig(tx: Tx, s: TxState, game: Id, played: Result<Game>, id: Id)
    requires FindGame(s.store, game).Some? && Conclude(tx, s, game, played).Some?
    ensures FindConfig(s.store, id).Some? ==>
      FindConfig(Conclude(tx, s, game, played).value.store, id) == FindConfig(s.store, id)
  {
  }

  lemma ActionKeepsCovenant(tx: Tx, k: nat, s: TxState, a: Action, id: Id)
    requires Admitted(a, |tx.access|) && ApplyAction(tx, k, s, a).Some?
    ensures KeepsCovenant(s.store, ApplyAction(tx, k, s, a).value.store, id)
  {
    var ix := Indexes(a);
    assert ix[0] < |tx.access| && (|ix| == 2 ==> ix[1] < |tx.access|);
    if a.Turn? {
      var g := FindGame(s.store, IdAt(tx, a.gameIdx)).value;
      ConcludeKeepsConfig(tx, s, IdAt(tx, a.gameIdx), PlayGame(g, IdAt(tx, a.userIdx), a.cell, tx.now), id);
    } else if a.Timeout? {
      var g := FindGame(s.store, IdAt(tx, a.gameIdx)).value;
      var ttl := FindConfig(s.store, IdAt(tx, a.configIdx)).value.turnTtl;
      ConcludeKeepsConfig(tx, s, IdAt(tx, a.gameIdx), ForfeitGame(g, ttl, tx.now), id);
    }
  }

  lemma {:induction false} AllKeepCovenant(tx: Tx, k: nat, s: TxState, id: Id)
    requires k <= |tx.actions| && ApplyAll(tx, k, s).Some?
    ensures KeepsCovenant(s.store, ApplyAll(tx, k, s).value.store, id)
    decreases |tx.actions| - k
  {
    if k < |tx.actions| {
      ActionKeepsCovenant(tx, k, s, tx.actions[k], id);
      AllKeepCovenant(tx, k + 1, ApplyAction(tx, k, s, tx.actions[k]).value, id);
    }
  }

  /** Once a config is born its covenant never changes, whatever runs after. */
  lemma {:induction false} CovenantIsForever(before: seq<Tx>, after: seq<Tx>, id: Id)
    ensures KeepsCovenant(TransactAll(GENESIS, before).store, TransactAll(GENESIS, before + after).store, id)
    decreases |after|
  {
    if after == [] {
      assert before + after == before;
    } else {
      var init, tx := after[..|after| - 1], after[|after| - 1];
      assert (before + after)[..|before + after| - 1] == before + init;
      CovenantIsForever(before, init, id);
      var l := TransactAll(GENESIS, before + init);
      if DistinctIds(tx.access) && Execute(tx, Begin(l)).Some? {
        ExecuteApplies(tx, Begin(l));
        AllKeepCovenant(tx, 0, Begin(l), id);
      }
    }
  }
}
