/** Who may touch what: an action changes only resources the transaction declares, spends only with
    the owner's lock, and never removes a resource. */
module LedgerAccess {
  import opened Prelude
  import opened Resources
  import opened Actions
  import opened GameBody
  import opened Ledger
  import opened Wire

  predicate Attached(tx: Tx, id: Id) {
    Access(id, true) in tx.access || Access(id, false) in tx.access
  }

  lemma SettleWritesAttached(tx: Tx, s: Store, g: Game, id: Id)
    requires SettleMatch(tx, s, g).Some?
    ensures Lookup(SettleMatch(tx, s, g).value, id) != Lookup(s, id) ==> Access(id, true) in tx.access
    ensures id in s ==> id in SettleMatch(tx, s, g).value
  {
  }

  lemma ConcludeWritesAttached(tx: Tx, s: TxState, game: u8, played: Result<Game>, id: Id)
    requires game < |tx.access| && tx.access[game].writable
    requires Conclude(tx, s, IdAt(tx, game), played).Some?
    ensures var s' := Conclude(tx, s, IdAt(tx, game), played).value;
            && (Lookup(s'.store, id) != Lookup(s.store, id) ==> Access(id, true) in tx.access)
            && (id in s.store ==> id in s'.store)
  {
    assert tx.access[game] == Access(IdAt(tx, game), true);
    var store := PutGame(s.store, IdAt(tx, game), played.value);
    if played.value.play.core.Finished() {
      SettleWritesAttached(tx, store, played.value, id);
    }
  }

  /** Every change but a config rewrite is to a resource the transaction declared writable; nothing
      is ever removed. */
  lemma WritesAreDeclared(tx: Tx, k: nat, s: TxState, a: Action, id: Id)
    requires Admitted(a, |tx.access|) && ApplyAction(tx, k, s, a).Some?
    ensures var s' := ApplyAction(tx, k, s, a).value;
            && (Lookup(s'.store, id) != Lookup(s.store, id) ==>
                  Access(id, true) in tx.access
                  || ((a.Update? || a.Init?) && a.configIdx < |tx.access| && id == IdAt(tx, a.configIdx)))
            && (id in s.store ==> id in s'.store)
  {
    var ix := Indexes(a);
    assert ix[0] < |tx.access| && (|ix| == 2 ==> ix[1] < |tx.access|);
    if a.Turn? {
      var g := FindGame(s.store, IdAt(tx, a.gameIdx)).value;
      ConcludeWritesAttached(tx, s, a.gameIdx, PlayGame(g, IdAt(tx, a.userIdx), a.cell, tx.now), id);
    } else if a.Timeout? {
      var g := FindGame(s.store, IdAt(tx, a.gameIdx)).value;
      var ttl := FindConfig(s.store, IdAt(tx, a.configIdx)).value.turnTtl;
      ConcludeWritesAttached(tx, s, a.gameIdx, ForfeitGame(g, ttl, tx.now), id);
    } else {
      assert forall i :: 0 <= i < |tx.access| && tx.access[i].writable ==>
          tx.access[i] == Access(tx.access[i].id, true);
    }
  }

  lemma OnlyAttachedChange(tx: Tx, k: nat, s: TxState, a: Action, id: Id)
    requires Admitted(a, |tx.access|) && ApplyAction(tx, k, s, a).Some? && !Attached(tx, id)
    ensures Lookup(ApplyAction(tx, k, s, a).value.store, id) == Lookup(s.store, id)
  {
    WritesAreDeclared(tx, k, s, a, id);
    if (a.Update? || a.Init?) && a.configIdx < |tx.access| {
      assert tx.access[a.configIdx] in tx.access;
    }
  }

  /** Every resource the action changed was declared writable. */
  ghost predicate GateHeld(tx: Tx, s: Store, s': Store) {
    forall id :: Lookup(s', id) != Lookup(s, id) ==> Access(id, true) in tx.access
  }

  /** The configuration an Update or Init writes. */
  function NewConfig(a: Action): Config
    requires a.Update? || a.Init?
  {
    Config(a.minWithdrawal, a.turnTtl, a.covenant, a.lock)
  }

  /** The gate is passed by exactly one kind of write: an Update or Init that changes the config through a
      slot not declared writable. */
  lemma WriteGateIsExact(tx: Tx, k: nat, s: TxState, a: Action)
    requires DistinctIds(tx.access) && Admitted(a, |tx.access|) && ApplyAction(tx, k, s, a).Some?
    ensures (a.Update? || a.Init?) ==> a.configIdx < |tx.access|
    ensures GateHeld(tx, s.store, ApplyAction(tx, k, s, a).value.store) <==>
            !((a.Update? || a.Init?) && !Writable(tx, a.configIdx)
              && Lookup(s.store, IdAt(tx, a.configIdx)) != Some(ConfigRes(NewConfig(a))))
  {
    var ix := Indexes(a);
    assert ix[0] < |tx.access|;
    var s' := ApplyAction(tx, k, s, a).value;
    forall id ensures Lookup(s'.store, id) != Lookup(s.store, id) ==>
                      Access(id, true) in tx.access
                      || ((a.Update? || a.Init?) && id == IdAt(tx, a.configIdx))
    {
      WritesAreDeclared(tx, k, s, a, id);
    }
    if a.Update? || a.Init? {
      ConfigWrite(tx, k, s, a);
      DeclaredOnce(tx, a.configIdx);
    }
  }

  lemma ConfigWrite(tx: Tx, k: nat, s: TxState, a: Action)
    requires (a.Update? || a.Init?) && a.configIdx < |tx.access| && ApplyAction(tx, k, s, a).Some?
    ensures ApplyAction(tx, k, s, a).value.store == s.store[IdAt(tx, a.configIdx) := ConfigRes(NewConfig(a))]
  {
  }

  /** With distinct ids, a slot's resource is declared writable iff the slot is. */
  lemma DeclaredOnce(tx: Tx, i: u8)
    requires DistinctIds(tx.access) && i < |tx.access|
    ensures Access(IdAt(tx, i), true) in tx.access <==> Writable(tx, i)
  {
    if Access(IdAt(tx, i), true) in tx.access {
      var j :| 0 <= j < |tx.access| && tx.access[j] == Access(IdAt(tx, i), true);
      assert tx.access[j].id == tx.access[i].id;
    } else {
      assert tx.access[i] in tx.access;
    }
  }

  /** Such a write exists: an authorized Update, as the decoder delivers it, rewrites a config declared
      read-only. */
  lemma ConfigUpdateSkipsTheWriteGate(tx: Tx, s: TxState, covenant: Bytes, rules: MultisigRules)
    requires |covenant| == 32 && tx.access == [Access(ConfigId, false)] && tx.unlocks(0, 0, Unlocked)
    requires s.store == map[ConfigId := ConfigRes(Config(1, 1, covenant, Unlocked))]
    ensures var a := Update(0, 2, 1, covenant, Unlocked);
            && WfAction(a, 1, rules)
            && ApplyAction(tx, 0, s, a).Some?
            && !GateHeld(tx, s.store, ApplyAction(tx, 0, s, a).value.store)
  {
    var a := Update(0, 2, 1, covenant, Unlocked);
    WriteGateIsExact(tx, 0, s, a);
  }

  /** The current lock of `id` is satisfied on some slot that holds it. */
  predicate OwnerSigned(tx: Tx, k: nat, s: Store, id: Id) {
    FindUser(s, id).Some? &&
    exists i: u8 :: i < |tx.access| && tx.access[i].id == id && tx.unlocks(k, i, FindUser(s, id).value.lock)
  }

  /** The slot whose owner an action needs, for the actions that spend or rotate a lock. */
  function SpenderIdx(a: Action): Option<u8> {
    match a
    case Transfer(i, _, _, _) => Some(i)
    case UpdateUserLock(i, _) => Some(i)
    case Withdraw(i, _, _, _) => Some(i)
    case CreateGame(i, _, _, _, _) => Some(i)
    case JoinGame(_, i) => Some(i)
    case _ => None
  }

  /** What an action may do to a user it does not spend from: only credit it. */
  predicate OnlyCredited(s: Store, s': Store, id: Id) {
    && FindUser(s, id).Some? && FindUser(s', id).Some?
    && s[id].user.balance <= s'[id].user.balance
    && s'[id].user.lock == s[id].user.lock && s'[id].user.ilh == s[id].user.ilh
  }

  lemma SpenderSigned(tx: Tx, k: nat, s: TxState, a: Action)
    requires Admitted(a, |tx.access|) && ApplyAction(tx, k, s, a).Some? && SpenderIdx(a).Some?
    ensures SpenderIdx(a).value < |tx.access|
    ensures OwnerSigned(tx, k, s.store, IdAt(tx, SpenderIdx(a).value))
  {
    var ix := Indexes(a);
    assert ix[0] < |tx.access| && (|ix| == 2 ==> ix[1] < |tx.access|);
    var i := SpenderIdx(a).value;
    assert Authorized(tx, k, s.store, i).Some?;
    assert tx.access[i].id == IdAt(tx, i) && tx.unlocks(k, i, FindUser(s.store, IdAt(tx, i)).value.lock);
  }

  lemma ConcludeOnlyCredits(tx: Tx, s: TxState, game: Id, played: Result<Game>, id: Id)
    requires FindGame(s.store, game).Some? && FindUser(s.store, id).Some?
    requires Conclude(tx, s, game, played).Some?
    ensures OnlyCredited(s.store, Conclude(tx, s, game, played).value.store, id)
  {
  }

  lemma OthersOnlyCredited(tx: Tx, k: nat, s: TxState, a: Action, id: Id)
    requires DistinctIds(tx.access) && Admitted(a, |tx.access|) && ApplyAction(tx, k, s, a).Some?
    requires FindUser(s.store, id).Some?
    requires SpenderIdx(a).Some? && SpenderIdx(a).value < |tx.access| ==> id != IdAt(tx, SpenderIdx(a).value)
    ensures OnlyCredited(s.store, ApplyAction(tx, k, s, a).value.store, id)
  {
    var ix := Indexes(a);
    assert ix[0] < |tx.access| && (|ix| == 2 ==> ix[1] < |tx.access|);
    if a.Turn? {
      var g := FindGame(s.store, IdAt(tx, a.gameIdx)).value;
      ConcludeOnlyCredits(tx, s, IdAt(tx, a.gameIdx), PlayGame(g, IdAt(tx, a.userIdx), a.cell, tx.now), id);
    } else if a.Timeout? {
      var g := FindGame(s.store, IdAt(tx, a.gameIdx)).value;
      var ttl := FindConfig(s.store, IdAt(tx, a.configIdx)).value.turnTtl;
      ConcludeOnlyCredits(tx, s, IdAt(tx, a.gameIdx), ForfeitGame(g, ttl, tx.now), id);
    }
  }

  /** A user loses balance, or has its lock replaced, only in an action its current lock
      authorizes; every other accepted action can only credit it. */
  lemma SpendingNeedsTheLock(tx: Tx, k: nat, s: TxState, a: Action, id: Id)
    requires DistinctIds(tx.access) && Admitted(a, |tx.access|) && ApplyAction(tx, k, s, a).Some?
    requires FindUser(s.store, id).Some?
    ensures OnlyCredited(s.store, ApplyAction(tx, k, s, a).value.store, id) || OwnerSigned(tx, k, s.store, id)
  {
    if SpenderIdx(a).Some? {
      SpenderSigned(tx, k, s, a);
      if id != IdAt(tx, SpenderIdx(a).value) {
        OthersOnlyCredited(tx, k, s, a, id);
      }
    } else {
      OthersOnlyCredited(tx, k, s, a, id);
    }
  }
}
