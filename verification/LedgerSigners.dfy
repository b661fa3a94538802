/** What the signers ask of a transaction beside its actions. They never change what the actions do; they only
    decide, signer by signer, whether the transaction is accepted. */
module LedgerSigners {
  import opened Prelude
  import opened Actions
  import opened Ledger
  import S = Signers
  import SP = SignerPromise

  /** A slot bears a lock iff it holds a user or the config. */
  lemma LiveIsUserOrConfig(tx: Tx, s: Store, idx: u8)
    ensures LiveIn(tx, s)(idx) <==>
            idx < |tx.access| && (FindUser(s, tx.access[idx].id).Some? || FindConfig(s, tx.access[idx].id).Some?)
  {
  }

  /** One signer of a round: resolved in it, or left for a later one. */
  lemma RoundSettles(waiting: seq<S.Attempt>, live: S.Live, later: u8 -> bool)
    ensures && S.Resolves(S.Ready(waiting, live))
            && (forall x <- S.Waiting(waiting, live) :: x.unlocker.Ok? && later(x.resourceIdx))
       <==> forall x <- waiting :: x.unlocker.Ok? && (S.Waits(x, live) ==> later(x.resourceIdx))
  {
    S.FilterMembers(waiting, live);
    var ready := S.Ready(waiting, live);
    if S.Resolves(ready) {
      forall x <- ready ensures x.unlocker.Ok? {
        var i :| 0 <= i < |ready| && ready[i] == x;
      }
    }
  }

  /** Every waiting signer resolves, in time. */
  predicate AllInTime(tx: Tx, k: nat, s: TxState, waiting: seq<S.Attempt>)
    requires k <= |tx.actions|
  {
    forall x <- waiting :: x.unlocker.Ok? && BornInTime(tx, k, s, x.resourceIdx)
  }

  lemma OneRoundInTime(tx: Tx, k: nat, s: TxState, waiting: seq<S.Attempt>)
    requires k < |tx.actions| && Admitted(tx.actions[k], |tx.access|) && ApplyAction(tx, k, s, tx.actions[k]).Some?
    requires forall x <- waiting :: S.Gated(x.kind)
    ensures var live := LiveIn(tx, s.store);
      AllInTime(tx, k, s, waiting) <==>
      && S.Resolves(S.Ready(waiting, live))
      && AllInTime(tx, k + 1, ApplyAction(tx, k, s, tx.actions[k]).value, S.Waiting(waiting, live))
  {
    var live := LiveIn(tx, s.store);
    var s' := ApplyAction(tx, k, s, tx.actions[k]).value;
    var later := (i: u8) => BornInTime(tx, k + 1, s', i);
    RoundSettles(waiting, live, later);
    forall x <- waiting ensures BornInTime(tx, k, s, x.resourceIdx) <==> (S.Waits(x, live) ==> later(x.resourceIdx)) {
    }
    forall x <- S.Waiting(waiting, live) ensures later(x.resourceIdx) == BornInTime(tx, k + 1, s', x.resourceIdx) {
    }
  }

  /** From position `k` on, with only pointer signers left. */
  lemma {:induction false} ResumeIff(tx: Tx, k: nat, s: TxState, waiting: seq<S.Attempt>)
    requires k <= |tx.actions| && forall x <- waiting :: S.Gated(x.kind)
    ensures Resume(tx, k, s, waiting).Some? <==> ApplyAll(tx, k, s).Some? && AllInTime(tx, k, s, waiting)
    ensures Resume(tx, k, s, waiting).Some? ==> Resume(tx, k, s, waiting) == ApplyAll(tx, k, s)
    decreases |tx.actions| - k
  {
    if k == |tx.actions| {
      assert waiting != [] ==> waiting[0] in waiting;
    } else if Admitted(tx.actions[k], |tx.access|) && ApplyAction(tx, k, s, tx.actions[k]).Some? {
      var live := LiveIn(tx, s.store);
      S.FilterMembers(waiting, live);
      ResumeIff(tx, k + 1, ApplyAction(tx, k, s, tx.actions[k]).value, S.Waiting(waiting, live));
      OneRoundInTime(tx, k, s, waiting);
    }
  }

  /** A transaction is accepted iff its actions are and every signer settles, in time if it waits; and then it
      leaves what its actions leave. */
  lemma ExecuteIff(tx: Tx, s: TxState)
    ensures Execute(tx, s).Some? <==> ApplyAll(tx, 0, s).Some? && forall x <- tx.signers :: Settles(tx, s, x)
    ensures Execute(tx, s).Some? ==> Execute(tx, s) == ApplyAll(tx, 0, s)
  {
    var live := LiveIn(tx, s.store);
    S.FilterMembers(tx.signers, live);
    ResumeIff(tx, 0, s, S.Waiting(tx.signers, live));
    RoundSettles(tx.signers, live, (i: u8) => BornInTime(tx, 0, s, i));
  }

  lemma ExecuteApplies(tx: Tx, s: TxState)
    requires Execute(tx, s).Some?
    ensures Execute(tx, s) == ApplyAll(tx, 0, s)
  {
    ExecuteIff(tx, s);
  }

  // ---------- the rounds of a transaction ----------

  /** The state before action `k`. */
  function StateBefore(tx: Tx, k: nat, s: TxState): Option<TxState>
    requires k <= |tx.actions|
  {
    if k == 0 then Some(s)
    else
      match StateBefore(tx, k - 1, s)
      case None => None
      case Some(t) =>
        if Admitted(tx.actions[k - 1], |tx.access|) then ApplyAction(tx, k - 1, t, tx.actions[k - 1]) else None
  }

  /** The slots that bear a lock before action `k`; none when the transaction does not get there. */
  function LiveBefore(tx: Tx, k: nat, s: TxState): S.Live
    requires k <= |tx.actions|
  {
    match StateBefore(tx, k, s)
    case Some(t) => LiveIn(tx, t.store)
    case None => (i: u8) => false
  }

  /** The live sets of the rounds up front and before each of the first `k` actions. */
  function LivesUpTo(tx: Tx, k: nat, s: TxState): (lives: seq<S.Live>)
    requires k <= |tx.actions|
    ensures lives != [] && lives[0] == LiveIn(tx, s.store)
  {
    if k == 0 then [LiveIn(tx, s.store)] else LivesUpTo(tx, k - 1, s) + [LiveBefore(tx, k - 1, s)]
  }

  /** The multisig bucket after those rounds, which is what the last of these actions finds, and the signers
      still waiting. */
  function BucketAt(tx: Tx, k: nat, s: TxState): (seq<S.Slot<seq<Bytes>>>, seq<S.Attempt>)
    requires k <= |tx.actions|
  {
    S.Rounds(tx.signers, LivesUpTo(tx, k, s))
  }

  lemma FirstRound(tx: Tx, s: TxState)
    ensures var live := LiveIn(tx, s.store);
      BucketAt(tx, 0, s) == (S.ByIndex(S.Shared([], tx.signers, live)), S.Waiting(tx.signers, live))
  {
    S.RoundsUnfold(tx.signers, [LiveIn(tx, s.store)]);
    assert S.Rounds(tx.signers, []) == ([], tx.signers);
  }

  /** The round before action `k`; with nobody waiting it changes nothing. */
  lemma NextRound(tx: Tx, k: nat, s: TxState)
    requires k < |tx.actions|
    ensures var (bucket, waiting) := BucketAt(tx, k, s);
      var live := LiveBefore(tx, k, s);
      && BucketAt(tx, k + 1, s) == (S.ByIndex(S.Shared(bucket, waiting, live)), S.Waiting(waiting, live))
      && (waiting == [] ==> BucketAt(tx, k + 1, s) == BucketAt(tx, k, s))
  {
    var lives, live := LivesUpTo(tx, k, s), LiveBefore(tx, k, s);
    LivesStep(tx, k, s);
    assert (lives + [live])[..|lives|] == lives;
    S.RoundsUnfold(tx.signers, lives + [live]);
    if BucketAt(tx, k, s).1 == [] {
      SP.IdleRound(tx.signers, lives, live);
    }
  }

  lemma LivesStep(tx: Tx, k: nat, s: TxState)
    requires k < |tx.actions|
    ensures LivesUpTo(tx, k + 1, s) == LivesUpTo(tx, k, s) + [LiveBefore(tx, k, s)]
  {
  }

  /** The slots that bore a lock in one of those rounds. */
  function BornBy(tx: Tx, k: nat, s: TxState): S.Live
    requires k <= |tx.actions|
  {
    S.Ever(LivesUpTo(tx, k, s))
  }

  /** Inside a transaction the multisig bucket is what it is said to be iff every resource born since the start
      has its keys in turn and every round since merged. */
  lemma BucketIsExact(tx: Tx, k: nat, s: TxState)
    requires k <= |tx.actions| && SP.InWireOrder(tx.signers)
    ensures SP.Promised(BucketAt(tx, k, s).0, tx.signers, BornBy(tx, k, s)) <==>
            && (forall idx: u8 :: BornBy(tx, k, s)(idx) && !LiveIn(tx, s.store)(idx) ==> SP.KeysInTurn(tx.signers, idx))
            && SP.RoundsMerge(tx.signers, LivesUpTo(tx, k, s))
  {
    SP.RunIsExact(tx.signers, LivesUpTo(tx, k, s));
  }
}
