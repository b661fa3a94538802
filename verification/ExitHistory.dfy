/** What the exit index serves, read off the history behind it: the output the next claim of each family spends,
    the entry each claim leaves, and the latest settlement row. */
module ExitHistory {
  import opened Prelude
  import opened ExitTree
  import opened ExitIndex
  import opened ExitIndexProofs

  // ---------- one claim ----------

  /** The permission output a non-terminal claim creates. */
  function Continuation(sp: Spend): Outpoint {
    Outpoint(sp.spendTxid, sp.newOutpointIndex)
  }

  /** A fresh claim marks its leaf and lists it; unless it is the last, it moves the record to the new root and its
      anchor to the output it has created, and otherwise it leaves the record where it was. */
  lemma ClaimEffect(s: ExitState, sp: Spend)
    requires FreshClaim(s, sp)
    ensures var s', rec := Spent(s, sp), s.records[sp.oldRoot];
      var key := if rec.unclaimed > 1 then sp.newRoot else sp.oldRoot;
      && s'.db.marks == s.db.marks[(sp.oldRoot, sp.leafIndex) := SpentMark(sp.spendTxid, sp.deduct, sp.newRoot)]
      && key in s'.records && s'.records[key].unclaimed == rec.unclaimed - 1
      && s'.records[key].emptied == rec.emptied + [EmptiedLeaf(sp.leafIndex, sp.spendTxid, sp.deduct)]
      && s'.records[key].Anchor() == (if rec.unclaimed > 1 then Continuation(sp) else rec.Anchor())
      && (sp.oldRoot in s'.records && rec.unclaimed > 1 ==> sp.oldRoot == sp.newRoot)
      && (forall k :: k !in {sp.oldRoot, sp.newRoot} ==>
            (k in s'.records <==> k in s.records) && (k in s.records ==> s'.records[k] == s.records[k]))
  {
  }

  // ---------- anchors over runs ----------

  /** Which output each claim's transaction spent: a fact of the chain. */
  type Spends = Spend -> Outpoint

  /** The leaves and the transaction of every settlement so far. */
  type Settled = set<(seq<ExitLeaf>, Txid)>

  function SettledAfter(settled: Settled, h: Hook): Settled {
    match h
    case OnCommitted(b, info) => settled + {(b.leaves, info.txid)}
    case OnRecommitted(b, info) => settled + {(b.leaves, info.txid)}
    case _ => settled
  }

  predicate Made(sp: Spend, leaves: seq<ExitLeaf>, emptied: seq<EmptiedLeaf>)
    requires emptied != []
  {
    MadeLast(sp, leaves, emptied) && emptied[|emptied| - 1].deduct == sp.deduct
  }

  /** The entries were made by claims on the stack that form a chain of outputs: the first spends output 1 of a
      settlement of these leaves, each other one the continuation of the one before, and the last leaves `tip`. */
  predicate Chained(spends: Spends, settled: Settled, stack: seq<Spend>, leaves: seq<ExitLeaf>,
                    emptied: seq<EmptiedLeaf>, tip: Outpoint)
    decreases |emptied|
  {
    if emptied == [] then tip.index == 1 && (leaves, tip.txid) in settled
    else
      exists i :: 0 <= i < |stack| && Made(stack[i], leaves, emptied) && tip == Continuation(stack[i])
                  && Chained(spends, settled, stack[..i], leaves, emptied[..|emptied| - 1], spends(stack[i]))
  }

  /** A drained record keeps the anchor it had before its last claim. */
  predicate Drained(spends: Spends, settled: Settled, stack: seq<Spend>, rec: ExitRecord)
    requires rec.emptied != []
  {
    exists i :: 0 <= i < |stack| && Made(stack[i], rec.leaves, rec.emptied)
                && Chained(spends, settled, stack[..i], rec.leaves, rec.emptied[..|rec.emptied| - 1], rec.Anchor())
  }

  predicate Anchored(spends: Spends, settled: Settled, stack: seq<Spend>, rec: ExitRecord) {
    if rec.unclaimed > 0 || rec.emptied == [] then
      Chained(spends, settled, stack, rec.leaves, rec.emptied, rec.Anchor())
    else Drained(spends, settled, stack, rec)
  }

  predicate AllAnchored(spends: Spends, settled: Settled, stack: seq<Spend>, m: Records) {
    forall key :: key in m ==> Anchored(spends, settled, stack, m[key])
  }

  /** The chain's part in an orderly run: a claim spends the output at the end of its family's chain, and a reverted
      claim is reported with the output it had spent. */
  predicate TrueSpend(spends: Spends, settled: Settled, s: ExitState, stack: seq<Spend>, h: Hook) {
    match h
    case OnSpent(sp) =>
      Hits(s, sp) ==>
        var rec := s.records[sp.oldRoot];
        Chained(spends, settled, stack, rec.leaves, rec.emptied, spends(sp))
    case OnSpendReverted(sp, spent) => spent == spends(sp)
    case _ => true
  }

  predicate TrueRun(spends: Spends, settled: Settled, s: ExitState, stack: seq<Spend>, hooks: seq<Hook>)
    decreases |hooks|
  {
    hooks == [] ||
    var h := hooks[0];
    && Orderly(s, stack, h) && TrueSpend(spends, settled, s, stack, h)
    && TrueRun(spends, SettledAfter(settled, h), Step(s, h), StackAfter(stack, h), hooks[1..])
  }

  function SettledAfterAll(settled: Settled, hooks: seq<Hook>): Settled
    decreases |hooks|
  {
    if hooks == [] then settled else SettledAfterAll(SettledAfter(settled, hooks[0]), hooks[1..])
  }

  // ---------- chains along the stack ----------

  lemma {:induction false} ChainedLater(spends: Spends, settled: Settled, more: Settled, stack: seq<Spend>,
                                        leaves: seq<ExitLeaf>, emptied: seq<EmptiedLeaf>, tip: Outpoint)
    requires Chained(spends, settled, stack, leaves, emptied, tip) && settled <= more
    ensures Chained(spends, more, stack, leaves, emptied, tip)
    decreases |emptied|
  {
    if emptied != [] {
      var n := |emptied| - 1;
      var i :| 0 <= i < |stack| && Made(stack[i], leaves, emptied) && tip == Continuation(stack[i])
               && Chained(spends, settled, stack[..i], leaves, emptied[..n], spends(stack[i]));
      ChainedLater(spends, settled, more, stack[..i], leaves, emptied[..n], spends(stack[i]));
    }
  }

  lemma AnchoredLater(spends: Spends, settled: Settled, more: Settled, stack: seq<Spend>, rec: ExitRecord)
    requires Anchored(spends, settled, stack, rec) && settled <= more
    ensures Anchored(spends, more, stack, rec)
  {
    if rec.unclaimed > 0 || rec.emptied == [] {
      ChainedLater(spends, settled, more, stack, rec.leaves, rec.emptied, rec.Anchor());
    } else {
      var n := |rec.emptied| - 1;
      var i :| 0 <= i < |stack| && Made(stack[i], rec.leaves, rec.emptied)
               && Chained(spends, settled, stack[..i], rec.leaves, rec.emptied[..n], rec.Anchor());
      ChainedLater(spends, settled, more, stack[..i], rec.leaves, rec.emptied[..n], rec.Anchor());
    }
  }

  /** A longer stack tells what a shorter one told. */
  lemma ChainedOn(spends: Spends, settled: Settled, stack: seq<Spend>, k: nat, leaves: seq<ExitLeaf>,
                  emptied: seq<EmptiedLeaf>, tip: Outpoint)
    requires k <= |stack| && Chained(spends, settled, stack[..k], leaves, emptied, tip)
    ensures Chained(spends, settled, stack, leaves, emptied, tip)
  {
    if emptied != [] {
      var n := |emptied| - 1;
      var i :| 0 <= i < k && Made(stack[..k][i], leaves, emptied) && tip == Continuation(stack[..k][i])
               && Chained(spends, settled, stack[..k][..i], leaves, emptied[..n], spends(stack[..k][i]));
      assert stack[..k][..i] == stack[..i] && stack[..k][i] == stack[i];
    }
  }

  lemma AnchoredOn(spends: Spends, settled: Settled, stack: seq<Spend>, k: nat, rec: ExitRecord)
    requires k <= |stack| && Anchored(spends, settled, stack[..k], rec)
    ensures Anchored(spends, settled, stack, rec)
  {
    if rec.unclaimed > 0 || rec.emptied == [] {
      ChainedOn(spends, settled, stack, k, rec.leaves, rec.emptied, rec.Anchor());
    } else {
      var n := |rec.emptied| - 1;
      var i :| 0 <= i < k && Made(stack[..k][i], rec.leaves, rec.emptied)
               && Chained(spends, settled, stack[..k][..i], rec.leaves, rec.emptied[..n], rec.Anchor());
      assert stack[..k][..i] == stack[..i] && stack[..k][i] == stack[i];
    }
  }

  /** Only claims below position `k` matter when the last entry was made by one of them. */
  lemma ChainedBelow(spends: Spends, settled: Settled, stack: seq<Spend>, k: nat, leaves: seq<ExitLeaf>,
                     emptied: seq<EmptiedLeaf>, tip: Outpoint)
    requires k <= |stack| && Chained(spends, settled, stack, leaves, emptied, tip)
    requires emptied != [] ==> forall j :: k <= j < |stack| ==> !WasSpent(emptied[|emptied| - 1], stack[j])
    ensures Chained(spends, settled, stack[..k], leaves, emptied, tip)
  {
    if emptied != [] {
      var n := |emptied| - 1;
      var i :| 0 <= i < |stack| && Made(stack[i], leaves, emptied) && tip == Continuation(stack[i])
               && Chained(spends, settled, stack[..i], leaves, emptied[..n], spends(stack[i]));
      assert stack[..k][i] == stack[i] && stack[..k][..i] == stack[..i];
    }
  }

  lemma AnchoredBelow(spends: Spends, settled: Settled, stack: seq<Spend>, k: nat, rec: ExitRecord)
    requires k <= |stack| && Anchored(spends, settled, stack, rec)
    requires rec.emptied != [] ==>
      forall j :: k <= j < |stack| ==> !WasSpent(rec.emptied[|rec.emptied| - 1], stack[j])
    ensures Anchored(spends, settled, stack[..k], rec)
  {
    if rec.unclaimed > 0 || rec.emptied == [] {
      ChainedBelow(spends, settled, stack, k, rec.leaves, rec.emptied, rec.Anchor());
    } else {
      var n := |rec.emptied| - 1;
      var i :| 0 <= i < |stack| && Made(stack[i], rec.leaves, rec.emptied)
               && Chained(spends, settled, stack[..i], rec.leaves, rec.emptied[..n], rec.Anchor());
      assert stack[..k][i] == stack[i] && stack[..k][..i] == stack[..i];
    }
  }

  // ---------- steps ----------

  /** One link more: `sp`, at position `i`, spent the end of the chain below it. */
  lemma LinkAnchors(spends: Spends, settled: Settled, stack: seq<Spend>, i: nat, rec: ExitRecord, sp: Spend)
    requires i < |stack| && stack[i] == sp && rec.unclaimed >= 1
    requires Made(sp, rec.leaves, Advanced(rec, sp).emptied)
    requires Chained(spends, settled, stack[..i], rec.leaves, rec.emptied, spends(sp))
    requires Chained(spends, settled, stack[..i], rec.leaves, rec.emptied, rec.Anchor())
    ensures Anchored(spends, settled, stack, Advanced(rec, sp))
  {
    var after := Advanced(rec, sp);
    assert after.emptied[..|after.emptied| - 1] == rec.emptied && after.leaves == rec.leaves;
    if rec.unclaimed > 1 {
      assert after.Anchor() == Continuation(stack[i]);
    } else {
      assert after.Anchor() == rec.Anchor();
    }
  }

  /** Where a claim stands on the stack: above every claim its record lists. */
  lemma ClaimPosition(stack: seq<Spend>, rec: ExitRecord, sp: Spend) returns (i: nat)
    requires InTurn(stack, rec, sp)
    ensures var after := StackAfter(stack, OnSpent(sp));
      i <= |stack| && i < |after| && after[i] == sp && after[..i] == stack[..i]
    ensures rec.emptied != [] ==>
      forall j :: i <= j < |stack| ==> !WasSpent(rec.emptied[|rec.emptied| - 1], stack[j])
  {
    i := if sp in stack then StackIndex(stack, sp) else |stack|;
  }

  /** A claim that hits, new or delivered again, anchors its record where the chain goes on. */
  lemma ClaimKeepsAnchor(spends: Spends, settled: Settled, s: ExitState, stack: seq<Spend>, sp: Spend)
    requires Chronicle(s, stack) && Orderly(s, stack, OnSpent(sp)) && Hits(s, sp)
    requires TrueSpend(spends, settled, s, stack, OnSpent(sp))
    requires Anchored(spends, settled, stack, s.records[sp.oldRoot])
    ensures Anchored(spends, settled, StackAfter(stack, OnSpent(sp)), Advanced(s.records[sp.oldRoot], sp))
  {
    var rec := s.records[sp.oldRoot];
    AdvancedIsMadeLast(s, sp);
    var i := ClaimPosition(stack, rec, sp);
    ClaimLinks(spends, settled, stack, i, rec, sp);
  }

  lemma ClaimLinks(spends: Spends, settled: Settled, stack: seq<Spend>, i: nat, rec: ExitRecord, sp: Spend)
    requires var after := StackAfter(stack, OnSpent(sp));
      i <= |stack| && i < |after| && after[i] == sp && after[..i] == stack[..i]
    requires rec.emptied != [] ==>
      forall j :: i <= j < |stack| ==> !WasSpent(rec.emptied[|rec.emptied| - 1], stack[j])
    requires rec.unclaimed >= 1 && Made(sp, rec.leaves, Advanced(rec, sp).emptied)
    requires Anchored(spends, settled, stack, rec)
    requires Chained(spends, settled, stack, rec.leaves, rec.emptied, spends(sp))
    ensures Anchored(spends, settled, StackAfter(stack, OnSpent(sp)), Advanced(rec, sp))
  {
    ChainedBelow(spends, settled, stack, i, rec.leaves, rec.emptied, spends(sp));
    ChainedBelow(spends, settled, stack, i, rec.leaves, rec.emptied, rec.Anchor());
    LinkAnchors(spends, settled, StackAfter(stack, OnSpent(sp)), i, rec, sp);
  }

  lemma SpentKeepsAnchors(spends: Spends, settled: Settled, s: ExitState, stack: seq<Spend>, sp: Spend)
    requires Chronicle(s, stack) && Orderly(s, stack, OnSpent(sp))
    requires TrueSpend(spends, settled, s, stack, OnSpent(sp)) && AllAnchored(spends, settled, stack, s.records)
    ensures AllAnchored(spends, settled, StackAfter(stack, OnSpent(sp)), Spent(s, sp).records)
  {
    var after := StackAfter(stack, OnSpent(sp));
    assert after[..|stack|] == stack;
    forall key | key in s.records ensures Anchored(spends, settled, after, s.records[key]) {
      AnchoredOn(spends, settled, after, |stack|, s.records[key]);
    }
    if Hits(s, sp) {
      ClaimKeepsAnchor(spends, settled, s, stack, sp);
    }
  }

  /** The record of the latest claim gets back the anchor that claim had spent. */
  lemma RevertRestoresAnchor(spends: Spends, settled: Settled, s: ExitState, stack: seq<Spend>, key: Hash)
    requires Chronicle(s, stack) && stack != [] && Carries(s.records, key, stack[|stack| - 1])
    requires Anchored(spends, settled, stack, s.records[key])
    ensures var sp := stack[|stack| - 1];
      Anchored(spends, settled, stack[..|stack| - 1], Restored(s.records[key], key, sp, spends(sp)))
  {
    var rec, top := s.records[key], |stack| - 1;
    var sp, n := stack[top], |rec.emptied| - 1;
    CarrierIsLatest(s, stack, key);
    forall i | 0 <= i < |stack| && WasSpent(rec.emptied[n], stack[i]) ensures i == top {
      assert i < top ==> SameClaim(stack[i], stack[top]);
    }
    if rec.unclaimed > 0 {
      assert Chained(spends, settled, stack[..top], rec.leaves, rec.emptied[..n], spends(sp));
    } else {
      assert Chained(spends, settled, stack[..top], rec.leaves, rec.emptied[..n], rec.Anchor());
    }
  }

  /** Records without an entry of the latest claim do not need it. */
  lemma AnchoredWithoutLatest(spends: Spends, settled: Settled, stack: seq<Spend>, rec: ExitRecord)
    requires stack != [] && Anchored(spends, settled, stack, rec)
    requires forall e :: e in rec.emptied ==> !WasSpent(e, stack[|stack| - 1])
    ensures Anchored(spends, settled, stack[..|stack| - 1], rec)
  {
    assert rec.emptied != [] ==> rec.emptied[|rec.emptied| - 1] in rec.emptied;
    AnchoredBelow(spends, settled, stack, |stack| - 1, rec);
  }

  lemma RevertKeepsAnchors(spends: Spends, settled: Settled, s: ExitState, stack: seq<Spend>)
    requires Chronicle(s, stack) && stack != [] && AllAnchored(spends, settled, stack, s.records)
    ensures var sp := stack[|stack| - 1];
      AllAnchored(spends, settled, stack[..|stack| - 1], SpendReverted(s, sp, spends(sp)).records)
  {
    var sp := stack[|stack| - 1];
    var carrier := CarrierKey(s.records, sp);
    if carrier.Some? {
      RevertRestoresAnchor(spends, settled, s, stack, carrier.value);
    }
    forall key | key in s.records && carrier != Some(key)
      ensures Anchored(spends, settled, stack[..|stack| - 1], s.records[key])
    {
      if Carries(s.records, key, sp) {
        OneCarrier(s, stack, key);
      } else {
        AnchoredWithoutLatest(spends, settled, stack, s.records[key]);
      }
    }
  }

  lemma SettlementKeepsAnchors(spends: Spends, settled: Settled, s: ExitState, stack: seq<Spend>, b: Bundle,
                               info: SettlementInfo)
    requires AllAnchored(spends, settled, stack, s.records)
    ensures AllAnchored(spends, settled + {(b.leaves, info.txid)}, stack, Committed(s, b, info).records)
  {
    var more := settled + {(b.leaves, info.txid)};
    forall key | key in s.records ensures Anchored(spends, more, stack, s.records[key]) {
      AnchoredLater(spends, settled, more, stack, s.records[key]);
    }
    assert Anchored(spends, more, stack, FreshRecord(b, info));
  }

  lemma StepKeepsAnchors(spends: Spends, settled: Settled, s: ExitState, stack: seq<Spend>, h: Hook)
    requires Chronicle(s, stack) && Orderly(s, stack, h) && TrueSpend(spends, settled, s, stack, h)
    requires AllAnchored(spends, settled, stack, s.records)
    ensures AllAnchored(spends, SettledAfter(settled, h), StackAfter(stack, h), Step(s, h).records)
  {
    match h
    case OnCommitted(b, info) => SettlementKeepsAnchors(spends, settled, s, stack, b, info);
    case OnRecommitted(b, info) => SettlementKeepsAnchors(spends, settled, s, stack, b, info);
    case OnSpent(sp) => SpentKeepsAnchors(spends, settled, s, stack, sp);
    case OnSpendReverted(_, _) => RevertKeepsAnchors(spends, settled, s, stack);
    case OnReseed => assert s.db.records + s.records == s.records;
    case _ =>
  }

  /** Along every orderly run in which claims spend what the chain lets them spend, every record is anchored. */
  lemma {:induction false} AnchorsStayTrue(spends: Spends, settled: Settled, s: ExitState, stack: seq<Spend>,
                                           hooks: seq<Hook>)
    requires Chronicle(s, stack) && AllAnchored(spends, settled, stack, s.records)
    requires TrueRun(spends, settled, s, stack, hooks)
    ensures AllAnchored(spends, SettledAfterAll(settled, hooks), StackAfterAll(stack, hooks),
                        StepAll(s, hooks).records)
    decreases |hooks|
  {
    if hooks != [] {
      StepKeepsChronicle(s, stack, hooks[0]);
      StepKeepsAnchors(spends, settled, s, stack, hooks[0]);
      AnchorsStayTrue(spends, SettledAfter(settled, hooks[0]), Step(s, hooks[0]), StackAfter(stack, hooks[0]),
                      hooks[1..]);
    }
  }

  /** The continuation of the claim that made the last entry, or output 1 of a settlement when there is none. */
  predicate EndOfChain(settled: Settled, stack: seq<Spend>, leaves: seq<ExitLeaf>, emptied: seq<EmptiedLeaf>,
                       tip: Outpoint)
  {
    if emptied == [] then tip.index == 1 && (leaves, tip.txid) in settled
    else exists i :: 0 <= i < |stack| && Made(stack[i], leaves, emptied) && tip == Continuation(stack[i])
  }

  lemma ChainEnds(spends: Spends, settled: Settled, stack: seq<Spend>, leaves: seq<ExitLeaf>,
                  emptied: seq<EmptiedLeaf>, tip: Outpoint)
    requires Chained(spends, settled, stack, leaves, emptied, tip)
    ensures EndOfChain(settled, stack, leaves, emptied, tip)
  {
  }

  /** From the empty index: the output served for the next claim of a live family is the continuation of its latest
      unreverted claim, or output 1 of a settlement of its leaves when there is none. */
  lemma LiveAnchor(spends: Spends, hooks: seq<Hook>, key: Hash)
    requires TrueRun(spends, {}, EMPTY_INDEX, [], hooks)
    requires key in StepAll(EMPTY_INDEX, hooks).records && StepAll(EMPTY_INDEX, hooks).records[key].unclaimed > 0
    ensures var rec := StepAll(EMPTY_INDEX, hooks).records[key];
      EndOfChain(SettledAfterAll({}, hooks), StackAfterAll([], hooks), rec.leaves, rec.emptied, rec.Anchor())
  {
    AnchorsStayTrue(spends, {}, EMPTY_INDEX, [], hooks);
    var rec := StepAll(EMPTY_INDEX, hooks).records[key];
    var settled, stack := SettledAfterAll({}, hooks), StackAfterAll([], hooks);
    assert Anchored(spends, settled, stack, rec);
    ChainEnds(spends, settled, stack, rec.leaves, rec.emptied, rec.Anchor());
  }

  // ---------- settlements undone, restarts ----------

  /** A reverted settlement hides one family at most: one of its leaves, or what stands at their fresh root when no
      family has them. */
  lemma RevertHidesOne(s: ExitState, b: Bundle, key: Hash)
    requires Mirrored(s) && Hides(s.records, b, key)
    ensures var s' := ExitsReverted(s, key);
      && Mirrored(s') && key !in s'.records && s'.db.marks == s.db.marks
      && (forall k :: k != key ==>
            (k in s'.records <==> k in s.records) && (k in s.records ==> s'.records[k] == s.records[k]))
      && (if exists k :: k in s.records && s.records[k].leaves == b.leaves
          then key in s.records && s.records[key].leaves == b.leaves
          else key == FamilyRoot(b.leaves, {}))
  {
  }

  /** Undoing a settlement whose leaves and root were new brings the families back as they were. */
  lemma RevertUndoesSettlement(s: ExitState, b: Bundle, info: SettlementInfo, key: Hash)
    requires Mirrored(s) && FamilyRoot(b.leaves, {}) !in s.records
    requires forall k :: k in s.records ==> s.records[k].leaves != b.leaves
    requires Hides(Committed(s, b, info).records, b, key)
    ensures ExitsReverted(Committed(s, b, info), key).records == s.records
    ensures ExitsReverted(Committed(s, b, info), key).db.records == s.db.records
  {
    var root := FamilyRoot(b.leaves, {});
    assert Committed(s, b, info).records[root].leaves == b.leaves;
  }

  /** A restart adds the stored families the mirror lacks and overwrites none. */
  lemma ReseedFillsIn(s: ExitState, key: Hash)
    ensures key in Reseeded(s).records <==> key in s.records || key in s.db.records
    ensures key in s.records ==> Reseeded(s).records[key] == s.records[key]
    ensures key !in s.records && key in s.db.records ==> Reseeded(s).records[key] == s.db.records[key]
    ensures Reseeded(s).db == s.db && Reseeded(s).latest == if s.latest.Some? then s.latest else s.db.latest
  {
  }

  // ---------- the latest settlement ----------

  /** The settlement a hook reports: its row, but for the permission root. */
  function Reported(h: Hook): Option<(Bytes, Txid, u64)> {
    match h
    case OnCommitted(b, info) => Some((b.newState, info.txid, info.daaScore))
    case OnRecommitted(b, info) => Some((b.newState, info.txid, info.daaScore))
    case OnObserved(info) => Some((info.newState, info.txid, info.daaScore))
    case _ => None
  }

  /** The permission root a hook brings: a bundle its own, a settlement without one its commitment unless zero. */
  function Brought(h: Hook): Option<Bytes> {
    match h
    case OnCommitted(b, _) => Some(b.permissionSpkHash)
    case OnRecommitted(b, _) => Some(b.permissionSpkHash)
    case OnObserved(info) => if info.permissionSpkHash == ZeroHash() then None else Some(info.permissionSpkHash)
    case _ => None
  }

  /** The last of something the hooks give. */
  function Last<T>(hooks: seq<Hook>, f: Hook -> Option<T>): Option<T> {
    if hooks == [] then None
    else if f(hooks[|hooks| - 1]).Some? then f(hooks[|hooks| - 1])
    else Last(hooks[..|hooks| - 1], f)
  }

  lemma {:induction false} StepAllSnoc(s: ExitState, hooks: seq<Hook>, h: Hook)
    ensures StepAll(s, hooks + [h]) == Step(StepAll(s, hooks), h)
    decreases |hooks|
  {
    if hooks == [] {
      assert [] + [h] == [h] && [h][1..] == [];
    } else {
      StepAllSnoc(Step(s, hooks[0]), hooks[1..], h);
      assert (hooks + [h])[1..] == hooks[1..] + [h];
    }
  }

  predicate Settles(h: Hook, rec: ExitRecord) {
    (h.OnCommitted? || h.OnRecommitted?) && h.b.leaves == rec.leaves && h.info.daaScore == rec.daaScore
  }

  predicate AllSettled(hooks: seq<Hook>, m: Records) {
    forall key :: key in m ==> m[key].rent == 50_000_000 && exists h <- hooks :: Settles(h, m[key])
  }

  /** Over every run, in any order, a record keeps the leaves, the score and the rent it settled with. */
  lemma {:induction false} RecordsAreSettled(hooks: seq<Hook>)
    ensures AllSettled(hooks, StepAll(EMPTY_INDEX, hooks).records)
  {
    if hooks != [] {
      var init, h := hooks[..|hooks| - 1], hooks[|hooks| - 1];
      assert hooks == init + [h];
      RecordsAreSettled(init);
      StepAllSnoc(EMPTY_INDEX, init, h);
      MirrorEqualsStore(EMPTY_INDEX, init);
      StepSettles(StepAll(EMPTY_INDEX, init), init, h);
    }
  }

  lemma StepSettles(s: ExitState, hooks: seq<Hook>, h: Hook)
    requires Mirrored(s) && AllSettled(hooks, s.records)
    ensures AllSettled(hooks + [h], Step(s, h).records)
  {
    forall key | key in s.records ensures exists g <- hooks + [h] :: Settles(g, s.records[key]) {
      var g :| g in hooks && Settles(g, s.records[key]);
      assert g in hooks + [h];
    }
    forall key | key in Step(s, h).records
      ensures Step(s, h).records[key].rent == 50_000_000
      ensures exists g <- hooks + [h] :: Settles(g, Step(s, h).records[key])
    {
      StepKeepsOrigin(s, h, key);
      if k :| k in s.records && SameOrigin(s.records[k], Step(s, h).records[key]) {
        var g :| g in hooks + [h] && Settles(g, s.records[k]);
        assert Settles(g, Step(s, h).records[key]);
      } else {
        assert h in hooks + [h];
      }
    }
  }

  predicate SameOrigin(a: ExitRecord, b: ExitRecord) {
    a.leaves == b.leaves && a.daaScore == b.daaScore && a.rent == b.rent
  }

  lemma StepKeepsOrigin(s: ExitState, h: Hook, key: Hash)
    requires Mirrored(s) && key in Step(s, h).records
    ensures || (exists k :: k in s.records && SameOrigin(s.records[k], Step(s, h).records[key]))
            || (Settles(h, Step(s, h).records[key]) && Step(s, h).records[key].rent == 50_000_000)
  {
    match h
    case OnSpent(sp) =>
      if Hits(s, sp) {
        assert key in s.records || SameOrigin(s.records[sp.oldRoot], Step(s, h).records[key]);
        assert SameOrigin(s.records[sp.oldRoot], Advanced(s.records[sp.oldRoot], sp));
      }
    case OnSpendReverted(sp, spent) =>
      var carrier := CarrierKey(s.records, sp);
      if carrier.Some? {
        var rec := s.records[carrier.value];
        assert SameOrigin(rec, Restored(rec, carrier.value, sp, spent));
      }
    case OnReseed => assert s.db.records + s.records == s.records;
    case _ =>
  }

  /** Over every run from the empty index, in any order, the row served is that of the last settlement, with the
      permission root of the last one that brought any. */
  lemma {:induction false} LatestRow(hooks: seq<Hook>)
    ensures var s := StepAll(EMPTY_INDEX, hooks);
      && s.latest == s.db.latest
      && (match Last(hooks, Reported)
          case None => s.latest == None
          case Some(row) =>
            var root := Last(hooks, Brought);
            s.latest == Some(LatestSettlement(row.0, if root.Some? then root.value else ZeroHash(), row.1, row.2)))
  {
    MirrorEqualsStore(EMPTY_INDEX, hooks);
    if hooks != [] {
      var init, h := hooks[..|hooks| - 1], hooks[|hooks| - 1];
      assert hooks == init + [h];
      LatestRow(init);
      StepAllSnoc(EMPTY_INDEX, init, h);
      BroughtIsReported(init);
    }
  }

  /** Only settlements bring a permission root. */
  lemma {:induction false} BroughtIsReported(hooks: seq<Hook>)
    ensures Last(hooks, Brought).Some? ==> Last(hooks, Reported).Some?
  {
    if hooks != [] {
      BroughtIsReported(hooks[..|hooks| - 1]);
    }
  }
}
