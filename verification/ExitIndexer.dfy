/** The exit indexer in place: a mirror map that hooks insert into and remove from, and a write batch
    they append puts and deletes to. */
module ExitIndexer {
  import opened Prelude
  import opened ExitTree
  import E = ExitIndex

  datatype Op =
    | PutRecord(root: Hash, rec: E.ExitRecord)
    | DeleteRecord(root: Hash)
    | PutMark(root: Hash, leafIndex: u32, mark: E.SpentMark)
    | DeleteMark(root: Hash, leafIndex: u32)
    | PutLatest(row: E.LatestSettlement)

  function Apply(db: E.Db, op: Op): E.Db {
    match op
    case PutRecord(root, rec) => db.(records := db.records[root := rec])
    case DeleteRecord(root) => db.(records := db.records - {root})
    case PutMark(root, i, mark) => db.(marks := db.marks[(root, i) := mark])
    case DeleteMark(root, i) => db.(marks := db.marks - {(root, i)})
    case PutLatest(row) => db.(latest := Some(row))
  }

  /** The effect of committing a batch: its operations in order. */
  function Commit(db: E.Db, ops: seq<Op>): E.Db {
    if ops == [] then db else Apply(Commit(db, ops[..|ops| - 1]), ops[|ops| - 1])
  }

  lemma {:induction false} RetainAppend(emptied: seq<E.EmptiedLeaf>, e: E.EmptiedLeaf, sp: E.Spend)
    ensures E.Retain(emptied + [e], sp) == E.Retain(emptied, sp) + (if E.WasSpent(e, sp) then [] else [e])
  {
    if emptied != [] {
      assert (emptied + [e])[1..] == emptied[1..] + [e];
      RetainAppend(emptied[1..], e, sp);
    }
  }

  class WriteBatch {
    var ops: seq<Op>
    /** The index the batch will be committed to. */
    ghost const base: E.Db

    ghost function View(): E.Db
      reads this
    {
      Commit(base, ops)
    }

    constructor (ghost base: E.Db)
      ensures View() == base && this.base == base
    {
      this.base := base;
      ops := [];
    }

    method Push(op: Op)
      modifies this
      ensures View() == Apply(old(View()), op)
    {
      assert (ops + [op])[..|ops|] == ops;
      ops := ops + [op];
    }
  }

  /** The store a batch is committed to. */
  class Store {
    var db: E.Db

    constructor (db: E.Db)
      ensures this.db == db
    {
      this.db := db;
    }

    /** All record roots, each once, in the store's own order. */
    method ExitRoots() returns (roots: seq<Hash>)
      ensures forall r :: r in roots <==> r in db.records
      ensures forall i, j :: 0 <= i < j < |roots| ==> roots[i] != roots[j]
    {
      roots := [];
      var left := db.records.Keys;
      while left != {}
        invariant forall r :: r in db.records.Keys <==> r in left || r in roots
        invariant forall r :: r in left ==> r !in roots
        invariant forall i, j :: 0 <= i < j < |roots| ==> roots[i] != roots[j]
        decreases left
      {
        var r :| r in left;
        roots := roots + [r];
        left := left - {r};
      }
    }
  }

  class TicTacToeExitIndexer {
    var records: E.Records
    var latest: Option<E.LatestSettlement>

    ghost function State(wb: WriteBatch): E.ExitState
      reads this, wb
    {
      E.ExitState(records, latest, wb.View())
    }

    constructor ()
      ensures records == map[] && latest == None
    {
      records, latest := map[], None;
    }

    /** Loads the stored records the mirror lacks, and the latest row if it has none. */
    method Reseed(store: Store)
      modifies this
      ensures E.ExitState(records, latest, store.db)
           == E.Reseeded(E.ExitState(old(records), old(latest), store.db))
    {
      var roots := store.ExitRoots();
      for i := 0 to |roots|
        invariant forall r :: r in records <==> r in old(records) || r in roots[..i]
        invariant forall r :: r in records ==>
                    records[r] == if r in old(records) then old(records)[r]
                                  else if r in store.db.records then store.db.records[r] else records[r]
        invariant latest == old(latest)
      {
        if roots[i] !in records {
          records := records[roots[i] := store.db.records[roots[i]]];
        }
      }
      assert roots[..|roots|] == roots;
      if latest.None? {
        latest := store.db.latest;
      }
    }

    method ServeLatest(wb: WriteBatch, row: E.LatestSettlement)
      modifies this`latest, wb
      ensures State(wb) == E.ServeLatest(old(State(wb)), row)
    {
      wb.Push(PutLatest(row));
      latest := Some(row);
    }

    method OnExitsCommitted(b: E.Bundle, info: E.SettlementInfo, wb: WriteBatch)
      modifies this, wb
      ensures State(wb) == E.Committed(old(State(wb)), b, info)
    {
      var root, rec := RecordFor(b, info);
      wb.Push(PutRecord(root, rec));
      records := records[root := rec];
      ServeLatest(wb, E.LatestSettlement(b.newState, b.permissionSpkHash, info.txid, info.daaScore));
    }

    /** A fresh family record, keyed by its raw padded root. */
    method RecordFor(b: E.Bundle, info: E.SettlementInfo) returns (root: Hash, rec: E.ExitRecord)
      ensures rec == E.FreshRecord(b, info) && root == FamilyRoot(b.leaves, {})
    {
      rec := E.ExitRecord(info.txid, 1, info.daaScore, |b.leaves|, E.DEFAULT_RENT, b.leaves, []);
      root := FamilyRoot(rec.leaves, {});
    }

    method OnSettlementObserved(info: E.SettlementInfo, wb: WriteBatch)
      modifies this, wb
      ensures State(wb) == E.Observed(old(State(wb)), info)
    {
      var root := info.permissionSpkHash;
      if latest.Some? && info.permissionSpkHash == E.ZeroHash() {
        root := latest.value.permissionRoot;
      }
      ServeLatest(wb, E.LatestSettlement(info.newState, root, info.txid, info.daaScore));
    }

    /** Whether the record already lists the leaf as emptied. */
    method IsEmptied(rec: E.ExitRecord, leafIndex: nat) returns (found: bool)
      ensures found == E.AlreadyEmptied(rec, leafIndex)
    {
      for i := 0 to |rec.emptied|
        invariant forall j :: 0 <= j < i ==> rec.emptied[j].leafIndex != leafIndex
      {
        if rec.emptied[i].leafIndex == leafIndex {
          return true;
        }
      }
      found := false;
    }

    method OnPermissionSpent(sp: E.Spend, wb: WriteBatch)
      modifies this, wb
      ensures State(wb) == E.Spent(old(State(wb)), sp)
    {
      wb.Push(PutMark(sp.oldRoot, E.AsU32(sp.leafIndex), E.SpentMark(sp.spendTxid, sp.deduct, sp.newRoot)));
      if sp.oldRoot !in records {
        wb.Push(DeleteRecord(sp.oldRoot));
        return;
      }
      var rec := records[sp.oldRoot];
      var seen := IsEmptied(rec, sp.leafIndex);
      if rec.unclaimed == 0 || seen {
        return;
      }
      rec := rec.(emptied := rec.emptied + [E.EmptiedLeaf(E.AsU32(sp.leafIndex), sp.spendTxid, sp.deduct)]);
      if rec.unclaimed > 1 {
        wb.Push(DeleteRecord(sp.oldRoot));
        records := records - {sp.oldRoot};
        rec := rec.(settlementTxid := sp.spendTxid, outpointIndex := sp.newOutpointIndex,
                    unclaimed := rec.unclaimed - 1);
        records := records[sp.newRoot := rec];
        wb.Push(PutRecord(sp.newRoot, rec));
      } else {
        rec := rec.(unclaimed := 0);
        records := records[sp.oldRoot := rec];
        wb.Push(PutRecord(sp.oldRoot, rec));
      }
      // Re-keying a record onto its own root is rewriting it in place.
      assert forall m: E.Records, r: E.ExitRecord :: m[sp.oldRoot := r] == E.Rekey(m, sp.oldRoot, sp.oldRoot, r);
    }

    method CarriesSpend(key: Hash, sp: E.Spend) returns (found: bool)
      ensures found == E.Carries(records, key, sp)
    {
      if key !in records {
        return false;
      }
      var emptied := records[key].emptied;
      for i := 0 to |emptied|
        invariant forall j :: 0 <= j < i ==> !E.WasSpent(emptied[j], sp)
      {
        if E.WasSpent(emptied[i], sp) {
          return true;
        }
      }
      found := false;
    }

    method RetainOthers(emptied: seq<E.EmptiedLeaf>, sp: E.Spend) returns (kept: seq<E.EmptiedLeaf>)
      ensures kept == E.Retain(emptied, sp)
    {
      kept := [];
      for i := 0 to |emptied|
        invariant kept == E.Retain(emptied[..i], sp)
      {
        RetainAppend(emptied[..i], emptied[i], sp);
        assert emptied[..i + 1] == emptied[..i] + [emptied[i]];
        if !E.WasSpent(emptied[i], sp) {
          kept := kept + [emptied[i]];
        }
      }
      assert emptied[..|emptied|] == emptied;
    }

    method OnPermissionSpendReverted(sp: E.Spend, spent: E.Outpoint, wb: WriteBatch)
      modifies this, wb
      ensures State(wb) == E.SpendReverted(old(State(wb)), sp, spent)
    {
      wb.Push(DeleteMark(sp.oldRoot, E.AsU32(sp.leafIndex)));
      var atOld := CarriesSpend(sp.oldRoot, sp);
      var atNew := CarriesSpend(sp.newRoot, sp);
      if !atOld && !atNew {
        return;
      }
      var key := if atOld then sp.oldRoot else sp.newRoot;
      var rec := records[key];
      records := records - {key};
      var kept := RetainOthers(rec.emptied, sp);
      rec := rec.(emptied := kept, unclaimed := rec.unclaimed + 1);
      if key == sp.newRoot {
        wb.Push(DeleteRecord(key));
        rec := rec.(settlementTxid := spent.txid, outpointIndex := spent.index);
      }
      records := records[sp.oldRoot := rec];
      wb.Push(PutRecord(sp.oldRoot, rec));
    }

    /** Hides the family of a reverted settlement; among records with identical leaves the map's
        iteration order decides. */
    method OnExitsReverted(b: E.Bundle, wb: WriteBatch) returns (ghost hidden: Hash)
      modifies this, wb
      ensures E.Hides(old(records), b, hidden)
      ensures State(wb) == E.ExitsReverted(old(State(wb)), hidden)
    {
      var key := FamilyRoot(b.leaves, {});
      if exists k :: k in records && records[k].leaves == b.leaves {
        key :| key in records && records[key].leaves == b.leaves;
      }
      hidden := key;
      wb.Push(DeleteRecord(key));
      records := records - {key};
    }

    method OnExitsRecommitted(b: E.Bundle, info: E.SettlementInfo, wb: WriteBatch)
      modifies this, wb
      ensures State(wb) == E.Committed(old(State(wb)), b, info)
    {
      var root, rec := RecordFor(b, info);
      wb.Push(PutRecord(root, rec));
      records := records[root := rec];
      ServeLatest(wb, E.LatestSettlement(b.newState, b.permissionSpkHash, info.txid, info.daaScore));
    }
  }
}
