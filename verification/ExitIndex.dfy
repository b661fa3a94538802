/** The exit index on values: families of withdrawal leaves keyed by the root of their tree, a
    write-through mirror of the stored records, and the marks of spent leaves. `ExitIndexer` is the
    in-place form. */
module ExitIndex {
  import opened Prelude
  import opened ExitTree

  type Txid = Bytes

  datatype Outpoint = Outpoint(txid: Txid, index: u32)

  /** One claimed leaf of a family. */
  datatype EmptiedLeaf = EmptiedLeaf(leafIndex: u32, spendTxid: Txid, deduct: u64)

  datatype ExitRecord = ExitRecord(
    settlementTxid: Txid,
    outpointIndex: u32,
    daaScore: u64,
    unclaimed: nat,
    rent: u64,
    leaves: seq<ExitLeaf>,
    emptied: seq<EmptiedLeaf>)
  {
    /** The output the next claim spends. */
    function Anchor(): Outpoint { Outpoint(settlementTxid, outpointIndex) }
  }

  datatype SpentMark = SpentMark(spendTxid: Txid, deduct: u64, newRoot: Hash)

  datatype LatestSettlement = LatestSettlement(stateRoot: Bytes, permissionRoot: Bytes, txid: Txid, daaScore: u64)

  datatype SettlementInfo = SettlementInfo(txid: Txid, daaScore: u64, newState: Bytes, permissionSpkHash: Bytes)

  datatype Bundle = Bundle(newState: Bytes, permissionSpkHash: Bytes, leaves: seq<ExitLeaf>)

  /** An L1 claim of leaf `leafIndex` of the family keyed `oldRoot`; `leafIndex` is a usize. */
  datatype Spend = Spend(
    oldRoot: Hash,
    leafIndex: nat,
    deduct: u64,
    newRoot: Hash,
    spendTxid: Txid,
    newOutpointIndex: u32)

  type Records = map<Hash, ExitRecord>

  /** The index keyspace: records by root, marks by root and leaf, and the single latest row. */
  datatype Db = Db(records: Records, marks: map<(Hash, u32), SpentMark>, latest: Option<LatestSettlement>)

  datatype ExitState = ExitState(records: Records, latest: Option<LatestSettlement>, db: Db)

  const DEFAULT_RENT: u64 := 50_000_000

  /** The truncating cast the marks and emptied entries store leaf indexes through. */
  function AsU32(i: nat): u32 {
    i % U32_LIMIT
  }

  function ZeroHash(): Bytes {
    seq(32, _ => 0)
  }

  function Claimed(emptied: seq<EmptiedLeaf>): set<nat> {
    set e | e in emptied :: e.leafIndex as nat
  }

  // ---------- hooks ----------

  function FreshRecord(b: Bundle, info: SettlementInfo): ExitRecord {
    ExitRecord(info.txid, 1, info.daaScore, |b.leaves|, DEFAULT_RENT, b.leaves, [])
  }

  function ServeLatest(s: ExitState, row: LatestSettlement): ExitState {
    s.(latest := Some(row), db := s.db.(latest := Some(row)))
  }

  /** A bundle settles, or settles again after a reorg: its family starts fresh under its root. */
  function Committed(s: ExitState, b: Bundle, info: SettlementInfo): ExitState {
    var root := FamilyRoot(b.leaves, {});
    var rec := FreshRecord(b, info);
    ServeLatest(
      s.(records := s.records[root := rec], db := s.db.(records := s.db.records[root := rec])),
      LatestSettlement(b.newState, b.permissionSpkHash, info.txid, info.daaScore))
  }

  /** A settlement without exits carries the last permission root forward. */
  function Observed(s: ExitState, info: SettlementInfo): ExitState {
    var root := if s.latest.Some? && info.permissionSpkHash == ZeroHash() then s.latest.value.permissionRoot
                else info.permissionSpkHash;
    ServeLatest(s, LatestSettlement(info.newState, root, info.txid, info.daaScore))
  }

  function MarkKey(sp: Spend): (Hash, u32) {
    (sp.oldRoot, AsU32(sp.leafIndex))
  }

  function Mark(db: Db, sp: Spend): Db {
    db.(marks := db.marks[MarkKey(sp) := SpentMark(sp.spendTxid, sp.deduct, sp.newRoot)])
  }

  function Unmark(db: Db, sp: Spend): Db {
    db.(marks := db.marks - {MarkKey(sp)})
  }

  predicate AlreadyEmptied(rec: ExitRecord, leafIndex: nat) {
    exists e :: e in rec.emptied && e.leafIndex == leafIndex
  }

  /** The record after a claim: one leaf emptied, and the anchor moved onto the continuation output
      unless the family is drained. */
  function Advanced(rec: ExitRecord, sp: Spend): ExitRecord
    requires rec.unclaimed >= 1
  {
    var emptied := rec.emptied + [EmptiedLeaf(AsU32(sp.leafIndex), sp.spendTxid, sp.deduct)];
    if rec.unclaimed > 1 then
      rec.(emptied := emptied, unclaimed := rec.unclaimed - 1,
           settlementTxid := sp.spendTxid, outpointIndex := sp.newOutpointIndex)
    else rec.(emptied := emptied, unclaimed := 0)
  }

  /** Moves a record from one key to another. */
  function Rekey(m: Records, from: Hash, to: Hash, rec: ExitRecord): Records {
    (m - {from})[to := rec]
  }

  function Spent(s: ExitState, sp: Spend): ExitState {
    var db := Mark(s.db, sp);
    if sp.oldRoot !in s.records then s.(db := db.(records := db.records - {sp.oldRoot}))
    else
      var rec := s.records[sp.oldRoot];
      if rec.unclaimed == 0 || AlreadyEmptied(rec, sp.leafIndex) then s.(db := db)
      else
        var key := if rec.unclaimed > 1 then sp.newRoot else sp.oldRoot;
        s.(records := Rekey(s.records, sp.oldRoot, key, Advanced(rec, sp)),
           db := db.(records := Rekey(db.records, sp.oldRoot, key, Advanced(rec, sp))))
  }

  predicate WasSpent(e: EmptiedLeaf, sp: Spend) {
    e.leafIndex == sp.leafIndex && e.spendTxid == sp.spendTxid
  }

  predicate Carries(m: Records, key: Hash, sp: Spend) {
    key in m && exists e :: e in m[key].emptied && WasSpent(e, sp)
  }

  function Retain(emptied: seq<EmptiedLeaf>, sp: Spend): seq<EmptiedLeaf> {
    if emptied == [] then []
    else (if WasSpent(emptied[0], sp) then [] else [emptied[0]]) + Retain(emptied[1..], sp)
  }

  /** The record that carries the spend: at its old root when terminal, at its new root otherwise. */
  function CarrierKey(m: Records, sp: Spend): Option<Hash> {
    if Carries(m, sp.oldRoot, sp) then Some(sp.oldRoot)
    else if Carries(m, sp.newRoot, sp) then Some(sp.newRoot)
    else None
  }

  function Restored(rec: ExitRecord, key: Hash, sp: Spend, spent: Outpoint): ExitRecord {
    var undone := rec.(emptied := Retain(rec.emptied, sp), unclaimed := rec.unclaimed + 1);
    if key == sp.newRoot then undone.(settlementTxid := spent.txid, outpointIndex := spent.index) else undone
  }

  function SpendReverted(s: ExitState, sp: Spend, spent: Outpoint): ExitState {
    var db := Unmark(s.db, sp);
    match CarrierKey(s.records, sp)
    case None => s.(db := db)
    case Some(key) =>
      var rec := Restored(s.records[key], key, sp, spent);
      var kept := if key == sp.newRoot then db.records - {key} else db.records;
      s.(records := Rekey(s.records, key, sp.oldRoot, rec), db := db.(records := kept[sp.oldRoot := rec]))
  }

  /** The key a reverted settlement hides: any live record with the bundle's leaves, or the bundle's
      own root when there is none. */
  predicate Hides(m: Records, b: Bundle, key: Hash) {
    if exists k :: k in m && m[k].leaves == b.leaves then key in m && m[key].leaves == b.leaves
    else key == FamilyRoot(b.leaves, {})
  }

  function ExitsReverted(s: ExitState, key: Hash): ExitState {
    s.(records := s.records - {key}, db := s.db.(records := s.db.records - {key}))
  }

  /** A restart: stored records the mirror lacks are loaded, and the latest row if it has none. */
  function Reseeded(s: ExitState): ExitState {
    s.(records := s.db.records + s.records, latest := if s.latest.None? then s.db.latest else s.latest)
  }

  datatype Hook =
    | OnCommitted(b: Bundle, info: SettlementInfo)
    | OnObserved(info: SettlementInfo)
    | OnSpent(sp: Spend)
    | OnSpendReverted(sp: Spend, spent: Outpoint)
    | OnExitsReverted(b: Bundle, key: Hash)
    | OnRecommitted(b: Bundle, info: SettlementInfo)
    | OnReseed

  function Step(s: ExitState, h: Hook): ExitState {
    match h
    case OnCommitted(b, info) => Committed(s, b, info)
    case OnObserved(info) => Observed(s, info)
    case OnSpent(sp) => Spent(s, sp)
    case OnSpendReverted(sp, spent) => SpendReverted(s, sp, spent)
    case OnExitsReverted(_, key) => ExitsReverted(s, key)
    case OnRecommitted(b, info) => Committed(s, b, info)
    case OnReseed => Reseeded(s)
  }

  function StepAll(s: ExitState, hooks: seq<Hook>): ExitState
    decreases |hooks|
  {
    if hooks == [] then s else StepAll(Step(s, hooks[0]), hooks[1..])
  }
}
