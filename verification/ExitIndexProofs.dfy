/** The exit index: the mirror equals the store, counts add up, keys stay true, and reorgs undo
    claims exactly. */
module ExitIndexProofs {
  import opened Prelude
  import opened ExitTree
  import opened ExitIndex

  // ---------- mirror and counts ----------

  predicate DistinctLeaves(emptied: seq<EmptiedLeaf>) {
    forall i, j :: 0 <= i < j < |emptied| ==> emptied[i].leafIndex != emptied[j].leafIndex
  }

  /** Every leaf is either unclaimed or recorded once as emptied. */
  predicate Accounted(rec: ExitRecord) {
    rec.unclaimed + |rec.emptied| == |rec.leaves| && DistinctLeaves(rec.emptied)
  }

  predicate AllAccounted(m: Records) {
    forall key :: key in m ==> Accounted(m[key])
  }

  /** The in-memory mirror is the stored state. */
  predicate Mirrored(s: ExitState) {
    s.records == s.db.records && s.latest == s.db.latest
  }

  /** A claim that advances a record: of a live family, of a leaf not yet recorded as emptied. */
  predicate Hits(s: ExitState, sp: Spend) {
    && sp.oldRoot in s.records
    && s.records[sp.oldRoot].unclaimed >= 1
    && !AlreadyEmptied(s.records[sp.oldRoot], sp.leafIndex)
  }

  /** A claim whose leaf index, cut to 32 bits, names a leaf the record already lists. */
  predicate Aliases(s: ExitState, sp: Spend) {
    Hits(s, sp) && AlreadyEmptied(s.records[sp.oldRoot], AsU32(sp.leafIndex))
  }

  /** Leaf indexes survive the cast they are stored through. */
  predicate InRange(h: Hook) {
    h.OnSpent? ==> h.sp.leafIndex < U32_LIMIT
  }

  lemma {:induction false} RetainOthers(emptied: seq<EmptiedLeaf>, sp: Spend)
    requires forall e :: e in emptied ==> !WasSpent(e, sp)
    ensures Retain(emptied, sp) == emptied
  {
    if emptied != [] {
      RetainOthers(emptied[1..], sp);
    }
  }

  /** With distinct leaves, undoing a claim removes exactly its one entry and keeps the order. */
  lemma {:induction false} RetainRemovesOne(emptied: seq<EmptiedLeaf>, i: nat, sp: Spend)
    requires DistinctLeaves(emptied) && i < |emptied| && WasSpent(emptied[i], sp)
    ensures Retain(emptied, sp) == emptied[..i] + emptied[i + 1..]
  {
    if i == 0 {
      forall e | e in emptied[1..] ensures !WasSpent(e, sp) {
        var j :| 0 <= j < |emptied[1..]| && emptied[1..][j] == e;
        assert emptied[0].leafIndex != emptied[j + 1].leafIndex;
      }
      RetainOthers(emptied[1..], sp);
    } else {
      assert emptied[0].leafIndex != emptied[i].leafIndex;
      RetainRemovesOne(emptied[1..], i - 1, sp);
    }
  }

  lemma AdvancedAccounted(rec: ExitRecord, sp: Spend)
    requires Accounted(rec) && rec.unclaimed >= 1
    ensures Accounted(Advanced(rec, sp)) <==> !AlreadyEmptied(rec, AsU32(sp.leafIndex))
  {
    var after := Advanced(rec, sp).emptied;
    var n := |rec.emptied|;
    assert forall i :: 0 <= i < n ==> after[i] == rec.emptied[i] && rec.emptied[i] in rec.emptied;
    if AlreadyEmptied(rec, AsU32(sp.leafIndex)) {
      var e :| e in rec.emptied && e.leafIndex == AsU32(sp.leafIndex);
      var i :| 0 <= i < n && rec.emptied[i] == e;
      assert after[i].leafIndex == after[n].leafIndex;
    }
  }

  lemma RestoredAccounted(rec: ExitRecord, key: Hash, sp: Spend, spent: Outpoint)
    requires Accounted(rec) && exists e :: e in rec.emptied && WasSpent(e, sp)
    ensures Accounted(Restored(rec, key, sp, spent))
  {
    var e :| e in rec.emptied && WasSpent(e, sp);
    var i :| 0 <= i < |rec.emptied| && rec.emptied[i] == e;
    RetainRemovesOne(rec.emptied, i, sp);
  }

  /** Each hook keeps the mirror equal to the store, whatever its arguments and whether or not it makes
      sense in the state it meets. */
  lemma StepMirrors(s: ExitState, h: Hook)
    requires Mirrored(s)
    ensures Mirrored(Step(s, h))
  {
    match h
    case OnSpent(sp) =>
      if sp.oldRoot !in s.records {
        assert s.db.records - {sp.oldRoot} == s.db.records;
      }
    case OnSpendReverted(sp, spent) =>
      var key := CarrierKey(s.records, sp);
      if key.Some? && key.value != sp.newRoot {
        assert Rekey(s.records, key.value, sp.oldRoot, Restored(s.records[key.value], key.value, sp, spent))
            == s.records[sp.oldRoot := Restored(s.records[key.value], key.value, sp, spent)];
      }
    case OnReseed =>
      assert s.db.records + s.records == s.records;
    case _ =>
  }

  /** Every record's counts still add up after a hook, unless it is a claim whose leaf index aliases one
      already listed; and only then. */
  lemma StepAccounts(s: ExitState, h: Hook)
    requires Mirrored(s) && AllAccounted(s.records)
    ensures AllAccounted(Step(s, h).records) <==> !(h.OnSpent? && Aliases(s, h.sp))
  {
    match h
    case OnSpent(sp) =>
      if Hits(s, sp) {
        var rec := s.records[sp.oldRoot];
        var key := if rec.unclaimed > 1 then sp.newRoot else sp.oldRoot;
        AdvancedAccounted(rec, sp);
        assert Step(s, h).records[key] == Advanced(rec, sp);
      }
    case OnSpendReverted(sp, spent) =>
      var key := CarrierKey(s.records, sp);
      if key.Some? {
        RestoredAccounted(s.records[key.value], key.value, sp, spent);
      }
    case OnReseed =>
      assert s.db.records + s.records == s.records;
    case _ =>
  }

  /** Mirror equals store over every run of hooks, in any order and with any arguments. */
  lemma {:induction false} MirrorEqualsStore(s: ExitState, hooks: seq<Hook>)
    requires Mirrored(s)
    ensures Mirrored(StepAll(s, hooks))
    decreases |hooks|
  {
    if hooks != [] {
      StepMirrors(s, hooks[0]);
      MirrorEqualsStore(Step(s, hooks[0]), hooks[1..]);
    }
  }

  /** So long as no claimed leaf index exceeds 32 bits, counts add up over every run, in any order. */
  lemma {:induction false} CountsAddUp(s: ExitState, hooks: seq<Hook>)
    requires Mirrored(s) && AllAccounted(s.records)
    requires forall i :: 0 <= i < |hooks| ==> InRange(hooks[i])
    ensures AllAccounted(StepAll(s, hooks).records)
    decreases |hooks|
  {
    if hooks != [] {
      StepMirrors(s, hooks[0]);
      StepAccounts(s, hooks[0]);
      CountsAddUp(Step(s, hooks[0]), hooks[1..]);
    }
  }

  /** A cold mirror over a stored index becomes its mirror by reseeding. */
  lemma ReseedMirrors(db: Db)
    ensures Mirrored(Reseeded(ExitState(map[], None, db)))
  {
    assert db.records + map[] == db.records;
  }

  /** A replayed claim changes nothing, unless it keeps its record in place, leaves it live, and names a
      leaf beyond 32 bits. */
  lemma ReplayIsIdle(s: ExitState, sp: Spend)
    requires Mirrored(s)
    ensures Spent(Spent(s, sp), sp) == Spent(s, sp) <==>
            !(Hits(s, sp) && s.records[sp.oldRoot].unclaimed > 1 && sp.oldRoot == sp.newRoot
              && sp.leafIndex >= U32_LIMIT)
  {
    var s1 := Spent(s, sp);
    StepMirrors(s, OnSpent(sp));
    assert Mark(s1.db, sp).marks == s1.db.marks;
    if !Hits(s, sp) {
      assert s1.db.records - {sp.oldRoot} == s1.db.records || sp.oldRoot in s1.records;
    } else {
      ReplayOfHit(s, sp);
    }
  }

  lemma ReplayOfHit(s: ExitState, sp: Spend)
    requires Mirrored(s) && Hits(s, sp)
    ensures Spent(Spent(s, sp), sp) == Spent(s, sp) <==>
            !(s.records[sp.oldRoot].unclaimed > 1 && sp.oldRoot == sp.newRoot && sp.leafIndex >= U32_LIMIT)
  {
    var s1 := Spent(s, sp);
    StepMirrors(s, OnSpent(sp));
    assert Mark(s1.db, sp).marks == s1.db.marks;
    var rec := s.records[sp.oldRoot];
    var adv := Advanced(rec, sp);
    var n := |rec.emptied|;
    assert adv.emptied[n] in adv.emptied && adv.emptied[n].leafIndex == AsU32(sp.leafIndex);
    if rec.unclaimed > 1 && sp.oldRoot != sp.newRoot {
      assert sp.oldRoot !in s1.records && s1.db.records - {sp.oldRoot} == s1.db.records;
    } else {
      assert s1.records[sp.oldRoot] == adv;
      if rec.unclaimed > 1 && sp.leafIndex >= U32_LIMIT {
        assert !AlreadyEmptied(adv, sp.leafIndex);
        assert |Spent(s1, sp).records[sp.oldRoot].emptied| == n + 2;
      }
    }
  }

  /** A claim as the chain makes it moves its family's root, so replaying it is always idle. */
  lemma ReplayedClaimIsIdle(s: ExitState, sp: Spend)
    requires Mirrored(s) && KeysTrue(s.records) && FreshClaim(s, sp)
    ensures Spent(Spent(s, sp), sp) == Spent(s, sp)
  {
    FreshClaimMovesRoot(s, sp);
    ReplayIsIdle(s, sp);
  }

  // ---------- keys ----------

  /** The root a record must be keyed by: its tree with the emptied slots folded; a drained record
      keeps the key it had before its last claim. */
  function KeyOf(rec: ExitRecord): Hash {
    if rec.unclaimed > 0 || rec.emptied == [] then FamilyRoot(rec.leaves, Claimed(rec.emptied))
    else FamilyRoot(rec.leaves, Claimed(rec.emptied[..|rec.emptied| - 1]))
  }

  predicate KeysTrue(m: Records) {
    forall key :: key in m ==> key == KeyOf(m[key])
  }

  /** A claim as the chain makes it: a leaf of the record, and the true folded root after it. */
  predicate TrueClaim(rec: ExitRecord, sp: Spend) {
    && sp.leafIndex < |rec.leaves| <= U32_LIMIT
    && sp.newRoot == FamilyRoot(rec.leaves, Claimed(rec.emptied) + {sp.leafIndex})
  }

  lemma ClaimedAppend(emptied: seq<EmptiedLeaf>, e: EmptiedLeaf)
    ensures Claimed(emptied + [e]) == Claimed(emptied) + {e.leafIndex as nat}
  {
    var all := emptied + [e];
    forall x | x in Claimed(emptied) + {e.leafIndex as nat} ensures x in Claimed(all) {
      if x == e.leafIndex {
        assert all[|emptied|] == e;
      } else {
        var d :| d in emptied && d.leafIndex as nat == x;
        assert d in all;
      }
    }
  }

  /** A true claim keys the advanced record by the new root, or by its old key when it drains. */
  lemma AdvancedKey(rec: ExitRecord, sp: Spend)
    requires rec.unclaimed >= 1 && TrueClaim(rec, sp)
    ensures KeyOf(Advanced(rec, sp)) == if rec.unclaimed > 1 then sp.newRoot else KeyOf(rec)
  {
    var entry := EmptiedLeaf(AsU32(sp.leafIndex), sp.spendTxid, sp.deduct);
    ClaimedAppend(rec.emptied, entry);
    assert (rec.emptied + [entry])[..|rec.emptied|] == rec.emptied;
  }

  /** A claim of a live family's fresh leaf. */
  predicate FreshClaim(s: ExitState, sp: Spend) {
    Hits(s, sp) && TrueClaim(s.records[sp.oldRoot], sp)
  }

  lemma SpentKeepsKeys(s: ExitState, sp: Spend)
    requires KeysTrue(s.records)
    requires Hits(s, sp) ==> TrueClaim(s.records[sp.oldRoot], sp)
    ensures KeysTrue(Spent(s, sp).records)
  {
    if Hits(s, sp) {
      AdvancedKey(s.records[sp.oldRoot], sp);
    }
  }

  /** Out of order the key is lost: undoing the first of two claims that drained a family files the
      record under a root its tree no longer has. */
  lemma RevertOutOfOrderBreaksKey(s: ExitState, rec: ExitRecord, first: Spend, spent: Outpoint)
    requires |rec.leaves| == 2 && rec.unclaimed == 0 && |rec.emptied| == 2
    requires rec.emptied[0].leafIndex == 0 && rec.emptied[1].leafIndex == 1
    requires WasSpent(rec.emptied[0], first) && first.oldRoot == FamilyRoot(rec.leaves, {})
    requires first.oldRoot !in s.records && first.newRoot in s.records && s.records[first.newRoot] == rec
    ensures !KeysTrue(SpendReverted(s, first, spent).records)
  {
    assert rec.emptied[0] in rec.emptied;
    RetainRemovesOne(rec.emptied, 0, first);
    assert rec.emptied[..0] + rec.emptied[1..] == [rec.emptied[1]];
    var after := SpendReverted(s, first, spent).records;
    assert after[first.oldRoot].emptied == [rec.emptied[1]];
    assert Claimed([rec.emptied[1]]) == {1};
    ClaimMovesRoot(rec.leaves, {}, 1);
    assert {} + {1 as nat} == {1};
  }

  // ---------- the history of claims ----------

  predicate SameClaim(a: Spend, b: Spend) {
    a.leafIndex == b.leafIndex && a.spendTxid == b.spendTxid
  }

  /** The claims not yet reverted, oldest first: no transaction claims a leaf index twice. */
  predicate OneClaimEach(stack: seq<Spend>) {
    && (forall i :: 0 <= i < |stack| ==> stack[i].leafIndex < U32_LIMIT)
    && (forall i, j :: 0 <= i < j < |stack| ==> !SameClaim(stack[i], stack[j]))
  }

  /** `sp` made the last of these entries, on the tree the earlier ones had left. */
  predicate MadeLast(sp: Spend, leaves: seq<ExitLeaf>, emptied: seq<EmptiedLeaf>)
    requires emptied != []
  {
    var n := |emptied| - 1;
    && WasSpent(emptied[n], sp) && sp.leafIndex < |leaves|
    && sp.oldRoot == FamilyRoot(leaves, Claimed(emptied[..n]))
    && sp.newRoot == FamilyRoot(leaves, Claimed(emptied))
  }

  /** The entries were made by claims on the stack, in its order. */
  predicate Told(stack: seq<Spend>, leaves: seq<ExitLeaf>, emptied: seq<EmptiedLeaf>)
    decreases |emptied|
  {
    emptied == [] ||
    exists i :: 0 <= i < |stack| && MadeLast(stack[i], leaves, emptied)
                && Told(stack[..i], leaves, emptied[..|emptied| - 1])
  }

  predicate Story(stack: seq<Spend>, m: Records) {
    forall key :: key in m ==> Told(stack, m[key].leaves, m[key].emptied)
  }

  /** What holds of the index and the claims behind it. */
  predicate Chronicle(s: ExitState, stack: seq<Spend>) {
    && Mirrored(s) && AllAccounted(s.records) && KeysTrue(s.records)
    && OneClaimEach(stack) && Story(stack, s.records)
  }

  /** What the chain may report next: a settlement at any time; a claim that is new, or delivered again
      after the claims its record already holds; and the revert of the latest claim. */
  predicate Orderly(s: ExitState, stack: seq<Spend>, h: Hook) {
    match h
    case OnSpent(sp) =>
      && sp.leafIndex < U32_LIMIT
      && (sp in stack || forall i :: 0 <= i < |stack| ==> !SameClaim(stack[i], sp))
      && (Hits(s, sp) ==> TrueClaim(s.records[sp.oldRoot], sp) && InTurn(stack, s.records[sp.oldRoot], sp))
    case OnSpendReverted(sp, _) => stack != [] && sp == stack[|stack| - 1]
    case _ => true
  }

  /** A claim delivered again comes after the last one its record holds. */
  predicate InTurn(stack: seq<Spend>, rec: ExitRecord, sp: Spend) {
    rec.emptied != [] ==>
      forall i, j :: 0 <= i < |stack| && 0 <= j < |stack| && stack[i] == sp ==>
        WasSpent(rec.emptied[|rec.emptied| - 1], stack[j]) ==> j < i
  }

  function StackAfter(stack: seq<Spend>, h: Hook): seq<Spend> {
    match h
    case OnSpent(sp) => if sp in stack then stack else stack + [sp]
    case OnSpendReverted(_, _) => if stack == [] then stack else stack[..|stack| - 1]
    case _ => stack
  }

  predicate OrderlyRun(s: ExitState, stack: seq<Spend>, hooks: seq<Hook>)
    decreases |hooks|
  {
    hooks == [] ||
    (Orderly(s, stack, hooks[0]) && OrderlyRun(Step(s, hooks[0]), StackAfter(stack, hooks[0]), hooks[1..]))
  }

  function StackAfterAll(stack: seq<Spend>, hooks: seq<Hook>): seq<Spend>
    decreases |hooks|
  {
    if hooks == [] then stack else StackAfterAll(StackAfter(stack, hooks[0]), hooks[1..])
  }

  lemma ToldGrows(stack: seq<Spend>, sp: Spend, leaves: seq<ExitLeaf>, emptied: seq<EmptiedLeaf>)
    requires Told(stack, leaves, emptied)
    ensures Told(stack + [sp], leaves, emptied)
  {
    if emptied != [] {
      var i :| 0 <= i < |stack| && MadeLast(stack[i], leaves, emptied)
               && Told(stack[..i], leaves, emptied[..|emptied| - 1]);
      assert (stack + [sp])[i] == stack[i] && (stack + [sp])[..i] == stack[..i];
    }
  }

  /** Every entry was made by some claim on the stack. */
  lemma {:induction false} EntriesAreClaims(stack: seq<Spend>, leaves: seq<ExitLeaf>, emptied: seq<EmptiedLeaf>,
                                            k: nat)
    requires Told(stack, leaves, emptied) && k < |emptied|
    ensures emptied[k].leafIndex < |leaves|
    ensures exists i :: 0 <= i < |stack| && WasSpent(emptied[k], stack[i])
    decreases |emptied|
  {
    var n := |emptied| - 1;
    var i :| 0 <= i < |stack| && MadeLast(stack[i], leaves, emptied) && Told(stack[..i], leaves, emptied[..n]);
    if k < n {
      EntriesAreClaims(stack[..i], leaves, emptied[..n], k);
      var j :| 0 <= j < i && WasSpent(emptied[..n][k], stack[..i][j]);
      assert WasSpent(emptied[k], stack[j]);
    }
  }

  /** An entry the latest claim made is its record's last, and the others are older. */
  lemma LatestIsLast(stack: seq<Spend>, leaves: seq<ExitLeaf>, emptied: seq<EmptiedLeaf>, k: nat)
    requires OneClaimEach(stack) && stack != [] && Told(stack, leaves, emptied) && k < |emptied|
    requires WasSpent(emptied[k], stack[|stack| - 1])
    ensures k == |emptied| - 1 && MadeLast(stack[|stack| - 1], leaves, emptied)
    ensures Told(stack[..|stack| - 1], leaves, emptied[..k])
  {
    var n, top := |emptied| - 1, |stack| - 1;
    var i :| 0 <= i < |stack| && MadeLast(stack[i], leaves, emptied) && Told(stack[..i], leaves, emptied[..n]);
    if k < n {
      EntriesAreClaims(stack[..i], leaves, emptied[..n], k);
      var j :| 0 <= j < i && WasSpent(emptied[..n][k], stack[..i][j]);
      assert SameClaim(stack[j], stack[top]);
    } else if i != top {
      assert SameClaim(stack[i], stack[top]);
    }
  }

  /** A record without an entry of the latest claim does not need it. */
  lemma ToldWithoutLatest(stack: seq<Spend>, leaves: seq<ExitLeaf>, emptied: seq<EmptiedLeaf>)
    requires stack != [] && Told(stack, leaves, emptied)
    requires forall e :: e in emptied ==> !WasSpent(e, stack[|stack| - 1])
    ensures Told(stack[..|stack| - 1], leaves, emptied)
  {
    if emptied != [] {
      var n, rest := |emptied| - 1, stack[..|stack| - 1];
      var i :| 0 <= i < |stack| && MadeLast(stack[i], leaves, emptied) && Told(stack[..i], leaves, emptied[..n]);
      assert emptied[n] in emptied;
      assert rest[i] == stack[i] && rest[..i] == stack[..i];
    }
  }

  // ---------- claims ----------

  /** What a claim that hits writes is told by the stack that holds it. */
  lemma AdvancedIsTold(s: ExitState, stack: seq<Spend>, sp: Spend)
    requires Chronicle(s, stack) && Orderly(s, stack, OnSpent(sp)) && Hits(s, sp)
    ensures var rec := s.records[sp.oldRoot];
            Told(StackAfter(stack, OnSpent(sp)), rec.leaves, Advanced(rec, sp).emptied)
  {
    var rec := s.records[sp.oldRoot];
    var after := StackAfter(stack, OnSpent(sp));
    var i := if sp in stack then StackIndex(stack, sp) else |stack|;
    var n := |rec.emptied|;
    var emptied := Advanced(rec, sp).emptied;
    AdvancedIsMadeLast(s, sp);
    assert emptied[..n] == rec.emptied && after[i] == sp;
    if sp in stack {
      ToldBefore(stack, i, rec);
    } else {
      assert after[..i] == stack;
    }
    assert Told(after[..i], rec.leaves, emptied[..n]);
  }

  lemma AdvancedIsMadeLast(s: ExitState, sp: Spend)
    requires KeysTrue(s.records) && FreshClaim(s, sp)
    ensures var rec := s.records[sp.oldRoot]; MadeLast(sp, rec.leaves, Advanced(rec, sp).emptied)
  {
    var rec := s.records[sp.oldRoot];
    var n := |rec.emptied|;
    var emptied := Advanced(rec, sp).emptied;
    ClaimedAppend(rec.emptied, emptied[n]);
    assert emptied[..n] == rec.emptied && emptied == rec.emptied + [emptied[n]];
  }

  ghost function StackIndex(stack: seq<Spend>, sp: Spend): (i: nat)
    requires sp in stack
    ensures i < |stack| && stack[i] == sp
  {
    var i :| 0 <= i < |stack| && stack[i] == sp;
    i
  }

  /** Whose last entry is older than position `i` is told by the stack below `i`. */
  lemma ToldBefore(stack: seq<Spend>, i: nat, rec: ExitRecord)
    requires i < |stack| && Told(stack, rec.leaves, rec.emptied) && InTurn(stack, rec, stack[i])
    ensures Told(stack[..i], rec.leaves, rec.emptied)
  {
    if rec.emptied != [] {
      var n := |rec.emptied| - 1;
      var j :| 0 <= j < |stack| && MadeLast(stack[j], rec.leaves, rec.emptied)
               && Told(stack[..j], rec.leaves, rec.emptied[..n]);
      assert j < i;
      assert stack[..i][j] == stack[j] && stack[..i][..j] == stack[..j];
    }
  }

  lemma SpentKeepsStory(s: ExitState, stack: seq<Spend>, sp: Spend)
    requires Chronicle(s, stack) && Orderly(s, stack, OnSpent(sp))
    ensures Story(StackAfter(stack, OnSpent(sp)), Spent(s, sp).records)
  {
    var after := StackAfter(stack, OnSpent(sp));
    if Hits(s, sp) {
      AdvancedIsTold(s, stack, sp);
    }
    forall key | key in s.records ensures Told(after, s.records[key].leaves, s.records[key].emptied) {
      if sp !in stack {
        ToldGrows(stack, sp, s.records[key].leaves, s.records[key].emptied);
      }
    }
  }

  // ---------- reverts ----------

  /** How many leaves a tree of hashes still holds. */
  function LeafCount(h: Hash): nat {
    match h
    case EmptyHash => 0
    case LeafHash(_) => 1
    case BranchHash(l, r) => LeafCount(l) + LeafCount(r)
    case ForeignHash(_) => 0
  }

  function LevelCount(level: seq<Hash>): nat {
    if level == [] then 0 else LevelCount(level[..|level| - 1]) + LeafCount(level[|level| - 1])
  }

  lemma {:induction false} LevelCountJoin(a: seq<Hash>, b: seq<Hash>)
    ensures LevelCount(a + b) == LevelCount(a) + LevelCount(b)
  {
    if b == [] {
      assert a + b == a;
    } else {
      LevelCountJoin(a, b[..|b| - 1]);
      assert (a + b)[..|a + b| - 1] == a + b[..|b| - 1];
    }
  }

  lemma {:induction false} RootCounts(level: seq<Hash>, d: nat)
    requires IsLevel(level, d)
    ensures LeafCount(Root(level, d)) == LevelCount(level)
    decreases d
  {
    if d == 0 {
      assert level[..0] == [];
    } else {
      var half := Pow2(d - 1);
      RootCounts(level[..half], d - 1);
      RootCounts(level[half..], d - 1);
      LevelCountJoin(level[..half], level[half..]);
      assert level == level[..half] + level[half..];
    }
  }

  lemma {:induction false} EmptiedSlotCounts(level: seq<Hash>, i: nat)
    requires i < |level|
    ensures LevelCount(level[i := EmptyHash]) == LevelCount(level) - LeafCount(level[i])
  {
    var n := |level| - 1;
    var after := level[i := EmptyHash];
    if i < n {
      EmptiedSlotCounts(level[..n], i);
      assert after[..n] == level[..n][i := EmptyHash];
    } else {
      assert after[..n] == level[..n];
    }
  }

  /** Padding counts nothing. */
  lemma {:induction false} FreshSlotsCount(leaves: seq<ExitLeaf>, level: seq<Hash>)
    requires forall i :: 0 <= i < |level| ==> level[i] == SlotHash(leaves, {}, i)
    ensures LevelCount(level) == if |level| <= |leaves| then |level| else |leaves|
  {
    if level != [] {
      FreshSlotsCount(leaves, level[..|level| - 1]);
    }
  }

  /** A family's root holds exactly its unclaimed leaves. */
  lemma {:induction false} FamilyRootCounts(leaves: seq<ExitLeaf>, emptied: seq<EmptiedLeaf>)
    requires DistinctLeaves(emptied)
    requires forall k :: 0 <= k < |emptied| ==> emptied[k].leafIndex < |leaves|
    ensures LeafCount(FamilyRoot(leaves, Claimed(emptied))) == |leaves| - |emptied|
    decreases |emptied|
  {
    var d := RequiredDepth(|leaves|);
    RootCounts(Slots(leaves, Claimed(emptied)), d);
    if emptied == [] {
      assert Claimed(emptied) == {};
      FreshSlotsCount(leaves, Slots(leaves, {}));
    } else {
      var n := |emptied| - 1;
      var init, i := emptied[..n], emptied[n].leafIndex as nat;
      FamilyRootCounts(leaves, init);
      RootCounts(Slots(leaves, Claimed(init)), d);
      ClaimedAppend(init, emptied[n]);
      assert emptied == init + [emptied[n]];
      ClaimEmptiesSlot(leaves, Claimed(init), i);
      EmptiedSlotCounts(Slots(leaves, Claimed(init)), i);
      NotYetClaimed(emptied);
    }
  }

  lemma NotYetClaimed(emptied: seq<EmptiedLeaf>)
    requires DistinctLeaves(emptied) && emptied != []
    ensures emptied[|emptied| - 1].leafIndex as nat !in Claimed(emptied[..|emptied| - 1])
  {
  }

  /** A record with an entry of the latest claim: the claim made its last entry, the earlier ones are
      older, and it sits where that claim put it. */
  lemma CarrierIsLatest(s: ExitState, stack: seq<Spend>, key: Hash)
    requires Chronicle(s, stack) && stack != [] && Carries(s.records, key, stack[|stack| - 1])
    ensures var rec, sp := s.records[key], stack[|stack| - 1];
      && rec.emptied != [] && MadeLast(sp, rec.leaves, rec.emptied)
      && Told(stack[..|stack| - 1], rec.leaves, rec.emptied[..|rec.emptied| - 1])
      && Retain(rec.emptied, sp) == rec.emptied[..|rec.emptied| - 1]
      && key == (if rec.unclaimed > 0 then sp.newRoot else sp.oldRoot)
      && LeafCount(sp.oldRoot) == rec.unclaimed + 1 && LeafCount(sp.newRoot) == rec.unclaimed
  {
    var rec, sp := s.records[key], stack[|stack| - 1];
    var e :| e in rec.emptied && WasSpent(e, sp);
    var k :| 0 <= k < |rec.emptied| && rec.emptied[k] == e;
    LatestIsLast(stack, rec.leaves, rec.emptied, k);
    RetainRemovesOne(rec.emptied, k, sp);
    assert rec.emptied[..k] + rec.emptied[k + 1..] == rec.emptied[..k];
    forall j | 0 <= j < |rec.emptied| ensures rec.emptied[j].leafIndex < |rec.leaves| {
      EntriesAreClaims(stack, rec.leaves, rec.emptied, j);
    }
    FamilyRootCounts(rec.leaves, rec.emptied);
    FamilyRootCounts(rec.leaves, rec.emptied[..k]);
  }

  /** Only the record the revert finds has an entry of the claim it undoes. */
  lemma OneCarrier(s: ExitState, stack: seq<Spend>, key: Hash)
    requires Chronicle(s, stack) && stack != [] && Carries(s.records, key, stack[|stack| - 1])
    ensures CarrierKey(s.records, stack[|stack| - 1]) == Some(key)
  {
    var sp := stack[|stack| - 1];
    CarrierIsLatest(s, stack, key);
    if Carries(s.records, sp.oldRoot, sp) {
      CarrierIsLatest(s, stack, sp.oldRoot);
    }
  }

  /** Undoing the latest claim keeps every key true: the restored record goes back under the root its tree
      had before the claim, as the stack tells. */
  lemma RevertKeepsKeys(s: ExitState, stack: seq<Spend>, sp: Spend, spent: Outpoint)
    requires Chronicle(s, stack) && stack != [] && sp == stack[|stack| - 1]
    ensures KeysTrue(SpendReverted(s, sp, spent).records)
    ensures Story(stack[..|stack| - 1], SpendReverted(s, sp, spent).records)
  {
    var carrier := CarrierKey(s.records, sp);
    if carrier.Some? {
      CarrierIsLatest(s, stack, carrier.value);
    }
    forall key | key in s.records && carrier != Some(key)
      ensures Told(stack[..|stack| - 1], s.records[key].leaves, s.records[key].emptied)
    {
      if Carries(s.records, key, sp) {
        OneCarrier(s, stack, key);
      } else {
        ToldWithoutLatest(stack, s.records[key].leaves, s.records[key].emptied);
      }
    }
  }

  lemma StackStaysDistinct(s: ExitState, stack: seq<Spend>, h: Hook)
    requires OneClaimEach(stack) && Orderly(s, stack, h)
    ensures OneClaimEach(StackAfter(stack, h))
  {
  }

  lemma SettlementKeepsStory(s: ExitState, stack: seq<Spend>, b: Bundle, info: SettlementInfo)
    requires KeysTrue(s.records) && Story(stack, s.records)
    ensures KeysTrue(Committed(s, b, info).records) && Story(stack, Committed(s, b, info).records)
  {
    assert Claimed([]) == {};
  }

  lemma StepKeepsStory(s: ExitState, stack: seq<Spend>, h: Hook)
    requires Chronicle(s, stack) && Orderly(s, stack, h)
    ensures KeysTrue(Step(s, h).records) && Story(StackAfter(stack, h), Step(s, h).records)
  {
    match h
    case OnSpent(sp) =>
      SpentKeepsKeys(s, sp);
      SpentKeepsStory(s, stack, sp);
    case OnSpendReverted(sp, spent) => RevertKeepsKeys(s, stack, sp, spent);
    case OnCommitted(b, info) => SettlementKeepsStory(s, stack, b, info);
    case OnRecommitted(b, info) => SettlementKeepsStory(s, stack, b, info);
    case OnReseed => assert s.db.records + s.records == s.records;
    case _ =>
  }

  lemma InRangeNeverAliases(s: ExitState, sp: Spend)
    requires sp.leafIndex < U32_LIMIT
    ensures !Aliases(s, sp)
  {
  }

  lemma StepKeepsChronicle(s: ExitState, stack: seq<Spend>, h: Hook)
    requires Chronicle(s, stack) && Orderly(s, stack, h)
    ensures Chronicle(Step(s, h), StackAfter(stack, h))
  {
    if h.OnSpent? {
      InRangeNeverAliases(s, h.sp);
    }
    StepMirrors(s, h);
    StepAccounts(s, h);
    StackStaysDistinct(s, stack, h);
    StepKeepsStory(s, stack, h);
  }

  /** Family keys stay true over every run of settlements, claims, last-in-first-out reverts and restarts:
      the order is that of the claims themselves, and the roots follow from it. */
  lemma {:induction false} KeysStayTrue(s: ExitState, stack: seq<Spend>, hooks: seq<Hook>)
    requires Chronicle(s, stack) && OrderlyRun(s, stack, hooks)
    ensures Chronicle(StepAll(s, hooks), StackAfterAll(stack, hooks))
    decreases |hooks|
  {
    if hooks != [] {
      StepKeepsChronicle(s, stack, hooks[0]);
      KeysStayTrue(Step(s, hooks[0]), StackAfter(stack, hooks[0]), hooks[1..]);
    }
  }

  /** Every emptied entry names a leaf of its family. */
  predicate LeavesInside(m: Records) {
    forall r, e :: r in m && e in m[r].emptied ==> e.leafIndex < |m[r].leaves|
  }

  const EMPTY_INDEX := ExitState(map[], None, Db(map[], map[], None))

  /** From the empty index: every key is true, and every emptied leaf is one of its family's. */
  lemma KeysAreTrue(hooks: seq<Hook>)
    requires OrderlyRun(EMPTY_INDEX, [], hooks)
    ensures var s := StepAll(EMPTY_INDEX, hooks);
      Mirrored(s) && AllAccounted(s.records) && KeysTrue(s.records) && LeavesInside(s.db.records)
  {
    KeysStayTrue(EMPTY_INDEX, [], hooks);
    var s, stack := StepAll(EMPTY_INDEX, hooks), StackAfterAll([], hooks);
    forall r, e | r in s.db.records && e in s.db.records[r].emptied ensures e.leafIndex < |s.db.records[r].leaves| {
      var rec := s.records[r];
      var k :| 0 <= k < |rec.emptied| && rec.emptied[k] == e;
      EntriesAreClaims(stack, rec.leaves, rec.emptied, k);
    }
  }

  // ---------- reorgs ----------

  /** What the store must look like before the claim for its revert to restore it: no stale mark
      under the same key and, when the record moves, nobody under the new root and the true prior
      outpoint handed to the revert. */
  predicate Undoable(s: ExitState, sp: Spend, spent: Outpoint)
    requires sp.oldRoot in s.records
  {
    && MarkKey(sp) !in s.db.marks
    && (s.records[sp.oldRoot].unclaimed > 1 ==>
          sp.newRoot !in s.records && spent == s.records[sp.oldRoot].Anchor())
  }

  lemma ClaimedIsEmptied(rec: ExitRecord, i: nat)
    ensures i in Claimed(rec.emptied) <==> AlreadyEmptied(rec, i)
  {
  }

  lemma FreshClaimMovesRoot(s: ExitState, sp: Spend)
    requires KeysTrue(s.records) && FreshClaim(s, sp)
    ensures sp.newRoot != sp.oldRoot
  {
    var rec := s.records[sp.oldRoot];
    ClaimedIsEmptied(rec, sp.leafIndex);
    ClaimMovesRoot(rec.leaves, Claimed(rec.emptied), sp.leafIndex);
  }

  lemma UndoneRecord(rec: ExitRecord, key: Hash, sp: Spend, spent: Outpoint)
    requires Accounted(rec) && rec.unclaimed >= 1 && sp.leafIndex < U32_LIMIT && !AlreadyEmptied(rec, sp.leafIndex)
    requires sp.newRoot != sp.oldRoot && key == (if rec.unclaimed > 1 then sp.newRoot else sp.oldRoot)
    ensures var adv := Advanced(rec, sp);
            && (exists e :: e in adv.emptied && WasSpent(e, sp))
            && Restored(adv, key, sp, spent) ==
               (if rec.unclaimed > 1 then rec.(settlementTxid := spent.txid, outpointIndex := spent.index) else rec)
  {
    var adv := Advanced(rec, sp);
    var n := |rec.emptied|;
    AdvancedAccounted(rec, sp);
    assert adv.emptied[n] in adv.emptied && WasSpent(adv.emptied[n], sp);
    RetainRemovesOne(adv.emptied, n, sp);
    assert adv.emptied[..n] + adv.emptied[n + 1..] == rec.emptied;
  }

  /** Where the claim put the record, and so where its revert finds it. */
  lemma RevertFindsTheRecord(s: ExitState, sp: Spend)
    requires AllAccounted(s.records) && KeysTrue(s.records) && FreshClaim(s, sp)
    ensures CarrierKey(Spent(s, sp).records, sp) ==
            Some(if s.records[sp.oldRoot].unclaimed > 1 then sp.newRoot else sp.oldRoot)
  {
    FreshClaimMovesRoot(s, sp);
    var rec := s.records[sp.oldRoot];
    var key := if rec.unclaimed > 1 then sp.newRoot else sp.oldRoot;
    UndoneRecord(rec, key, sp, rec.Anchor());
    assert Spent(s, sp).records[key] == Advanced(rec, sp);
  }

  /** Exit reorgs undo exactly: reverting a fresh claim restores mirror, stored records and marks,
      anchors and claim order included, if and only if the claim was undoable. */
  lemma RevertUndoesClaim(s: ExitState, sp: Spend, spent: Outpoint)
    requires Mirrored(s) && AllAccounted(s.records) && KeysTrue(s.records) && FreshClaim(s, sp)
    ensures SpendReverted(Spent(s, sp), sp, spent) == s <==> Undoable(s, sp, spent)
  {
    FreshClaimMovesRoot(s, sp);
    RevertFindsTheRecord(s, sp);
    var rec := s.records[sp.oldRoot];
    var key := if rec.unclaimed > 1 then sp.newRoot else sp.oldRoot;
    UndoneRecord(rec, key, sp, spent);
    var back := Restored(Advanced(rec, sp), key, sp, spent);
    var end := SpendReverted(Spent(s, sp), sp, spent);
    assert end.records == Rekey(Rekey(s.records, sp.oldRoot, key, Advanced(rec, sp)), key, sp.oldRoot, back);
    RekeyTwice(s.records, sp.oldRoot, key, Advanced(rec, sp), back);
    MarksUndone(s.db, sp);
    StepMirrors(s, OnSpent(sp));
    StepMirrors(Spent(s, sp), OnSpendReverted(sp, spent));
    assert end.latest == s.latest && end.db.latest == s.db.latest;
  }

  lemma RekeyTwice(m: Records, from: Hash, to: Hash, moved: ExitRecord, back: ExitRecord)
    requires from in m
    ensures Rekey(Rekey(m, from, to, moved), to, from, back) == m <==>
            back == m[from] && (from != to ==> to !in m)
  {
    var r := Rekey(Rekey(m, from, to, moved), to, from, back);
    assert r[from] == back;
    if back == m[from] && (from != to ==> to !in m) {
      assert r.Keys == m.Keys;
      assert forall k :: k in m ==> r[k] == m[k];
    } else if from != to && to in m {
      assert to !in r;
    }
  }

  lemma MarksUndone(db: Db, sp: Spend)
    ensures Unmark(Mark(db, sp), sp).marks == db.marks <==> MarkKey(sp) !in db.marks
  {
    if MarkKey(sp) in db.marks {
      assert MarkKey(sp) !in Unmark(Mark(db, sp), sp).marks;
    } else {
      assert Unmark(Mark(db, sp), sp).marks == db.marks;
    }
  }

  /** A run of claims, each fresh and undoable in the state it meets. */
  predicate UndoableRun(s: ExitState, claims: seq<(Spend, Outpoint)>)
    decreases |claims|
  {
    claims == [] ||
    (FreshClaim(s, claims[0].0) && Undoable(s, claims[0].0, claims[0].1)
     && UndoableRun(Spent(s, claims[0].0), claims[1..]))
  }

  function Claims(s: ExitState, claims: seq<(Spend, Outpoint)>): ExitState
    decreases |claims|
  {
    if claims == [] then s else Claims(Spent(s, claims[0].0), claims[1..])
  }

  /** The reverts of the claims, last first. */
  function Unwind(s: ExitState, claims: seq<(Spend, Outpoint)>): ExitState {
    if claims == [] then s
    else SpendReverted(Unwind(s, claims[1..]), claims[0].0, claims[0].1)
  }

  /** Any sequence of claims followed by its reverts in reverse order leaves the index as it was. */
  lemma {:induction false} UnwindRestores(s: ExitState, claims: seq<(Spend, Outpoint)>)
    requires Mirrored(s) && AllAccounted(s.records) && KeysTrue(s.records) && UndoableRun(s, claims)
    ensures Unwind(Claims(s, claims), claims) == s
    decreases |claims|
  {
    if claims != [] {
      ClaimKeeps(s, claims[0].0);
      UnwindRestores(Spent(s, claims[0].0), claims[1..]);
      RevertUndoesClaim(s, claims[0].0, claims[0].1);
    }
  }

  lemma ClaimKeeps(s: ExitState, sp: Spend)
    requires Mirrored(s) && AllAccounted(s.records) && KeysTrue(s.records) && FreshClaim(s, sp)
    ensures var s1 := Spent(s, sp); Mirrored(s1) && AllAccounted(s1.records) && KeysTrue(s1.records)
  {
    InRangeNeverAliases(s, sp);
    StepMirrors(s, OnSpent(sp));
    StepAccounts(s, OnSpent(sp));
    SpentKeepsKeys(s, sp);
  }

  /** Why the new root must be free: claiming the second leaf of a two-leaf family lands on the key
      of a fresh family of the first leaf alone, overwrites it, and the revert leaves that key empty. */
  lemma CollisionLosesAFamily(s: ExitState, sp: Spend, spent: Outpoint, two: ExitRecord)
    requires Mirrored(s) && AllAccounted(s.records) && KeysTrue(s.records) && FreshClaim(s, sp)
    requires s.records[sp.oldRoot] == two && |two.leaves| == 2 && two.emptied == [] && sp.leafIndex == 1
    requires FamilyRoot([two.leaves[0]], {}) in s.records
    ensures var lost, end := FamilyRoot([two.leaves[0]], {}), SpendReverted(Spent(s, sp), sp, spent);
      && sp.newRoot == lost && Spent(s, sp).records[lost] == Advanced(two, sp)
      && lost !in end.records && lost !in end.db.records
  {
    assert Claimed(two.emptied) + {1 as nat} == {1};
    assert two.leaves == [two.leaves[0], two.leaves[1]];
    RootsCollideAcrossFamilies(two.leaves[0], two.leaves[1]);
    FreshClaimMovesRoot(s, sp);
    RevertFindsTheRecord(s, sp);
    StepMirrors(s, OnSpent(sp));
    StepMirrors(Spent(s, sp), OnSpendReverted(sp, spent));
  }
}
