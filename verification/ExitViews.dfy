/** The Merkle data served for every stored family: built level by level with the emptied slots folded
    to the empty hash. */
module ExitViews {
  import opened Prelude
  import opened ExitTree
  import opened ExitIndex
  import opened ExitIndexProofs
  import opened ExitIndexer

  datatype ExitView = ExitView(
    root: Hash,
    record: ExitRecord,
    spent: seq<Option<EmptiedLeaf>>,
    depth: nat,
    siblings: seq<seq<Hash>>,
    fullClaimRoots: seq<Hash>)

  /** What a served view promises about its family's tree with the emptied slots folded. */
  ghost predicate Truthful(v: ExitView) {
    var rec := v.record;
    var n := |rec.leaves|;
    var claimed := Claimed(rec.emptied);
    && |v.spent| == |v.siblings| == |v.fullClaimRoots| == n
    && v.depth == RequiredDepth(n)
    && (forall i :: 0 <= i < n ==> (v.spent[i].Some? <==> i in claimed))
    && (forall i :: 0 <= i < n && v.spent[i].Some? ==>
          v.spent[i].value in rec.emptied && v.spent[i].value.leafIndex == i)
    // Every leaf's hash verifies against the current root along the siblings served for it.
    && (forall i :: 0 <= i < n ==>
          Fold(SlotHash(rec.leaves, claimed, i), i, v.siblings[i]) == FamilyRoot(rec.leaves, claimed))
    // The served post-claim root is the root of the tree rebuilt with that slot emptied too.
    && (forall i :: 0 <= i < n ==> v.fullClaimRoots[i] == FamilyRoot(rec.leaves, claimed + {i}))
  }

  /** The levels of a tree, leaves first. */
  predicate LevelsOf(levels: seq<seq<Hash>>, slots: seq<Hash>, depth: nat) {
    && |levels| == depth + 1
    && levels[0] == slots
    && (forall j :: 0 <= j <= depth ==> IsLevel(levels[j], depth - j))
    && (forall j :: 0 <= j < depth ==> |levels[j]| % 2 == 0 && levels[j + 1] == Up(levels[j]))
  }

  /** Whether slot `i` is among the emptied leaves. */
  method IsEmptiedSlot(emptied: seq<EmptiedLeaf>, i: nat) returns (found: bool)
    ensures found <==> i in Claimed(emptied)
  {
    for j := 0 to |emptied|
      invariant forall k :: 0 <= k < j ==> emptied[k].leafIndex != i
    {
      if emptied[j].leafIndex == i {
        return true;
      }
    }
    found := false;
  }

  /** Level 0 over the padded capacity. */
  method BuildSlots(rec: ExitRecord, depth: nat) returns (level: seq<Hash>)
    requires depth == RequiredDepth(|rec.leaves|)
    ensures level == Slots(rec.leaves, Claimed(rec.emptied))
  {
    level := [];
    for i := 0 to Pow2(depth)
      invariant |level| == i
      invariant forall k :: 0 <= k < i ==> level[k] == SlotHash(rec.leaves, Claimed(rec.emptied), k)
    {
      var emptied := IsEmptiedSlot(rec.emptied, i);
      level := level + [if i < |rec.leaves| && !emptied then LeafHash(rec.leaves[i]) else EmptyHash];
    }
  }

  method NextLevel(prev: seq<Hash>) returns (next: seq<Hash>)
    requires |prev| % 2 == 0
    ensures next == Up(prev)
  {
    next := [];
    for i := 0 to |prev| / 2
      invariant |next| == i
      invariant forall k :: 0 <= k < i ==> next[k] == BranchHash(prev[2 * k], prev[2 * k + 1])
    {
      next := next + [BranchHash(prev[2 * i], prev[2 * i + 1])];
    }
  }

  method BuildLevels(slots: seq<Hash>, depth: nat) returns (levels: seq<seq<Hash>>)
    requires IsLevel(slots, depth)
    ensures LevelsOf(levels, slots, depth)
  {
    levels := [slots];
    for d := 0 to depth
      invariant |levels| == d + 1 && levels[0] == slots
      invariant forall j :: 0 <= j <= d ==> IsLevel(levels[j], depth - j)
      invariant forall j :: 0 <= j < d ==> |levels[j]| % 2 == 0 && levels[j + 1] == Up(levels[j])
    {
      assert IsLevel(levels[d], depth - d) && Pow2(depth - d) == 2 * Pow2(depth - d - 1);
      var next := NextLevel(levels[d]);
      levels := levels + [next];
    }
  }

  /** The sibling path of slot `i`, read off the levels bottom-up. */
  method SiblingPath(levels: seq<seq<Hash>>, depth: nat, i: nat) returns (path: seq<Hash>)
    requires |levels| == depth + 1 && LevelsOf(levels, levels[0], depth) && i < |levels[0]|
    ensures path == Path(levels[0], depth, i)
  {
    path := [];
    var idx: nat := i;
    for j := 0 to depth
      invariant idx < |levels[j]|
      invariant path + Path(levels[j], depth - j, idx) == Path(levels[0], depth, i)
    {
      StepUp(levels, depth, j, idx);
      var sibling := levels[j][Sibling(idx)];
      assert path + ([sibling] + Path(levels[j + 1], depth - j - 1, idx / 2))
          == (path + [sibling]) + Path(levels[j + 1], depth - j - 1, idx / 2);
      path := path + [sibling];
      idx := idx / 2;
    }
  }

  lemma StepUp(levels: seq<seq<Hash>>, depth: nat, j: nat, idx: nat)
    requires |levels| == depth + 1 && LevelsOf(levels, levels[0], depth) && j < depth && idx < |levels[j]|
    ensures |levels[j]| == 2 * |levels[j + 1]| && idx / 2 < |levels[j + 1]| && Sibling(idx) < |levels[j]|
    ensures IsLevel(levels[j], depth - j) && IsLevel(levels[j + 1], depth - j - 1)
    ensures Path(levels[j], depth - j, idx) == [levels[j][Sibling(idx)]] + Path(levels[j + 1], depth - j - 1, idx / 2)
  {
    assert IsLevel(levels[j], depth - j);
    assert levels[j + 1] == Up(levels[j]);
  }

  /** The root after emptying slot `i`, folded from the empty hash. */
  method FullClaimRoot(levels: seq<seq<Hash>>, depth: nat, i: nat) returns (current: Hash)
    requires |levels| == depth + 1 && LevelsOf(levels, levels[0], depth) && i < |levels[0]|
    ensures current == Fold(EmptyHash, i, Path(levels[0], depth, i))
  {
    current := EmptyHash;
    var idx: nat := i;
    for j := 0 to depth
      invariant idx < |levels[j]|
      invariant Fold(current, idx, Path(levels[j], depth - j, idx)) == Fold(EmptyHash, i, Path(levels[0], depth, i))
    {
      StepUp(levels, depth, j, idx);
      var sibling := levels[j][Sibling(idx)];
      current := if idx % 2 == 0 then BranchHash(current, sibling) else BranchHash(sibling, current);
      idx := idx / 2;
    }
  }

  /** The claimed leaves by position; the source indexes by them, so they must be in range. */
  method SpentByPosition(rec: ExitRecord) returns (spent: seq<Option<EmptiedLeaf>>)
    requires forall e :: e in rec.emptied ==> e.leafIndex < |rec.leaves|
    ensures |spent| == |rec.leaves|
    ensures forall i :: 0 <= i < |spent| ==> (spent[i].Some? <==> i in Claimed(rec.emptied))
    ensures forall i :: 0 <= i < |spent| && spent[i].Some? ==>
              spent[i].value in rec.emptied && spent[i].value.leafIndex == i
  {
    spent := seq(|rec.leaves|, _ => None);
    for j := 0 to |rec.emptied|
      invariant |spent| == |rec.leaves|
      invariant forall i :: 0 <= i < |spent| ==> (spent[i].Some? <==> i in Claimed(rec.emptied[..j]))
      invariant forall i :: 0 <= i < |spent| && spent[i].Some? ==>
                  spent[i].value in rec.emptied && spent[i].value.leafIndex == i
    {
      var e := rec.emptied[j];
      assert e in rec.emptied;
      assert rec.emptied[..j + 1] == rec.emptied[..j] + [e];
      assert forall x :: x in Claimed(rec.emptied[..j + 1]) <==> x in Claimed(rec.emptied[..j]) || x == e.leafIndex;
      spent := spent[e.leafIndex := Some(e)];
    }
    assert rec.emptied[..|rec.emptied|] == rec.emptied;
  }

  /** The sibling path of every leaf. */
  method AllSiblings(rec: ExitRecord, levels: seq<seq<Hash>>) returns (siblings: seq<seq<Hash>>)
    requires LevelsOf(levels, Slots(rec.leaves, Claimed(rec.emptied)), RequiredDepth(|rec.leaves|))
    ensures |siblings| == |rec.leaves|
    ensures forall i :: 0 <= i < |siblings| ==>
              Fold(SlotHash(rec.leaves, Claimed(rec.emptied), i), i, siblings[i])
              == FamilyRoot(rec.leaves, Claimed(rec.emptied))
  {
    siblings := [];
    for i := 0 to |rec.leaves|
      invariant |siblings| == i
      invariant forall k :: 0 <= k < i ==>
                  Fold(SlotHash(rec.leaves, Claimed(rec.emptied), k), k, siblings[k])
                  == FamilyRoot(rec.leaves, Claimed(rec.emptied))
    {
      SlotVerifies(rec.leaves, Claimed(rec.emptied), i);
      var path := SiblingPath(levels, RequiredDepth(|rec.leaves|), i);
      siblings := siblings + [path];
    }
  }

  method ClaimRoot(rec: ExitRecord, levels: seq<seq<Hash>>, i: nat) returns (root: Hash)
    requires LevelsOf(levels, Slots(rec.leaves, Claimed(rec.emptied)), RequiredDepth(|rec.leaves|))
    requires i < |rec.leaves|
    ensures root == FamilyRoot(rec.leaves, Claimed(rec.emptied) + {i})
  {
    PostClaimRoot(rec.leaves, Claimed(rec.emptied), i);
    root := FullClaimRoot(levels, RequiredDepth(|rec.leaves|), i);
  }

  /** The post-claim root of every leaf. */
  method AllClaimRoots(rec: ExitRecord, levels: seq<seq<Hash>>) returns (roots: seq<Hash>)
    requires LevelsOf(levels, Slots(rec.leaves, Claimed(rec.emptied)), RequiredDepth(|rec.leaves|))
    ensures |roots| == |rec.leaves|
    ensures forall i :: 0 <= i < |roots| ==> roots[i] == FamilyRoot(rec.leaves, Claimed(rec.emptied) + {i})
  {
    roots := [];
    for i := 0 to |rec.leaves|
      invariant |roots| == i
      invariant forall k :: 0 <= k < i ==> roots[k] == FamilyRoot(rec.leaves, Claimed(rec.emptied) + {k})
    {
      var root := ClaimRoot(rec, levels, i);
      roots := roots + [root];
    }
  }

  /** One family's view. */
  method ViewOf(root: Hash, rec: ExitRecord) returns (v: ExitView)
    requires forall e :: e in rec.emptied ==> e.leafIndex < |rec.leaves|
    ensures v.root == root && v.record == rec && Truthful(v)
  {
    var depth := RequiredDepth(|rec.leaves|);
    var slots := BuildSlots(rec, depth);
    var levels := BuildLevels(slots, depth);
    var spent := SpentByPosition(rec);
    var siblings := AllSiblings(rec, levels);
    var fullClaimRoots := AllClaimRoots(rec, levels);
    v := ExitView(root, rec, spent, depth, siblings, fullClaimRoots);
  }

  /** With true keys, what is served for a live family verifies against the key it is served under,
      and a further non-terminal claim moves the record to exactly the served post-claim root. */
  lemma ServedDataMatchesTheIndex(s: ExitState, v: ExitView, sp: Spend)
    requires KeysTrue(s.records) && Truthful(v)
    requires v.root in s.records && s.records[v.root] == v.record && v.record.unclaimed > 1
    requires sp.oldRoot == v.root && FreshClaim(s, sp)
    ensures Fold(LeafHash(v.record.leaves[sp.leafIndex]), sp.leafIndex, v.siblings[sp.leafIndex]) == v.root
    ensures var key := v.fullClaimRoots[sp.leafIndex];
            key in Spent(s, sp).records && Spent(s, sp).records[key] == Advanced(v.record, sp)
  {
    ClaimedIsEmptied(v.record, sp.leafIndex);
  }

  /** The index of every orderly run can be served: no entry lies outside its family. */
  lemma ViewsNeverPanic(store: Store, hooks: seq<Hook>)
    requires OrderlyRun(EMPTY_INDEX, [], hooks) && store.db == StepAll(EMPTY_INDEX, hooks).db
    ensures LeavesInside(store.db.records)
  {
    KeysAreTrue(hooks);
  }

  /** The views of every stored record, one each. */
  method AllViews(store: Store) returns (views: seq<ExitView>)
    requires LeavesInside(store.db.records)
    ensures forall i :: 0 <= i < |views| ==>
              && views[i].root in store.db.records && views[i].record == store.db.records[views[i].root]
              && Truthful(views[i])
    ensures forall r :: r in store.db.records ==> exists i :: 0 <= i < |views| && views[i].root == r
    ensures forall i, j :: 0 <= i < j < |views| ==> views[i].root != views[j].root
  {
    var roots := store.ExitRoots();
    views := [];
    for i := 0 to |roots|
      invariant |views| == i
      invariant forall k :: 0 <= k < i ==>
                  views[k].root == roots[k] && views[k].record == store.db.records[roots[k]] && Truthful(views[k])
    {
      assert roots[i] in store.db.records;
      var v := ViewOf(roots[i], store.db.records[roots[i]]);
      views := views + [v];
    }
    forall r | r in store.db.records ensures exists i :: 0 <= i < |views| && views[i].root == r {
      assert r in roots;
      var i :| 0 <= i < |roots| && roots[i] == r;
      assert views[i].root == r;
    }
  }
}
