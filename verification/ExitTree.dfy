/** The permission tree over an exit family's leaves: padded to a power of two, with claimed slots
    folded to the empty hash. Hashes are free constructors. */
module ExitTree {
  import opened Prelude
  import opened Actions

  datatype ExitLeaf = ExitLeaf(spk: StandardSpk, amount: u64)

  datatype Hash =
    | EmptyHash
    | LeafHash(leaf: ExitLeaf)
    | BranchHash(left: Hash, right: Hash)
    | ForeignHash(bytes: Bytes)

  function Pow2(d: nat): (p: nat)
    ensures p >= 1
  {
    if d == 0 then 1 else 2 * Pow2(d - 1)
  }

  /** The depth of the padded tree; the smallest tree has two slots. */
  function RequiredDepth(n: nat): (d: nat)
    ensures d >= 1 && n <= Pow2(d)
  {
    if n <= 2 then 1 else 1 + RequiredDepth((n + 1) / 2)
  }

  /** It is the smallest depth, from one on, whose tree holds all the leaves. */
  lemma {:induction false} DepthIsSmallest(n: nat, d: nat)
    requires d >= 1 && n <= Pow2(d)
    ensures RequiredDepth(n) <= d
    decreases n
  {
    if n > 2 {
      DepthIsSmallest((n + 1) / 2, d - 1);
    }
  }

  /** A level of 2^d hashes. */
  predicate IsLevel(level: seq<Hash>, d: nat) {
    |level| == Pow2(d)
  }

  /** The reference root: the two halves' roots, branched. */
  function Root(level: seq<Hash>, d: nat): Hash
    requires IsLevel(level, d)
    decreases d
  {
    if d == 0 then level[0]
    else BranchHash(Root(level[..Pow2(d - 1)], d - 1), Root(level[Pow2(d - 1)..], d - 1))
  }

  /** The next level up: neighbours branched in pairs. */
  function Up(level: seq<Hash>): (up: seq<Hash>)
    requires |level| % 2 == 0
    ensures |up| == |level| / 2
  {
    seq(|level| / 2, i requires 0 <= i < |level| / 2 => BranchHash(level[2 * i], level[2 * i + 1]))
  }

  /** The other child of `i`'s parent. */
  function Sibling(i: nat): nat {
    if i % 2 == 0 then i + 1 else i - 1
  }

  /** The branch over a node and its sibling, in order. */
  function Pair(i: nat, node: Hash, sibling: Hash): Hash {
    if i % 2 == 0 then BranchHash(node, sibling) else BranchHash(sibling, node)
  }

  /** The sibling hashes on the way from slot `i` to the root. */
  function Path(level: seq<Hash>, d: nat, i: nat): (path: seq<Hash>)
    requires IsLevel(level, d) && i < |level|
    ensures |path| == d
    decreases d
  {
    if d == 0 then [] else [level[Sibling(i)]] + Path(Up(level), d - 1, i / 2)
  }

  /** Folding a node up a sibling path, as a claim's verifier does. */
  function Fold(node: Hash, i: nat, path: seq<Hash>): Hash
    decreases |path|
  {
    if path == [] then node else Fold(Pair(i, node, path[0]), i / 2, path[1..])
  }

  /** Pairing commutes with splitting at an even position. */
  lemma UpOfHalves(level: seq<Hash>, n: nat)
    requires |level| % 2 == 0 && 2 * n <= |level|
    ensures Up(level)[..n] == Up(level[..2 * n])
    ensures Up(level)[n..] == Up(level[2 * n..])
  {
  }

  /** Building level by level reaches the reference root. */
  lemma {:induction false} RootOfUp(level: seq<Hash>, d: nat)
    requires IsLevel(level, d) && d >= 1
    ensures Root(level, d) == Root(Up(level), d - 1)
    decreases d
  {
    if d == 1 {
      assert Root(level[..1], 0) == level[0] && Root(level[1..], 0) == level[1];
    } else {
      var quarter := Pow2(d - 2);
      assert Pow2(d - 1) == 2 * quarter;
      UpOfHalves(level, quarter);
      RootOfUp(level[..2 * quarter], d - 1);
      RootOfUp(level[2 * quarter..], d - 1);
    }
  }

  lemma UpOfUpdate(level: seq<Hash>, i: nat, h: Hash)
    requires |level| % 2 == 0 && i < |level|
    ensures Up(level[i := h]) == Up(level)[i / 2 := Pair(i, h, level[Sibling(i)])]
  {
    var up := Up(level[i := h]);
    var want := Up(level)[i / 2 := Pair(i, h, level[Sibling(i)])];
    forall k | 0 <= k < |up| ensures up[k] == want[k] {
      assert up[k] == BranchHash(level[i := h][2 * k], level[i := h][2 * k + 1]);
    }
  }

  /** Folding any hash from slot `i` along the tree's own siblings gives the root of the tree with
      that hash put in slot `i`. */
  lemma {:induction false} FoldIsRootOfUpdate(level: seq<Hash>, d: nat, i: nat, h: Hash)
    requires IsLevel(level, d) && i < |level|
    ensures Fold(h, i, Path(level, d, i)) == Root(level[i := h], d)
    decreases d
  {
    if d > 0 {
      var path := Path(level, d, i);
      UpOfUpdate(level, i, h);
      RootOfUp(level[i := h], d);
      FoldIsRootOfUpdate(Up(level), d - 1, i / 2, Pair(i, h, level[Sibling(i)]));
      assert path[1..] == Path(Up(level), d - 1, i / 2);
    }
  }

  // ---------- families ----------

  /** Slot `i` of the padded tree: the leaf, or the empty hash for padding and claimed slots. */
  function SlotHash(leaves: seq<ExitLeaf>, claimed: set<nat>, i: nat): Hash {
    if i < |leaves| && i !in claimed then LeafHash(leaves[i]) else EmptyHash
  }

  function Slots(leaves: seq<ExitLeaf>, claimed: set<nat>): (level: seq<Hash>)
    ensures IsLevel(level, RequiredDepth(|leaves|))
  {
    seq(Pow2(RequiredDepth(|leaves|)), i requires i >= 0 => SlotHash(leaves, claimed, i))
  }

  /** The root a family is keyed by once the slots in `claimed` are emptied. */
  function FamilyRoot(leaves: seq<ExitLeaf>, claimed: set<nat>): Hash {
    Root(Slots(leaves, claimed), RequiredDepth(|leaves|))
  }

  /** Claiming a leaf changes its slot, and nothing else, to the empty hash. */
  lemma ClaimEmptiesSlot(leaves: seq<ExitLeaf>, claimed: set<nat>, i: nat)
    requires i < |leaves|
    ensures i < |Slots(leaves, claimed)|
    ensures Slots(leaves, claimed + {i}) == Slots(leaves, claimed)[i := EmptyHash]
  {
  }

  /** The verifier's post-claim root is the family's root with one more slot emptied. */
  lemma PostClaimRoot(leaves: seq<ExitLeaf>, claimed: set<nat>, i: nat)
    requires i < |leaves|
    ensures i < |Slots(leaves, claimed)|
    ensures Fold(EmptyHash, i, Path(Slots(leaves, claimed), RequiredDepth(|leaves|), i))
         == FamilyRoot(leaves, claimed + {i})
  {
    ClaimEmptiesSlot(leaves, claimed, i);
    FoldIsRootOfUpdate(Slots(leaves, claimed), RequiredDepth(|leaves|), i, EmptyHash);
  }

  /** A slot's hash verifies against the family's root along its own path. */
  lemma SlotVerifies(leaves: seq<ExitLeaf>, claimed: set<nat>, i: nat)
    requires i < |leaves|
    ensures i < |Slots(leaves, claimed)|
    ensures Fold(SlotHash(leaves, claimed, i), i, Path(Slots(leaves, claimed), RequiredDepth(|leaves|), i))
         == FamilyRoot(leaves, claimed)
  {
    ClaimEmptiesSlot(leaves, claimed, i);
    var level := Slots(leaves, claimed);
    assert level[i := SlotHash(leaves, claimed, i)] == level;
    FoldIsRootOfUpdate(level, RequiredDepth(|leaves|), i, SlotHash(leaves, claimed, i));
  }

  /** Distinct slot contents have distinct roots. */
  lemma {:induction false} RootInjective(a: seq<Hash>, b: seq<Hash>, d: nat)
    requires IsLevel(a, d) && IsLevel(b, d) && Root(a, d) == Root(b, d)
    ensures a == b
    decreases d
  {
    if d == 0 {
      assert a == [a[0]] && b == [b[0]];
    } else {
      var half := Pow2(d - 1);
      RootInjective(a[..half], b[..half], d - 1);
      RootInjective(a[half..], b[half..], d - 1);
      assert a == a[..half] + a[half..] && b == b[..half] + b[half..];
    }
  }

  /** Claiming an unclaimed leaf always moves the root. */
  lemma ClaimMovesRoot(leaves: seq<ExitLeaf>, claimed: set<nat>, i: nat)
    requires i < |leaves| && i !in claimed
    ensures FamilyRoot(leaves, claimed + {i}) != FamilyRoot(leaves, claimed)
  {
    ClaimEmptiesSlot(leaves, claimed, i);
    var before, after := Slots(leaves, claimed), Slots(leaves, claimed + {i});
    assert before[i] == LeafHash(leaves[i]) && after[i] == EmptyHash;
    if FamilyRoot(leaves, claimed + {i}) == FamilyRoot(leaves, claimed) {
      RootInjective(after, before, RequiredDepth(|leaves|));
    }
  }

  /** Two families can share a root: a two-leaf family whose second slot was claimed, and a fresh
      family of the first leaf alone. */
  lemma RootsCollideAcrossFamilies(a: ExitLeaf, b: ExitLeaf)
    ensures FamilyRoot([a, b], {1}) == FamilyRoot([a], {})
  {
    assert Slots([a, b], {1}) == [LeafHash(a), EmptyHash] == Slots([a], {});
  }
}
