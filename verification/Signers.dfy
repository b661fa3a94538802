/** How a transaction's signers become authorities: every signer is attempted before each action, the ones
    over a resource that does not exist yet wait, and the keys of the others gather in two buckets. The
    promise made of the multisig bucket is the subject of `SignerPromise`. */
module Signers {
  import opened Prelude
  import opened Wire

  /** A decoded signer and what its resolution yields: a key, or an error that rejects the transaction. Each
      signer resolves once, so one outcome is enough. */
  datatype Attempt = Attempt(resourceIdx: u8, kind: SignerKind, unlocker: Result<Bytes>)

  /** A resource index with what is gathered under it. */
  datatype Slot<T> = Slot(idx: u8, item: T)

  /** Whether a resource holds user or config data, which a lock can be read from. */
  type Live = u8 -> bool

  predicate Multisig(k: SignerKind) {
    k.MultisigSchnorrSigPtr? || k.MultisigPrevTxV1Witness?
  }

  /** Pointer signers read the resource's lock, so they wait until there is one. */
  predicate Gated(k: SignerKind) {
    k.SchnorrSigPtr? || k.MultisigSchnorrSigPtr?
  }

  predicate Waits(s: Attempt, live: Live) {
    Gated(s.kind) && !live(s.resourceIdx)
  }

  /** The signers that wait, in wire order. */
  function Waiting(p: seq<Attempt>, live: Live): seq<Attempt> {
    if p == [] then []
    else Waiting(p[..|p| - 1], live) + (if Waits(p[|p| - 1], live) then [p[|p| - 1]] else [])
  }

  /** The signers that resolve, in wire order. */
  function Ready(p: seq<Attempt>, live: Live): seq<Attempt> {
    if p == [] then []
    else Ready(p[..|p| - 1], live) + (if Waits(p[|p| - 1], live) then [] else [p[|p| - 1]])
  }

  function Key(s: Attempt): Slot<Bytes> {
    Slot(s.resourceIdx, if s.unlocker.Ok? then s.unlocker.value else [])
  }

  /** The keys of the multisig signers, or of the others, each under its resource. */
  function Keys(p: seq<Attempt>, multisig: bool): seq<Slot<Bytes>> {
    if p == [] then []
    else Keys(p[..|p| - 1], multisig) + (if Multisig(p[|p| - 1].kind) == multisig then [Key(p[|p| - 1])] else [])
  }

  predicate Resolves(p: seq<Attempt>) {
    forall i :: 0 <= i < |p| ==> p[i].unlocker.Ok?
  }

  // ---------- buckets ----------

  /** Extends the bucket's last entry when it is the resource's, and opens a new entry otherwise. */
  function Append(bucket: seq<Slot<seq<Bytes>>>, c: Slot<Bytes>): seq<Slot<seq<Bytes>>> {
    if bucket != [] && bucket[|bucket| - 1].idx == c.idx then
      bucket[..|bucket| - 1] + [Slot(c.idx, bucket[|bucket| - 1].item + [c.item])]
    else bucket + [Slot(c.idx, [c.item])]
  }

  /** The bucket after the keys of one pass. */
  function Gather(bucket: seq<Slot<seq<Bytes>>>, cs: seq<Slot<Bytes>>): seq<Slot<seq<Bytes>>>
    decreases |cs|
  {
    if cs == [] then bucket else Append(Gather(bucket, cs[..|cs| - 1]), cs[|cs| - 1])
  }

  function Insert<T>(x: Slot<T>, s: seq<Slot<T>>): seq<Slot<T>> {
    if s == [] || x.idx <= s[0].idx then [x] + s else [s[0]] + Insert(x, s[1..])
  }

  function ByIndex<T>(s: seq<Slot<T>>): seq<Slot<T>> {
    if s == [] then [] else Insert(s[0], ByIndex(s[1..]))
  }

  predicate Ascending<T>(s: seq<Slot<T>>) {
    forall i, j :: 0 <= i < j < |s| ==> s[i].idx <= s[j].idx
  }

  /** At most one entry per resource. */
  predicate Distinct<T>(s: seq<Slot<T>>) {
    forall i, j :: 0 <= i < j < |s| ==> s[i].idx != s[j].idx
  }

  predicate Has<T>(s: seq<Slot<T>>, idx: u8) {
    exists i :: 0 <= i < |s| && s[i].idx == idx
  }

  class AuthContext {
    var schnorr: seq<Slot<Bytes>>
    var multisig: seq<Slot<seq<Bytes>>>

    constructor ()
      ensures schnorr == [] && multisig == []
    {
      schnorr, multisig := [], [];
    }

    method AppendMultisigContrib(c: Slot<Bytes>)
      modifies this`multisig
      ensures multisig == Append(old(multisig), c)
    {
      if |multisig| > 0 && multisig[|multisig| - 1].idx == c.idx {
        var last := multisig[|multisig| - 1];
        multisig := multisig[|multisig| - 1 := last.(item := last.item + [c.item])];
      } else {
        multisig := multisig + [Slot(c.idx, [c.item])];
      }
    }

    /** Resolves one signer into its bucket. */
    method ResolveOne(s: Attempt) returns (r: Result<()>)
      modifies this
      ensures r.Ok? == s.unlocker.Ok?
      ensures r.Ok? ==> multisig == if Multisig(s.kind) then Append(old(multisig), Key(s)) else old(multisig)
      ensures r.Ok? ==> schnorr == if Multisig(s.kind) then old(schnorr) else old(schnorr) + [Key(s)]
    {
      if s.unlocker.Err? {
        return Err(s.unlocker.error);
      }
      if Multisig(s.kind) {
        AppendMultisigContrib(Slot(s.resourceIdx, s.unlocker.value));
      } else {
        schnorr := schnorr + [Slot(s.resourceIdx, s.unlocker.value)];
      }
      r := Ok(());
    }

    /** The pass itself; the first signer that fails to resolve ends it. */
    method Pass(pending: seq<Attempt>, live: Live) returns (r: Result<seq<Attempt>>)
      modifies this
      ensures r.Ok? == Resolves(Ready(pending, live))
      ensures r.Ok? ==> r.value == Waiting(pending, live)
      ensures r.Ok? ==> multisig == Shared(old(multisig), pending, live)
      ensures r.Ok? ==> schnorr == Single(old(schnorr), pending, live)
    {
      ghost var shared, single := multisig, schnorr;
      var still: seq<Attempt> := [];
      for i := 0 to |pending|
        invariant still == Waiting(pending[..i], live)
        invariant SoFar(pending, i, live)
        invariant multisig == Shared(shared, pending[..i], live)
        invariant schnorr == Single(single, pending[..i], live)
      {
        if Waits(pending[i], live) {
          OneWaits(pending, i, live, shared, single);
          still := still + [pending[i]];
        } else {
          OneResolved(pending, i, live, shared, single);
          var one := ResolveOne(pending[i]);
          if one.Err? {
            FailsAt(pending, i, live);
            return Err(one.error);
          }
        }
      }
      assert pending[..|pending|] == pending;
      assert SoFar(pending, |pending|, live);
      r := Ok(still);
    }

    /** One attempt at every pending signer; the ones that wait are returned in wire order. */
    method ResolvePending(pending: seq<Attempt>, live: Live) returns (r: Result<seq<Attempt>>)
      modifies this
      ensures r.Ok? == Resolves(Ready(pending, live))
      ensures r.Ok? ==> r.value == Waiting(pending, live)
      ensures r.Ok? ==> multisig == ByIndex(Shared(old(multisig), pending, live))
      ensures r.Ok? ==> schnorr == ByIndex(Single(old(schnorr), pending, live))
    {
      r := Pass(pending, live);
      if r.Ok? {
        multisig := ByIndex(multisig);
        schnorr := ByIndex(schnorr);
      }
    }
  }

  // ---------- one pass, signer by signer ----------

  lemma GatherOne(bucket: seq<Slot<seq<Bytes>>>, cs: seq<Slot<Bytes>>, c: Slot<Bytes>)
    ensures Gather(bucket, cs + [c]) == Append(Gather(bucket, cs), c)
  {
    assert (cs + [c])[..|cs|] == cs;
  }

  lemma KeysOne(p: seq<Attempt>, s: Attempt, multisig: bool)
    ensures Multisig(s.kind) == multisig ==> Keys(p + [s], multisig) == Keys(p, multisig) + [Key(s)]
    ensures Multisig(s.kind) != multisig ==> Keys(p + [s], multisig) == Keys(p, multisig)
  {
    assert (p + [s])[..|p|] == p;
  }

  /** The two buckets after a pass over `p`, before they are sorted. */
  function Shared(bucket: seq<Slot<seq<Bytes>>>, p: seq<Attempt>, live: Live): seq<Slot<seq<Bytes>>> {
    Gather(bucket, Keys(Ready(p, live), true))
  }

  function Single(bucket: seq<Slot<Bytes>>, p: seq<Attempt>, live: Live): seq<Slot<Bytes>> {
    bucket + Keys(Ready(p, live), false)
  }

  lemma OneMore(p: seq<Attempt>, i: nat, live: Live)
    requires i < |p|
    ensures Waits(p[i], live) ==> Waiting(p[..i + 1], live) == Waiting(p[..i], live) + [p[i]]
    ensures Waits(p[i], live) ==> Ready(p[..i + 1], live) == Ready(p[..i], live)
    ensures !Waits(p[i], live) ==> Waiting(p[..i + 1], live) == Waiting(p[..i], live)
    ensures !Waits(p[i], live) ==> Ready(p[..i + 1], live) == Ready(p[..i], live) + [p[i]]
  {
    assert p[..i + 1][..i] == p[..i];
  }

  predicate SoFar(p: seq<Attempt>, i: nat, live: Live)
    requires i <= |p|
  {
    Resolves(Ready(p[..i], live))
  }

  lemma OneWaits(p: seq<Attempt>, i: nat, live: Live, shared: seq<Slot<seq<Bytes>>>, single: seq<Slot<Bytes>>)
    requires i < |p| && Waits(p[i], live)
    ensures Waiting(p[..i + 1], live) == Waiting(p[..i], live) + [p[i]]
    ensures SoFar(p, i, live) ==> SoFar(p, i + 1, live)
    ensures Shared(shared, p[..i + 1], live) == Shared(shared, p[..i], live)
    ensures Single(single, p[..i + 1], live) == Single(single, p[..i], live)
  {
    OneMore(p, i, live);
  }

  lemma OneResolved(p: seq<Attempt>, i: nat, live: Live, shared: seq<Slot<seq<Bytes>>>, single: seq<Slot<Bytes>>)
    requires i < |p| && !Waits(p[i], live)
    ensures Waiting(p[..i + 1], live) == Waiting(p[..i], live)
    ensures SoFar(p, i, live) && p[i].unlocker.Ok? ==> SoFar(p, i + 1, live)
    ensures Shared(shared, p[..i + 1], live)
         == if Multisig(p[i].kind) then Append(Shared(shared, p[..i], live), Key(p[i]))
            else Shared(shared, p[..i], live)
    ensures Single(single, p[..i + 1], live)
         == if Multisig(p[i].kind) then Single(single, p[..i], live) else Single(single, p[..i], live) + [Key(p[i])]
  {
    OneMore(p, i, live);
    var done := Ready(p[..i], live);
    KeysOne(done, p[i], true);
    KeysOne(done, p[i], false);
    GatherOne(shared, Keys(done, true), Key(p[i]));
    assert Ready(p[..i + 1], live) == done + [p[i]];
    if !Multisig(p[i].kind) {
      Regroup(single, Keys(done, false), [Key(p[i])]);
    }
  }

  lemma Regroup<T>(x: seq<T>, y: seq<T>, z: seq<T>)
    ensures x + (y + z) == (x + y) + z
  {
  }

  lemma {:induction false} ReadyPrefix(p: seq<Attempt>, i: nat, live: Live)
    requires i <= |p|
    ensures Ready(p[..i], live) <= Ready(p, live)
    decreases |p|
  {
    if i < |p| {
      ReadyPrefix(p[..|p| - 1], i, live);
      assert p[..|p| - 1][..i] == p[..i];
    } else {
      assert p[..i] == p;
    }
  }

  lemma FailsAt(p: seq<Attempt>, i: nat, live: Live)
    requires i < |p| && !Waits(p[i], live) && p[i].unlocker.Err?
    ensures !Resolves(Ready(p, live))
  {
    OneMore(p, i, live);
    ReadyPrefix(p, i + 1, live);
    assert Ready(p, live)[|Ready(p[..i], live)|] == p[i];
  }

  // ---------- whole runs ----------

  /** The bucket and the signers still waiting after a round for each of `lives`. */
  function Rounds(wire: seq<Attempt>, lives: seq<Live>): (seq<Slot<seq<Bytes>>>, seq<Attempt>) {
    if lives == [] then ([], wire)
    else
      var (bucket, pending) := Rounds(wire, lives[..|lives| - 1]);
      var live := lives[|lives| - 1];
      (ByIndex(Shared(bucket, pending, live)), Waiting(pending, live))
  }

  function Or(a: Live, b: Live): Live {
    (i: u8) => a(i) || b(i)
  }

  /** The resources that were live in some round. */
  function Ever(lives: seq<Live>): Live {
    if lives == [] then (i: u8) => false else Or(Ever(lives[..|lives| - 1]), lives[|lives| - 1])
  }

  lemma FilterOne(p: seq<Attempt>, s: Attempt, live: Live)
    ensures Waits(s, live) ==>
      Waiting(p + [s], live) == Waiting(p, live) + [s] && Ready(p + [s], live) == Ready(p, live)
    ensures !Waits(s, live) ==>
      Waiting(p + [s], live) == Waiting(p, live) && Ready(p + [s], live) == Ready(p, live) + [s]
  {
    assert (p + [s])[..|p|] == p;
  }

  lemma {:induction false} FilterMembers(p: seq<Attempt>, live: Live)
    ensures forall s :: s in Waiting(p, live) <==> s in p && Waits(s, live)
    ensures forall s :: s in Ready(p, live) <==> s in p && !Waits(s, live)
  {
    if p != [] {
      FilterMembers(p[..|p| - 1], live);
      assert p == p[..|p| - 1] + [p[|p| - 1]];
    }
  }

  lemma {:induction false} WaitingTwice(p: seq<Attempt>, a: Live, b: Live)
    ensures Waiting(Waiting(p, a), b) == Waiting(p, Or(a, b))
  {
    if p != [] {
      var init, s := p[..|p| - 1], p[|p| - 1];
      WaitingTwice(init, a, b);
      assert p == init + [s];
      FilterOne(init, s, a);
      FilterOne(init, s, Or(a, b));
      FilterOne(Waiting(init, a), s, b);
      assert Waits(s, Or(a, b)) == (Waits(s, a) && Waits(s, b));
    }
  }

  /** No signer is lost and none resolves twice: each one either waits or is resolved by a pass. */
  lemma {:induction false} EachWaitsOrResolves(p: seq<Attempt>, live: Live)
    ensures multiset(Waiting(p, live)) + multiset(Ready(p, live)) == multiset(p)
  {
    if p != [] {
      var init, s := p[..|p| - 1], p[|p| - 1];
      EachWaitsOrResolves(init, live);
      assert p == init + [s];
      FilterOne(init, s, live);
      OneMoreCounted(Waiting(init, live), Ready(init, live), s);
      assert multiset(p) == multiset(init) + multiset{s};
    }
  }

  /** Adding one element to either part adds it to their sum. */
  lemma OneMoreCounted(a: seq<Attempt>, b: seq<Attempt>, s: Attempt)
    ensures multiset(a + [s]) + multiset(b) == multiset(a) + multiset(b) + multiset{s}
    ensures multiset(a) + multiset(b + [s]) == multiset(a) + multiset(b) + multiset{s}
  {
    assert multiset(a + [s]) == multiset(a) + multiset{s};
    assert multiset(b + [s]) == multiset(b) + multiset{s};
  }

  /** Every round leaves exactly the signers whose resource was never live so far. */
  lemma {:induction false} PendingIsExact(wire: seq<Attempt>, lives: seq<Live>)
    requires lives != []
    ensures Rounds(wire, lives).1 == Waiting(wire, Ever(lives))
  {
    var init, live := lives[..|lives| - 1], lives[|lives| - 1];
    if init == [] {
      forall i ensures live(i) == Ever(lives)(i) {
        assert Ever(lives)(i) == (Ever(init)(i) || live(i));
      }
      SameLive(wire, live, Ever(lives));
    } else {
      PendingIsExact(wire, init);
      WaitingTwice(wire, Ever(init), live);
    }
  }

  /** In the terms of the wire: the signers left are those of tag 1 or 3 whose resource was never live. */
  lemma PendingByTag(wire: seq<Attempt>, lives: seq<Live>, s: Attempt)
    requires lives != []
    ensures s in Rounds(wire, lives).1 <==>
            s in wire && KindTag(s.kind) in {1, 3} && !Ever(lives)(s.resourceIdx)
  {
    PendingIsExact(wire, lives);
    FilterMembers(wire, Ever(lives));
  }

  /** And the keys of tags 3 and 4 go to the multisig bucket, those of the others to the single one. */
  lemma {:induction false} KeysByTag(p: seq<Attempt>, c: Slot<Bytes>)
    ensures c in Keys(p, true) <==> exists s <- p :: KindTag(s.kind) in {3, 4} && Key(s) == c
    ensures c in Keys(p, false) <==> exists s <- p :: KindTag(s.kind) in {1, 2, 5} && Key(s) == c
  {
    if p != [] {
      var init, s := p[..|p| - 1], p[|p| - 1];
      KeysByTag(init, c);
      KeysOne(init, s, true);
      KeysOne(init, s, false);
      assert p == init + [s];
      assert forall t :: t in p <==> t in init || t == s;
    }
  }

  lemma {:induction false} SameLive(p: seq<Attempt>, a: Live, b: Live)
    requires forall i :: a(i) == b(i)
    ensures Waiting(p, a) == Waiting(p, b) && Ready(p, a) == Ready(p, b)
  {
    if p != [] {
      SameLive(p[..|p| - 1], a, b);
    }
  }

  lemma RoundsUnfold(wire: seq<Attempt>, lives: seq<Live>)
    requires lives != []
    ensures var (bucket, pending) := Rounds(wire, lives[..|lives| - 1]);
      var live := lives[|lives| - 1];
      Rounds(wire, lives) == (ByIndex(Shared(bucket, pending, live)), Waiting(pending, live))
  {
  }
}
