/** The promise made of the multisig bucket: at most one entry per resource, each listing its keys in wire
    order. Which signers wait, and when their resources are born, can break either half. `RunIsExact` says
    when it holds after a run of rounds: exactly when every resource born after the start has the keys that
    need not wait before those that do, and every later round finds the entries it extends at the end of the
    bucket and first in the round. */
module SignerPromise {
  import opened Prelude
  import W = Wire
  import opened Signers

  // ---------- one entry per resource ----------

  /** A resource of this pass that already has an entry is the pass's first and the bucket's last. */
  predicate Mergeable(bucket: seq<Slot<seq<Bytes>>>, cs: seq<Slot<Bytes>>) {
    forall k :: 0 <= k < |cs| && Has(bucket, cs[k].idx) ==> cs[k].idx == cs[0].idx == bucket[|bucket| - 1].idx
  }

  /** What appending one key does to a bucket without duplicates. */
  lemma AppendEffect(b: seq<Slot<seq<Bytes>>>, c: Slot<Bytes>)
    ensures forall idx: u8 :: Has(Append(b, c), idx) <==> Has(b, idx) || idx == c.idx
    ensures Append(b, c)[|Append(b, c)| - 1].idx == c.idx
    ensures Distinct(Append(b, c)) <==> Distinct(b) && (Has(b, c.idx) ==> b[|b| - 1].idx == c.idx)
  {
    var b' := Append(b, c);
    if b != [] && b[|b| - 1].idx == c.idx {
      assert |b'| == |b| && forall i :: 0 <= i < |b| ==> b'[i].idx == b[i].idx;
    } else {
      assert |b'| == |b| + 1 && forall i :: 0 <= i < |b| ==> b'[i] == b[i];
      assert b'[|b|].idx == c.idx;
    }
  }

  lemma {:induction false} GatherEffect(b: seq<Slot<seq<Bytes>>>, cs: seq<Slot<Bytes>>)
    ensures forall idx: u8 :: Has(Gather(b, cs), idx) <==> Has(b, idx) || Has(cs, idx)
    ensures cs != [] ==> Gather(b, cs) != [] && Gather(b, cs)[|Gather(b, cs)| - 1].idx == cs[|cs| - 1].idx
    decreases |cs|
  {
    if cs != [] {
      var init := cs[..|cs| - 1];
      GatherEffect(b, init);
      AppendEffect(Gather(b, init), cs[|cs| - 1]);
      HasSplit(cs);
    }
  }

  lemma HasSplit<T>(s: seq<Slot<T>>)
    requires s != []
    ensures forall idx: u8 :: Has(s, idx) <==> Has(s[..|s| - 1], idx) || s[|s| - 1].idx == idx
  {
    forall idx: u8 ensures Has(s, idx) <==> Has(s[..|s| - 1], idx) || s[|s| - 1].idx == idx {
      if Has(s[..|s| - 1], idx) {
        var i :| 0 <= i < |s| - 1 && s[..|s| - 1][i].idx == idx;
        assert s[i].idx == idx;
      }
      if Has(s, idx) {
        var i :| 0 <= i < |s| && s[i].idx == idx;
        assert i < |s| - 1 ==> s[..|s| - 1][i].idx == idx;
      }
    }
  }

  /** A pass keeps one entry per resource iff it is mergeable. */
  lemma {:induction false} DistinctIff(b: seq<Slot<seq<Bytes>>>, cs: seq<Slot<Bytes>>)
    requires Distinct(b) && Ascending(cs)
    ensures Distinct(Gather(b, cs)) <==> Mergeable(b, cs)
    decreases |cs|
  {
    if cs != [] {
      var init, c := cs[..|cs| - 1], cs[|cs| - 1];
      assert Ascending(init);
      DistinctIff(b, init);
      GatherEffect(b, init);
      AppendEffect(Gather(b, init), c);
      LastKeyMerges(b, cs);
    }
  }

  /** The last key of a pass, given the ones before it. */
  lemma LastKeyMerges(b: seq<Slot<seq<Bytes>>>, cs: seq<Slot<Bytes>>)
    requires Distinct(b) && Ascending(cs) && cs != []
    ensures var init, c, g := cs[..|cs| - 1], cs[|cs| - 1], Gather(b, cs[..|cs| - 1]);
      Mergeable(b, init) && (Has(g, c.idx) ==> g[|g| - 1].idx == c.idx) <==> Mergeable(b, cs)
  {
    var init, c := cs[..|cs| - 1], cs[|cs| - 1];
    var g := Gather(b, init);
    GatherEffect(b, init);
    assert forall k :: 0 <= k < |init| ==> init[k] == cs[k];
    if init == [] {
      assert g == b;
    } else {
      var prev := cs[|cs| - 2];
      assert init[|init| - 1] == prev && prev.idx <= c.idx;
      if prev.idx < c.idx {
        assert !Has(init, c.idx);
      }
    }
  }

  lemma {:induction false} InsertKeeps<T>(x: Slot<T>, s: seq<Slot<T>>)
    ensures multiset(Insert(x, s)) == multiset(s) + multiset{x}
  {
    if s != [] && x.idx > s[0].idx {
      InsertKeeps(x, s[1..]);
      assert s == [s[0]] + s[1..];
    }
  }

  lemma {:induction false} InsertSorts<T>(x: Slot<T>, s: seq<Slot<T>>, low: u8)
    requires Ascending(s) && low <= x.idx && forall i :: 0 <= i < |s| ==> low <= s[i].idx
    ensures Ascending(Insert(x, s)) && forall i :: 0 <= i < |Insert(x, s)| ==> low <= Insert(x, s)[i].idx
  {
    if s != [] && x.idx > s[0].idx {
      InsertSorts(x, s[1..], s[0].idx);
    }
  }

  /** Sorting by index orders the entries and keeps each one. */
  lemma {:induction false} SortEffect<T>(s: seq<Slot<T>>)
    ensures Ascending(ByIndex(s)) && multiset(ByIndex(s)) == multiset(s)
  {
    if s != [] {
      SortEffect(s[1..]);
      InsertKeeps(s[0], ByIndex(s[1..]));
      InsertSorts(s[0], ByIndex(s[1..]), 0);
      assert s == [s[0]] + s[1..];
    }
  }

  lemma {:induction false} SameEntries<T>(s: seq<Slot<T>>, t: seq<Slot<T>>)
    requires multiset(s) == multiset(t)
    ensures forall e :: e in s <==> e in t
    ensures forall idx: u8 :: Has(s, idx) <==> Has(t, idx)
    ensures Distinct(s) <==> Distinct(t)
  {
    forall e ensures e in s <==> e in t {
      assert e in multiset(s) <==> e in multiset(t);
    }
    HasMember(s);
    HasMember(t);
    if Distinct(s) {
      SameDistinct(s, t);
    }
    if Distinct(t) {
      SameDistinct(t, s);
    }
  }

  lemma HasMember<T>(s: seq<Slot<T>>)
    ensures forall idx: u8 :: Has(s, idx) <==> exists e :: e in s && e.idx == idx
  {
  }

  lemma {:induction false} SameDistinct<T>(s: seq<Slot<T>>, t: seq<Slot<T>>)
    requires multiset(s) == multiset(t) && Distinct(s)
    ensures Distinct(t)
  {
    forall i, j | 0 <= i < j < |t| ensures t[i].idx != t[j].idx {
      if t[i].idx == t[j].idx {
        assert t[i] in multiset(s) && t[j] in multiset(s);
        TwiceInMultiset(t, i, j);
        OnceInDistinct(s, t[i]);
      }
    }
  }

  lemma TwiceInMultiset<T>(t: seq<Slot<T>>, i: nat, j: nat)
    requires i < j < |t|
    ensures t[i] == t[j] ==> multiset(t)[t[i]] >= 2
  {
    assert t == t[..j] + t[j..];
    assert t[i] in t[..j] && t[j] in t[j..];
  }

  lemma {:induction false} OnceInDistinct<T>(s: seq<Slot<T>>, e: Slot<T>)
    requires Distinct(s)
    ensures multiset(s)[e] <= 1
  {
    if s != [] {
      OnceInDistinct(s[1..], e);
      assert s == [s[0]] + s[1..];
    }
  }

  predicate InWireOrder(p: seq<Attempt>) {
    forall i, j :: 0 <= i < j < |p| ==> p[i].resourceIdx <= p[j].resourceIdx
  }

  predicate UpTo(p: seq<Attempt>, high: u8) {
    forall i :: 0 <= i < |p| ==> p[i].resourceIdx <= high
  }

  lemma {:induction false} KeysAscend(p: seq<Attempt>, multisig: bool, high: u8)
    requires InWireOrder(p) && UpTo(p, high)
    ensures Ascending(Keys(p, multisig))
    ensures forall k :: 0 <= k < |Keys(p, multisig)| ==> Keys(p, multisig)[k].idx <= high
  {
    if p != [] {
      KeysAscend(p[..|p| - 1], multisig, p[|p| - 1].resourceIdx);
    }
  }

  lemma {:induction false} FiltersAscend(p: seq<Attempt>, live: Live, high: u8)
    requires InWireOrder(p) && UpTo(p, high)
    ensures InWireOrder(Ready(p, live)) && UpTo(Ready(p, live), high)
    ensures InWireOrder(Waiting(p, live)) && UpTo(Waiting(p, live), high)
  {
    if p != [] {
      FiltersAscend(p[..|p| - 1], live, p[|p| - 1].resourceIdx);
    }
  }

  /** After a round the bucket is sorted, and it holds one entry per resource iff the round is mergeable. */
  lemma RoundKeepsEntries(bucket: seq<Slot<seq<Bytes>>>, p: seq<Attempt>, live: Live)
    requires Distinct(bucket) && InWireOrder(p)
    ensures Distinct(ByIndex(Shared(bucket, p, live))) <==> Mergeable(bucket, Keys(Ready(p, live), true))
  {
    var cs := Keys(Ready(p, live), true);
    FiltersAscend(p, live, 255);
    KeysAscend(Ready(p, live), true, 255);
    DistinctIff(bucket, cs);
    SortEffect(Gather(bucket, cs));
    SameEntries(Gather(bucket, cs), ByIndex(Gather(bucket, cs)));
  }

  /** A second entry never goes away. */
  lemma {:induction false} DoublesStay(b: seq<Slot<seq<Bytes>>>, cs: seq<Slot<Bytes>>)
    requires Distinct(Gather(b, cs))
    ensures Distinct(b)
    decreases |cs|
  {
    if cs != [] {
      AppendEffect(Gather(b, cs[..|cs| - 1]), cs[|cs| - 1]);
      DoublesStay(b, cs[..|cs| - 1]);
    }
  }

  lemma RoundKeepsDoubles(bucket: seq<Slot<seq<Bytes>>>, p: seq<Attempt>, live: Live)
    requires Distinct(ByIndex(Shared(bucket, p, live)))
    ensures Distinct(bucket)
  {
    var g := Shared(bucket, p, live);
    SortEffect(g);
    SameEntries(g, ByIndex(g));
    DoublesStay(bucket, Keys(Ready(p, live), true));
  }

  // ---------- keys, resource by resource ----------

  /** The keys under one resource, in order. */
  function Pick(cs: seq<Slot<Bytes>>, idx: u8): seq<Bytes> {
    if cs == [] then []
    else Pick(cs[..|cs| - 1], idx) + (if cs[|cs| - 1].idx == idx then [cs[|cs| - 1].item] else [])
  }

  /** A resource's multisig keys as the wire lists them. */
  function WireKeys(wire: seq<Attempt>, idx: u8): seq<Bytes> {
    Pick(Keys(wire, true), idx)
  }

  predicate Counts(s: Attempt, idx: u8) {
    Multisig(s.kind) && s.resourceIdx == idx
  }

  /** The resource's keys from the signers that may wait, or from those that never do. */
  function Part(wire: seq<Attempt>, idx: u8, gated: bool): seq<Bytes> {
    if wire == [] then []
    else
      var s := wire[|wire| - 1];
      Part(wire[..|wire| - 1], idx, gated) + (if Counts(s, idx) && Gated(s.kind) == gated then [Key(s).item] else [])
  }

  /** What a bucket holds under one resource, over all of its entries. */
  function Under(b: seq<Slot<seq<Bytes>>>, idx: u8): seq<Bytes> {
    if b == [] then [] else Under(b[..|b| - 1], idx) + (if b[|b| - 1].idx == idx then b[|b| - 1].item else [])
  }

  lemma PickOne(cs: seq<Slot<Bytes>>, c: Slot<Bytes>, idx: u8)
    ensures c.idx == idx ==> Pick(cs + [c], idx) == Pick(cs, idx) + [c.item]
    ensures c.idx != idx ==> Pick(cs + [c], idx) == Pick(cs, idx)
  {
    assert (cs + [c])[..|cs|] == cs;
  }

  lemma WireKeysOne(p: seq<Attempt>, s: Attempt, idx: u8)
    ensures Counts(s, idx) ==> WireKeys(p + [s], idx) == WireKeys(p, idx) + [Key(s).item]
    ensures !Counts(s, idx) ==> WireKeys(p + [s], idx) == WireKeys(p, idx)
  {
    KeysOne(p, s, true);
    if Multisig(s.kind) {
      PickOne(Keys(p, true), Key(s), idx);
    }
  }

  lemma PartOne(p: seq<Attempt>, s: Attempt, idx: u8, gated: bool)
    ensures Counts(s, idx) && Gated(s.kind) == gated ==>
      Part(p + [s], idx, gated) == Part(p, idx, gated) + [Key(s).item]
    ensures !(Counts(s, idx) && Gated(s.kind) == gated) ==> Part(p + [s], idx, gated) == Part(p, idx, gated)
  {
    assert (p + [s])[..|p|] == p;
  }

  /** What a pass resolves of a resource: everything once it is live, and only what need not wait before. */
  lemma {:induction false} ReadyKeys(p: seq<Attempt>, live: Live, idx: u8)
    ensures WireKeys(Ready(p, live), idx) == if live(idx) then WireKeys(p, idx) else Part(p, idx, false)
  {
    if p != [] {
      var init, s := p[..|p| - 1], p[|p| - 1];
      assert p == init + [s];
      ReadyKeys(init, live, idx);
      FilterOne(init, s, live);
      WireKeysOne(init, s, idx);
      WireKeysOne(Ready(init, live), s, idx);
      PartOne(init, s, idx, false);
    }
  }

  /** What a pass leaves waiting of a resource: nothing once it is live, and what may wait before. */
  lemma {:induction false} WaitingKeys(p: seq<Attempt>, live: Live, idx: u8)
    ensures WireKeys(Waiting(p, live), idx) == if live(idx) then [] else Part(p, idx, true)
    ensures Part(Waiting(p, live), idx, false) == []
  {
    if p != [] {
      var init, s := p[..|p| - 1], p[|p| - 1];
      assert p == init + [s];
      WaitingKeys(init, live, idx);
      FilterOne(init, s, live);
      WireKeysOne(Waiting(init, live), s, idx);
      PartOne(init, s, idx, true);
      PartOne(Waiting(init, live), s, idx, false);
    }
  }

  lemma UnderOne(b: seq<Slot<seq<Bytes>>>, e: Slot<seq<Bytes>>, idx: u8)
    ensures Under(b + [e], idx) == Under(b, idx) + (if e.idx == idx then e.item else [])
  {
    assert (b + [e])[..|b|] == b;
  }

  lemma UnderAppend(b: seq<Slot<seq<Bytes>>>, c: Slot<Bytes>, idx: u8)
    ensures c.idx == idx ==> Under(Append(b, c), idx) == Under(b, idx) + [c.item]
    ensures c.idx != idx ==> Under(Append(b, c), idx) == Under(b, idx)
  {
    if b != [] && b[|b| - 1].idx == c.idx {
      var init, last := b[..|b| - 1], b[|b| - 1];
      assert b == init + [last];
      UnderOne(init, last, idx);
      UnderOne(init, Slot(c.idx, last.item + [c.item]), idx);
      assert Under(init, idx) + (last.item + [c.item]) == (Under(init, idx) + last.item) + [c.item];
    } else {
      UnderOne(b, Slot(c.idx, [c.item]), idx);
    }
  }

  /** However its entries are cut, a bucket gathers each resource's keys in the order they came. */
  lemma {:induction false} UnderGather(b: seq<Slot<seq<Bytes>>>, cs: seq<Slot<Bytes>>, idx: u8)
    ensures Under(Gather(b, cs), idx) == Under(b, idx) + Pick(cs, idx)
    decreases |cs|
  {
    if cs != [] {
      var init, c := cs[..|cs| - 1], cs[|cs| - 1];
      UnderGather(b, init, idx);
      UnderAppend(Gather(b, init), c, idx);
    }
  }

  lemma {:induction false} UnderJoin(a: seq<Slot<seq<Bytes>>>, b: seq<Slot<seq<Bytes>>>, idx: u8)
    ensures Under(a + b, idx) == Under(a, idx) + Under(b, idx)
  {
    if b == [] {
      assert a + b == a;
    } else {
      UnderJoin(a, b[..|b| - 1], idx);
      UnderJoinOne(a, b[..|b| - 1], b[|b| - 1], idx);
      assert b == b[..|b| - 1] + [b[|b| - 1]];
    }
  }

  lemma UnderJoinOne(a: seq<Slot<seq<Bytes>>>, b: seq<Slot<seq<Bytes>>>, e: Slot<seq<Bytes>>, idx: u8)
    requires Under(a + b, idx) == Under(a, idx) + Under(b, idx)
    ensures Under(a + (b + [e]), idx) == Under(a, idx) + Under(b + [e], idx)
  {
    Regroup(a, b, [e]);
    UnderOne(a + b, e, idx);
    UnderOne(b, e, idx);
    Regroup(Under(a, idx), Under(b, idx), if e.idx == idx then e.item else []);
  }

  lemma {:induction false} UnderInsert(x: Slot<seq<Bytes>>, s: seq<Slot<seq<Bytes>>>, idx: u8)
    ensures Under(Insert(x, s), idx) == Under([x], idx) + Under(s, idx)
  {
    if s == [] || x.idx <= s[0].idx {
      UnderJoin([x], s, idx);
    } else {
      UnderInsert(x, s[1..], idx);
      UnderJoin([s[0]], Insert(x, s[1..]), idx);
      UnderJoin([s[0]], s[1..], idx);
      assert s == [s[0]] + s[1..];
      UnderOne([], x, idx);
      UnderOne([], s[0], idx);
      assert [] + [x] == [x] && [] + [s[0]] == [s[0]];
    }
  }

  /** Sorting the entries keeps each resource's keys. */
  lemma {:induction false} UnderSort(s: seq<Slot<seq<Bytes>>>, idx: u8)
    ensures Under(ByIndex(s), idx) == Under(s, idx)
  {
    if s != [] {
      UnderSort(s[1..], idx);
      UnderInsert(s[0], ByIndex(s[1..]), idx);
      UnderJoin([s[0]], s[1..], idx);
      assert s == [s[0]] + s[1..];
    }
  }

  lemma {:induction false} UnderNone(b: seq<Slot<seq<Bytes>>>, idx: u8)
    requires !Has(b, idx)
    ensures Under(b, idx) == []
  {
    if b != [] {
      HasSplit(b);
      UnderNone(b[..|b| - 1], idx);
    }
  }

  /** With one entry per resource, an entry holds all its resource has. */
  lemma {:induction false} UnderEntry(b: seq<Slot<seq<Bytes>>>, k: nat)
    requires Distinct(b) && k < |b|
    ensures Under(b, b[k].idx) == b[k].item
  {
    var init, last := b[..|b| - 1], b[|b| - 1];
    if k < |init| {
      UnderEntry(init, k);
    } else {
      UnderNone(init, last.idx);
    }
  }

  // ---------- what a run gathers ----------

  /** What is gathered of a resource: all its keys in wire order when it was live at the start; otherwise the
      keys that need not wait, and behind them, once it has been born, the others. */
  function Gathered(wire: seq<Attempt>, idx: u8, start: bool, ever: bool): seq<Bytes> {
    if start then WireKeys(wire, idx) else Part(wire, idx, false) + (if ever then Part(wire, idx, true) else [])
  }

  lemma GatheredGrows(wire: seq<Attempt>, idx: u8, start: bool, ever: bool, live: bool)
    requires start ==> ever
    ensures Gathered(wire, idx, start, ever) + (if live && !ever then Part(wire, idx, true) else [])
         == Gathered(wire, idx, start, ever || live)
  {
  }

  lemma {:induction false} RunGathers(wire: seq<Attempt>, lives: seq<Live>, idx: u8)
    requires lives != []
    ensures Under(Rounds(wire, lives).0, idx) == Gathered(wire, idx, lives[0](idx), Ever(lives)(idx))
  {
    var init, live := lives[..|lives| - 1], lives[|lives| - 1];
    assert lives == init + [live];
    if init != [] {
      RunGathers(wire, init, idx);
    }
    OneMoreRoundGathers(wire, init, live, idx);
  }

  lemma OneMoreRoundGathers(wire: seq<Attempt>, init: seq<Live>, live: Live, idx: u8)
    requires init != [] ==> Under(Rounds(wire, init).0, idx) == Gathered(wire, idx, init[0](idx), Ever(init)(idx))
    ensures Under(Rounds(wire, init + [live]).0, idx)
         == Gathered(wire, idx, (init + [live])[0](idx), Ever(init + [live])(idx))
  {
    assert (init + [live])[..|init|] == init;
    EverGrows(init + [live], idx);
    if init == [] {
      FirstRoundGathers(wire, live, idx);
      assert [] + [live] == [live];
    } else {
      StartIsEver(init, idx);
      LaterRoundGathers(wire, init, live, idx);
      GatheredGrows(wire, idx, init[0](idx), Ever(init)(idx), live(idx));
    }
  }

  lemma FirstRoundGathers(wire: seq<Attempt>, live: Live, idx: u8)
    ensures Under(Rounds(wire, [live]).0, idx) == Gathered(wire, idx, live(idx), live(idx))
  {
    RoundsUnfold(wire, [live]);
    assert Rounds(wire, []) == ([], wire);
    RoundGathers([], wire, live, idx);
    ReadyKeys(wire, live, idx);
  }

  lemma LaterRoundGathers(wire: seq<Attempt>, init: seq<Live>, live: Live, idx: u8)
    requires init != []
    ensures Under(Rounds(wire, init + [live]).0, idx)
         == Under(Rounds(wire, init).0, idx) + (if live(idx) && !Ever(init)(idx) then Part(wire, idx, true) else [])
  {
    var (b, p) := Rounds(wire, init);
    RoundsUnfold(wire, init + [live]);
    assert (init + [live])[..|init|] == init;
    RoundGathers(b, p, live, idx);
    PendingIsExact(wire, init);
    LateKeys(wire, Ever(init), live, idx);
  }

  lemma EverGrows(lives: seq<Live>, idx: u8)
    requires lives != []
    ensures Ever(lives)(idx) == (Ever(lives[..|lives| - 1])(idx) || lives[|lives| - 1](idx))
  {
  }

  lemma {:induction false} StartIsEver(lives: seq<Live>, idx: u8)
    requires lives != []
    ensures lives[0](idx) ==> Ever(lives)(idx)
  {
    var init := lives[..|lives| - 1];
    EverGrows(lives, idx);
    if init != [] {
      StartIsEver(init, idx);
    }
  }

  /** A round adds what it resolves. */
  lemma RoundGathers(b: seq<Slot<seq<Bytes>>>, p: seq<Attempt>, live: Live, idx: u8)
    ensures Under(ByIndex(Shared(b, p, live)), idx) == Under(b, idx) + WireKeys(Ready(p, live), idx)
  {
    UnderSort(Shared(b, p, live), idx);
    UnderGather(b, Keys(Ready(p, live), true), idx);
  }

  /** A later round resolves the waiting keys of the resources born since. */
  lemma LateKeys(wire: seq<Attempt>, ever: Live, live: Live, idx: u8)
    ensures WireKeys(Ready(Waiting(wire, ever), live), idx)
         == if live(idx) && !ever(idx) then Part(wire, idx, true) else []
  {
    ReadyKeys(Waiting(wire, ever), live, idx);
    WaitingKeys(wire, ever, idx);
  }

  predicate Contributes(p: seq<Attempt>, idx: u8) {
    exists s :: s in p && Counts(s, idx)
  }

  lemma HasMore<T>(cs: seq<Slot<T>>, c: Slot<T>)
    ensures forall idx: u8 :: Has(cs + [c], idx) <==> Has(cs, idx) || c.idx == idx
  {
    HasSplit(cs + [c]);
    assert (cs + [c])[..|cs|] == cs;
  }

  lemma {:induction false} KeysOfSigners(p: seq<Attempt>, idx: u8)
    ensures Has(Keys(p, true), idx) <==> Contributes(p, idx)
  {
    if p != [] {
      var init, s := p[..|p| - 1], p[|p| - 1];
      KeysOfSigners(init, idx);
      assert p == init + [s];
      KeysOne(init, s, true);
      HasMore(Keys(init, true), Key(s));
      ContributesMore(init, s, idx);
    }
  }

  lemma ContributesMore(p: seq<Attempt>, s: Attempt, idx: u8)
    ensures Contributes(p + [s], idx) <==> Contributes(p, idx) || Counts(s, idx)
  {
    if Contributes(p, idx) {
      var t :| t in p && Counts(t, idx);
      assert t in p + [s];
    }
    if Counts(s, idx) {
      assert s in p + [s];
    }
  }

  /** A resource has an entry iff one of its signers has been resolved. */
  lemma {:induction false} EntriesOfRun(wire: seq<Attempt>, lives: seq<Live>)
    requires lives != []
    ensures Ascending(Rounds(wire, lives).0)
    ensures forall idx: u8 :: Has(Rounds(wire, lives).0, idx) <==> Contributes(Ready(wire, Ever(lives)), idx)
  {
    var init, live := lives[..|lives| - 1], lives[|lives| - 1];
    var (b, p) := Rounds(wire, init);
    RoundsUnfold(wire, lives);
    EntriesOfRound(b, p, live);
    if init == [] {
      EverOfOne(lives);
      SameLive(wire, live, Ever(lives));
    } else {
      EntriesOfRun(wire, init);
      PendingIsExact(wire, init);
      forall idx: u8 ensures Contributes(Ready(wire, Ever(lives)), idx)
                     <==> Contributes(Ready(wire, Ever(init)), idx) || Contributes(Ready(p, live), idx) {
        ResolvedSoFar(wire, Ever(init), live, idx);
      }
    }
  }

  lemma EverOfOne(lives: seq<Live>)
    requires |lives| == 1
    ensures forall i :: lives[0](i) == Ever(lives)(i)
  {
    forall i ensures lives[0](i) == Ever(lives)(i) {
      assert Ever(lives)(i) == (Ever(lives[..0])(i) || lives[0](i));
    }
  }

  lemma EntriesOfRound(b: seq<Slot<seq<Bytes>>>, p: seq<Attempt>, live: Live)
    ensures Ascending(ByIndex(Shared(b, p, live)))
    ensures forall idx: u8 :: Has(ByIndex(Shared(b, p, live)), idx) <==> Has(b, idx) || Contributes(Ready(p, live), idx)
  {
    var cs := Keys(Ready(p, live), true);
    var g := Gather(b, cs);
    SortEffect(g);
    SameEntries(g, ByIndex(g));
    GatherEffect(b, cs);
    forall idx: u8 ensures Has(cs, idx) <==> Contributes(Ready(p, live), idx) {
      KeysOfSigners(Ready(p, live), idx);
    }
  }

  lemma {:induction false} SortedStays<T>(s: seq<Slot<T>>)
    requires Ascending(s)
    ensures ByIndex(s) == s
  {
    if s != [] {
      assert Ascending(s[1..]);
      SortedStays(s[1..]);
      assert s == [s[0]] + s[1..];
    }
  }

  /** With nobody waiting, a round may be skipped. */
  lemma IdleRound(wire: seq<Attempt>, lives: seq<Live>, live: Live)
    requires lives != [] && Rounds(wire, lives).1 == []
    ensures Rounds(wire, lives + [live]) == Rounds(wire, lives)
  {
    assert (lives + [live])[..|lives|] == lives;
    RoundsUnfold(wire, lives + [live]);
    EntriesOfRun(wire, lives);
    SortedStays(Rounds(wire, lives).0);
  }

  lemma ResolvedSoFar(wire: seq<Attempt>, ever: Live, live: Live, idx: u8)
    ensures Contributes(Ready(wire, Or(ever, live)), idx)
       <==> Contributes(Ready(wire, ever), idx) || Contributes(Ready(Waiting(wire, ever), live), idx)
  {
    FilterMembers(wire, ever);
    FilterMembers(Waiting(wire, ever), live);
    FilterMembers(wire, Or(ever, live));
    forall s ensures Waits(s, Or(ever, live)) == (Waits(s, ever) && Waits(s, live)) {
    }
  }

  // ---------- when the promise holds ----------

  /** One entry per resource, sorted; each entry lists, in wire order, the keys resolved so far; and exactly
      the resources with such keys have one. */
  ghost predicate Promised(b: seq<Slot<seq<Bytes>>>, wire: seq<Attempt>, ever: Live) {
    && Ascending(b) && Distinct(b)
    && (forall idx: u8 :: Has(b, idx) <==> Contributes(Ready(wire, ever), idx))
    && (forall e <- b :: e.item == WireKeys(Ready(wire, ever), e.idx))
  }

  /** The resource's keys that need not wait stand before those that do. */
  predicate KeysInTurn(wire: seq<Attempt>, idx: u8) {
    Part(wire, idx, false) + Part(wire, idx, true) == WireKeys(wire, idx)
  }

  /** Each resource whose late keys find an entry comes first in the round and last in the bucket. */
  ghost predicate MergesAt(wire: seq<Attempt>, ever: Live, live: Live) {
    var late := Ready(Waiting(wire, ever), live);
    forall idx: u8 :: Contributes(late, idx) && Contributes(Ready(wire, ever), idx) ==>
      && (forall j: u8 :: Contributes(late, j) ==> idx <= j)
      && (forall j: u8 :: Contributes(Ready(wire, ever), j) ==> j <= idx)
  }

  ghost predicate HoldsKeys(b: seq<Slot<seq<Bytes>>>, wire: seq<Attempt>, ever: Live) {
    forall idx: u8 :: Under(b, idx) == WireKeys(Ready(wire, ever), idx)
  }

  /** Of a sorted bucket with the right entries, only two things are left to ask. */
  lemma PromisedIff(b: seq<Slot<seq<Bytes>>>, wire: seq<Attempt>, ever: Live)
    requires Ascending(b) && forall idx: u8 :: Has(b, idx) <==> Contributes(Ready(wire, ever), idx)
    ensures Promised(b, wire, ever) <==> Distinct(b) && HoldsKeys(b, wire, ever)
  {
    if Promised(b, wire, ever) {
      forall idx: u8 ensures Under(b, idx) == WireKeys(Ready(wire, ever), idx) {
        EntryOrNone(b, wire, ever, idx);
      }
    }
    if Distinct(b) && HoldsKeys(b, wire, ever) {
      EntriesHoldWhatIsUnder(b, wire, ever);
    }
  }

  lemma EntriesHoldWhatIsUnder(b: seq<Slot<seq<Bytes>>>, wire: seq<Attempt>, ever: Live)
    requires Distinct(b) && HoldsKeys(b, wire, ever)
    ensures forall e <- b :: e.item == WireKeys(Ready(wire, ever), e.idx)
  {
    forall e <- b ensures e.item == WireKeys(Ready(wire, ever), e.idx) {
      var k :| 0 <= k < |b| && b[k] == e;
      UnderEntry(b, k);
    }
  }

  lemma EntryOrNone(b: seq<Slot<seq<Bytes>>>, wire: seq<Attempt>, ever: Live, idx: u8)
    requires Promised(b, wire, ever)
    ensures Under(b, idx) == WireKeys(Ready(wire, ever), idx)
  {
    if Has(b, idx) {
      var k :| 0 <= k < |b| && b[k].idx == idx;
      UnderEntry(b, k);
      assert b[k] in b;
    } else {
      UnderNone(b, idx);
      KeysOfSigners(Ready(wire, ever), idx);
      PickNone(Keys(Ready(wire, ever), true), idx);
    }
  }

  lemma {:induction false} PickNone(cs: seq<Slot<Bytes>>, idx: u8)
    requires !Has(cs, idx)
    ensures Pick(cs, idx) == []
  {
    if cs != [] {
      HasSplit(cs);
      PickNone(cs[..|cs| - 1], idx);
    }
  }

  /** Mergeability, resource by resource. */
  lemma MergeableByResource(b: seq<Slot<seq<Bytes>>>, cs: seq<Slot<Bytes>>)
    ensures Mergeable(b, cs) <==>
            forall idx: u8 :: Has(cs, idx) && Has(b, idx) ==> idx == cs[0].idx && idx == b[|b| - 1].idx
  {
    assert forall k :: 0 <= k < |cs| ==> Has(cs, cs[k].idx);
  }

  ghost predicate Least(cs: seq<Slot<Bytes>>, idx: u8) {
    forall j: u8 :: Has(cs, j) ==> idx <= j
  }

  ghost predicate Greatest(b: seq<Slot<seq<Bytes>>>, idx: u8) {
    forall j: u8 :: Has(b, j) ==> j <= idx
  }

  lemma LeastIsFirst(cs: seq<Slot<Bytes>>, idx: u8)
    requires Ascending(cs) && Has(cs, idx)
    ensures idx == cs[0].idx <==> Least(cs, idx)
  {
    assert Has(cs, cs[0].idx);
  }

  lemma GreatestIsLast(b: seq<Slot<seq<Bytes>>>, idx: u8)
    requires Ascending(b) && Has(b, idx)
    ensures idx == b[|b| - 1].idx <==> Greatest(b, idx)
  {
    assert Has(b, b[|b| - 1].idx);
  }

  /** Mergeability in terms of the wire. */
  lemma MergeableIff(b: seq<Slot<seq<Bytes>>>, wire: seq<Attempt>, ever: Live, live: Live)
    requires InWireOrder(wire) && Ascending(b)
    requires forall idx: u8 :: Has(b, idx) <==> Contributes(Ready(wire, ever), idx)
    ensures Mergeable(b, Keys(Ready(Waiting(wire, ever), live), true)) <==> MergesAt(wire, ever, live)
  {
    var late := Ready(Waiting(wire, ever), live);
    var cs := Keys(late, true);
    FiltersAscend(wire, ever, 255);
    FiltersAscend(Waiting(wire, ever), live, 255);
    KeysAscend(late, true, 255);
    MergeableByResource(b, cs);
    forall idx: u8 ensures Has(cs, idx) <==> Contributes(late, idx) {
      KeysOfSigners(late, idx);
    }
    forall idx: u8 | Has(cs, idx) && Has(b, idx)
      ensures (idx == cs[0].idx <==> Least(cs, idx)) && (idx == b[|b| - 1].idx <==> Greatest(b, idx))
    {
      LeastIsFirst(cs, idx);
      GreatestIsLast(b, idx);
    }
    MergesByResource(b, cs, wire, ever, live);
  }

  lemma MergesByResource(b: seq<Slot<seq<Bytes>>>, cs: seq<Slot<Bytes>>, wire: seq<Attempt>, ever: Live, live: Live)
    requires forall idx: u8 :: Has(b, idx) <==> Contributes(Ready(wire, ever), idx)
    requires forall idx: u8 :: Has(cs, idx) <==> Contributes(Ready(Waiting(wire, ever), live), idx)
    ensures MergesAt(wire, ever, live) <==>
            forall idx: u8 :: Has(cs, idx) && Has(b, idx) ==> Least(cs, idx) && Greatest(b, idx)
  {
  }

  /** A round keeps the promise iff it merges and every resource born in it has its keys in turn. */
  lemma RoundIsExact(b: seq<Slot<seq<Bytes>>>, wire: seq<Attempt>, ever: Live, live: Live)
    requires InWireOrder(wire) && Promised(b, wire, ever)
    ensures Promised(ByIndex(Shared(b, Waiting(wire, ever), live)), wire, Or(ever, live)) <==>
            MergesAt(wire, ever, live) && forall idx: u8 :: live(idx) && !ever(idx) ==> KeysInTurn(wire, idx)
  {
    var p := Waiting(wire, ever);
    var b' := ByIndex(Shared(b, p, live));
    FiltersAscend(wire, ever, 255);
    RoundKeepsEntries(b, p, live);
    MergeableIff(b, wire, ever, live);
    EntriesOfRound(b, p, live);
    forall idx: u8 ensures Has(b', idx) <==> Contributes(Ready(wire, Or(ever, live)), idx) {
      ResolvedSoFar(wire, ever, live, idx);
    }
    PromisedIff(b', wire, Or(ever, live));
    forall idx: u8 ensures Under(b', idx) == WireKeys(Ready(wire, Or(ever, live)), idx)
                  <==> (live(idx) && !ever(idx) ==> KeysInTurn(wire, idx)) {
      EntryOrNone(b, wire, ever, idx);
      RoundGathers(b, p, live, idx);
      LateKeys(wire, ever, live, idx);
      ReadyKeys(wire, ever, idx);
      ReadyKeys(wire, Or(ever, live), idx);
    }
  }

  /** Every round but the first merges. */
  ghost predicate RoundsMerge(wire: seq<Attempt>, lives: seq<Live>) {
    |lives| > 1 ==>
      var init := lives[..|lives| - 1];
      RoundsMerge(wire, init) && MergesAt(wire, Ever(init), lives[|lives| - 1])
  }

  /** One entry per resource after a run iff every late round merges. */
  lemma {:induction false} RunKeepsEntries(wire: seq<Attempt>, lives: seq<Live>)
    requires InWireOrder(wire) && lives != []
    ensures Distinct(Rounds(wire, lives).0) <==> RoundsMerge(wire, lives)
  {
    var init, live := lives[..|lives| - 1], lives[|lives| - 1];
    var (b, p) := Rounds(wire, init);
    RoundsUnfold(wire, lives);
    if init == [] {
      RoundKeepsEntries([], wire, live);
    } else {
      RunKeepsEntries(wire, init);
      LaterRoundKeepsEntries(wire, init, live);
    }
  }

  lemma LaterRoundKeepsEntries(wire: seq<Attempt>, init: seq<Live>, live: Live)
    requires InWireOrder(wire) && init != []
    ensures var (b, p) := Rounds(wire, init);
      Distinct(ByIndex(Shared(b, p, live))) <==> Distinct(b) && MergesAt(wire, Ever(init), live)
  {
    var (b, p) := Rounds(wire, init);
    EntriesOfRun(wire, init);
    PendingIsExact(wire, init);
    FiltersAscend(wire, Ever(init), 255);
    if Distinct(b) {
      RoundKeepsEntries(b, p, live);
      MergeableIff(b, wire, Ever(init), live);
    } else if Distinct(ByIndex(Shared(b, p, live))) {
      RoundKeepsDoubles(b, p, live);
    }
  }

  /** The promise holds after a run, however late resources are born, iff every resource that was not live
      at the start and has been born since has its keys in turn, and every late round merges. */
  lemma RunIsExact(wire: seq<Attempt>, lives: seq<Live>)
    requires InWireOrder(wire) && lives != []
    ensures Promised(Rounds(wire, lives).0, wire, Ever(lives)) <==>
            && (forall idx: u8 :: Ever(lives)(idx) && !lives[0](idx) ==> KeysInTurn(wire, idx))
            && RoundsMerge(wire, lives)
  {
    var b := Rounds(wire, lives).0;
    EntriesOfRun(wire, lives);
    RunKeepsEntries(wire, lives);
    PromisedIff(b, wire, Ever(lives));
    forall idx: u8 ensures Under(b, idx) == WireKeys(Ready(wire, Ever(lives)), idx)
                  <==> (Ever(lives)(idx) && !lives[0](idx) ==> KeysInTurn(wire, idx)) {
      RunGathers(wire, lives, idx);
      ReadyKeys(wire, Ever(lives), idx);
      if lives[0](idx) {
        StartIsEver(lives, idx);
      }
    }
  }

  // ---------- reading the condition off the wire ----------

  /** A key that may wait stands before one that need not. */
  predicate OutOfTurn(wire: seq<Attempt>, idx: u8) {
    exists i, j :: 0 <= i < j < |wire| && Jumps(wire[i], wire[j], idx)
  }

  predicate Jumps(s: Attempt, t: Attempt, idx: u8) {
    Counts(s, idx) && Gated(s.kind) && Counts(t, idx) && !Gated(t.kind)
  }

  predicate AllDiffer(keys: seq<Bytes>) {
    forall i, j :: 0 <= i < j < |keys| ==> keys[i] != keys[j]
  }

  lemma OutOfTurnMore(init: seq<Attempt>, s: Attempt, idx: u8)
    ensures OutOfTurn(init + [s], idx) <==>
            OutOfTurn(init, idx) || exists t <- init :: Jumps(t, s, idx)
  {
    var p := init + [s];
    if OutOfTurn(init, idx) {
      var i, j :| 0 <= i < j < |init| && Jumps(init[i], init[j], idx);
      assert Jumps(p[i], p[j], idx);
    }
    if t :| t in init && Jumps(t, s, idx) {
      var i :| 0 <= i < |init| && init[i] == t;
      assert Jumps(p[i], p[|init|], idx);
    }
    if OutOfTurn(p, idx) {
      var i, j :| 0 <= i < j < |p| && Jumps(p[i], p[j], idx);
      assert p[i] == init[i];
      assert j < |init| ==> p[j] == init[j];
    }
  }

  /** A part is empty iff no signer contributes to it, and it has no key that the wire does not. */
  lemma {:induction false} PartMembers(p: seq<Attempt>, idx: u8, gated: bool)
    ensures Part(p, idx, gated) == [] <==> forall s <- p :: !(Counts(s, idx) && Gated(s.kind) == gated)
    ensures forall k <- Part(p, idx, gated) :: k in WireKeys(p, idx)
  {
    if p != [] {
      var init, s := p[..|p| - 1], p[|p| - 1];
      assert p == init + [s];
      PartMembers(init, idx, gated);
      PartOne(init, s, idx, gated);
      WireKeysOne(init, s, idx);
    }
  }

  /** A resource has its keys in turn when no key stands out of turn. */
  lemma {:induction false} InTurn(wire: seq<Attempt>, idx: u8)
    requires !OutOfTurn(wire, idx)
    ensures KeysInTurn(wire, idx)
  {
    if wire != [] {
      var init, s := wire[..|wire| - 1], wire[|wire| - 1];
      assert wire == init + [s];
      OutOfTurnMore(init, s, idx);
      InTurn(init, idx);
      PartOne(init, s, idx, false);
      PartOne(init, s, idx, true);
      WireKeysOne(init, s, idx);
      if Counts(s, idx) && Gated(s.kind) {
        Regroup(Part(init, idx, false), Part(init, idx, true), [Key(s).item]);
      } else if Counts(s, idx) {
        assert forall t <- init :: !Jumps(t, s, idx);
        PartMembers(init, idx, true);
      }
    }
  }

  /** If its keys all differ, only then. */
  lemma {:induction false} OnlyInTurn(wire: seq<Attempt>, idx: u8)
    requires KeysInTurn(wire, idx) && AllDiffer(WireKeys(wire, idx))
    ensures !OutOfTurn(wire, idx)
  {
    if wire != [] {
      var init, s := wire[..|wire| - 1], wire[|wire| - 1];
      assert wire == init + [s];
      OutOfTurnMore(init, s, idx);
      PartOne(init, s, idx, false);
      PartOne(init, s, idx, true);
      WireKeysOne(init, s, idx);
      var w, free, gated, k := WireKeys(init, idx), Part(init, idx, false), Part(init, idx, true), Key(s).item;
      assert Counts(s, idx) ==> WireKeys(wire, idx) == w + [k];
      DifferBefore(w, k);
      if Counts(s, idx) && !Gated(s.kind) {
        PartMembers(init, idx, true);
        LastIsNew(free, gated, w, k);
        assert forall t <- init :: !Jumps(t, s, idx);
      } else if Counts(s, idx) {
        OneFewer(free, gated, w, k);
      }
      OnlyInTurn(init, idx);
    }
  }

  lemma DifferBefore(w: seq<Bytes>, k: Bytes)
    ensures AllDiffer(w + [k]) ==> AllDiffer(w) && k !in w
  {
    if AllDiffer(w + [k]) {
      forall i | 0 <= i < |w| ensures w[i] != k {
        assert (w + [k])[i] != (w + [k])[|w|];
      }
      forall i, j | 0 <= i < j < |w| ensures w[i] != w[j] {
        assert (w + [k])[i] != (w + [k])[j];
      }
    }
  }

  lemma OneFewer<T>(a: seq<T>, b: seq<T>, w: seq<T>, k: T)
    requires a + (b + [k]) == w + [k]
    ensures a + b == w
  {
    assert (a + (b + [k]))[..|w|] == a + b;
    assert (w + [k])[..|w|] == w;
  }

  lemma LastIsLast<T>(a: seq<T>, b: seq<T>, w: seq<T>, k: T)
    requires a + b == w + [k] && b != []
    ensures b[|b| - 1] == k
  {
    assert (a + b)[|w|] == b[|b| - 1];
    assert (w + [k])[|w|] == k;
  }

  lemma LastIsNew<T>(a: seq<T>, b: seq<T>, w: seq<T>, k: T)
    requires (a + [k]) + b == w + [k] && k !in w && forall x <- b :: x in w
    ensures b == [] && a == w
  {
    if b != [] {
      LastIsLast(a + [k], b, w, k);
    } else {
      OneFewer(a, [], w, k);
    }
  }

  /** No resource takes both keys that may wait and keys that need not. */
  predicate Unmixed(wire: seq<Attempt>) {
    forall s, t :: s in wire && t in wire && Multisig(s.kind) && Multisig(t.kind) && s.resourceIdx == t.resourceIdx ==>
      Gated(s.kind) == Gated(t.kind)
  }

  lemma UnmixedInTurn(wire: seq<Attempt>, idx: u8)
    requires Unmixed(wire)
    ensures KeysInTurn(wire, idx)
  {
    forall i, j | 0 <= i < j < |wire| ensures !Jumps(wire[i], wire[j], idx) {
    }
    InTurn(wire, idx);
  }

  /** Without mixed resources the promise holds however late resources are born. */
  lemma RunsKeepThePromise(wire: seq<Attempt>, lives: seq<Live>)
    requires InWireOrder(wire) && lives != [] && Unmixed(wire)
    ensures Promised(Rounds(wire, lives).0, wire, Ever(lives))
  {
    forall idx: u8 ensures KeysInTurn(wire, idx) {
      UnmixedInTurn(wire, idx);
    }
    UnmixedRoundsMerge(wire, lives);
    RunIsExact(wire, lives);
  }

  lemma {:induction false} UnmixedRoundsMerge(wire: seq<Attempt>, lives: seq<Live>)
    requires Unmixed(wire)
    ensures RoundsMerge(wire, lives)
  {
    if |lives| > 1 {
      var init := lives[..|lives| - 1];
      UnmixedRoundsMerge(wire, init);
      FilterMembers(wire, Ever(init));
      FilterMembers(Waiting(wire, Ever(init)), lives[|lives| - 1]);
    }
  }

  lemma ContributesBy(p: seq<Attempt>, s: Attempt, idx: u8)
    requires s in p && Counts(s, idx)
    ensures Contributes(p, idx)
  {
  }

  /** A late key whose resource has an entry, when another resource's entry stands behind it. */
  lemma EntryIsNotLast(wire: seq<Attempt>, ever: Live, live: Live, p: Attempt, w: Attempt, q: Attempt)
    requires p in wire && w in wire && q in wire && Jumps(p, w, p.resourceIdx) && Counts(q, q.resourceIdx)
    requires Waits(p, ever) && !Waits(q, ever) && live(p.resourceIdx) && p.resourceIdx < q.resourceIdx
    ensures !MergesAt(wire, ever, live)
  {
    FilterMembers(wire, ever);
    FilterMembers(Waiting(wire, ever), live);
    ContributesBy(Ready(wire, ever), w, p.resourceIdx);
    ContributesBy(Ready(wire, ever), q, q.resourceIdx);
    ContributesBy(Ready(Waiting(wire, ever), live), p, p.resourceIdx);
  }

  /** A wire that speaks of one resource only. */
  lemma OneResourceMerges(wire: seq<Attempt>, ever: Live, live: Live, idx: u8)
    requires forall s <- wire :: s.resourceIdx == idx
    ensures MergesAt(wire, ever, live)
  {
    FilterMembers(wire, ever);
    FilterMembers(Waiting(wire, ever), live);
  }

  /** The entries of two rounds. */
  lemma TwoRounds(wire: seq<Attempt>, first: Live, second: Live)
    requires InWireOrder(wire)
    ensures Distinct(Rounds(wire, [first]).0)
    ensures Distinct(Rounds(wire, [first, second]).0) <==> MergesAt(wire, Ever([first]), second)
  {
    RunKeepsEntries(wire, [first]);
    RunKeepsEntries(wire, [first, second]);
    assert [first, second][..1] == [first];
  }

  const SIG_PTR := W.MultisigSchnorrSigPtr(0, 0)
  const PREV_TX := W.MultisigPrevTxV1Witness(W.Witness(0, 0, 0, 0))

  /** A resource with both, born in the last round, behind another one's key: it ends with two entries. */
  lemma MixedSignersSplitAnEntry(a: Bytes, b: Bytes, c: Bytes, late: Live, all: Live)
    requires late(7) && !late(5) && all(5)
    ensures var wire := [Attempt(5, SIG_PTR, Ok(a)), Attempt(5, PREV_TX, Ok(b)), Attempt(7, SIG_PTR, Ok(c))];
      InWireOrder(wire) && Distinct(Rounds(wire, [late]).0) && !Distinct(Rounds(wire, [late, all]).0)
  {
    var p, w, q := Attempt(5, SIG_PTR, Ok(a)), Attempt(5, PREV_TX, Ok(b)), Attempt(7, SIG_PTR, Ok(c));
    TwoRounds([p, w, q], late, all);
    EverOfOne([late]);
    EntryIsNotLast([p, w, q], Ever([late]), all, p, w, q);
  }

  /** A resource with both, born in the second round: one entry, but not in wire order. */
  lemma MixedSignersSwapKeys(a: Bytes, b: Bytes, none: Live, all: Live)
    requires !none(5) && all(5) && a != b
    ensures var wire := [Attempt(5, SIG_PTR, Ok(a)), Attempt(5, PREV_TX, Ok(b))];
      var bucket := Rounds(wire, [none, all]).0;
      && InWireOrder(wire) && WireKeys(wire, 5) == [a, b]
      && Distinct(bucket) && Under(bucket, 5) == [b, a]
      && !Promised(bucket, wire, Ever([none, all]))
  {
    var p, w := Attempt(5, SIG_PTR, Ok(a)), Attempt(5, PREV_TX, Ok(b));
    KeysOfTwo(p, w, 5);
    TwoRounds([p, w], none, all);
    OneResourceMerges([p, w], Ever([none]), all, 5);
    SwappedKeys([p, w], none, all, 5);
  }

  lemma SwappedKeys(wire: seq<Attempt>, none: Live, all: Live, idx: u8)
    requires InWireOrder(wire) && !none(idx) && all(idx)
    ensures Under(Rounds(wire, [none, all]).0, idx) == Part(wire, idx, false) + Part(wire, idx, true)
    ensures Promised(Rounds(wire, [none, all]).0, wire, Ever([none, all])) ==> KeysInTurn(wire, idx)
  {
    RunGathers(wire, [none, all], idx);
    RunIsExact(wire, [none, all]);
    EverGrows([none, all], idx);
  }

  lemma KeysOfTwo(p: Attempt, w: Attempt, idx: u8)
    requires Jumps(p, w, idx)
    ensures WireKeys([p, w], idx) == [Key(p).item, Key(w).item]
    ensures Part([p, w], idx, false) == [Key(w).item] && Part([p, w], idx, true) == [Key(p).item]
  {
    assert [p, w] == [p] + [w] && [p] == [] + [p];
    WireKeysOne([], p, idx);
    WireKeysOne([p], w, idx);
    PartOne([], p, idx, false);
    PartOne([p], w, idx, false);
    PartOne([], p, idx, true);
    PartOne([p], w, idx, true);
  }
}
