/** Why encoded bytes can be read back in one way only: no encoding is the start of another. */
module WireReading {
  import opened Prelude
  import opened Resources
  import opened Actions
  import opened Wire

  /** A prefix made of two parts. */
  lemma PrefixSplit(x: Bytes, y: Bytes, buf: Bytes)
    ensures x + y <= buf <==> x <= buf && y <= buf[|x|..]
  {
    if x <= buf && y <= buf[|x|..] {
      assert buf == x + buf[|x|..];
      assert buf[..|x + y|] == x + y;
    }
    if x + y <= buf {
      assert buf[..|x|] == (x + y)[..|x|] == x;
      assert buf[|x|..][..|y|] == (x + y)[|x|..] == y;
    }
  }

  lemma Regroup(x: Bytes, y: Bytes, z: Bytes)
    ensures (x + y) + z == x + (y + z)
  {
  }

  lemma LockPrefixFree(a: Lock, b: Lock, rules: MultisigRules, buf: Bytes)
    requires WfLock(a, rules) && WfLock(b, rules) && EncodeLock(a) <= buf && EncodeLock(b) <= buf
    ensures a == b
  {
    assert EncodeLock(a)[0] == buf[0] == EncodeLock(b)[0];
    match a
    case Schnorr(p) =>
      assert p == buf[1..33] && b.pubkey == buf[1..33];
    case Multisig(t, ks) =>
      assert EncodeLock(a)[1] == buf[1] == EncodeLock(b)[1];
      assert EncodeLock(a)[2] == buf[2] == EncodeLock(b)[2];
      assert |ks| == |b.pubkeys|;
      assert ks == buf[3..3 + |ks|] && b.pubkeys == buf[3..3 + |ks|];
    case Unlocked =>
  }

  lemma OptLockPrefixFree(a: Option<Lock>, b: Option<Lock>, rules: MultisigRules, buf: Bytes)
    requires WfOptLock(a, rules) && WfOptLock(b, rules) && EncodeOptLock(a) <= buf && EncodeOptLock(b) <= buf
    ensures a == b
  {
    assert EncodeOptLock(a)[0] == buf[0] == EncodeOptLock(b)[0];
    if a.Some? {
      PrefixSplit([1], EncodeLock(a.value), buf);
      PrefixSplit([1], EncodeLock(b.value), buf);
      LockPrefixFree(a.value, b.value, rules, buf[1..]);
    }
  }

  lemma SpkPrefixFree(a: StandardSpk, b: StandardSpk, buf: Bytes)
    requires WfSpk(a) && WfSpk(b) && EncodeSpk(a) <= buf && EncodeSpk(b) <= buf
    ensures a == b
  {
    assert EncodeSpk(a)[0] == buf[0] == EncodeSpk(b)[0];
    match a
    case PubKey(k) => assert k == buf[1..33] && b.key == buf[1..33];
    case PubKeyEcdsa(k) => assert k == buf[1..34] && b.ecdsaKey == buf[1..34];
    case ScriptHash(h) => assert h == buf[1..33] && b.hash == buf[1..33];
  }

  // ---------- actions, field by field ----------

  /** `buf` starts with a config body: each field where the decoder meets it. */
  predicate ConfigLaid(i: u8, min: u64, ttl: u64, covenant: Bytes, lock: Lock, buf: Bytes) {
    && [i] <= buf
    && EncodeU64(min) <= buf[1..]
    && EncodeU64(ttl) <= buf[1..][8..]
    && covenant <= buf[1..][8..][8..]
    && EncodeLock(lock) <= buf[1..][8..][8..][|covenant|..]
  }

  /** `buf` starts with the body of `a`. */
  predicate Laid(a: Action, buf: Bytes) {
    match a
    case Update(i, min, ttl, covenant, lock) => ConfigLaid(i, min, ttl, covenant, lock, buf)
    case Init(i, min, ttl, covenant, lock) => ConfigLaid(i, min, ttl, covenant, lock, buf)
    case Transfer(i, j, amount, init) =>
      [i] <= buf && [j] <= buf[1..] && EncodeU64(amount) <= buf[1..][1..] && EncodeOptLock(init) <= buf[1..][1..][8..]
    case UpdateUserLock(i, lock) => [i] <= buf && EncodeLock(lock) <= buf[1..]
    case Deposit(i, j, out, lock) =>
      [i] <= buf && [j] <= buf[1..] && EncodeU32(out) <= buf[1..][1..] && EncodeLock(lock) <= buf[1..][1..][4..]
    case Withdraw(i, j, amount, dest) =>
      [i] <= buf && [j] <= buf[1..] && EncodeU64(amount) <= buf[1..][1..] && EncodeSpk(dest) <= buf[1..][1..][8..]
    case CreateGame(i, j, stake, rounds, mark) =>
      && [i] <= buf && [j] <= buf[1..] && EncodeU64(stake) <= buf[1..][1..]
      && [rounds] <= buf[1..][1..][8..] && [MarkByte(mark)] <= buf[1..][1..][8..][1..]
    case JoinGame(i, j) => [i] <= buf && [j] <= buf[1..]
    case Turn(i, j, cell) => [i] <= buf && [j] <= buf[1..] && [cell as u8] <= buf[1..][1..]
    case Timeout(i, j) => [i] <= buf && [j] <= buf[1..]
  }

  lemma ConfigIsLaid(i: u8, min: u64, ttl: u64, covenant: Bytes, lock: Lock, buf: Bytes)
    ensures ConfigBody(i, min, ttl, covenant, lock) <= buf <==> ConfigLaid(i, min, ttl, covenant, lock, buf)
  {
    PrefixSplit([i], EncodeU64(min) + (EncodeU64(ttl) + (covenant + EncodeLock(lock))), buf);
    if [i] <= buf {
      PrefixSplit(EncodeU64(min), EncodeU64(ttl) + (covenant + EncodeLock(lock)), buf[1..]);
      if EncodeU64(min) <= buf[1..] {
        PrefixSplit(EncodeU64(ttl), covenant + EncodeLock(lock), buf[1..][8..]);
        if EncodeU64(ttl) <= buf[1..][8..] {
          PrefixSplit(covenant, EncodeLock(lock), buf[1..][8..][8..]);
        }
      }
    }
  }

  /** Two index bytes and what follows them. */
  lemma PairSplit(i: u8, j: u8, y: Bytes, buf: Bytes)
    ensures [i, j] + y <= buf <==> [i] <= buf && [j] <= buf[1..] && y <= buf[1..][1..]
  {
    assert [i, j] + y == [i] + ([j] + y);
    PrefixSplit([i], [j] + y, buf);
    if [i] <= buf {
      PrefixSplit([j], y, buf[1..]);
    }
  }

  lemma BodyIsLaid(a: Action, buf: Bytes)
    ensures Body(a) <= buf <==> Laid(a, buf)
  {
    match a
    case Update(i, min, ttl, covenant, lock) => ConfigIsLaid(i, min, ttl, covenant, lock, buf);
    case Init(i, min, ttl, covenant, lock) => ConfigIsLaid(i, min, ttl, covenant, lock, buf);
    case Transfer(i, j, amount, init) => TailIsLaid(i, j, EncodeU64(amount), EncodeOptLock(init), buf);
    case UpdateUserLock(i, lock) => PrefixSplit([i], EncodeLock(lock), buf);
    case Deposit(i, j, out, lock) => TailIsLaid(i, j, EncodeU32(out), EncodeLock(lock), buf);
    case Withdraw(i, j, amount, dest) => TailIsLaid(i, j, EncodeU64(amount), EncodeSpk(dest), buf);
    case CreateGame(i, j, stake, rounds, mark) =>
      TailIsLaid(i, j, EncodeU64(stake), [rounds, MarkByte(mark)], buf);
      if [i] <= buf && [j] <= buf[1..] && EncodeU64(stake) <= buf[1..][1..] {
        PairSplit(rounds, MarkByte(mark), [], buf[1..][1..][8..]);
        assert [rounds, MarkByte(mark)] + [] == [rounds, MarkByte(mark)];
      }
    case JoinGame(i, j) => PairSplit(i, j, [], buf); assert [i, j] + [] == [i, j];
    case Turn(i, j, cell) => PairSplit(i, j, [cell], buf); assert [i, j] + [cell] == [i, j, cell];
    case Timeout(i, j) => PairSplit(i, j, [], buf); assert [i, j] + [] == [i, j];
  }

  lemma TailIsLaid(i: u8, j: u8, x: Bytes, y: Bytes, buf: Bytes)
    ensures [i, j] + (x + y) <= buf
       <==> [i] <= buf && [j] <= buf[1..] && x <= buf[1..][1..] && y <= buf[1..][1..][|x|..]
  {
    PairSplit(i, j, x + y, buf);
    if [i] <= buf && [j] <= buf[1..] {
      PrefixSplit(x, y, buf[1..][1..]);
    }
  }

  /** A number's bytes at the head of a buffer fix the number. */
  lemma U64Reads(v: u64, w: u64, buf: Bytes)
    requires EncodeU64(v) <= buf && EncodeU64(w) <= buf
    ensures v == w
  {
    assert EncodeU64(v) == buf[..8] == EncodeU64(w);
    NumbersInjective(v, w);
  }

  lemma U32Reads(v: u32, w: u32, buf: Bytes)
    requires EncodeU32(v) <= buf && EncodeU32(w) <= buf
    ensures v == w
  {
    assert EncodeU32(v) == buf[..4] == EncodeU32(w);
    NumbersInjective(v, w);
  }

  lemma PairReads(i: u8, j: u8, k: u8, l: u8, buf: Bytes)
    requires [i] <= buf && [j] <= buf[1..] && [k] <= buf && [l] <= buf[1..]
    ensures i == k && j == l
  {
    assert i == buf[0] == k && j == buf[1..][0] == l;
  }

  // ---------- signers ----------

  lemma WitnessReads(a: Witness, b: Witness, buf: Bytes)
    requires EncodeWitness(a) <= buf && EncodeWitness(b) <= buf
    ensures a == b
  {
    WitnessIsLaid(a, buf);
    WitnessIsLaid(b, buf);
    assert a.inputIdx == buf[0] == b.inputIdx;
    U32Reads(a.first, b.first, buf[1..]);
    U32Reads(a.second, b.second, buf[1..][4..]);
    U32Reads(a.third, b.third, buf[1..][4..][4..]);
  }

  lemma WitnessIsLaid(w: Witness, buf: Bytes)
    requires EncodeWitness(w) <= buf
    ensures [w.inputIdx] <= buf && EncodeU32(w.first) <= buf[1..] && EncodeU32(w.second) <= buf[1..][4..]
    ensures EncodeU32(w.third) <= buf[1..][4..][4..]
  {
    PrefixSplit([w.inputIdx], EncodeU32(w.first) + (EncodeU32(w.second) + EncodeU32(w.third)), buf);
    PrefixSplit(EncodeU32(w.first), EncodeU32(w.second) + EncodeU32(w.third), buf[1..]);
    PrefixSplit(EncodeU32(w.second), EncodeU32(w.third), buf[1..][4..]);
  }

  lemma KindReads(a: SignerKind, b: SignerKind, buf: Bytes)
    requires KindTag(a) == KindTag(b) && KindBody(a) <= buf && KindBody(b) <= buf
    ensures a == b
  {
    match a
    case SchnorrSigPtr(off) => U32Reads(off, b.sigOffset, buf);
    case PrevTxV1Witness(w) => WitnessReads(w, b.proof, buf);
    case MultisigSchnorrSigPtr(pk, off) =>
      PrefixSplit([pk], EncodeU32(off), buf);
      PrefixSplit([b.pubkeyIdx], EncodeU32(b.sigOffset), buf);
      assert pk == buf[0] == b.pubkeyIdx;
      U32Reads(off, b.sigOffset, buf[1..]);
    case MultisigPrevTxV1Witness(w) => WitnessReads(w, b.proof, buf);
    case GenesisSchnorrSigPtr(off) => U32Reads(off, b.sigOffset, buf);
  }

  lemma SignerPrefixFree(a: Signer, b: Signer, buf: Bytes)
    requires EncodeSigner(a) <= buf && EncodeSigner(b) <= buf
    ensures a == b
  {
    PairSplit(a.resourceIdx, KindTag(a.kind), KindBody(a.kind), buf);
    PairSplit(b.resourceIdx, KindTag(b.kind), KindBody(b.kind), buf);
    PairReads(a.resourceIdx, KindTag(a.kind), b.resourceIdx, KindTag(b.kind), buf);
    KindReads(a.kind, b.kind, buf[1..][1..]);
  }

  // ---------- actions, whole ----------

  lemma ConfigReads(a: Action, b: Action, n: nat, rules: MultisigRules, buf: Bytes)
    requires WfAction(a, n, rules) && WfAction(b, n, rules) && Laid(a, buf) && Laid(b, buf)
    requires (a.Update? && b.Update?) || (a.Init? && b.Init?)
    ensures a == b
  {
    assert a.configIdx == buf[0] == b.configIdx;
    U64Reads(a.minWithdrawal, b.minWithdrawal, buf[1..]);
    U64Reads(a.turnTtl, b.turnTtl, buf[1..][8..]);
    assert a.covenant == buf[1..][8..][8..][..32] == b.covenant;
    LockPrefixFree(a.lock, b.lock, rules, buf[1..][8..][8..][32..]);
  }

  lemma AmountReads(a: Action, b: Action, n: nat, rules: MultisigRules, buf: Bytes)
    requires WfAction(a, n, rules) && WfAction(b, n, rules) && Laid(a, buf) && Laid(b, buf)
    requires (a.Transfer? && b.Transfer?) || (a.Withdraw? && b.Withdraw?)
    ensures a == b
  {
    U64Reads(a.amount, b.amount, buf[1..][1..]);
    if a.Transfer? {
      PairReads(a.sourceIdx, a.destIdx, b.sourceIdx, b.destIdx, buf);
      OptLockPrefixFree(a.destInit, b.destInit, rules, buf[1..][1..][8..]);
    } else {
      PairReads(a.userIdx, a.configIdx, b.userIdx, b.configIdx, buf);
      SpkPrefixFree(a.dest, b.dest, buf[1..][1..][8..]);
    }
  }

  /** At one place at most one well-formed action can be read. */
  lemma ActionPrefixFree(a: Action, b: Action, n: nat, rules: MultisigRules, buf: Bytes)
    requires WfAction(a, n, rules) && WfAction(b, n, rules)
    requires EncodeAction(a) <= buf && EncodeAction(b) <= buf
    ensures a == b
  {
    assert EncodeAction(a)[0] == buf[0] == EncodeAction(b)[0];
    PrefixSplit([Tag(a)], Body(a), buf);
    PrefixSplit([Tag(b)], Body(b), buf);
    var rest := buf[1..];
    BodyIsLaid(a, rest);
    BodyIsLaid(b, rest);
    BodyReads(a, b, n, rules, rest);
  }

  lemma BodyReads(a: Action, b: Action, n: nat, rules: MultisigRules, rest: Bytes)
    requires WfAction(a, n, rules) && WfAction(b, n, rules) && Laid(a, rest) && Laid(b, rest)
    requires Tag(a) == Tag(b)
    ensures a == b
  {
    match a
    case Update(_, _, _, _, _) => ConfigReads(a, b, n, rules, rest);
    case Init(_, _, _, _, _) => ConfigReads(a, b, n, rules, rest);
    case Transfer(_, _, _, _) => AmountReads(a, b, n, rules, rest);
    case UpdateUserLock(i, lock) =>
      assert i == rest[0] == b.userIdx;
      LockPrefixFree(lock, b.lock, rules, rest[1..]);
    case Deposit(i, j, out, lock) =>
      PairReads(i, j, b.userIdx, b.configIdx, rest);
      U32Reads(out, b.outputIdx, rest[1..][1..]);
      LockPrefixFree(lock, b.lock, rules, rest[1..][1..][4..]);
    case Withdraw(_, _, _, _) => AmountReads(a, b, n, rules, rest);
    case CreateGame(i, j, stake, rounds, mark) =>
      PairReads(i, j, b.creatorIdx, b.gameIdx, rest);
      U64Reads(stake, b.stake, rest[1..][1..]);
      PairReads(rounds, MarkByte(mark), b.rounds, MarkByte(b.mark), rest[1..][1..][8..]);
    case JoinGame(i, j) => PairReads(i, j, b.gameIdx, b.joinerIdx, rest);
    case Turn(i, j, cell) =>
      PairReads(i, j, b.gameIdx, b.userIdx, rest);
      PairReads(j, cell, b.userIdx, b.cell, rest[1..]);
    case Timeout(i, j) => PairReads(i, j, b.gameIdx, b.configIdx, rest);
  }

  // ---------- sections ----------

  /** No encoding of an accepted item is the start of another's. */
  ghost predicate PrefixFree<T(!new)>(enc: T -> Bytes, wf: T -> bool) {
    forall a, b :: wf(a) && wf(b) && enc(a) <= enc(b) ==> a == b
  }

  lemma PrefixesCompare(x: Bytes, y: Bytes, buf: Bytes)
    requires x <= buf && y <= buf
    ensures x <= y || y <= x
  {
  }

  /** Two lists of the same length that start the same buffer are the same list. */
  lemma {:induction false} ConcatPrefixFree<T(!new)>(xs: seq<T>, ys: seq<T>, enc: T -> Bytes, wf: T -> bool, buf: Bytes)
    requires PrefixFree(enc, wf) && All(xs, wf) && All(ys, wf) && |xs| == |ys|
    requires Concat(xs, enc) <= buf && Concat(ys, enc) <= buf
    ensures xs == ys
  {
    if xs != [] {
      PrefixSplit(enc(xs[0]), Concat(xs[1..], enc), buf);
      PrefixSplit(enc(ys[0]), Concat(ys[1..], enc), buf);
      PrefixesCompare(enc(xs[0]), enc(ys[0]), buf);
      ConcatPrefixFree(xs[1..], ys[1..], enc, wf, buf[|enc(xs[0])|..]);
      assert xs == [xs[0]] + xs[1..] == ys;
    }
  }

  lemma ConcatCons<T>(x: T, xs: seq<T>, enc: T -> Bytes)
    ensures Concat([x] + xs, enc) == enc(x) + Concat(xs, enc)
  {
    assert ([x] + xs)[1..] == xs;
  }

  lemma {:induction false} ConcatAppend<T>(xs: seq<T>, ys: seq<T>, enc: T -> Bytes)
    ensures Concat(xs + ys, enc) == Concat(xs, enc) + Concat(ys, enc)
  {
    if xs == [] {
      assert xs + ys == ys;
    } else {
      var x, rest := xs[0], xs[1..];
      ConcatAppend(rest, ys, enc);
      assert xs == [x] + rest && xs + ys == [x] + (rest + ys);
      ConcatCons(x, rest, enc);
      ConcatCons(x, rest + ys, enc);
      Regroup(enc(x), Concat(rest, enc), Concat(ys, enc));
    }
  }

  /** After reading `done`, the next item of any longer list that fits the buffer comes next. */
  lemma NextItem<T(!new)>(xs: seq<T>, done: seq<T>, enc: T -> Bytes, wf: T -> bool, buf: Bytes, rest: Bytes)
    requires PrefixFree(enc, wf) && All(xs, wf) && All(done, wf) && |done| < |xs|
    requires Concat(xs, enc) <= buf && buf == Concat(done, enc) + rest
    ensures xs[..|done|] == done && enc(xs[|done|]) <= rest
  {
    var head, tail := xs[..|done|], xs[|done|..];
    assert xs == head + tail;
    ConcatAppend(head, tail, enc);
    PrefixSplit(Concat(head, enc), Concat(tail, enc), buf);
    ConcatPrefixFree(head, done, enc, wf, buf);
    PrefixSplit(enc(tail[0]), Concat(tail[1..], enc), buf[|Concat(head, enc)|..]);
    assert buf[|Concat(done, enc)|..] == rest;
  }

  lemma ActionsPrefixFree(n: nat, rules: MultisigRules)
    ensures PrefixFree(EncodeAction, ActionRule(n, rules))
  {
    forall a, b | WfAction(a, n, rules) && WfAction(b, n, rules) && EncodeAction(a) <= EncodeAction(b) ensures a == b {
      ActionPrefixFree(a, b, n, rules, EncodeAction(b));
    }
  }

  lemma SignersPrefixFree(n: nat)
    ensures PrefixFree(EncodeSigner, SignerRule(n))
  {
    forall a, b | EncodeSigner(a) <= EncodeSigner(b) ensures a == b {
      SignerPrefixFree(a, b, EncodeSigner(b));
    }
  }

  // ---------- instructions ----------

  ghost predicate WfSections(signers: seq<Signer>, actions: seq<Action>, n: nat, rules: MultisigRules) {
    WfSigners(signers, n) && WfActions(actions, n, rules)
  }

  /** The two sections; a free tail may follow. */
  function EncodeSections(signers: seq<Signer>, actions: seq<Action>): Bytes
    requires |signers| < U32_LIMIT && |actions| < U32_LIMIT
  {
    EncodeSigners(signers) + EncodeActions(actions)
  }

  lemma SignersReads(xs: seq<Signer>, ys: seq<Signer>, n: nat, buf: Bytes)
    requires WfSigners(xs, n) && WfSigners(ys, n)
    requires EncodeSigners(xs) <= buf && EncodeSigners(ys) <= buf
    ensures xs == ys
  {
    PrefixSplit(EncodeU32(|xs|), Concat(xs, EncodeSigner), buf);
    PrefixSplit(EncodeU32(|ys|), Concat(ys, EncodeSigner), buf);
    U32Reads(|xs|, |ys|, buf);
    SignersPrefixFree(n);
    ConcatPrefixFree(xs, ys, EncodeSigner, SignerRule(n), buf[4..]);
  }

  lemma ActionsReads(xs: seq<Action>, ys: seq<Action>, n: nat, rules: MultisigRules, buf: Bytes)
    requires WfActions(xs, n, rules) && WfActions(ys, n, rules)
    requires EncodeActions(xs) <= buf && EncodeActions(ys) <= buf
    ensures xs == ys
  {
    PrefixSplit(EncodeU32(|xs|), Concat(xs, EncodeAction), buf);
    PrefixSplit(EncodeU32(|ys|), Concat(ys, EncodeAction), buf);
    U32Reads(|xs|, |ys|, buf);
    ActionsPrefixFree(n, rules);
    ConcatPrefixFree(xs, ys, EncodeAction, ActionRule(n, rules), buf[4..]);
  }

  /** An instruction carries one list of signers and one list of actions, whatever its tail. */
  lemma SectionsPrefixFree(s: seq<Signer>, a: seq<Action>, t: seq<Signer>, b: seq<Action>, n: nat,
                           rules: MultisigRules, buf: Bytes)
    requires WfSections(s, a, n, rules) && WfSections(t, b, n, rules)
    requires EncodeSections(s, a) <= buf && EncodeSections(t, b) <= buf
    ensures s == t && a == b
  {
    PrefixSplit(EncodeSigners(s), EncodeActions(a), buf);
    PrefixSplit(EncodeSigners(t), EncodeActions(b), buf);
    SignersReads(s, t, n, buf);
    ActionsReads(a, b, n, rules, buf[|EncodeSigners(s)|..]);
  }
}
