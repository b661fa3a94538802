/** The wire format of an instruction: signers, actions, then a free tail. */
module Wire {
  import opened Prelude
  import opened Rules
  import opened Resources
  import opened Actions
  import opened Lex

  // ---------- numbers ----------

  /** `v` in `n` little-endian bytes. */
  function LittleEndian(n: nat, v: nat): (b: Bytes)
    ensures |b| == n
  {
    if n == 0 then [] else [v % 256] + LittleEndian(n - 1, v / 256)
  }

  function FromLittleEndian(b: Bytes): nat {
    if b == [] then 0 else b[0] + 256 * FromLittleEndian(b[1..])
  }

  lemma {:induction false} LittleEndianRoundTrip(n: nat, v: nat)
    requires v < Power256(n)
    ensures FromLittleEndian(LittleEndian(n, v)) == v
  {
    if n > 0 {
      assert LittleEndian(n, v)[1..] == LittleEndian(n - 1, v / 256);
      LittleEndianRoundTrip(n - 1, v / 256);
    }
  }

  lemma {:induction false} LittleEndianOfBytes(b: Bytes)
    ensures FromLittleEndian(b) < Power256(|b|)
    ensures LittleEndian(|b|, FromLittleEndian(b)) == b
  {
    if b != [] {
      LittleEndianOfBytes(b[1..]);
      var high := FromLittleEndian(b[1..]);
      assert (b[0] + 256 * high) % 256 == b[0] && (b[0] + 256 * high) / 256 == high;
      assert b == [b[0]] + b[1..];
    }
  }

  lemma PowersOf256()
    ensures Power256(4) == U32_LIMIT && Power256(8) == U64_LIMIT
  {
    assert Power256(4) == 256 * (256 * (256 * (256 * Power256(0))));
    U64FitsEightBytes(Power256(8));
    U64FitsEightBytes(U64_LIMIT);
  }

  function EncodeU32(v: u32): (b: Bytes)
    ensures |b| == 4
  {
    LittleEndian(4, v)
  }

  function EncodeU64(v: u64): (b: Bytes)
    ensures |b| == 8
  {
    LittleEndian(8, v)
  }

  lemma NumbersInjective(v: u64, w: u64)
    ensures EncodeU64(v) == EncodeU64(w) ==> v == w
    ensures v < U32_LIMIT && w < U32_LIMIT && EncodeU32(v) == EncodeU32(w) ==> v == w
  {
    PowersOf256();
    LittleEndianRoundTrip(8, v);
    LittleEndianRoundTrip(8, w);
    if v < U32_LIMIT && w < U32_LIMIT {
      LittleEndianRoundTrip(4, v);
      LittleEndianRoundTrip(4, w);
    }
  }

  // ---------- locks and destinations ----------

  /** The multisig rules of the lock library: which (threshold, keys) it accepts. */
  type MultisigRules = (u8, Bytes) -> bool

  predicate WfLock(l: Lock, rules: MultisigRules) {
    match l
    case Schnorr(pubkey) => |pubkey| == 32
    case Multisig(threshold, pubkeys) => |pubkeys| % 32 == 0 && |pubkeys| / 32 < 256 && rules(threshold, pubkeys)
    case Unlocked => true
  }

  const LOCK_SCHNORR: u8 := 1
  const LOCK_MULTISIG: u8 := 2
  const LOCK_UNLOCKED: u8 := 3

  function EncodeLock(l: Lock): Bytes {
    match l
    case Schnorr(pubkey) => [LOCK_SCHNORR] + pubkey
    case Multisig(threshold, pubkeys) => [LOCK_MULTISIG, threshold, (|pubkeys| / 32) % 256] + pubkeys
    case Unlocked => [LOCK_UNLOCKED]
  }

  predicate WfSpk(s: StandardSpk) {
    match s
    case PubKey(k) => |k| == 32
    case PubKeyEcdsa(k) => |k| == 33
    case ScriptHash(h) => |h| == 32
  }

  function EncodeSpk(s: StandardSpk): Bytes {
    match s
    case PubKey(k) => [0] + k
    case PubKeyEcdsa(k) => [1] + k
    case ScriptHash(h) => [8] + h
  }

  /** The presence byte of an optional lock, then the lock. */
  function EncodeOptLock(l: Option<Lock>): Bytes {
    match l
    case None => [0]
    case Some(lock) => [1] + EncodeLock(lock)
  }

  predicate WfOptLock(l: Option<Lock>, rules: MultisigRules) {
    l.Some? ==> WfLock(l.value, rules)
  }

  // ---------- actions ----------

  function Tag(a: Action): u8 {
    match a
    case Update(_, _, _, _, _) => 1
    case Init(_, _, _, _, _) => 2
    case Transfer(_, _, _, _) => 3
    case UpdateUserLock(_, _) => 4
    case Deposit(_, _, _, _) => 5
    case Withdraw(_, _, _, _) => 6
    case CreateGame(_, _, _, _, _) => 7
    case JoinGame(_, _) => 8
    case Turn(_, _, _) => 9
    case Timeout(_, _) => 10
  }

  function MarkByte(c: Cell): u8 {
    match c case Empty => 0 case X => 1 case O => 2
  }

  function ConfigBody(i: u8, min: u64, ttl: u64, covenant: Bytes, lock: Lock): Bytes {
    [i] + (EncodeU64(min) + (EncodeU64(ttl) + (covenant + EncodeLock(lock))))
  }

  /** The fields after the tag, in decode order. */
  function Body(a: Action): Bytes {
    match a
    case Update(i, min, ttl, covenant, lock) => ConfigBody(i, min, ttl, covenant, lock)
    case Init(i, min, ttl, covenant, lock) => ConfigBody(i, min, ttl, covenant, lock)
    case Transfer(src, dst, amount, init) => [src, dst] + (EncodeU64(amount) + EncodeOptLock(init))
    case UpdateUserLock(i, lock) => [i] + EncodeLock(lock)
    case Deposit(u, c, out, lock) => [u, c] + (EncodeU32(out) + EncodeLock(lock))
    case Withdraw(u, c, amount, dest) => [u, c] + (EncodeU64(amount) + EncodeSpk(dest))
    case CreateGame(u, g, stake, rounds, mark) => [u, g] + (EncodeU64(stake) + [rounds, MarkByte(mark)])
    case JoinGame(g, u) => [g, u]
    case Turn(g, u, cell) => [g, u, cell]
    case Timeout(g, c) => [g, c]
  }

  function EncodeAction(a: Action): Bytes {
    [Tag(a)] + Body(a)
  }

  /** Fields of the size the wire gives them. */
  predicate WfFields(a: Action, rules: MultisigRules) {
    match a
    case Update(_, _, _, covenant, lock) => |covenant| == 32 && WfLock(lock, rules)
    case Init(_, _, _, covenant, lock) => |covenant| == 32 && WfLock(lock, rules)
    case Transfer(_, _, _, init) => WfOptLock(init, rules)
    case UpdateUserLock(_, lock) => WfLock(lock, rules)
    case Deposit(_, _, _, lock) => WfLock(lock, rules)
    case Withdraw(_, _, _, dest) => WfSpk(dest)
    case _ => true
  }

  /** An action an issuer can encode and the decoder accepts. */
  predicate WfAction(a: Action, n: nat, rules: MultisigRules) {
    Admitted(a, n) && WfFields(a, rules)
  }

  // ---------- signers ----------

  /** How a signer proves its authority: a pointer to a signature, or to a spent output. A witness names an
      input and three places in the payload. */
  datatype SignerKind =
    | SchnorrSigPtr(sigOffset: u32)
    | PrevTxV1Witness(proof: Witness)
    | MultisigSchnorrSigPtr(pubkeyIdx: u8, sigOffset: u32)
    | MultisigPrevTxV1Witness(proof: Witness)
    | GenesisSchnorrSigPtr(sigOffset: u32)

  datatype Witness = Witness(inputIdx: u8, first: u32, second: u32, third: u32)

  datatype Signer = Signer(resourceIdx: u8, kind: SignerKind)

  function KindTag(k: SignerKind): u8 {
    match k
    case SchnorrSigPtr(_) => 1
    case PrevTxV1Witness(_) => 2
    case MultisigSchnorrSigPtr(_, _) => 3
    case MultisigPrevTxV1Witness(_) => 4
    case GenesisSchnorrSigPtr(_) => 5
  }

  function EncodeWitness(w: Witness): (b: Bytes)
    ensures |b| == 13
  {
    [w.inputIdx] + (EncodeU32(w.first) + (EncodeU32(w.second) + EncodeU32(w.third)))
  }

  function KindBody(k: SignerKind): Bytes {
    match k
    case SchnorrSigPtr(off) => EncodeU32(off)
    case PrevTxV1Witness(w) => EncodeWitness(w)
    case MultisigSchnorrSigPtr(pk, off) => [pk] + EncodeU32(off)
    case MultisigPrevTxV1Witness(w) => EncodeWitness(w)
    case GenesisSchnorrSigPtr(off) => EncodeU32(off)
  }

  function EncodeSigner(s: Signer): Bytes {
    [s.resourceIdx, KindTag(s.kind)] + KindBody(s.kind)
  }

  predicate WfSigner(s: Signer, n: nat) {
    s.resourceIdx < n
  }

  // ---------- sections ----------

  /** A count-prefixed section's items, one after the other. */
  function Concat<T>(items: seq<T>, enc: T -> Bytes): Bytes {
    if items == [] then [] else enc(items[0]) + Concat(items[1..], enc)
  }

  ghost predicate All<T>(items: seq<T>, wf: T -> bool) {
    forall i :: 0 <= i < |items| ==> wf(items[i])
  }

  function ActionRule(n: nat, rules: MultisigRules): Action -> bool {
    a => WfAction(a, n, rules)
  }

  function SignerRule(n: nat): Signer -> bool {
    s => WfSigner(s, n)
  }

  ghost predicate WfActions(actions: seq<Action>, n: nat, rules: MultisigRules) {
    |actions| < U32_LIMIT && All(actions, ActionRule(n, rules))
  }

  /** Sorted by resource, repeats allowed. */
  ghost predicate Ascending(signers: seq<Signer>) {
    forall i :: 0 < i < |signers| ==> signers[i - 1].resourceIdx <= signers[i].resourceIdx
  }

  ghost predicate WfSigners(signers: seq<Signer>, n: nat) {
    |signers| < U32_LIMIT && All(signers, SignerRule(n)) && Ascending(signers)
  }

  function EncodeActions(actions: seq<Action>): Bytes
    requires |actions| < U32_LIMIT
  {
    EncodeU32(|actions|) + Concat(actions, EncodeAction)
  }

  function EncodeSigners(signers: seq<Signer>): Bytes
    requires |signers| < U32_LIMIT
  {
    EncodeU32(|signers|) + Concat(signers, EncodeSigner)
  }
}
