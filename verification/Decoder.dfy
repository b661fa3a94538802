/** The guest's decoder of the instruction wire: a cursor that every read advances, one method per
    field and per action, and the framing loop over both sections. A decoder accepts exactly the
    buffers that start with an encoding, returns what was encoded, and stops right behind it. */
module Decoder {
  import opened Prelude
  import opened Rules
  import opened Resources
  import opened Actions
  import opened Wire
  import opened WireReading

  /** The bytes still to be read. */
  class Cursor {
    var bytes: Bytes

    constructor (b: Bytes)
      ensures bytes == b
    {
      bytes := b;
    }

    method Byte() returns (r: Result<u8>)
      modifies this
      ensures r.Ok? ==> old(bytes) == [r.value] + bytes && bytes == old(bytes)[1..]
      ensures r.Err? <==> old(bytes) == []
    {
      if |bytes| == 0 {
        return Err("end of input");
      }
      r := Ok(bytes[0]);
      bytes := bytes[1..];
    }

    method Array(k: nat) returns (r: Result<Bytes>)
      modifies this
      ensures r.Ok? ==> |r.value| == k && old(bytes) == r.value + bytes && bytes == old(bytes)[k..]
      ensures r.Err? <==> |old(bytes)| < k
    {
      if |bytes| < k {
        return Err("end of input");
      }
      r := Ok(bytes[..k]);
      bytes := bytes[k..];
    }

    method LeU32() returns (r: Result<u32>)
      modifies this
      ensures r.Ok? ==> old(bytes) == EncodeU32(r.value) + bytes && bytes == old(bytes)[4..]
      ensures r.Err? <==> |old(bytes)| < 4
    {
      var b :- Array(4);
      LittleEndianOfBytes(b);
      PowersOf256();
      r := Ok(FromLittleEndian(b));
    }

    method LeU64() returns (r: Result<u64>)
      modifies this
      ensures r.Ok? ==> old(bytes) == EncodeU64(r.value) + bytes && bytes == old(bytes)[8..]
      ensures r.Err? <==> |old(bytes)| < 8
    {
      var b :- Array(8);
      LittleEndianOfBytes(b);
      PowersOf256();
      r := Ok(FromLittleEndian(b));
    }
  }

  /** A resource index must name one of the `n` declared resources. */
  method ReadResourceIdx(buf: Cursor, n: nat) returns (r: Result<u8>)
    modifies buf
    ensures r.Ok? ==> r.value < n && old(buf.bytes) == [r.value] + buf.bytes && buf.bytes == old(buf.bytes)[1..]
    ensures r.Err? <==> old(buf.bytes) == [] || old(buf.bytes)[0] >= n
  {
    var idx :- buf.Byte();
    if idx >= n {
      return Err("resource index out of range");
    }
    r := Ok(idx);
  }

  // The ghost argument of a decoder stands for any value: if the buffer starts with the encoding of
  // that value, the value is what the decoder returns.

  lemma JoinTwo(i: u8, j: u8, rest: Bytes)
    ensures [i] + ([j] + rest) == [i, j] + rest
  {
  }

  lemma JoinThree(i: u8, j: u8, k: u8, rest: Bytes)
    ensures [i] + ([j] + ([k] + rest)) == [i, j, k] + rest
  {
  }

  /** Key count and keys. */
  method DecodeKeys(buf: Cursor) returns (r: Result<Bytes>)
    modifies buf
    ensures r.Ok? ==> |r.value| % 32 == 0 && |r.value| / 32 < 256
    ensures r.Ok? ==> old(buf.bytes) == [|r.value| / 32] + (r.value + buf.bytes)
    ensures r.Ok? ==> r.value == old(buf.bytes)[1..][..|r.value|]
    ensures r.Err? <==> old(buf.bytes) == [] || |old(buf.bytes)| < 1 + 32 * (old(buf.bytes)[0] as nat)
  {
    var count :- buf.Byte();
    var size: nat := count;
    r := buf.Array(32 * size);
  }

  /** Threshold, key count and keys. */
  method DecodeMultisig(buf: Cursor, rules: MultisigRules, ghost l: Lock) returns (r: Result<Lock>)
    modifies buf
    ensures r.Ok? ==> r.value.Multisig? && WfLock(r.value, rules)
    ensures r.Ok? ==> [LOCK_MULTISIG] + old(buf.bytes) == EncodeLock(r.value) + buf.bytes
    ensures MultisigHead(l, rules, old(buf.bytes)) ==> r.Ok?
  {
    var threshold :- buf.Byte();
    var pubkeys :- DecodeKeys(buf);
    if !rules(threshold, pubkeys) {
      return Err("lock: multisig rules");
    }
    r := Ok(Multisig(threshold, pubkeys));
    var count := (|pubkeys| / 32) % 256;
    JoinThree(LOCK_MULTISIG, threshold, count, pubkeys + buf.bytes);
    Regroup([LOCK_MULTISIG, threshold, count], pubkeys, buf.bytes);
  }

  method DecodeLock(buf: Cursor, rules: MultisigRules, ghost l: Lock) returns (r: Result<Lock>)
    modifies buf
    ensures r.Ok? ==> WfLock(r.value, rules) && old(buf.bytes) == EncodeLock(r.value) + buf.bytes
    ensures WfLock(l, rules) && EncodeLock(l) <= old(buf.bytes) ==> r == Ok(l)
  {
    ghost var start := buf.bytes;
    if WfLock(l, rules) && EncodeLock(l) <= start {
      LockHasHead(l, rules, start);
    }
    var tag :- buf.Byte();
    if tag == LOCK_SCHNORR {
      var pubkey :- buf.Array(32);
      r := Ok(Schnorr(pubkey));
    } else if tag == LOCK_MULTISIG {
      r := DecodeMultisig(buf, rules, l);
    } else if tag == LOCK_UNLOCKED {
      r := Ok(Unlocked);
    } else {
      r := Err("lock: unknown tag");
    }
    if WfLock(l, rules) && EncodeLock(l) <= start && r.Ok? {
      LockPrefixFree(l, r.value, rules, start);
    }
  }

  /** After the tag: a multisig body that the rules accept. */
  predicate MultisigHead(l: Lock, rules: MultisigRules, buf: Bytes) {
    && l.Multisig?
    && WfLock(l, rules)
    && |buf| >= 2 + |l.pubkeys|
    && buf[0] == l.threshold && buf[1] == |l.pubkeys| / 32 && buf[2..][..|l.pubkeys|] == l.pubkeys
  }

  /** What a buffer that starts with `l` shows the decoder. */
  lemma LockHasHead(l: Lock, rules: MultisigRules, buf: Bytes)
    requires WfLock(l, rules) && EncodeLock(l) <= buf
    ensures l.Schnorr? ==> |buf| >= 33 && buf[0] == LOCK_SCHNORR
    ensures l.Multisig? ==> |buf| >= 1 && buf[0] == LOCK_MULTISIG && MultisigHead(l, rules, buf[1..])
    ensures l.Unlocked? ==> |buf| >= 1 && buf[0] == LOCK_UNLOCKED
  {
    assert EncodeLock(l)[0] == buf[0];
    if l.Multisig? {
      assert EncodeLock(l)[1] == buf[1] && EncodeLock(l)[2] == buf[2];
      assert l.pubkeys == EncodeLock(l)[3..] == buf[3..3 + |l.pubkeys|] == buf[1..][2..][..|l.pubkeys|];
    }
  }

  method DecodeSpk(buf: Cursor, ghost s: StandardSpk) returns (r: Result<StandardSpk>)
    modifies buf
    ensures r.Ok? ==> WfSpk(r.value) && old(buf.bytes) == EncodeSpk(r.value) + buf.bytes
    ensures WfSpk(s) && EncodeSpk(s) <= old(buf.bytes) ==> r == Ok(s)
  {
    ghost var start := buf.bytes;
    if WfSpk(s) && EncodeSpk(s) <= start {
      assert EncodeSpk(s)[0] == start[0];
    }
    var tag :- buf.Byte();
    if tag == 0 {
      var key :- buf.Array(32);
      r := Ok(PubKey(key));
    } else if tag == 1 {
      var key :- buf.Array(33);
      r := Ok(PubKeyEcdsa(key));
    } else if tag == 8 {
      var hash :- buf.Array(32);
      r := Ok(ScriptHash(hash));
    } else {
      r := Err("spk: unknown tag");
    }
    if WfSpk(s) && EncodeSpk(s) <= start && r.Ok? {
      SpkPrefixFree(s, r.value, start);
    }
  }

  /** The transfer's presence byte: anything but 0 and 1 is malformed. */
  method DecodeOptLock(buf: Cursor, rules: MultisigRules, ghost o: Option<Lock>) returns (r: Result<Option<Lock>>)
    modifies buf
    ensures r.Ok? ==> WfOptLock(r.value, rules) && old(buf.bytes) == EncodeOptLock(r.value) + buf.bytes
    ensures WfOptLock(o, rules) && EncodeOptLock(o) <= old(buf.bytes) ==> r == Ok(o)
  {
    ghost var start := buf.bytes;
    ghost var lock := if o.Some? then o.value else Unlocked;
    if EncodeOptLock(o) <= start {
      assert EncodeOptLock(o)[0] == start[0];
      PrefixSplit([1], EncodeLock(lock), start);
    }
    var flag :- buf.Byte();
    if flag == 0 {
      r := Ok(None);
    } else if flag == 1 {
      var l :- DecodeLock(buf, rules, lock);
      r := Ok(Some(l));
      Regroup([1], EncodeLock(l), buf.bytes);
    } else {
      r := Err("action.transfer: bad has_dest_lock flag");
    }
  }

  /** An input index and three offsets. */
  method DecodeWitness(buf: Cursor) returns (r: Result<Witness>)
    modifies buf
    ensures r.Ok? ==> old(buf.bytes) == EncodeWitness(r.value) + buf.bytes
    ensures r.Ok? <==> |old(buf.bytes)| >= 13
  {
    var input :- buf.Byte();
    var first :- buf.LeU32();
    var second :- buf.LeU32();
    var third :- buf.LeU32();
    r := Ok(Witness(input, first, second, third));
    JoinWitness(input, EncodeU32(first), EncodeU32(second), EncodeU32(third), buf.bytes);
  }

  lemma JoinWitness(i: u8, x: Bytes, y: Bytes, z: Bytes, rest: Bytes)
    ensures [i] + (x + (y + (z + rest))) == ([i] + (x + (y + z))) + rest
  {
  }

  function BodyLength(tag: u8): nat {
    match tag case 2 => 13 case 4 => 13 case 3 => 5 case _ => 4
  }

  /** The fields after a signer's kind byte. */
  method DecodeKind(buf: Cursor, tag: u8) returns (r: Result<SignerKind>)
    modifies buf
    ensures r.Ok? ==> KindTag(r.value) == tag && old(buf.bytes) == KindBody(r.value) + buf.bytes
    ensures r.Ok? <==> 1 <= tag <= 5 && |old(buf.bytes)| >= BodyLength(tag)
  {
    match tag {
      case 1 =>
        var off :- buf.LeU32();
        r := Ok(SchnorrSigPtr(off));
      case 2 =>
        var w :- DecodeWitness(buf);
        r := Ok(PrevTxV1Witness(w));
      case 3 =>
        var pk :- buf.Byte();
        var off :- buf.LeU32();
        r := Ok(MultisigSchnorrSigPtr(pk, off));
        Regroup([pk], EncodeU32(off), buf.bytes);
      case 4 =>
        var w :- DecodeWitness(buf);
        r := Ok(MultisigPrevTxV1Witness(w));
      case 5 =>
        var off :- buf.LeU32();
        r := Ok(GenesisSchnorrSigPtr(off));
      case _ => r := Err("signer: unknown kind");
    }
  }

  method DecodeSigner(buf: Cursor, n: nat, ghost s: Signer) returns (r: Result<Signer>)
    modifies buf
    ensures r.Ok? ==> WfSigner(r.value, n) && old(buf.bytes) == EncodeSigner(r.value) + buf.bytes
    ensures WfSigner(s, n) && EncodeSigner(s) <= old(buf.bytes) ==> r == Ok(s)
  {
    ghost var start := buf.bytes;
    if EncodeSigner(s) <= start {
      PairSplit(s.resourceIdx, KindTag(s.kind), KindBody(s.kind), start);
      assert start[0] == s.resourceIdx && start[1..][0] == KindTag(s.kind);
    }
    var idx :- ReadResourceIdx(buf, n);
    var tag :- buf.Byte();
    var kind :- DecodeKind(buf, tag);
    r := Ok(Signer(idx, kind));
    JoinTwo(idx, tag, KindBody(kind) + buf.bytes);
    Regroup([idx, tag], KindBody(kind), buf.bytes);
    if EncodeSigner(s) <= start {
      SignerPrefixFree(s, r.value, start);
    }
  }

  // ---------- one method per action ----------

  /** The indexes of an action lead its body, and each is in range. */
  lemma IndexesLead(a: Action, n: nat, rules: MultisigRules, buf: Bytes)
    requires WfAction(a, n, rules) && Laid(a, buf)
    ensures buf != [] && buf[0] < n
    ensures |Indexes(a)| == 2 ==> |buf| >= 2 && buf[1] < n
  {
    assert Indexes(a)[0] == buf[0];
    if |Indexes(a)| == 2 {
      assert Indexes(a)[1] == buf[1..][0];
    }
  }

  lemma JoinPair(i: u8, j: u8, x: Bytes, y: Bytes, rest: Bytes)
    ensures [i, j] + (x + (y + rest)) == [i, j] + (x + y) + rest
  {
  }

  lemma JoinConfig(i: u8, x: Bytes, y: Bytes, z: Bytes, w: Bytes, rest: Bytes)
    ensures [i] + ((x + y) + (z + (w + rest))) == [i] + (x + (y + (z + w))) + rest
  {
  }

  method DecodePair(buf: Cursor, n: nat) returns (r: Result<(u8, u8)>)
    modifies buf
    ensures r.Ok? ==> r.value.0 < n && r.value.1 < n && old(buf.bytes) == [r.value.0, r.value.1] + buf.bytes
    ensures r.Ok? ==> buf.bytes == old(buf.bytes)[1..][1..]
    ensures r.Ok? <==> |old(buf.bytes)| >= 2 && old(buf.bytes)[0] < n && old(buf.bytes)[1] < n
  {
    var first :- ReadResourceIdx(buf, n);
    var second :- ReadResourceIdx(buf, n);
    r := Ok((first, second));
    JoinTwo(first, second, buf.bytes);
  }

  /** The two numbers of a config body. */
  method DecodeLimits(buf: Cursor) returns (r: Result<(u64, u64)>)
    modifies buf
    ensures r.Ok? ==> old(buf.bytes) == (EncodeU64(r.value.0) + EncodeU64(r.value.1)) + buf.bytes
    ensures r.Ok? ==> buf.bytes == old(buf.bytes)[8..][8..]
    ensures r.Ok? <==> |old(buf.bytes)| >= 16
  {
    var min :- buf.LeU64();
    var ttl :- buf.LeU64();
    r := Ok((min, ttl));
    Regroup(EncodeU64(min), EncodeU64(ttl), buf.bytes);
  }

  method DecodeConfig(buf: Cursor, n: nat, rules: MultisigRules, init: bool, ghost a: Action)
    returns (r: Result<Action>)
    modifies buf
    ensures r.Ok? ==> (if init then r.value.Init? else r.value.Update?) && WfAction(r.value, n, rules)
    ensures r.Ok? ==> old(buf.bytes) == Body(r.value) + buf.bytes
    ensures (a.Init? || a.Update?) && WfAction(a, n, rules) && Laid(a, old(buf.bytes)) ==> r.Ok?
  {
    ghost var lock0 := if a.Init? || a.Update? then a.lock else Unlocked;
    if WfAction(a, n, rules) && Laid(a, buf.bytes) {
      IndexesLead(a, n, rules, buf.bytes);
    }
    var idx :- ReadResourceIdx(buf, n);
    var limits :- DecodeLimits(buf);
    var covenant :- buf.Array(32);
    var lock :- DecodeLock(buf, rules, lock0);
    var (min, ttl) := limits;
    r := Ok(if init then Init(idx, min, ttl, covenant, lock) else Update(idx, min, ttl, covenant, lock));
    JoinConfig(idx, EncodeU64(min), EncodeU64(ttl), covenant, EncodeLock(lock), buf.bytes);
  }

  method DecodeTransfer(buf: Cursor, n: nat, rules: MultisigRules, ghost a: Action) returns (r: Result<Action>)
    modifies buf
    ensures r.Ok? ==> r.value.Transfer? && WfAction(r.value, n, rules) && old(buf.bytes) == Body(r.value) + buf.bytes
    ensures a.Transfer? && WfAction(a, n, rules) && Laid(a, old(buf.bytes)) ==> r.Ok?
  {
    if WfAction(a, n, rules) && Laid(a, buf.bytes) {
      IndexesLead(a, n, rules, buf.bytes);
    }
    var pair :- DecodePair(buf, n);
    var amount :- buf.LeU64();
    var init :- DecodeOptLock(buf, rules, if a.Transfer? then a.destInit else None);
    r := Ok(Transfer(pair.0, pair.1, amount, init));
    JoinPair(pair.0, pair.1, EncodeU64(amount), EncodeOptLock(init), buf.bytes);
  }

  method DecodeDeposit(buf: Cursor, n: nat, rules: MultisigRules, ghost a: Action) returns (r: Result<Action>)
    modifies buf
    ensures r.Ok? ==> r.value.Deposit? && WfAction(r.value, n, rules) && old(buf.bytes) == Body(r.value) + buf.bytes
    ensures a.Deposit? && WfAction(a, n, rules) && Laid(a, old(buf.bytes)) ==> r.Ok?
  {
    if WfAction(a, n, rules) && Laid(a, buf.bytes) {
      IndexesLead(a, n, rules, buf.bytes);
    }
    var pair :- DecodePair(buf, n);
    var out :- buf.LeU32();
    var lock :- DecodeLock(buf, rules, if a.Deposit? then a.lock else Unlocked);
    r := Ok(Deposit(pair.0, pair.1, out, lock));
    JoinPair(pair.0, pair.1, EncodeU32(out), EncodeLock(lock), buf.bytes);
  }

  method DecodeWithdraw(buf: Cursor, n: nat, rules: MultisigRules, ghost a: Action) returns (r: Result<Action>)
    modifies buf
    ensures r.Ok? ==> r.value.Withdraw? && WfAction(r.value, n, rules) && old(buf.bytes) == Body(r.value) + buf.bytes
    ensures a.Withdraw? && WfAction(a, n, rules) && Laid(a, old(buf.bytes)) ==> r.Ok?
  {
    if WfAction(a, n, rules) && Laid(a, buf.bytes) {
      IndexesLead(a, n, rules, buf.bytes);
    }
    var pair :- DecodePair(buf, n);
    var amount :- buf.LeU64();
    var dest :- DecodeSpk(buf, if a.Withdraw? then a.dest else PubKey([]));
    r := Ok(Withdraw(pair.0, pair.1, amount, dest));
    JoinPair(pair.0, pair.1, EncodeU64(amount), EncodeSpk(dest), buf.bytes);
  }

  method DecodeUserLock(buf: Cursor, n: nat, rules: MultisigRules, ghost a: Action) returns (r: Result<Action>)
    modifies buf
    ensures r.Ok? ==> r.value.UpdateUserLock? && WfAction(r.value, n, rules)
    ensures r.Ok? ==> old(buf.bytes) == Body(r.value) + buf.bytes
    ensures a.UpdateUserLock? && WfAction(a, n, rules) && Laid(a, old(buf.bytes)) ==> r.Ok?
  {
    if WfAction(a, n, rules) && Laid(a, buf.bytes) {
      IndexesLead(a, n, rules, buf.bytes);
    }
    var user :- ReadResourceIdx(buf, n);
    var lock :- DecodeLock(buf, rules, if a.UpdateUserLock? then a.lock else Unlocked);
    r := Ok(UpdateUserLock(user, lock));
    Regroup([user], EncodeLock(lock), buf.bytes);
  }

  /** The mark byte must be X or O. */
  method DecodeMark(buf: Cursor) returns (r: Result<Cell>)
    modifies buf
    ensures r.Ok? ==> r.value != Empty && old(buf.bytes) == [MarkByte(r.value)] + buf.bytes
    ensures r.Ok? <==> old(buf.bytes) != [] && old(buf.bytes)[0] in [1, 2]
  {
    var code :- buf.Byte();
    match code {
      case 1 => r := Ok(X);
      case 2 => r := Ok(O);
      case _ => r := Err("action.create_game: mark must be X or O");
    }
  }

  method DecodeCreateGame(buf: Cursor, n: nat, rules: MultisigRules, ghost a: Action) returns (r: Result<Action>)
    modifies buf
    ensures r.Ok? ==> r.value.CreateGame? && WfAction(r.value, n, rules) && old(buf.bytes) == Body(r.value) + buf.bytes
    ensures a.CreateGame? && WfAction(a, n, rules) && Laid(a, old(buf.bytes)) ==> r.Ok?
  {
    if WfAction(a, n, rules) && Laid(a, buf.bytes) {
      IndexesLead(a, n, rules, buf.bytes);
    }
    var pair :- DecodePair(buf, n);
    var stake :- buf.LeU64();
    var rounds :- buf.Byte();
    var mark :- DecodeMark(buf);
    r := Ok(CreateGame(pair.0, pair.1, stake, rounds, mark));
    JoinTwo(rounds, MarkByte(mark), buf.bytes);
    JoinPair(pair.0, pair.1, EncodeU64(stake), [rounds, MarkByte(mark)], buf.bytes);
  }

  /** A cell beyond the board is malformed. */
  method DecodeTurn(buf: Cursor, n: nat, rules: MultisigRules, ghost a: Action) returns (r: Result<Action>)
    modifies buf
    ensures r.Ok? ==> r.value.Turn? && WfAction(r.value, n, rules) && old(buf.bytes) == Body(r.value) + buf.bytes
    ensures a.Turn? && WfAction(a, n, rules) && Laid(a, old(buf.bytes)) ==> r.Ok?
  {
    if WfAction(a, n, rules) && Laid(a, buf.bytes) {
      IndexesLead(a, n, rules, buf.bytes);
      assert a.Turn? ==> buf.bytes[1..][1..][0] == a.cell;
    }
    var pair :- DecodePair(buf, n);
    var cell :- buf.Byte();
    if cell > 8 {
      return Err("action.turn: cell must be a board position 0..=8");
    }
    r := Ok(Turn(pair.0, pair.1, cell));
    JoinTwo(pair.0, pair.1, [cell] + buf.bytes);
    JoinThree(pair.0, pair.1, cell, buf.bytes);
  }

  method DecodeJoinGame(buf: Cursor, n: nat, rules: MultisigRules, ghost a: Action) returns (r: Result<Action>)
    modifies buf
    ensures r.Ok? ==> r.value.JoinGame? && WfAction(r.value, n, rules) && old(buf.bytes) == Body(r.value) + buf.bytes
    ensures a.JoinGame? && WfAction(a, n, rules) && Laid(a, old(buf.bytes)) ==> r.Ok?
  {
    if WfAction(a, n, rules) && Laid(a, buf.bytes) {
      IndexesLead(a, n, rules, buf.bytes);
    }
    var pair :- DecodePair(buf, n);
    r := Ok(JoinGame(pair.0, pair.1));
  }

  method DecodeTimeout(buf: Cursor, n: nat, rules: MultisigRules, ghost a: Action) returns (r: Result<Action>)
    modifies buf
    ensures r.Ok? ==> r.value.Timeout? && WfAction(r.value, n, rules) && old(buf.bytes) == Body(r.value) + buf.bytes
    ensures a.Timeout? && WfAction(a, n, rules) && Laid(a, old(buf.bytes)) ==> r.Ok?
  {
    if WfAction(a, n, rules) && Laid(a, buf.bytes) {
      IndexesLead(a, n, rules, buf.bytes);
    }
    var pair :- DecodePair(buf, n);
    r := Ok(Timeout(pair.0, pair.1));
  }

  /** The fields after a known tag. */
  method DecodeBody(buf: Cursor, tag: u8, n: nat, rules: MultisigRules, ghost a: Action) returns (r: Result<Action>)
    modifies buf
    ensures r.Ok? ==> Tag(r.value) == tag && WfAction(r.value, n, rules) && old(buf.bytes) == Body(r.value) + buf.bytes
    ensures Tag(a) == tag && WfAction(a, n, rules) && Laid(a, old(buf.bytes)) ==> r.Ok?
  {
    match tag {
      case 1 => r := DecodeConfig(buf, n, rules, false, a);
      case 2 => r := DecodeConfig(buf, n, rules, true, a);
      case 3 => r := DecodeTransfer(buf, n, rules, a);
      case 4 => r := DecodeUserLock(buf, n, rules, a);
      case 5 => r := DecodeDeposit(buf, n, rules, a);
      case 6 => r := DecodeWithdraw(buf, n, rules, a);
      case 7 => r := DecodeCreateGame(buf, n, rules, a);
      case 8 => r := DecodeJoinGame(buf, n, rules, a);
      case 9 => r := DecodeTurn(buf, n, rules, a);
      case 10 => r := DecodeTimeout(buf, n, rules, a);
      case _ => r := Err("action: unknown tag");
    }
  }

  method DecodeAction(buf: Cursor, n: nat, rules: MultisigRules, ghost a: Action) returns (r: Result<Action>)
    modifies buf
    ensures r.Ok? ==> WfAction(r.value, n, rules) && old(buf.bytes) == EncodeAction(r.value) + buf.bytes
    ensures WfAction(a, n, rules) && EncodeAction(a) <= old(buf.bytes) ==> r == Ok(a)
  {
    ghost var start := buf.bytes;
    if EncodeAction(a) <= start {
      assert EncodeAction(a)[0] == start[0];
      PrefixSplit([Tag(a)], Body(a), start);
      BodyIsLaid(a, start[1..]);
    }
    var tag :- buf.Byte();
    r := DecodeBody(buf, tag, n, rules, a);
    if r.Ok? {
      Regroup([tag], Body(r.value), buf.bytes);
      if WfAction(a, n, rules) && EncodeAction(a) <= start {
        ActionPrefixFree(a, r.value, n, rules, start);
      }
    }
  }

  // ---------- the framing loop ----------

  /** The loop's error exits: a list that starts the buffer goes on exactly with what comes next. */
  lemma ActionComesNext(xs: seq<Action>, done: seq<Action>, n: nat, rules: MultisigRules, buf: Bytes, rest: Bytes)
    requires All(xs, ActionRule(n, rules)) && All(done, ActionRule(n, rules)) && |done| < |xs|
    requires Concat(xs, EncodeAction) <= buf && buf == Concat(done, EncodeAction) + rest
    ensures xs[..|done|] == done && EncodeAction(xs[|done|]) <= rest && WfAction(xs[|done|], n, rules)
  {
    ActionsPrefixFree(n, rules);
    NextItem(xs, done, EncodeAction, ActionRule(n, rules), buf, rest);
  }

  lemma OneMore<T>(done: seq<T>, x: T, enc: T -> Bytes, rest: Bytes)
    ensures Concat(done, enc) + (enc(x) + rest) == Concat(done + [x], enc) + rest
  {
    ConcatAppend(done, [x], enc);
    assert Concat([x], enc) == enc(x);
  }

  /** `count` actions, one after the other. */
  method ReadActions(buf: Cursor, count: u32, n: nat, rules: MultisigRules, ghost xs: seq<Action>)
    returns (r: Result<seq<Action>>)
    modifies buf
    ensures r.Ok? ==> |r.value| == count && All(r.value, ActionRule(n, rules))
    ensures r.Ok? ==> old(buf.bytes) == Concat(r.value, EncodeAction) + buf.bytes
    ensures |xs| == count && All(xs, ActionRule(n, rules)) && Concat(xs, EncodeAction) <= old(buf.bytes) ==> r.Ok?
  {
    ghost var section := buf.bytes;
    ghost var given := |xs| == count && All(xs, ActionRule(n, rules)) && Concat(xs, EncodeAction) <= section;
    var actions := [];
    while |actions| < count
      invariant |actions| <= count
      invariant All(actions, ActionRule(n, rules))
      invariant section == Concat(actions, EncodeAction) + buf.bytes
    {
      if given {
        ActionComesNext(xs, actions, n, rules, section, buf.bytes);
      }
      var a :- DecodeAction(buf, n, rules, if given then xs[|actions|] else JoinGame(0, 0));
      OneMore(actions, a, EncodeAction, buf.bytes);
      actions := actions + [a];
    }
    r := Ok(actions);
  }

  /** A section's count is the number of its items. */
  lemma ActionsCounted(xs: seq<Action>, count: u32, start: Bytes, section: Bytes)
    requires start == EncodeU32(count) + section
    ensures |xs| < U32_LIMIT && EncodeActions(xs) <= start ==> |xs| == count && Concat(xs, EncodeAction) <= section
  {
    if |xs| < U32_LIMIT && EncodeActions(xs) <= start {
      PrefixSplit(EncodeU32(|xs|), Concat(xs, EncodeAction), start);
      U32Reads(|xs|, count, start);
    }
  }

  lemma ActionsFramed(xs: seq<Action>, ys: seq<Action>, n: nat, rules: MultisigRules, start: Bytes, rest: Bytes)
    requires WfActions(ys, n, rules) && start == EncodeU32(|ys|) + (Concat(ys, EncodeAction) + rest)
    ensures start == EncodeActions(ys) + rest
    ensures WfActions(xs, n, rules) && EncodeActions(xs) <= start ==> xs == ys
  {
    Regroup(EncodeU32(|ys|), Concat(ys, EncodeAction), rest);
    if WfActions(xs, n, rules) && EncodeActions(xs) <= start {
      ActionsReads(xs, ys, n, rules, start);
    }
  }

  /** The actions section. */
  method DecodeActions(buf: Cursor, n: nat, rules: MultisigRules, ghost xs: seq<Action>)
    returns (r: Result<seq<Action>>)
    modifies buf
    ensures r.Ok? ==> WfActions(r.value, n, rules) && old(buf.bytes) == EncodeActions(r.value) + buf.bytes
    ensures WfActions(xs, n, rules) && EncodeActions(xs) <= old(buf.bytes) ==> r == Ok(xs)
  {
    ghost var start := buf.bytes;
    var count :- buf.LeU32();
    ActionsCounted(xs, count, start, buf.bytes);
    r := ReadActions(buf, count, n, rules, xs);
    if r.Ok? {
      ActionsFramed(xs, r.value, n, rules, start, buf.bytes);
    }
  }

  lemma SignerComesNext(xs: seq<Signer>, done: seq<Signer>, n: nat, buf: Bytes, rest: Bytes)
    requires All(xs, SignerRule(n)) && All(done, SignerRule(n)) && |done| < |xs|
    requires Concat(xs, EncodeSigner) <= buf && buf == Concat(done, EncodeSigner) + rest
    ensures EncodeSigner(xs[|done|]) <= rest && WfSigner(xs[|done|], n)
    ensures Ascending(xs) && done != [] ==> done[|done| - 1].resourceIdx <= xs[|done|].resourceIdx
  {
    SignersPrefixFree(n);
    NextItem(xs, done, EncodeSigner, SignerRule(n), buf, rest);
    assert done != [] ==> done[|done| - 1] == xs[|done| - 1];
  }

  lemma SignersGrow(signers: seq<Signer>, s: Signer, n: nat)
    requires All(signers, SignerRule(n)) && Ascending(signers) && WfSigner(s, n)
    requires signers != [] ==> signers[|signers| - 1].resourceIdx <= s.resourceIdx
    ensures All(signers + [s], SignerRule(n)) && Ascending(signers + [s])
  {
  }

  /** `count` signers; a signer whose resource comes before its predecessor's is rejected. */
  method ReadSigners(buf: Cursor, count: u32, n: nat, ghost xs: seq<Signer>) returns (r: Result<seq<Signer>>)
    modifies buf
    ensures r.Ok? ==> |r.value| == count && All(r.value, SignerRule(n)) && Ascending(r.value)
    ensures r.Ok? ==> old(buf.bytes) == Concat(r.value, EncodeSigner) + buf.bytes
    ensures |xs| == count && All(xs, SignerRule(n)) && Ascending(xs) && Concat(xs, EncodeSigner) <= old(buf.bytes)
        ==> r.Ok?
  {
    ghost var section := buf.bytes;
    ghost var given := |xs| == count && All(xs, SignerRule(n)) && Ascending(xs) && Concat(xs, EncodeSigner) <= section;
    var signers: seq<Signer> := [];
    var prev: Option<u8> := None;
    while |signers| < count
      invariant |signers| <= count
      invariant All(signers, SignerRule(n)) && Ascending(signers)
      invariant prev == if signers == [] then None else Some(signers[|signers| - 1].resourceIdx)
      invariant section == Concat(signers, EncodeSigner) + buf.bytes
    {
      if given {
        SignerComesNext(xs, signers, n, section, buf.bytes);
      }
      var s :- DecodeSigner(buf, n, if given then xs[|signers|] else Signer(0, SchnorrSigPtr(0)));
      assert given ==> s == xs[|signers|];
      if prev.Some? && s.resourceIdx < prev.value {
        return Err("ix.signer: resource_idx not ascending");
      }
      prev := Some(s.resourceIdx);
      SignersGrow(signers, s, n);
      OneMore(signers, s, EncodeSigner, buf.bytes);
      signers := signers + [s];
    }
    r := Ok(signers);
  }

  /** A section's count is the number of its items. */
  lemma SignersCounted(xs: seq<Signer>, count: u32, start: Bytes, section: Bytes)
    requires start == EncodeU32(count) + section
    ensures |xs| < U32_LIMIT && EncodeSigners(xs) <= start ==> |xs| == count && Concat(xs, EncodeSigner) <= section
  {
    if |xs| < U32_LIMIT && EncodeSigners(xs) <= start {
      PrefixSplit(EncodeU32(|xs|), Concat(xs, EncodeSigner), start);
      U32Reads(|xs|, count, start);
    }
  }

  lemma SignersFramed(xs: seq<Signer>, ys: seq<Signer>, n: nat, start: Bytes, rest: Bytes)
    requires WfSigners(ys, n) && start == EncodeU32(|ys|) + (Concat(ys, EncodeSigner) + rest)
    ensures start == EncodeSigners(ys) + rest
    ensures WfSigners(xs, n) && EncodeSigners(xs) <= start ==> xs == ys
  {
    Regroup(EncodeU32(|ys|), Concat(ys, EncodeSigner), rest);
    if WfSigners(xs, n) && EncodeSigners(xs) <= start {
      SignersReads(xs, ys, n, start);
    }
  }

  /** The signers section. */
  method DecodeSigners(buf: Cursor, n: nat, ghost xs: seq<Signer>) returns (r: Result<seq<Signer>>)
    modifies buf
    ensures r.Ok? ==> WfSigners(r.value, n) && old(buf.bytes) == EncodeSigners(r.value) + buf.bytes
    ensures WfSigners(xs, n) && EncodeSigners(xs) <= old(buf.bytes) ==> r == Ok(xs)
  {
    ghost var start := buf.bytes;
    var count :- buf.LeU32();
    SignersCounted(xs, count, start, buf.bytes);
    r := ReadSigners(buf, count, n, xs);
    if r.Ok? {
      SignersFramed(xs, r.value, n, start, buf.bytes);
    }
  }

  /** A decoded instruction and the offset at which its tail starts. */
  datatype DecodedIx = DecodedIx(signers: seq<Signer>, actions: seq<Action>, endOfActions: nat)

  lemma Behind(x: Bytes, rest: Bytes, buf: Bytes)
    requires buf == x + rest
    ensures buf[|x|..] == rest
  {
  }

  lemma Assembled(x: Bytes, y: Bytes, rest: Bytes, buf: Bytes)
    requires buf == x + (y + rest)
    ensures |buf| - |rest| == |x + y| && buf[..|x + y|] == x + y
  {
    assert buf == (x + y) + rest;
  }

  /** What is read before the tail. */
  method DecodeSections(orig: Bytes, n: nat, rules: MultisigRules, ghost s: seq<Signer>, ghost a: seq<Action>)
    returns (r: Result<DecodedIx>)
    ensures r.Ok? ==> WfSections(r.value.signers, r.value.actions, n, rules) && r.value.endOfActions <= |orig|
    ensures r.Ok? ==> orig[..r.value.endOfActions] == EncodeSections(r.value.signers, r.value.actions)
    ensures WfSections(s, a, n, rules) && EncodeSections(s, a) <= orig ==> r.Ok?
  {
    if WfSections(s, a, n, rules) && EncodeSections(s, a) <= orig {
      PrefixSplit(EncodeSigners(s), EncodeActions(a), orig);
    }
    var bytes := new Cursor(orig);
    var signers :- DecodeSigners(bytes, n, s);
    ghost var middle := bytes.bytes;
    Behind(EncodeSigners(signers), middle, orig);
    var actions :- DecodeActions(bytes, n, rules, a);
    var end := |orig| - |bytes.bytes|;
    Assembled(EncodeSigners(signers), EncodeActions(actions), bytes.bytes, orig);
    r := Ok(DecodedIx(signers, actions, end));
  }

  /** Decoding is exact: an instruction is accepted iff it starts with two well-formed sections, and then
      those sections are the result and the tail starts right behind them. */
  method DecodeIx(orig: Bytes, n: nat, rules: MultisigRules) returns (r: Result<DecodedIx>)
    ensures r.Ok? ==> WfSections(r.value.signers, r.value.actions, n, rules) && r.value.endOfActions <= |orig|
    ensures r.Ok? ==> orig[..r.value.endOfActions] == EncodeSections(r.value.signers, r.value.actions)
    ensures forall s, a :: WfSections(s, a, n, rules) && EncodeSections(s, a) <= orig
                      ==> r == Ok(DecodedIx(s, a, |EncodeSections(s, a)|))
  {
    ghost var s, a := [], [];
    ghost var given := exists t, b :: WfSections(t, b, n, rules) && EncodeSections(t, b) <= orig;
    if given {
      s, a :| WfSections(s, a, n, rules) && EncodeSections(s, a) <= orig;
    }
    r := DecodeSections(orig, n, rules, s, a);
    forall t, b | WfSections(t, b, n, rules) && EncodeSections(t, b) <= orig
      ensures r == Ok(DecodedIx(t, b, |EncodeSections(t, b)|))
    {
      assert given;
      SectionsPrefixFree(t, b, r.value.signers, r.value.actions, n, rules, orig);
    }
  }
}
