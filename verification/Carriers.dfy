/** The web client's own decoder of lane payloads: it reads the guest's wire just far enough to name each
    action. It shares no code with the guest's decoder; on encoded payloads both see the same actions.
    Reads past the end follow the client's language: a missing byte is undefined (None), counts as 0
    inside a number, and an undefined step makes the position not a number (None). */
module Carriers {
  import opened Prelude
  import opened Resources
  import opened Actions
  import opened Lex
  import opened Wire
  import opened WireReading

  /** One named action; an index outside the access list names nothing. */
  datatype LaneAction =
    | LaneTurn(gameId: Option<Bytes>, userId: Option<Bytes>, cell: Option<u8>)
    | LaneCreate(creatorId: Option<Bytes>, newGameId: Option<Bytes>, stake: nat, rounds: Option<u8>, mark: Option<u8>)
    | LaneJoin(joinedId: Option<Bytes>, joinerId: Option<Bytes>)
    | LaneDeposit(depositorId: Option<Bytes>)
    | LaneWithdraw(withdrawerId: Option<Bytes>, withdrawn: nat)
    | LaneTransfer(sourceId: Option<Bytes>, destId: Option<Bytes>, amount: nat, createsDest: bool)
    | LaneOther(tag: u8)

  // ---------- what an encoded payload should be named ----------

  datatype AccessEntry = AccessEntry(id: Bytes, access: u8)

  function EncodeAccess(e: AccessEntry): Bytes {
    e.id + [e.access]
  }

  datatype Payload = Payload(access: seq<AccessEntry>, signers: seq<Signer>, actions: seq<Action>, tail: Bytes)

  function IdRule(): AccessEntry -> bool {
    (e: AccessEntry) => |e.id| == 32
  }

  /** Every entry of the access list is one declared resource. */
  ghost predicate WfPayload(p: Payload, rules: MultisigRules) {
    && |p.access| < U32_LIMIT && All(p.access, IdRule())
    && WfSections(p.signers, p.actions, |p.access|, rules)
  }

  ghost function EncodePayload(p: Payload, rules: MultisigRules): Bytes
    requires WfPayload(p, rules)
  {
    EncodeU32(|p.access|) + Concat(p.access, EncodeAccess) + (EncodeSections(p.signers, p.actions) + p.tail)
  }

  function Ids(access: seq<AccessEntry>): seq<Bytes> {
    seq(|access|, i requires 0 <= i < |access| => access[i].id)
  }

  /** What an index read from the wire names. */
  function IdAt(ids: seq<Bytes>, i: Option<u8>): Option<Bytes> {
    if i.Some? && i.value < |ids| then Some(ids[i.value]) else None
  }

  /** The name of an action: its kind, the ids its indexes stand for and the fields shown. */
  function NameOf(a: Action, ids: seq<Bytes>): LaneAction {
    match a
    case Turn(g, u, cell) => LaneTurn(IdAt(ids, Some(g)), IdAt(ids, Some(u)), Some(cell))
    case CreateGame(u, g, stake, rounds, mark) =>
      LaneCreate(IdAt(ids, Some(u)), IdAt(ids, Some(g)), stake, Some(rounds), Some(MarkByte(mark)))
    case JoinGame(g, u) => LaneJoin(IdAt(ids, Some(g)), IdAt(ids, Some(u)))
    case Deposit(u, _, _, _) => LaneDeposit(IdAt(ids, Some(u)))
    case Withdraw(u, _, amount, _) => LaneWithdraw(IdAt(ids, Some(u)), amount)
    case Transfer(s, d, amount, init) => LaneTransfer(IdAt(ids, Some(s)), IdAt(ids, Some(d)), amount, init.Some?)
    case Update(_, _, _, _, _) => LaneOther(1)
    case Init(_, _, _, _, _) => LaneOther(2)
    case UpdateUserLock(_, _) => LaneOther(4)
    case Timeout(_, _) => LaneOther(10)
  }

  /** The ids a name shows are those of the resources the action names, each in its own role. */
  lemma NamesShowRoles(a: Action, ids: seq<Bytes>)
    requires Admitted(a, |ids|)
    ensures |Indexes(a)| > 0 && Indexes(a)[0] < |ids| && (|Indexes(a)| == 2 ==> Indexes(a)[1] < |ids|)
    ensures match NameOf(a, ids)
      case LaneTurn(game, user, cell) =>
        a.Turn? && game == Some(ids[a.gameIdx]) && user == Some(ids[a.userIdx]) && cell == Some(a.cell)
      case LaneCreate(creator, game, stake, rounds, mark) =>
        && a.CreateGame? && creator == Some(ids[a.creatorIdx]) && game == Some(ids[a.gameIdx])
        && stake == a.stake && rounds == Some(a.rounds) && mark == Some(MarkByte(a.mark))
      case LaneJoin(game, joiner) => a.JoinGame? && game == Some(ids[a.gameIdx]) && joiner == Some(ids[a.joinerIdx])
      case LaneDeposit(user) => a.Deposit? && user == Some(ids[a.userIdx])
      case LaneWithdraw(user, amount) => a.Withdraw? && user == Some(ids[a.userIdx]) && amount == a.amount
      case LaneTransfer(src, dst, amount, creates) =>
        && a.Transfer? && src == Some(ids[a.sourceIdx]) && dst == Some(ids[a.destIdx])
        && amount == a.amount && creates == a.destInit.Some?
      case LaneOther(tag) => a.Update? || a.Init? || a.UpdateUserLock? || a.Timeout?
  {
    var ix := Indexes(a);
    assert ix[0] < |ids| && (|ix| == 2 ==> ix[1] < |ids|);
  }

  // ---------- reading positions ----------

  function Plus(pos: Option<nat>, k: nat): Option<nat> {
    if pos.Some? then Some(pos.value + k) else None
  }

  function ByteAt(b: Bytes, pos: Option<nat>): Option<u8> {
    if pos.Some? && pos.value < |b| then Some(b[pos.value]) else None
  }

  function Bits(v: Option<u8>): u8 {
    if v.Some? then v.value else 0
  }

  /** Four bytes as one number, lowest first. */
  function Join(a: nat, b: nat, c: nat, d: nat): nat {
    a + 0x100 * (b + 0x100 * (c + 0x100 * d))
  }

  function U32At(b: Bytes, pos: Option<nat>): nat {
    Join(Bits(ByteAt(b, pos)), Bits(ByteAt(b, Plus(pos, 1))),
         Bits(ByteAt(b, Plus(pos, 2))), Bits(ByteAt(b, Plus(pos, 3))))
  }

  function U64At(b: Bytes, pos: Option<nat>): nat {
    U32At(b, pos) + U32_LIMIT * U32At(b, Plus(pos, 4))
  }

  /** `x` stands at position `p`. */
  predicate StartsAt(b: Bytes, p: nat, x: Bytes) {
    p <= |b| && x <= b[p..]
  }

  lemma FourBytes(d: Bytes)
    requires |d| == 4
    ensures FromLittleEndian(d) == Join(d[0], d[1], d[2], d[3])
  {
    assert d[1..][1..] == d[2..] && d[2..][1..] == d[3..] && d[3..][1..] == [];
    assert FromLittleEndian(d[3..]) == d[3];
    assert FromLittleEndian(d[1..]) == d[1] + 256 * FromLittleEndian(d[2..]);
  }

  lemma {:induction false} LowAndHigh(x: Bytes, y: Bytes)
    ensures FromLittleEndian(x + y) == FromLittleEndian(x) + Power256(|x|) * FromLittleEndian(y)
  {
    if x == [] {
      assert x + y == y;
    } else {
      LowAndHigh(x[1..], y);
      assert (x + y)[1..] == x[1..] + y;
      assert 256 * (Power256(|x| - 1) * FromLittleEndian(y)) == Power256(|x|) * FromLittleEndian(y);
    }
  }

  lemma U32Stands(b: Bytes, p: nat, v: u32)
    requires StartsAt(b, p, EncodeU32(v))
    ensures p + 4 <= |b| && U32At(b, Some(p)) == v
  {
    var d := b[p..][..4];
    assert d == EncodeU32(v);
    PowersOf256();
    LittleEndianRoundTrip(4, v);
    FourBytes(d);
  }

  lemma U64Stands(b: Bytes, p: nat, v: u64)
    requires StartsAt(b, p, EncodeU64(v))
    ensures p + 8 <= |b| && U64At(b, Some(p)) == v
  {
    var low, high := b[p..][..4], b[p..][4..8];
    assert low + high == EncodeU64(v);
    PowersOf256();
    LittleEndianRoundTrip(8, v);
    LowAndHigh(low, high);
    FourBytes(low);
    FourBytes(high);
  }

  class Reader {
    const b: Bytes
    var pos: Option<nat>

    constructor (bytes: Bytes)
      ensures b == bytes && pos == Some(0)
    {
      b := bytes;
      pos := Some(0);
    }

    method U8() returns (v: Option<u8>)
      modifies this`pos
      ensures v == ByteAt(b, old(pos)) && pos == Plus(old(pos), 1)
    {
      v := ByteAt(b, pos);
      pos := Plus(pos, 1);
    }

    method U32() returns (v: nat)
      modifies this`pos
      ensures v == U32At(b, old(pos)) && pos == Plus(old(pos), 4)
    {
      v := U32At(b, pos);
      pos := Plus(pos, 4);
    }

    method U64() returns (v: nat)
      modifies this`pos
      ensures v == U64At(b, old(pos)) && pos == Plus(old(pos), 8)
    {
      var low := U32();
      var high := U32();
      v := low + U32_LIMIT * high;
    }

    /** Fewer than 32 bytes left is an error. */
    method Id() returns (r: Result<Bytes>)
      modifies this`pos
      ensures r.Ok? <==> old(pos).Some? && old(pos).value + 32 <= |b|
      ensures r.Ok? ==> r.value == b[old(pos).value..][..32] && pos == Plus(old(pos), 32)
    {
      if pos.None? || pos.value + 32 > |b| {
        return Err("carrier: truncated resource id");
      }
      r := Ok(b[pos.value..][..32]);
      pos := Plus(pos, 32);
    }
  }

  // ---------- skipping ----------

  /** Steps over one lock; an unknown tag is a lock without a body. */
  method SkipLock(r: Reader, ghost p: nat, ghost l: Lock, ghost rules: MultisigRules)
    modifies r`pos
    ensures old(r.pos) == Some(p) && WfLock(l, rules) && StartsAt(r.b, p, EncodeLock(l))
        ==> r.pos == Some(p + |EncodeLock(l)|)
  {
    ghost var given := r.pos == Some(p) && WfLock(l, rules) && StartsAt(r.b, p, EncodeLock(l));
    if given {
      assert EncodeLock(l)[0] == r.b[p..][0] == r.b[p];
      if l.Multisig? {
        assert EncodeLock(l)[2] == r.b[p..][2] == r.b[p + 2];
      }
    }
    var tag := r.U8();
    if tag == Some(LOCK_SCHNORR) {
      r.pos := Plus(r.pos, 32);
    } else if tag == Some(LOCK_MULTISIG) {
      var count := ByteAt(r.b, Plus(r.pos, 1));
      r.pos := if count.Some? then Plus(r.pos, 2 + 32 * Bits(count) as nat) else None;
    }
  }

  /** Steps over one destination; only the ECDSA key is a byte longer. */
  method SkipSpk(r: Reader, ghost p: nat, ghost s: StandardSpk)
    modifies r`pos
    ensures old(r.pos) == Some(p) && WfSpk(s) && StartsAt(r.b, p, EncodeSpk(s)) ==> r.pos == Some(p + |EncodeSpk(s)|)
  {
    if r.pos == Some(p) && StartsAt(r.b, p, EncodeSpk(s)) {
      assert EncodeSpk(s)[0] == r.b[p..][0] == r.b[p];
    }
    var tag := r.U8();
    r.pos := Plus(r.pos, if tag == Some(1) then 33 else 32);
  }

  /** A signer stands at `p` and ends at `next`. */
  ghost predicate SignerStep(b: Bytes, p: nat, s: Signer, next: nat) {
    ByteAt(b, Some(p + 1)) == Some(KindTag(s.kind)) && next == p + 2 + |KindBody(s.kind)|
  }

  /** Steps over one signer entry of any kind. */
  method SkipSigner(r: Reader, ghost p: nat, ghost s: Signer, ghost next: nat)
    modifies r`pos
    ensures old(r.pos) == Some(p) && SignerStep(r.b, p, s, next) ==> r.pos == Some(next)
  {
    var _ := r.U8();
    var tag := r.U8();
    if tag == Some(3) {
      var _ := r.U8();
    }
    if tag == Some(2) || tag == Some(4) {
      var _ := r.U8();
      r.pos := Plus(r.pos, 12);
    } else {
      r.pos := Plus(r.pos, 4);
    }
  }

  // ---------- naming one action ----------

  function FieldsRule(rules: MultisigRules): Action -> bool {
    a => WfFields(a, rules)
  }

  /** Two indexes, in the order they stand. */
  method NamePair(r: Reader, ids: seq<Bytes>) returns (first: Option<Bytes>, second: Option<Bytes>)
    modifies r`pos
    ensures first == IdAt(ids, ByteAt(r.b, old(r.pos))) && second == IdAt(ids, ByteAt(r.b, Plus(old(r.pos), 1)))
    ensures r.pos == Plus(old(r.pos), 2)
  {
    var i := r.U8();
    var j := r.U8();
    first, second := IdAt(ids, i), IdAt(ids, j);
  }

  /** The action's body stands at `p`, and the reader is there. */
  ghost predicate At(r: Reader, p: nat, a: Action, rules: MultisigRules)
    reads r
  {
    r.pos == Some(p) && BodyStands(r.b, p, a, rules)
  }

  ghost predicate BodyStands(b: Bytes, p: nat, a: Action, rules: MultisigRules) {
    p <= |b| && WfFields(a, rules) && Laid(a, b[p..])
  }

  lemma PairStands(b: Bytes, p: nat, i: u8, j: u8)
    requires p <= |b| && [i] <= b[p..] && [j] <= b[p..][1..]
    ensures ByteAt(b, Some(p)) == Some(i) && ByteAt(b, Some(p + 1)) == Some(j)
    ensures p + 2 <= |b| && b[p..][1..][1..] == b[p + 2..]
  {
    assert i == b[p..][0] == b[p] && j == b[p..][1..][0] == b[p + 1];
  }

  method NameTurn(r: Reader, ids: seq<Bytes>, ghost p: nat, ghost a: Action, ghost rules: MultisigRules)
    returns (name: LaneAction)
    modifies r`pos
    ensures old(At(r, p, a, rules)) && a.Turn? ==> name == NameOf(a, ids) && r.pos == Some(p + |Body(a)|)
  {
    if At(r, p, a, rules) && a.Turn? {
      PairStands(r.b, p, a.gameIdx, a.userIdx);
      assert r.b[p + 2..][0] == a.cell;
    }
    var game, user := NamePair(r, ids);
    var cell := r.U8();
    name := LaneTurn(game, user, cell);
  }

  method NameCreate(r: Reader, ids: seq<Bytes>, ghost p: nat, ghost a: Action, ghost rules: MultisigRules)
    returns (name: LaneAction)
    modifies r`pos
    ensures old(At(r, p, a, rules)) && a.CreateGame? ==> name == NameOf(a, ids) && r.pos == Some(p + |Body(a)|)
  {
    if At(r, p, a, rules) && a.CreateGame? {
      PairStands(r.b, p, a.creatorIdx, a.gameIdx);
      U64Stands(r.b, p + 2, a.stake);
      assert r.b[p + 2..][8..] == r.b[p + 10..];
      PairStands(r.b, p + 10, a.rounds, MarkByte(a.mark));
    }
    var creator, game := NamePair(r, ids);
    var stake := r.U64();
    var rounds := r.U8();
    var mark := r.U8();
    name := LaneCreate(creator, game, stake, rounds, mark);
  }

  method NameDeposit(r: Reader, ids: seq<Bytes>, ghost p: nat, ghost a: Action, ghost rules: MultisigRules)
    returns (name: LaneAction)
    modifies r`pos
    ensures old(At(r, p, a, rules)) && a.Deposit? ==> name == NameOf(a, ids) && r.pos == Some(p + |Body(a)|)
  {
    ghost var lock := if a.Deposit? then a.lock else Unlocked;
    if At(r, p, a, rules) && a.Deposit? {
      PairStands(r.b, p, a.userIdx, a.configIdx);
      U32Stands(r.b, p + 2, a.outputIdx);
      assert r.b[p + 2..][4..] == r.b[p + 6..];
    }
    var user, _ := NamePair(r, ids);
    var _ := r.U32();
    SkipLock(r, p + 6, lock, rules);
    name := LaneDeposit(user);
  }

  method NameWithdraw(r: Reader, ids: seq<Bytes>, ghost p: nat, ghost a: Action, ghost rules: MultisigRules)
    returns (name: LaneAction)
    modifies r`pos
    ensures old(At(r, p, a, rules)) && a.Withdraw? ==> name == NameOf(a, ids) && r.pos == Some(p + |Body(a)|)
  {
    ghost var dest := if a.Withdraw? then a.dest else PubKey([]);
    if At(r, p, a, rules) && a.Withdraw? {
      PairStands(r.b, p, a.userIdx, a.configIdx);
      U64Stands(r.b, p + 2, a.amount);
      assert r.b[p + 2..][8..] == r.b[p + 10..];
    }
    var user, _ := NamePair(r, ids);
    var amount := r.U64();
    SkipSpk(r, p + 10, dest);
    name := LaneWithdraw(user, amount);
  }

  method NameTransfer(r: Reader, ids: seq<Bytes>, ghost p: nat, ghost a: Action, ghost rules: MultisigRules)
    returns (name: LaneAction)
    modifies r`pos
    ensures old(At(r, p, a, rules)) && a.Transfer? ==> name == NameOf(a, ids) && r.pos == Some(p + |Body(a)|)
  {
    ghost var lock := if a.Transfer? && a.destInit.Some? then a.destInit.value else Unlocked;
    if At(r, p, a, rules) && a.Transfer? {
      PairStands(r.b, p, a.sourceIdx, a.destIdx);
      U64Stands(r.b, p + 2, a.amount);
      assert r.b[p + 2..][8..] == r.b[p + 10..];
      OptLockStands(r.b, p + 10, a.destInit);
    }
    var source, dest := NamePair(r, ids);
    var amount := r.U64();
    var flag := r.U8();
    if flag == Some(1) {
      SkipLock(r, p + 11, lock, rules);
    }
    name := LaneTransfer(source, dest, amount, flag == Some(1));
  }

  lemma OptLockStands(b: Bytes, p: nat, o: Option<Lock>)
    requires StartsAt(b, p, EncodeOptLock(o))
    ensures ByteAt(b, Some(p)) == Some(if o.Some? then 1 else 0)
    ensures o.Some? ==> StartsAt(b, p + 1, EncodeLock(o.value))
  {
    assert EncodeOptLock(o)[0] == b[p..][0] == b[p];
    if o.Some? {
      PrefixSplit([1], EncodeLock(o.value), b[p..]);
      assert b[p..][1..] == b[p + 1..];
    }
  }

  lemma ConfigStands(b: Bytes, p: nat, a: Action, rules: MultisigRules)
    requires p <= |b| && WfFields(a, rules) && Laid(a, b[p..]) && (a.Update? || a.Init?)
    ensures StartsAt(b, p + 49, EncodeLock(a.lock)) && |Body(a)| == 49 + |EncodeLock(a.lock)|
  {
    assert |b[p..][1..][8..][8..]| >= 32;
    assert b[p..][1..][8..][8..][32..] == b[p + 49..];
  }

  /** The index, the two numbers and the covenant id. */
  method SkipConfigFields(r: Reader)
    modifies r`pos
    ensures r.pos == Plus(old(r.pos), 49)
  {
    var _ := r.U8();
    var _ := r.U64();
    var _ := r.U64();
    r.pos := Plus(r.pos, 32);
  }

  /** A config body is stepped over; only its tag is shown. */
  method NameConfig(r: Reader, tag: u8, ghost p: nat, ghost a: Action, ghost rules: MultisigRules)
    returns (name: LaneAction)
    modifies r`pos
    ensures name == LaneOther(tag)
    ensures old(At(r, p, a, rules)) && (a.Update? || a.Init?) ==> r.pos == Some(p + |Body(a)|)
  {
    ghost var lock := if a.Update? || a.Init? then a.lock else Unlocked;
    if At(r, p, a, rules) && (a.Update? || a.Init?) {
      ConfigStands(r.b, p, a, rules);
    }
    SkipConfigFields(r);
    SkipLock(r, p + 49, lock, rules);
    name := LaneOther(tag);
  }

  method NameUserLock(r: Reader, ghost p: nat, ghost a: Action, ghost rules: MultisigRules)
    returns (name: LaneAction)
    modifies r`pos
    ensures name == LaneOther(4)
    ensures old(At(r, p, a, rules)) && a.UpdateUserLock? ==> r.pos == Some(p + |Body(a)|)
  {
    ghost var lock := if a.UpdateUserLock? then a.lock else Unlocked;
    if At(r, p, a, rules) && a.UpdateUserLock? {
      assert r.b[p..][1..] == r.b[p + 1..];
    }
    var _ := r.U8();
    SkipLock(r, p + 1, lock, rules);
    name := LaneOther(4);
  }

  method NameJoin(r: Reader, ids: seq<Bytes>, ghost p: nat, ghost a: Action, ghost rules: MultisigRules)
    returns (name: LaneAction)
    modifies r`pos
    ensures old(At(r, p, a, rules)) && a.JoinGame? ==> name == NameOf(a, ids) && r.pos == Some(p + |Body(a)|)
  {
    if At(r, p, a, rules) && a.JoinGame? {
      PairStands(r.b, p, a.gameIdx, a.joinerIdx);
    }
    var game, joiner := NamePair(r, ids);
    name := LaneJoin(game, joiner);
  }

  /** The fields after a tag; an unknown or missing tag is an error. */
  method NameBody(r: Reader, tag: Option<u8>, ids: seq<Bytes>, ghost p: nat, ghost a: Action,
                  ghost rules: MultisigRules)
    returns (name: Result<LaneAction>)
    modifies r`pos
    ensures old(At(r, p, a, rules)) && tag == Some(Tag(a))
      ==> name == Ok(NameOf(a, ids)) && r.pos == Some(p + |Body(a)|)
  {
    var named := LaneOther(10);
    if tag == Some(9) {
      named := NameTurn(r, ids, p, a, rules);
    } else if tag == Some(7) {
      named := NameCreate(r, ids, p, a, rules);
    } else if tag == Some(8) {
      named := NameJoin(r, ids, p, a, rules);
    } else if tag == Some(5) {
      named := NameDeposit(r, ids, p, a, rules);
    } else if tag == Some(6) {
      named := NameWithdraw(r, ids, p, a, rules);
    } else if tag == Some(3) {
      named := NameTransfer(r, ids, p, a, rules);
    } else if tag == Some(1) || tag == Some(2) {
      named := NameConfig(r, tag.value, p, a, rules);
    } else if tag == Some(4) {
      named := NameUserLock(r, p, a, rules);
    } else if tag == Some(10) {
      var _ := r.U8();
      var _ := r.U8();
    } else {
      return Err("carrier: unknown action tag");
    }
    name := Ok(named);
  }

  lemma ActionStands(b: Bytes, p: nat, a: Action, rules: MultisigRules)
    requires WfFields(a, rules) && StartsAt(b, p, EncodeAction(a))
    ensures Stands(b, p, a, rules) && |EncodeAction(a)| == 1 + |Body(a)|
  {
    assert EncodeAction(a)[0] == b[p..][0] == b[p];
    PrefixSplit([Tag(a)], Body(a), b[p..]);
    assert b[p..][1..] == b[p + 1..];
    BodyIsLaid(a, b[p + 1..]);
  }

  /** `a` stands at `p`, tag first. */
  ghost predicate Stands(b: Bytes, p: nat, a: Action, rules: MultisigRules) {
    ByteAt(b, Some(p)) == Some(Tag(a)) && BodyStands(b, p + 1, a, rules)
  }

  /** `a` stands at `p` and ends at `next`. */
  ghost predicate Step(b: Bytes, p: nat, a: Action, next: nat, rules: MultisigRules) {
    Stands(b, p, a, rules) && next == p + 1 + |Body(a)|
  }

  method NameAction(r: Reader, ids: seq<Bytes>, ghost p: nat, ghost a: Action, ghost next: nat,
                    ghost rules: MultisigRules)
    returns (name: Result<LaneAction>)
    modifies r`pos
    ensures old(r.pos) == Some(p) && Step(r.b, p, a, next, rules) ==> name == Ok(NameOf(a, ids)) && r.pos == Some(next)
  {
    var tag := r.U8();
    name := NameBody(r, tag, ids, p + 1, a, rules);
  }

  // ---------- the payload ----------

  /** The items of a section that starts at `p` stand behind its count. */
  ghost predicate ItemsAt<T>(b: Bytes, p: nat, items: seq<T>, enc: T -> Bytes) {
    StartsAt(b, p + 4, Concat(items, enc))
  }

  /** A section stands at `p`: its count, then its items. */
  ghost predicate SectionAt<T>(b: Bytes, p: nat, items: seq<T>, enc: T -> Bytes) {
    U32At(b, Some(p)) == |items| && ItemsAt(b, p, items, enc)
  }

  /** Where item `k` of a section stands. */
  ghost function Mark<T>(p: nat, items: seq<T>, k: nat, enc: T -> Bytes): nat
    requires k <= |items|
  {
    p + 4 + |Concat(items[..k], enc)|
  }

  /** Each item stands right behind the one before. */
  lemma ItemStands<T>(b: Bytes, p: nat, items: seq<T>, k: nat, enc: T -> Bytes)
    requires ItemsAt(b, p, items, enc) && k < |items|
    ensures StartsAt(b, Mark(p, items, k, enc), enc(items[k]))
    ensures Mark(p, items, k + 1, enc) == Mark(p, items, k, enc) + |enc(items[k])|
  {
    var head, tail := items[..k], items[k..];
    assert items == head + tail;
    ConcatAppend(head, tail, enc);
    PrefixSplit(Concat(head, enc), Concat(tail, enc), b[p + 4..]);
    var q := Mark(p, items, k, enc);
    assert b[p + 4..][|Concat(head, enc)|..] == b[q..];
    PrefixSplit(enc(tail[0]), Concat(tail[1..], enc), b[q..]);
    assert items[..k + 1] == head + [items[k]];
    ConcatAppend(head, [items[k]], enc);
    assert Concat([items[k]], enc) == enc(items[k]);
  }

  /** The position behind a section. */
  ghost function SectionEnd<T>(p: nat, items: seq<T>, enc: T -> Bytes): nat {
    p + 4 + |Concat(items, enc)|
  }

  lemma AccessNext(b: Bytes, p: nat, access: seq<AccessEntry>, i: nat)
    requires ItemsAt(b, p, access, EncodeAccess) && All(access, IdRule()) && i < |access|
    ensures var q := Mark(p, access, i, EncodeAccess);
      q + 33 <= |b| && b[q..][..32] == access[i].id && Mark(p, access, i + 1, EncodeAccess) == q + 33
  {
    var q := Mark(p, access, i, EncodeAccess);
    assert IdRule()(access[i]);
    ItemStands(b, p, access, i, EncodeAccess);
    PrefixSplit(access[i].id, [access[i].access], b[q..]);
  }

  /** `count` entries of the access list: an id and an access byte each. */
  method ReadIds(r: Reader, count: nat, ghost given: bool, ghost p: nat, ghost access: seq<AccessEntry>)
    returns (ids: Result<seq<Bytes>>)
    requires given ==> |access| == count && ItemsAt(r.b, p, access, EncodeAccess) && All(access, IdRule())
    requires given ==> r.pos == Some(Mark(p, access, 0, EncodeAccess))
    modifies r`pos
    ensures given ==> ids == Ok(Ids(access)) && r.pos == Some(Mark(p, access, count, EncodeAccess))
  {
    var got: seq<Bytes> := [];
    for i := 0 to count
      invariant given ==> got == Ids(access[..i])
      invariant given ==> r.pos == Some(Mark(p, access, i, EncodeAccess))
    {
      if given {
        AccessNext(r.b, p, access, i);
        IdsStep(access, i);
      }
      var id :- r.Id();
      got := got + [id];
      var _ := r.U8();
    }
    assert given ==> access[..count] == access;
    ids := Ok(got);
  }

  method ReadAccess(r: Reader, ghost p: nat, ghost access: seq<AccessEntry>) returns (ids: Result<seq<Bytes>>)
    modifies r`pos
    ensures old(r.pos) == Some(p) && SectionAt(r.b, p, access, EncodeAccess) && All(access, IdRule())
        ==> ids == Ok(Ids(access)) && r.pos == Some(SectionEnd(p, access, EncodeAccess))
  {
    ghost var given := r.pos == Some(p) && SectionAt(r.b, p, access, EncodeAccess) && All(access, IdRule());
    var count := r.U32();
    assert access[..|access|] == access;
    ids := ReadIds(r, count, given, p, access);
  }

  /** Where each signer of a section starts, and where the last one ends. */
  ghost predicate SignerSteps(b: Bytes, marks: seq<nat>, signers: seq<Signer>) {
    && |marks| == |signers| + 1
    && forall i :: 0 <= i < |signers| ==> SignerStep(b, marks[i], signers[i], marks[i + 1])
  }

  lemma SignerMarks(b: Bytes, p: nat, signers: seq<Signer>) returns (marks: seq<nat>)
    requires ItemsAt(b, p, signers, EncodeSigner)
    ensures SignerSteps(b, marks, signers) && marks[0] == p + 4
    ensures marks[|signers|] == SectionEnd(p, signers, EncodeSigner)
  {
    marks := seq(|signers| + 1, i requires 0 <= i <= |signers| => Mark(p, signers, i, EncodeSigner));
    forall i | 0 <= i < |signers| ensures SignerStep(b, marks[i], signers[i], marks[i + 1]) {
      ItemStands(b, p, signers, i, EncodeSigner);
      SignerStands(b, marks[i], signers[i]);
    }
    assert signers[..|signers|] == signers;
  }

  lemma SignerStands(b: Bytes, p: nat, s: Signer)
    requires StartsAt(b, p, EncodeSigner(s))
    ensures SignerStep(b, p, s, p + |EncodeSigner(s)|)
  {
    assert EncodeSigner(s)[1] == b[p..][1] == b[p + 1];
  }

  method SkipSigners(r: Reader, ghost p: nat, ghost marks: seq<nat>, ghost signers: seq<Signer>)
    modifies r`pos
    ensures old(r.pos) == Some(p) && U32At(r.b, Some(p)) == |signers| && SignerSteps(r.b, marks, signers)
        && marks[0] == p + 4
      ==> r.pos == Some(marks[|signers|])
  {
    ghost var given := r.pos == Some(p) && U32At(r.b, Some(p)) == |signers| && SignerSteps(r.b, marks, signers)
      && marks[0] == p + 4;
    var count := r.U32();
    for i := 0 to count
      invariant given ==> r.pos == Some(marks[i])
    {
      ghost var s, q, next := Signer(0, SchnorrSigPtr(0)), 0, 0;
      if given {
        s, q, next := signers[i], marks[i], marks[i + 1];
      }
      SkipSigner(r, q, s, next);
    }
  }

  function Names(actions: seq<Action>, ids: seq<Bytes>): seq<LaneAction> {
    seq(|actions|, i requires 0 <= i < |actions| => NameOf(actions[i], ids))
  }

  lemma NamesStep(actions: seq<Action>, ids: seq<Bytes>, i: nat)
    requires i < |actions|
    ensures Names(actions[..i + 1], ids) == Names(actions[..i], ids) + [NameOf(actions[i], ids)]
  {
  }

  lemma IdsStep(access: seq<AccessEntry>, i: nat)
    requires i < |access|
    ensures Ids(access[..i + 1]) == Ids(access[..i]) + [access[i].id]
  {
  }

  /** Where each action of a section starts, and where the last one ends. */
  ghost predicate Steps(b: Bytes, marks: seq<nat>, actions: seq<Action>, rules: MultisigRules) {
    && |marks| == |actions| + 1
    && forall i :: 0 <= i < |actions| ==> Step(b, marks[i], actions[i], marks[i + 1], rules)
  }

  lemma ActionSteps(b: Bytes, p: nat, actions: seq<Action>, rules: MultisigRules) returns (marks: seq<nat>)
    requires ItemsAt(b, p, actions, EncodeAction) && All(actions, FieldsRule(rules))
    ensures Steps(b, marks, actions, rules) && marks[0] == p + 4
  {
    marks := seq(|actions| + 1, i requires 0 <= i <= |actions| => Mark(p, actions, i, EncodeAction));
    forall i | 0 <= i < |actions| ensures Step(b, marks[i], actions[i], marks[i + 1], rules) {
      assert marks[i] == Mark(p, actions, i, EncodeAction) && marks[i + 1] == Mark(p, actions, i + 1, EncodeAction);
      ActionStep(b, p, actions, i, rules);
    }
  }

  lemma ActionStep(b: Bytes, p: nat, actions: seq<Action>, i: nat, rules: MultisigRules)
    requires ItemsAt(b, p, actions, EncodeAction) && All(actions, FieldsRule(rules)) && i < |actions|
    ensures Step(b, Mark(p, actions, i, EncodeAction), actions[i], Mark(p, actions, i + 1, EncodeAction), rules)
  {
    assert FieldsRule(rules)(actions[i]);
    ItemStands(b, p, actions, i, EncodeAction);
    ActionStands(b, Mark(p, actions, i, EncodeAction), actions[i], rules);
  }

  method NameActions(r: Reader, ids: seq<Bytes>, ghost p: nat, ghost marks: seq<nat>, ghost actions: seq<Action>,
                     ghost rules: MultisigRules)
    returns (names: Result<seq<LaneAction>>)
    modifies r`pos
    ensures old(r.pos) == Some(p) && U32At(r.b, Some(p)) == |actions| && Steps(r.b, marks, actions, rules)
        && marks[0] == p + 4
      ==> names == Ok(Names(actions, ids))
  {
    ghost var given := r.pos == Some(p) && U32At(r.b, Some(p)) == |actions| && Steps(r.b, marks, actions, rules)
      && marks[0] == p + 4;
    var count := r.U32();
    var got: seq<LaneAction> := [];
    for i := 0 to count
      invariant given ==> got == Names(actions[..i], ids)
      invariant given ==> r.pos == Some(marks[i])
    {
      ghost var a, q, next := JoinGame(0, 0), 0, 0;
      if given {
        a, q, next := actions[i], marks[i], marks[i + 1];
      }
      var name :- NameAction(r, ids, q, a, next, rules);
      got := got + [name];
      if given {
        NamesStep(actions, ids, i);
      }
    }
    assert given ==> actions[..count] == actions;
    names := Ok(got);
  }

  /** Four bytes, then `x`, then the rest. */
  lemma PartsStand(b: Bytes, p: nat, count: Bytes, x: Bytes, rest: Bytes)
    requires |count| == 4 && p <= |b| && b[p..] == count + (x + rest)
    ensures StartsAt(b, p, count) && StartsAt(b, p + 4, x) && p + 4 + |x| <= |b| && b[p + 4 + |x|..] == rest
  {
    assert b[p + 4..] == b[p..][4..] == x + rest;
    assert b[p + 4 + |x|..] == b[p + 4..][|x|..];
  }

  /** A count read where its four bytes stand. */
  lemma CountStands(b: Bytes, p: nat, count: Bytes)
    requires |count| == 4 && StartsAt(b, p, count)
    ensures U32At(b, Some(p)) == FromLittleEndian(count)
  {
    assert b[p..][..4] == count;
    FourBytes(count);
  }

  lemma SectionStands<T>(b: Bytes, p: nat, count: Bytes, items: seq<T>, enc: T -> Bytes, rest: Bytes)
    requires |count| == 4 && FromLittleEndian(count) == |items|
    requires p <= |b| && b[p..] == count + (Concat(items, enc) + rest)
    ensures SectionAt(b, p, items, enc)
    ensures SectionEnd(p, items, enc) <= |b| && b[SectionEnd(p, items, enc)..] == rest
  {
    PartsStand(b, p, count, Concat(items, enc), rest);
    CountStands(b, p, count);
  }

  lemma CountReads(n: u32)
    ensures FromLittleEndian(EncodeU32(n)) == n
  {
    PowersOf256();
    LittleEndianRoundTrip(4, n);
  }

  /** The three sections of an encoded payload, each where the one before ends. */
  lemma PayloadStands(p: Payload, rules: MultisigRules)
    requires WfPayload(p, rules)
    ensures var b, signersAt := EncodePayload(p, rules), SectionEnd(0, p.access, EncodeAccess);
      && SectionAt(b, 0, p.access, EncodeAccess)
      && SectionAt(b, signersAt, p.signers, EncodeSigner)
      && SectionAt(b, SectionEnd(signersAt, p.signers, EncodeSigner), p.actions, EncodeAction)
  {
    var b := EncodePayload(p, rules);
    var na, ns, nx := EncodeU32(|p.access|), EncodeU32(|p.signers|), EncodeU32(|p.actions|);
    CountReads(|p.access|);
    CountReads(|p.signers|);
    CountReads(|p.actions|);
    var actions := nx + (Concat(p.actions, EncodeAction) + p.tail);
    var signers := ns + (Concat(p.signers, EncodeSigner) + actions);
    Regroup(nx, Concat(p.actions, EncodeAction), p.tail);
    Regroup(EncodeSigners(p.signers), EncodeActions(p.actions), p.tail);
    Regroup(ns, Concat(p.signers, EncodeSigner), actions);
    Regroup(na, Concat(p.access, EncodeAccess), signers);
    assert b[0..] == b;
    SectionStands(b, 0, na, p.access, EncodeAccess, signers);
    var x := SectionEnd(0, p.access, EncodeAccess);
    SectionStands(b, x, ns, p.signers, EncodeSigner, actions);
    SectionStands(b, SectionEnd(x, p.signers, EncodeSigner), nx, p.actions, EncodeAction, p.tail);
  }

  /** `p` stands for any payload: decoding its encoding names its actions, one for one. */
  method DecodeLanePayload(raw: Bytes, ghost p: Payload, ghost rules: MultisigRules)
    returns (names: Result<seq<LaneAction>>)
    ensures WfPayload(p, rules) && raw == EncodePayload(p, rules) ==> names == Ok(Names(p.actions, Ids(p.access)))
  {
    ghost var signersAt := SectionEnd(0, p.access, EncodeAccess);
    ghost var actionsAt := SectionEnd(signersAt, p.signers, EncodeSigner);
    ghost var signerMarks, actionMarks := [], [];
    if WfPayload(p, rules) && raw == EncodePayload(p, rules) {
      PayloadStands(p, rules);
      signerMarks := SignerMarks(raw, signersAt, p.signers);
      assert forall a :: ActionRule(|p.access|, rules)(a) ==> FieldsRule(rules)(a);
      actionMarks := ActionSteps(raw, actionsAt, p.actions, rules);
    }
    var r := new Reader(raw);
    var ids :- ReadAccess(r, 0, p.access);
    SkipSigners(r, signersAt, signerMarks, p.signers);
    names := NameActions(r, ids, actionsAt, actionMarks, p.actions, rules);
  }
}
