/** The ledger around the matches, on values: what each action requires and what it leaves behind.
    An action that is not allowed is None; `ApplyContext` performs the same actions slot by slot. */
module Ledger {
  import opened Prelude
  import opened Rules
  import M = Match
  import opened Resources
  import opened Actions
  import opened GameBody
  import S = Signers

  const MIN_CREATE_BALANCE: u64 := 1000

  type Store = map<Id, Resource>

  datatype Access = Access(id: Id, writable: bool)

  /** An L1 output script: the covenant's delegate-entry P2SH, or anything else. */
  datatype Script = DelegateEntry(covenant: Bytes) | OtherScript(script: Bytes)

  datatype TxOut = TxOut(spkVersion: nat, script: Script, value: u64)

  datatype Exit = Exit(dest: StandardSpk, amount: u64)

  /** A transaction as the handler sees it. `signers` are the decoded signers with what each resolves to;
      `unlocks(k, i, lock)` is the signature oracle: whether the signers resolved before action `k` satisfy
      `lock` on resource `i`; `emits` says whether the exit sink takes one more exit after those given. */
  datatype Tx = Tx(
    access: seq<Access>,
    signers: seq<S.Attempt>,
    outputs: seq<TxOut>,
    actions: seq<Action>,
    now: u64,
    genesis: Lock,
    unlocks: (nat, u8, Lock) -> bool,
    emits: (seq<Exit>, Exit) -> bool)

  /** What the ABI guarantees of the declared resources: one entry per id. */
  predicate DistinctIds(access: seq<Access>) {
    forall i, j :: 0 <= i < j < |access| ==> access[i].id != access[j].id
  }

  /** The state threaded through one transaction's actions. */
  datatype TxState = TxState(store: Store, exits: seq<Exit>, sink: Option<Bytes>, consumed: seq<u32>)

  // ---------- reading slots ----------

  function IdAt(tx: Tx, i: u8): Id
    requires i < |tx.access|
  {
    tx.access[i].id
  }

  function Lookup(s: Store, id: Id): Option<Resource> {
    if id in s then Some(s[id]) else None
  }

  function FindUser(s: Store, id: Id): Option<User> {
    if id in s && s[id].UserRes? then Some(s[id].user) else None
  }

  function FindGame(s: Store, id: Id): Option<Game> {
    if id in s && s[id].GameRes? then Some(s[id].game) else None
  }

  function FindConfig(s: Store, id: Id): Option<Config> {
    if id in s && s[id].ConfigRes? then Some(s[id].config) else None
  }

  predicate Writable(tx: Tx, i: u8)
    requires i < |tx.access|
  {
    tx.access[i].writable
  }

  /** The user at slot `i`, when its current lock is satisfied at action `k`. */
  function Authorized(tx: Tx, k: nat, s: Store, i: u8): Option<User>
    requires i < |tx.access|
  {
    var u := FindUser(s, IdAt(tx, i));
    if u.Some? && tx.unlocks(k, i, u.value.lock) then u else None
  }

  function PutUser(s: Store, id: Id, u: User): Store {
    s[id := UserRes(u)]
  }

  function PutGame(s: Store, id: Id, g: Game): Store {
    s[id := GameRes(g)]
  }

  function NewUser(balance: u64, lock: Lock): User {
    User(balance, 0, 0, 0, LockHash(lock), lock)
  }

  /** A user may be born only at the address of its lock, with the policy minimum. */
  predicate MayCreate(id: Id, lock: Lock, funding: u64) {
    id == UserId(LockHash(lock)) && funding >= MIN_CREATE_BALANCE
  }

  // ---------- the actions ----------

  function ApplyUpdate(tx: Tx, k: nat, s: TxState, a: Action): Option<TxState>
    requires a.Update? && a.configIdx < |tx.access|
  {
    var id := IdAt(tx, a.configIdx);
    var c := FindConfig(s.store, id);
    if c.Some? && a.covenant == c.value.covenant && tx.unlocks(k, a.configIdx, c.value.lock) then
      Some(s.(store := s.store[id := ConfigRes(Config(a.minWithdrawal, a.turnTtl, a.covenant, a.lock))]))
    else None
  }

  function ApplyInit(tx: Tx, k: nat, s: TxState, a: Action): Option<TxState>
    requires a.Init? && a.configIdx < |tx.access|
  {
    var id := IdAt(tx, a.configIdx);
    if id == ConfigId && id !in s.store && tx.unlocks(k, a.configIdx, tx.genesis) then
      Some(s.(store := s.store[id := ConfigRes(Config(a.minWithdrawal, a.turnTtl, a.covenant, a.lock))]))
    else None
  }

  function ApplyTransfer(tx: Tx, k: nat, s: TxState, a: Action): Option<TxState>
    requires a.Transfer? && a.sourceIdx < |tx.access| && a.destIdx < |tx.access|
  {
    var src, dst := IdAt(tx, a.sourceIdx), IdAt(tx, a.destIdx);
    var from := Authorized(tx, k, s.store, a.sourceIdx);
    if a.sourceIdx == a.destIdx || from.None? || from.value.balance < a.amount
       || !Writable(tx, a.sourceIdx) || !Writable(tx, a.destIdx) then None
    else
      var debited := PutUser(s.store, src, from.value.(balance := from.value.balance - a.amount));
      if dst !in s.store then
        if a.destInit.Some? && MayCreate(dst, a.destInit.value, a.amount) then
          Some(s.(store := PutUser(debited, dst, NewUser(a.amount, a.destInit.value))))
        else None
      else
        var to := FindUser(s.store, dst);
        if to.Some? && to.value.balance + a.amount < U64_LIMIT then
          Some(s.(store := PutUser(debited, dst, to.value.(balance := to.value.balance + a.amount))))
        else None
  }

  function ApplyUpdateUserLock(tx: Tx, k: nat, s: TxState, a: Action): Option<TxState>
    requires a.UpdateUserLock? && a.userIdx < |tx.access|
  {
    var u := Authorized(tx, k, s.store, a.userIdx);
    if u.Some? && Writable(tx, a.userIdx) then
      Some(s.(store := PutUser(s.store, IdAt(tx, a.userIdx), u.value.(lock := a.lock))))
    else None
  }

  /** The value of the output a deposit names, when it pays the covenant's deposit address and has
      not funded another deposit of this transaction. */
  function Funding(tx: Tx, s: TxState, a: Action): Option<u64>
    requires a.Deposit? && a.configIdx < |tx.access|
  {
    var c := FindConfig(s.store, IdAt(tx, a.configIdx));
    if a.outputIdx in s.consumed || c.None? || a.outputIdx >= |tx.outputs| then None
    else
      var out := tx.outputs[a.outputIdx];
      if out.spkVersion == 0 && out.script == DelegateEntry(c.value.covenant) then Some(out.value)
      else None
  }

  function ApplyDeposit(tx: Tx, k: nat, s: TxState, a: Action): Option<TxState>
    requires a.Deposit? && a.userIdx < |tx.access| && a.configIdx < |tx.access|
  {
    var id := IdAt(tx, a.userIdx);
    var value := Funding(tx, s, a);
    if value.None? || !Writable(tx, a.userIdx) then None
    else
      var covenant := FindConfig(s.store, IdAt(tx, a.configIdx)).value.covenant;
      if s.sink.Some? && s.sink.value != covenant then None
      else
        var after := s.(sink := Some(covenant), consumed := s.consumed + [a.outputIdx]);
        if id !in s.store then
          if MayCreate(id, a.lock, value.value) then
            Some(after.(store := PutUser(s.store, id, NewUser(value.value, a.lock))))
          else None
        else
          var u := FindUser(s.store, id);
          if u.Some? && u.value.ilh == LockHash(a.lock) && u.value.balance + value.value < U64_LIMIT then
            Some(after.(store := PutUser(s.store, id, u.value.(balance := u.value.balance + value.value))))
          else None
  }

  function ApplyWithdraw(tx: Tx, k: nat, s: TxState, a: Action): Option<TxState>
    requires a.Withdraw? && a.userIdx < |tx.access| && a.configIdx < |tx.access|
  {
    var c := FindConfig(s.store, IdAt(tx, a.configIdx));
    var u := Authorized(tx, k, s.store, a.userIdx);
    var exit := Exit(a.dest, a.amount);
    if c.Some? && u.Some? && c.value.minWithdrawal <= a.amount <= u.value.balance
       && Writable(tx, a.userIdx) && tx.emits(s.exits, exit) then
      Some(s.(store := PutUser(s.store, IdAt(tx, a.userIdx), u.value.(balance := u.value.balance - a.amount)),
              exits := s.exits + [exit]))
    else None
  }

  function ApplyCreateGame(tx: Tx, k: nat, s: TxState, a: Action): Option<TxState>
    requires a.CreateGame? && a.creatorIdx < |tx.access| && a.gameIdx < |tx.access|
  {
    var creator, id := IdAt(tx, a.creatorIdx), IdAt(tx, a.gameIdx);
    var u := Authorized(tx, k, s.store, a.creatorIdx);
    if a.rounds >= 1 && id !in s.store && u.Some? && id == GameId(u.value.ilh, u.value.started)
       && a.stake <= u.value.balance && u.value.started + 1 < U64_LIMIT
       && Writable(tx, a.creatorIdx) && Writable(tx, a.gameIdx) && a.mark != Empty then
      var paid := PutUser(s.store, creator,
                          u.value.(balance := u.value.balance - a.stake, started := u.value.started + 1));
      Some(s.(store := PutGame(paid, id, Game(creator, None, a.stake, M.Fresh(a.mark, a.rounds)))))
    else None
  }

  function ApplyJoinGame(tx: Tx, k: nat, s: TxState, a: Action): Option<TxState>
    requires a.JoinGame? && a.joinerIdx < |tx.access| && a.gameIdx < |tx.access|
  {
    var joiner, id := IdAt(tx, a.joinerIdx), IdAt(tx, a.gameIdx);
    var u := Authorized(tx, k, s.store, a.joinerIdx);
    var g := FindGame(s.store, id);
    if u.Some? && g.Some? && g.value.play.core.state.Open? && g.value.creator != joiner
       && g.value.stake <= u.value.balance && Writable(tx, a.joinerIdx) && Writable(tx, a.gameIdx) then
      var paid := PutUser(s.store, joiner, u.value.(balance := u.value.balance - g.value.stake));
      Some(s.(store := PutGame(paid, id, g.value.(joiner := Some(joiner), play := M.Start(g.value.play, tx.now)))))
    else None
  }

  /** One player's share of a settlement: the credit, one more finished game, and one more won. */
  function Pay(tx: Tx, s: Store, player: Id, credit: nat, won: bool): Option<Store> {
    var u := FindUser(s, player);
    if Access(player, true) in tx.access && u.Some? && u.value.balance + credit < U64_LIMIT
       && u.value.finished + 1 < U64_LIMIT && (won ==> u.value.won + 1 < U64_LIMIT) then
      Some(PutUser(s, player, u.value.(balance := u.value.balance + credit,
                                       finished := u.value.finished + 1,
                                       won := if won then u.value.won + 1 else u.value.won)))
    else None
  }

  /** What a seat takes from the pot: all of it for the winner, its own stake back on a draw. */
  function Share(g: Game, seat: Seat): nat {
    match g.play.core.state
    case First => if seat == 0 then 2 * g.stake else 0
    case Second => if seat == 1 then 2 * g.stake else 0
    case Draw => g.stake
    case _ => 0
  }

  predicate WonBySeat(g: Game, seat: Seat) {
    g.play.core.state == (if seat == 0 then First else Second)
  }

  function SettleMatch(tx: Tx, s: Store, g: Game): Option<Store> {
    if g.joiner.None? || 2 * g.stake >= U64_LIMIT || !g.play.core.Finished() then None
    else
      var first := Pay(tx, s, g.creator, Share(g, 0), WonBySeat(g, 0));
      if first.None? then None
      else Pay(tx, first.value, g.joiner.value, Share(g, 1), WonBySeat(g, 1))
  }

  /** Stores the played-on game and, when that ended the match, settles it. */
  function Conclude(tx: Tx, s: TxState, id: Id, played: Result<Game>): Option<TxState> {
    if played.Err? then None
    else
      var store := PutGame(s.store, id, played.value);
      if !played.value.play.core.Finished() then Some(s.(store := store))
      else
        match SettleMatch(tx, store, played.value)
        case Some(settled) => Some(s.(store := settled))
        case None => None
  }

  function ApplyTurn(tx: Tx, k: nat, s: TxState, a: Action): Option<TxState>
    requires a.Turn? && a.userIdx < |tx.access| && a.gameIdx < |tx.access|
  {
    var g := FindGame(s.store, IdAt(tx, a.gameIdx));
    if Authorized(tx, k, s.store, a.userIdx).None? || g.None? || !Writable(tx, a.gameIdx) then None
    else Conclude(tx, s, IdAt(tx, a.gameIdx), PlayGame(g.value, IdAt(tx, a.userIdx), a.cell, tx.now))
  }

  function ApplyTimeout(tx: Tx, k: nat, s: TxState, a: Action): Option<TxState>
    requires a.Timeout? && a.configIdx < |tx.access| && a.gameIdx < |tx.access|
  {
    var g := FindGame(s.store, IdAt(tx, a.gameIdx));
    var c := FindConfig(s.store, IdAt(tx, a.configIdx));
    if c.None? || g.None? || !Writable(tx, a.gameIdx) then None
    else Conclude(tx, s, IdAt(tx, a.gameIdx), ForfeitGame(g.value, c.value.turnTtl, tx.now))
  }

  /** One action, at position `k` of its transaction. */
  function ApplyAction(tx: Tx, k: nat, s: TxState, a: Action): Option<TxState>
    requires Admitted(a, |tx.access|)
  {
    var ix := Indexes(a);
    assert ix[0] < |tx.access| && (|ix| == 2 ==> ix[1] < |tx.access|);
    match a
    case Update(_, _, _, _, _) => ApplyUpdate(tx, k, s, a)
    case Init(_, _, _, _, _) => ApplyInit(tx, k, s, a)
    case Transfer(_, _, _, _) => ApplyTransfer(tx, k, s, a)
    case UpdateUserLock(_, _) => ApplyUpdateUserLock(tx, k, s, a)
    case Deposit(_, _, _, _) => ApplyDeposit(tx, k, s, a)
    case Withdraw(_, _, _, _) => ApplyWithdraw(tx, k, s, a)
    case CreateGame(_, _, _, _, _) => ApplyCreateGame(tx, k, s, a)
    case JoinGame(_, _) => ApplyJoinGame(tx, k, s, a)
    case Turn(_, _, _) => ApplyTurn(tx, k, s, a)
    case Timeout(_, _) => ApplyTimeout(tx, k, s, a)
  }

  /** The actions from position `k` on; None as soon as one is not allowed. */
  function ApplyAll(tx: Tx, k: nat, s: TxState): Option<TxState>
    requires k <= |tx.actions|
    decreases |tx.actions| - k
  {
    if k == |tx.actions| then Some(s)
    else if !Admitted(tx.actions[k], |tx.access|) then None
    else
      match ApplyAction(tx, k, s, tx.actions[k])
      case None => None
      case Some(s') => ApplyAll(tx, k + 1, s')
  }

  // ---------- signers ----------

  /** The data of the declared resources. */
  function SlotsOf(tx: Tx, s: Store): seq<Option<Resource>> {
    seq(|tx.access|, i requires 0 <= i < |tx.access| => Lookup(s, tx.access[i].id))
  }

  /** The slots that hold data with a lock. */
  function LockBearing(slots: seq<Option<Resource>>): S.Live {
    (i: u8) => i < |slots| && slots[i].Some? && (slots[i].value.UserRes? || slots[i].value.ConfigRes?)
  }

  function LiveIn(tx: Tx, s: Store): S.Live {
    LockBearing(SlotsOf(tx, s))
  }

  /** The actions from position `k` on with the signers still waiting: they are tried again before each
      action, one that fails rejects the transaction, and so does one that waits to the end. */
  function Resume(tx: Tx, k: nat, s: TxState, waiting: seq<S.Attempt>): Option<TxState>
    requires k <= |tx.actions|
    decreases |tx.actions| - k
  {
    if k == |tx.actions| then if waiting == [] then Some(s) else None
    else if !S.Resolves(S.Ready(waiting, LiveIn(tx, s.store))) || !Admitted(tx.actions[k], |tx.access|) then None
    else
      match ApplyAction(tx, k, s, tx.actions[k])
      case None => None
      case Some(s') => Resume(tx, k + 1, s', S.Waiting(waiting, LiveIn(tx, s.store)))
  }

  /** A whole transaction: every signer is tried once up front. */
  function Execute(tx: Tx, s: TxState): Option<TxState> {
    if !S.Resolves(S.Ready(tx.signers, LiveIn(tx, s.store))) then None
    else Resume(tx, 0, s, S.Waiting(tx.signers, LiveIn(tx, s.store)))
  }

  /** Whether slot `idx` bears a lock before one of the actions from position `k` on. */
  predicate BornInTime(tx: Tx, k: nat, s: TxState, idx: u8)
    requires k <= |tx.actions|
    decreases |tx.actions| - k
  {
    && k < |tx.actions|
    && (|| LiveIn(tx, s.store)(idx)
        || (&& Admitted(tx.actions[k], |tx.access|)
            && ApplyAction(tx, k, s, tx.actions[k]).Some?
            && BornInTime(tx, k + 1, ApplyAction(tx, k, s, tx.actions[k]).value, idx)))
  }

  /** A signer settles when it resolves to a key, in time if it has to wait. */
  predicate Settles(tx: Tx, s: TxState, a: S.Attempt) {
    && a.unlocker.Ok?
    && (S.Gated(a.kind) ==> LiveIn(tx, s.store)(a.resourceIdx) || BornInTime(tx, 0, s, a.resourceIdx))
  }

  // ---------- whole transactions and runs ----------

  /** The committed store with the running totals of credited deposits and emitted exits. */
  datatype Ledger = Ledger(store: Store, deposited: nat, exited: nat)

  const GENESIS := Ledger(map[], 0, 0)

  function Begin(l: Ledger): TxState {
    TxState(l.store, [], None, [])
  }

  function ExitSum(exits: seq<Exit>): nat {
    if exits == [] then 0 else ExitSum(exits[..|exits| - 1]) + exits[|exits| - 1].amount
  }

  /** The value of the outputs at the given indexes. */
  function OutputSum(outputs: seq<TxOut>, idxs: seq<u32>): nat {
    if idxs == [] then 0
    else
      var last := idxs[|idxs| - 1];
      OutputSum(outputs, idxs[..|idxs| - 1]) + (if last < |outputs| then outputs[last].value else 0)
  }

  /** A transaction is applied as a whole or leaves the ledger as it was. */
  function Transact(l: Ledger, tx: Tx): Ledger {
    if !DistinctIds(tx.access) then l
    else
      match Execute(tx, Begin(l))
      case None => l
      case Some(s) =>
        Ledger(s.store, l.deposited + OutputSum(tx.outputs, s.consumed), l.exited + ExitSum(s.exits))
  }

  function TransactAll(l: Ledger, txs: seq<Tx>): Ledger {
    if txs == [] then l else Transact(TransactAll(l, txs[..|txs| - 1]), txs[|txs| - 1])
  }
}
