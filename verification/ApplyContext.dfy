/** The actions as the guest performs them: slot by slot over the transaction's resource list, each
    check and write in turn, stopping at the first error. Every method is proved against the
    value-level action of `Ledger`; a failed action may leave slots half-written, which is why a
    failed transaction is discarded as a whole. */
module ApplyContext {
  import opened Prelude
  import opened Rules
  import M = Match
  import opened Resources
  import opened Actions
  import opened GameBody
  import L = Ledger
  import opened LedgerAccess
  import opened LedgerSigners
  import S = Signers

  datatype Lifecycle = New | Live | Deleted

  class ApplyContext {
    const tx: L.Tx
    /** The data of each declared resource; None is an empty slot. */
    var slots: seq<Option<Resource>>
    var lifecycle: seq<Lifecycle>
    var exits: seq<L.Exit>
    var deposit: Option<Bytes>
    var consumedOutputs: seq<u32>
    /** The committed store with this transaction's slots written over it. */
    ghost var store: L.Store

    ghost predicate Valid()
      reads this
    {
      && L.DistinctIds(tx.access)
      && |slots| == |lifecycle| == |tx.access|
      && (forall i :: 0 <= i < |slots| ==> lifecycle[i] == if slots[i].Some? then Live else New)
      && (forall i :: 0 <= i < |slots| ==> slots[i] == L.Lookup(store, tx.access[i].id))
    }

    ghost function View(): L.TxState
      reads this
    {
      L.TxState(store, exits, deposit, consumedOutputs)
    }

    constructor (tx: L.Tx, store: L.Store, slots: seq<Option<Resource>>)
      requires L.DistinctIds(tx.access) && |slots| == |tx.access|
      requires forall i :: 0 <= i < |slots| ==> slots[i] == L.Lookup(store, tx.access[i].id)
      ensures Valid() && View() == L.TxState(store, [], None, []) && this.tx == tx
    {
      this.tx := tx;
      this.slots := slots;
      this.lifecycle := seq(|slots|, i requires 0 <= i < |slots| => if slots[i].Some? then Live else New);
      this.exits, this.deposit, this.consumedOutputs := [], None, [];
      this.store := store;
    }

    lemma SlotsAreView()
      requires Valid()
      ensures slots == L.SlotsOf(tx, store)
    {
    }

    // ---------- slot access ----------

    function ViewUser(i: u8): Option<User>
      requires i < |slots|
      reads this
    {
      if slots[i].Some? && slots[i].value.UserRes? then Some(slots[i].value.user) else None
    }

    function ViewGame(i: u8): Option<Game>
      requires i < |slots|
      reads this
    {
      if slots[i].Some? && slots[i].value.GameRes? then Some(slots[i].value.game) else None
    }

    function ViewConfig(i: u8): Option<Config>
      requires i < |slots|
      reads this
    {
      if slots[i].Some? && slots[i].value.ConfigRes? then Some(slots[i].value.config) else None
    }

    /** Rewrites the data of slot `i` in place. */
    method Write(i: u8, r: Resource)
      requires Valid() && i < |slots| && slots[i].Some?
      modifies this`slots, this`store
      ensures Valid() && store == old(store)[tx.access[i].id := r]
      ensures slots == old(slots)[i := Some(r)]
    {
      slots := slots[i := Some(r)];
      store := store[tx.access[i].id := r];
    }

    /** Fills the empty slot `i` and advances it from New to Live. */
    method Create(i: u8, r: Resource)
      requires Valid() && i < |slots| && slots[i].None?
      modifies this`slots, this`lifecycle, this`store
      ensures Valid() && store == old(store)[tx.access[i].id := r]
      ensures slots == old(slots)[i := Some(r)]
    {
      lifecycle := lifecycle[i := Live];
      slots := slots[i := Some(r)];
      store := store[tx.access[i].id := r];
    }

    /** Rewrites the user in slot `i`; false when the slot holds no live user or is not writable. */
    method ModifyUser(i: u8, u: User) returns (ok: bool)
      requires Valid() && i < |slots|
      modifies this`slots, this`store
      ensures Valid() && ok == (L.Writable(tx, i) && old(ViewUser(i)).Some?)
      ensures store == if ok then L.PutUser(old(store), tx.access[i].id, u) else old(store)
      ensures slots == if ok then old(slots)[i := Some(UserRes(u))] else old(slots)
    {
      if !tx.access[i].writable || ViewUser(i).None? {
        return false;
      }
      Write(i, UserRes(u));
      ok := true;
    }

    method ModifyGame(i: u8, g: Game) returns (ok: bool)
      requires Valid() && i < |slots|
      modifies this`slots, this`store
      ensures Valid() && ok == (L.Writable(tx, i) && old(ViewGame(i)).Some?)
      ensures store == if ok then L.PutGame(old(store), tx.access[i].id, g) else old(store)
      ensures slots == if ok then old(slots)[i := Some(GameRes(g))] else old(slots)
    {
      if !tx.access[i].writable || ViewGame(i).None? {
        return false;
      }
      Write(i, GameRes(g));
      ok := true;
    }

    /** Creates a user in an empty writable slot; the game counters start at zero. */
    method InitUser(i: u8, balance: u64, lock: Lock) returns (r: Result<()>)
      requires Valid() && i < |slots|
      modifies this`slots, this`lifecycle, this`store
      ensures Valid()
      ensures r.Ok? == (L.Writable(tx, i) && old(slots)[i].None?)
      ensures store == if r.Ok? then L.PutUser(old(store), tx.access[i].id, L.NewUser(balance, lock)) else old(store)
    {
      if !tx.access[i].writable {
        return Err("init_user: resource not declared writable");
      }
      if slots[i].Some? {
        return Err("init_user: slot is not empty");
      }
      Create(i, UserRes(User(balance, 0, 0, 0, LockHash(lock), lock)));
      r := Ok(());
    }

    /** Creates an open game in an empty writable slot. */
    method InitGame(i: u8, creator: Id, stake: u64, rounds: u8, mark: Cell) returns (r: Result<()>)
      requires Valid() && i < |slots|
      modifies this`slots, this`lifecycle, this`store
      ensures Valid()
      ensures r.Ok? == (L.Writable(tx, i) && old(slots)[i].None? && mark != Empty)
      ensures r.Ok? ==>
        store == L.PutGame(old(store), tx.access[i].id, Game(creator, None, stake, M.Fresh(mark, rounds)))
    {
      if !tx.access[i].writable {
        return Err("init_game: resource not declared writable");
      }
      if slots[i].Some? {
        return Err("init_game: slot is not empty");
      }
      if mark == Empty {
        return Err("game: creator_mark must be X or O");
      }
      Create(i, GameRes(Game(creator, None, stake, M.Fresh(mark, rounds))));
      r := Ok(());
    }

    /** Adds to the balance of the live user in slot `i`. */
    method CreditUser(i: u8, amount: u64) returns (r: Result<()>)
      requires Valid() && i < |slots|
      modifies this`slots, this`store
      ensures Valid()
      ensures r.Ok? == Credited(tx, old(store), i, amount).Some?
      ensures r.Ok? ==> Credited(tx, old(store), i, amount) == Some(store)
    {
      var u := ViewUser(i);
      if u.None? {
        return Err("credit: not a live writable user resource");
      }
      if u.value.balance + amount >= U64_LIMIT {
        return Err("credit: balance overflow");
      }
      var ok := ModifyUser(i, u.value.(balance := u.value.balance + amount));
      r := if ok then Ok(()) else Err("credit: not a live writable user resource");
    }

    /** Validates that a user may be born in slot `i` at its lock's derived address. */
    method ValidateUserCreate(i: u8, lock: Lock, funding: u64) returns (r: Result<()>)
      requires Valid() && i < |slots|
      ensures r.Ok? == L.MayCreate(tx.access[i].id, lock, funding)
    {
      if tx.access[i].id != UserId(LockHash(lock)) {
        return Err("create: slot id != derive_user_resource(initial_lock)");
      }
      if funding < L.MIN_CREATE_BALANCE {
        return Err("create: funding below policy minimum to create user");
      }
      r := Ok(());
    }

    // ---------- config ----------

    method ApplyUpdate(k: nat, a: Action) returns (r: Result<()>)
      requires Valid() && a.Update? && a.configIdx < |tx.access|
      modifies this
      ensures Valid()
      ensures Agrees(r, L.ApplyUpdate(tx, k, old(View()), a), View())
    {
      if !lifecycle[a.configIdx].Live? {
        return Err("update: config resource must already exist");
      }
      var cur := ViewConfig(a.configIdx);
      if cur.None? {
        return Err("config: wrong kind");
      }
      if a.covenant != cur.value.covenant {
        return Err("update: covenant_id is immutable after init");
      }
      if !tx.unlocks(k, a.configIdx, cur.value.lock) {
        return Err("update: lock not satisfied");
      }
      Write(a.configIdx, ConfigRes(Config(a.minWithdrawal, a.turnTtl, a.covenant, a.lock)));
      r := Ok(());
    }

    method ApplyInit(k: nat, a: Action) returns (r: Result<()>)
      requires Valid() && a.Init? && a.configIdx < |tx.access|
      modifies this
      ensures Valid()
      ensures Agrees(r, L.ApplyInit(tx, k, old(View()), a), View())
    {
      if tx.access[a.configIdx].id != ConfigId {
        return Err("init: target is not the config resource");
      }
      if !lifecycle[a.configIdx].New? {
        return Err("init: config resource already exists");
      }
      if !tx.unlocks(k, a.configIdx, tx.genesis) {
        return Err("init: not authorized by genesis pubkey");
      }
      Create(a.configIdx, ConfigRes(Config(a.minWithdrawal, a.turnTtl, a.covenant, a.lock)));
      r := Ok(());
    }

    // ---------- balances ----------

    /** Everything a transfer checks before it writes; the source's user when all of it holds. */
    method CheckTransfer(k: nat, a: Action) returns (r: Result<User>)
      requires Valid() && a.Transfer? && a.sourceIdx < |tx.access| && a.destIdx < |tx.access|
      ensures r.Ok? == MayTransfer(tx, k, store, a)
      ensures r.Ok? ==> ViewUser(a.sourceIdx) == Some(r.value)
    {
      if a.sourceIdx == a.destIdx {
        return Err("transfer: source and dest must differ");
      }
      var src := ViewUser(a.sourceIdx);
      if src.None? {
        return Err("transfer: source not a live user resource");
      }
      if !tx.unlocks(k, a.sourceIdx, src.value.lock) {
        return Err("source: lock not satisfied");
      }
      if lifecycle[a.destIdx].New? {
        if a.destInit.None? {
          return Err("transfer: dest does not exist and no dest lock to create it");
        }
        var valid := ValidateUserCreate(a.destIdx, a.destInit.value, a.amount);
        if valid.Err? {
          return Err(valid.error);
        }
      }
      if src.value.balance < a.amount {
        return Err("source: insufficient balance");
      }
      r := Ok(src.value);
    }

    method ApplyTransfer(k: nat, a: Action) returns (r: Result<()>)
      requires Valid() && a.Transfer? && a.sourceIdx < |tx.access| && a.destIdx < |tx.access|
      modifies this
      ensures Valid()
      ensures Agrees(r, L.ApplyTransfer(tx, k, old(View()), a), View())
    {
      ghost var before := View();
      TransferSplits(tx, k, before, a);
      var src := CheckTransfer(k, a);
      if src.Err? {
        return Err(src.error);
      }
      var dstCreate := lifecycle[a.destIdx].New?;
      var debited := ModifyUser(a.sourceIdx, src.value.(balance := src.value.balance - a.amount));
      if !debited {
        return Err("transfer: source not a live writable user resource");
      }
      if dstCreate {
        r := InitUser(a.destIdx, a.amount, a.destInit.value);
      } else {
        r := CreditUser(a.destIdx, a.amount);
      }
    }

    method ApplyUpdateUserLock(k: nat, a: Action) returns (r: Result<()>)
      requires Valid() && a.UpdateUserLock? && a.userIdx < |tx.access|
      modifies this
      ensures Valid()
      ensures Agrees(r, L.ApplyUpdateUserLock(tx, k, old(View()), a), View())
    {
      var u := ViewUser(a.userIdx);
      if u.None? {
        return Err("update_user_lock: not a live user resource");
      }
      if !tx.unlocks(k, a.userIdx, u.value.lock) {
        return Err("update_user_lock: current lock not satisfied");
      }
      var ok := ModifyUser(a.userIdx, u.value.(lock := a.lock));
      r := if ok then Ok(()) else Err("set_user_lock: resource not declared writable");
    }

    /** The value of the output that funds a deposit. */
    method CheckFunding(a: Action) returns (r: Result<u64>)
      requires Valid() && a.Deposit? && a.configIdx < |tx.access|
      ensures r.Ok? == L.Funding(tx, View(), a).Some?
      ensures r.Ok? ==> L.Funding(tx, View(), a) == Some(r.value) && ViewConfig(a.configIdx).Some?
    {
      if a.outputIdx in consumedOutputs {
        return Err("deposit: output already consumed in this tx");
      }
      var config := ViewConfig(a.configIdx);
      if config.None? {
        return Err("config resource not live");
      }
      if a.outputIdx >= |tx.outputs| {
        return Err("deposit: bad output_idx / rest_preimage");
      }
      var out := tx.outputs[a.outputIdx];
      if out.spkVersion != 0 || out.script != L.DelegateEntry(config.value.covenant) {
        return Err("deposit: funding output SPK != policy deposit_spk");
      }
      r := Ok(out.value);
    }

    /** Whether slot `i` may be credited with a deposit under `lock`, or born with it. */
    method CheckTarget(i: u8, lock: Lock, value: u64) returns (r: Result<()>)
      requires Valid() && i < |slots|
      ensures r.Ok? == MayReceive(tx, store, i, lock, value)
    {
      if lifecycle[i].New? {
        r := ValidateUserCreate(i, lock, value);
      } else {
        var u := ViewUser(i);
        if u.None? {
          return Err("deposit: target not a live user resource");
        }
        if u.value.ilh != LockHash(lock) {
          return Err("deposit: initial_lock mismatch for existing user");
        }
        if u.value.balance + value >= U64_LIMIT {
          return Err("deposit: balance overflow");
        }
        r := Ok(());
      }
    }

    method ApplyDeposit(k: nat, a: Action) returns (r: Result<()>)
      requires Valid() && a.Deposit? && a.userIdx < |tx.access| && a.configIdx < |tx.access|
      modifies this
      ensures Valid()
      ensures Agrees(r, L.ApplyDeposit(tx, k, old(View()), a), View())
    {
      ghost var before := View();
      DepositSplits(tx, k, before, a);
      var value := CheckFunding(a);
      if value.Err? {
        return Err(value.error);
      }
      r := CheckTarget(a.userIdx, a.lock, value.value);
      if r.Err? {
        return;
      }
      var covenant := ViewConfig(a.configIdx).value.covenant;
      if deposit.Some? && deposit.value != covenant {
        return Err("deposit: conflicting deposit address");
      }
      deposit := Some(covenant);
      consumedOutputs := consumedOutputs + [a.outputIdx];
      if lifecycle[a.userIdx].New? {
        r := InitUser(a.userIdx, value.value, a.lock);
      } else {
        r := CreditUser(a.userIdx, value.value);
      }
    }

    method ApplyWithdraw(k: nat, a: Action) returns (r: Result<()>)
      requires Valid() && a.Withdraw? && a.userIdx < |tx.access| && a.configIdx < |tx.access|
      modifies this
      ensures Valid()
      ensures Agrees(r, L.ApplyWithdraw(tx, k, old(View()), a), View())
    {
      var config := ViewConfig(a.configIdx);
      if config.None? {
        return Err("config resource not live");
      }
      var u := ViewUser(a.userIdx);
      if u.None? {
        return Err("withdraw: not a live user resource");
      }
      if !tx.unlocks(k, a.userIdx, u.value.lock) {
        return Err("withdraw: lock not satisfied");
      }
      if a.amount < config.value.minWithdrawal {
        return Err("withdraw: amount below min_withdrawal_amount");
      }
      if u.value.balance < a.amount {
        return Err("withdraw: insufficient balance");
      }
      var ok := ModifyUser(a.userIdx, u.value.(balance := u.value.balance - a.amount));
      if !ok {
        return Err("withdraw: not a live writable user resource");
      }
      var exit := L.Exit(a.dest, a.amount);
      if !tx.emits(exits, exit) {
        return Err("withdraw: emit failed");
      }
      exits := exits + [exit];
      r := Ok(());
    }

    // ---------- games ----------

    /** Everything a game's creation checks before it writes; the creator when all of it holds. */
    method CheckCreate(k: nat, a: Action) returns (r: Result<User>)
      requires Valid() && a.CreateGame? && a.creatorIdx < |tx.access| && a.gameIdx < |tx.access|
      ensures r.Ok? == MayCreateGame(tx, k, store, a)
      ensures r.Ok? ==> ViewUser(a.creatorIdx) == Some(r.value)
    {
      if a.rounds == 0 {
        return Err("create_game: rounds must be at least 1");
      }
      if !lifecycle[a.gameIdx].New? {
        return Err("create_game: game slot is not new");
      }
      var creator := ViewUser(a.creatorIdx);
      if creator.None? {
        return Err("create_game: creator not a live user resource");
      }
      var u := creator.value;
      if !tx.unlocks(k, a.creatorIdx, u.lock) {
        return Err("create_game: creator lock not satisfied");
      }
      if tx.access[a.gameIdx].id != GameId(u.ilh, u.started) {
        return Err("create_game: slot id != derive_game_resource(initial_lock_hash, games_started)");
      }
      if u.balance < a.stake {
        return Err("create_game: insufficient balance");
      }
      if u.started + 1 >= U64_LIMIT {
        return Err("create_game: games_started overflow");
      }
      r := Ok(u);
    }

    method ApplyCreateGame(k: nat, a: Action) returns (r: Result<()>)
      requires Valid() && a.CreateGame? && a.creatorIdx < |tx.access| && a.gameIdx < |tx.access|
      modifies this
      ensures Valid()
      ensures Agrees(r, L.ApplyCreateGame(tx, k, old(View()), a), View())
    {
      ghost var before := View();
      CreateSplits(tx, k, before, a);
      var u := CheckCreate(k, a);
      if u.Err? {
        return Err(u.error);
      }
      var ok := ModifyUser(a.creatorIdx, Charged(u.value, a.stake));
      if !ok {
        return Err("create_game: creator not a live writable user resource");
      }
      r := InitGame(a.gameIdx, tx.access[a.creatorIdx].id, a.stake, a.rounds, a.mark);
    }

    method ApplyJoinGame(k: nat, a: Action) returns (r: Result<()>)
      requires Valid() && a.JoinGame? && a.joinerIdx < |tx.access| && a.gameIdx < |tx.access|
      modifies this
      ensures Valid()
      ensures Agrees(r, L.ApplyJoinGame(tx, k, old(View()), a), View())
    {
      var joiner := ViewUser(a.joinerIdx);
      if joiner.None? {
        return Err("join_game: joiner not a live user resource");
      }
      var u := joiner.value;
      if !tx.unlocks(k, a.joinerIdx, u.lock) {
        return Err("join_game: joiner lock not satisfied");
      }
      var game := ViewGame(a.gameIdx);
      if game.None? {
        return Err("join_game: not a live game resource");
      }
      var g := game.value;
      if !g.play.core.state.Open? {
        return Err("join_game: game is not open");
      }
      var joinerId := tx.access[a.joinerIdx].id;
      if joinerId == g.creator {
        return Err("join_game: joiner is the creator");
      }
      if u.balance < g.stake {
        return Err("join_game: insufficient balance");
      }
      var debited := ModifyUser(a.joinerIdx, u.(balance := u.balance - g.stake));
      if !debited {
        return Err("join_game: joiner not a live writable user resource");
      }
      var ok := ModifyGame(a.gameIdx, g.(joiner := Some(joinerId), play := M.Start(g.play, tx.now)));
      r := if ok then Ok(()) else Err("join_game: not a live writable game resource");
    }

    /** Position of the resource carrying `id` in the transaction, if attached. */
    method UserSlotOf(id: Id) returns (slot: Option<nat>)
      requires Valid()
      ensures slot.Some? ==> slot.value < |tx.access| && tx.access[slot.value].id == id
      ensures slot.None? ==> forall i :: 0 <= i < |tx.access| ==> tx.access[i].id != id
    {
      for i := 0 to |tx.access|
        invariant forall j :: 0 <= j < i ==> tx.access[j].id != id
      {
        if tx.access[i].id == id {
          return Some(i);
        }
      }
      slot := None;
    }

    /** A player's user with its share and one more finished, and perhaps won, game. */
    method Bump(player: User, credit: u64, won: bool) returns (r: Result<User>)
      ensures r.Ok? == Bumped(player, credit, won).Some?
      ensures r.Ok? ==> Bumped(player, credit, won) == Some(r.value)
    {
      var u := player;
      if credit > 0 {
        if u.balance + credit >= U64_LIMIT {
          return Err("settle: balance overflow");
        }
        u := u.(balance := u.balance + credit);
      }
      if u.finished + 1 >= U64_LIMIT {
        return Err("settle: stat overflow");
      }
      u := u.(finished := u.finished + 1);
      if won {
        if u.won + 1 >= U64_LIMIT {
          return Err("settle: stat overflow");
        }
        u := u.(won := u.won + 1);
      }
      r := Ok(u);
    }

    /** One player's share of the settlement, paid to its slot. */
    method Pay(player: Id, credit: u64, won: bool) returns (r: Result<()>)
      requires Valid()
      modifies this`slots, this`store
      ensures Valid()
      ensures r.Ok? == L.Pay(tx, old(store), player, credit, won).Some?
      ensures r.Ok? ==> L.Pay(tx, old(store), player, credit, won) == Some(store)
    {
      var slot := UserSlotOf(player);
      if slot.None? {
        return Err("settle: player user resource missing from tx");
      }
      var i := slot.value;
      PaySplits(tx, store, i, credit, won);
      if !tx.access[i].writable || slots[i].None? || !slots[i].value.UserRes? {
        return Err("settle: player not a live writable user resource");
      }
      var u := Bump(slots[i].value.user, credit, won);
      if u.Err? {
        return Err(u.error);
      }
      slots := slots[i := Some(UserRes(u.value))];
      store := store[player := UserRes(u.value)];
      r := Ok(());
    }

    /** Pays out a just-finished match's pot, seat by seat, and bumps both players' stats. */
    method SettleMatch(gameIdx: u8) returns (r: Result<()>)
      requires Valid() && gameIdx < |slots| && ViewGame(gameIdx).Some?
      modifies this`slots, this`store
      ensures Valid()
      ensures var settled := L.SettleMatch(tx, old(store), old(ViewGame(gameIdx)).value);
              r.Ok? == settled.Some? && (r.Ok? ==> settled == Some(store))
    {
      var g := ViewGame(gameIdx).value;
      if g.joiner.None? {
        return Err("settle: finished game without a joiner");
      }
      if 2 * g.stake >= U64_LIMIT {
        return Err("settle: pot overflows");
      }
      if !g.play.core.Finished() {
        return Err("settle: settlement on an unfinished game");
      }
      var players := [g.creator, g.joiner.value];
      ghost var start := store;
      for seat := 0 to 2
        invariant Valid()
        invariant seat == 0 ==> store == start
        invariant seat == 1 ==> L.Pay(tx, start, g.creator, L.Share(g, 0), L.WonBySeat(g, 0)) == Some(store)
        invariant seat == 2 ==> L.SettleMatch(tx, start, g) == Some(store)
      {
        var paid := Pay(players[seat], L.Share(g, seat), L.WonBySeat(g, seat));
        if paid.Err? {
          return paid;
        }
      }
      r := Ok(());
    }

    /** Stores the played-on game and settles it when that ended the match. */
    method Conclude(gameIdx: u8, played: Result<Game>) returns (r: Result<()>)
      requires Valid() && gameIdx < |slots| && ViewGame(gameIdx).Some? && tx.access[gameIdx].writable
      modifies this`slots, this`store
      ensures Valid()
      ensures Agrees(r, L.Conclude(tx, old(View()), tx.access[gameIdx].id, played), View())
    {
      if played.Err? {
        return Err(played.error);
      }
      var ok := ModifyGame(gameIdx, played.value);
      r := Ok(());
      if played.value.play.core.Finished() {
        r := SettleMatch(gameIdx);
      }
    }

    method ApplyTurn(k: nat, a: Action) returns (r: Result<()>)
      requires Valid() && a.Turn? && a.userIdx < |tx.access| && a.gameIdx < |tx.access|
      modifies this
      ensures Valid()
      ensures Agrees(r, L.ApplyTurn(tx, k, old(View()), a), View())
    {
      var mover := ViewUser(a.userIdx);
      if mover.None? {
        return Err("turn: mover not a live user resource");
      }
      if !tx.unlocks(k, a.userIdx, mover.value.lock) {
        return Err("turn: mover lock not satisfied");
      }
      var game := ViewGame(a.gameIdx);
      if game.None? || !tx.access[a.gameIdx].writable {
        return Err("turn: not a live writable game resource");
      }
      r := Conclude(a.gameIdx, PlayGame(game.value, tx.access[a.userIdx].id, a.cell, tx.now));
    }

    method ApplyTimeout(k: nat, a: Action) returns (r: Result<()>)
      requires Valid() && a.Timeout? && a.configIdx < |tx.access| && a.gameIdx < |tx.access|
      modifies this
      ensures Valid()
      ensures Agrees(r, L.ApplyTimeout(tx, k, old(View()), a), View())
    {
      var config := ViewConfig(a.configIdx);
      if config.None? {
        return Err("config resource not live");
      }
      var game := ViewGame(a.gameIdx);
      if game.None? || !tx.access[a.gameIdx].writable {
        return Err("timeout: not a live writable game resource");
      }
      r := Conclude(a.gameIdx, ForfeitGame(game.value, config.value.turnTtl, tx.now));
    }

    /** Dispatches one decoded action. */
    method ApplyAction(k: nat, a: Action) returns (r: Result<()>)
      requires Valid() && Admitted(a, |tx.access|)
      modifies this
      ensures Valid()
      ensures Agrees(r, L.ApplyAction(tx, k, old(View()), a), View())
    {
      ghost var ix := Indexes(a);
      assert ix[0] < |tx.access| && (|ix| == 2 ==> ix[1] < |tx.access|);
      match a {
        case Update(_, _, _, _, _) => r := ApplyUpdate(k, a);
        case Init(_, _, _, _, _) => r := ApplyInit(k, a);
        case Transfer(_, _, _, _) => r := ApplyTransfer(k, a);
        case UpdateUserLock(_, _) => r := ApplyUpdateUserLock(k, a);
        case Deposit(_, _, _, _) => r := ApplyDeposit(k, a);
        case Withdraw(_, _, _, _) => r := ApplyWithdraw(k, a);
        case CreateGame(_, _, _, _, _) => r := ApplyCreateGame(k, a);
        case JoinGame(_, _) => r := ApplyJoinGame(k, a);
        case Turn(_, _, _) => r := ApplyTurn(k, a);
        case Timeout(_, _) => r := ApplyTimeout(k, a);
      }
    }
  }

  // ---------- what the handlers check and write, apart ----------

  function Credited(tx: L.Tx, s: L.Store, i: u8, amount: u64): Option<L.Store>
    requires i < |tx.access|
  {
    var u := L.FindUser(s, L.IdAt(tx, i));
    if L.Writable(tx, i) && u.Some? && u.value.balance + amount < U64_LIMIT then
      Some(L.PutUser(s, L.IdAt(tx, i), u.value.(balance := u.value.balance + amount)))
    else None
  }

  function Born(tx: L.Tx, s: L.Store, i: u8, amount: u64, lock: Lock): Option<L.Store>
    requires i < |tx.access|
  {
    if L.Writable(tx, i) && L.IdAt(tx, i) !in s then Some(L.PutUser(s, L.IdAt(tx, i), L.NewUser(amount, lock)))
    else None
  }

  predicate MayTransfer(tx: L.Tx, k: nat, s: L.Store, a: Action)
    requires a.Transfer? && a.sourceIdx < |tx.access| && a.destIdx < |tx.access|
  {
    var from := L.Authorized(tx, k, s, a.sourceIdx);
    var dst := L.IdAt(tx, a.destIdx);
    && a.sourceIdx != a.destIdx && from.Some? && a.amount <= from.value.balance
    && (dst !in s ==> a.destInit.Some? && L.MayCreate(dst, a.destInit.value, a.amount))
  }

  lemma TransferSplits(tx: L.Tx, k: nat, s: L.TxState, a: Action)
    requires L.DistinctIds(tx.access) && a.Transfer? && a.sourceIdx < |tx.access| && a.destIdx < |tx.access|
    ensures L.ApplyTransfer(tx, k, s, a) ==
      if !MayTransfer(tx, k, s.store, a) || !L.Writable(tx, a.sourceIdx) then None
      else
        var from := L.FindUser(s.store, L.IdAt(tx, a.sourceIdx)).value;
        var debited := L.PutUser(s.store, L.IdAt(tx, a.sourceIdx), from.(balance := from.balance - a.amount));
        var paid := if L.IdAt(tx, a.destIdx) in s.store then Credited(tx, debited, a.destIdx, a.amount)
                    else Born(tx, debited, a.destIdx, a.amount, a.destInit.value);
        if paid.None? then None else Some(s.(store := paid.value))
  {
  }

  predicate MayReceive(tx: L.Tx, s: L.Store, i: u8, lock: Lock, value: u64)
    requires i < |tx.access|
  {
    var u := L.FindUser(s, L.IdAt(tx, i));
    if L.IdAt(tx, i) !in s then L.MayCreate(L.IdAt(tx, i), lock, value)
    else u.Some? && u.value.ilh == LockHash(lock) && u.value.balance + value < U64_LIMIT
  }

  lemma DepositSplits(tx: L.Tx, k: nat, s: L.TxState, a: Action)
    requires a.Deposit? && a.userIdx < |tx.access| && a.configIdx < |tx.access|
    ensures L.ApplyDeposit(tx, k, s, a) ==
      var value := L.Funding(tx, s, a);
      if value.None? || !MayReceive(tx, s.store, a.userIdx, a.lock, value.value) then None
      else
        var covenant := L.FindConfig(s.store, L.IdAt(tx, a.configIdx)).value.covenant;
        var paid := if L.IdAt(tx, a.userIdx) in s.store then Credited(tx, s.store, a.userIdx, value.value)
                    else Born(tx, s.store, a.userIdx, value.value, a.lock);
        if (s.sink.Some? && s.sink.value != covenant) || paid.None? then None
        else Some(s.(sink := Some(covenant), consumed := s.consumed + [a.outputIdx], store := paid.value))
  {
  }

  predicate MayCreateGame(tx: L.Tx, k: nat, s: L.Store, a: Action)
    requires a.CreateGame? && a.creatorIdx < |tx.access| && a.gameIdx < |tx.access|
  {
    var u := L.Authorized(tx, k, s, a.creatorIdx);
    && a.rounds >= 1 && L.IdAt(tx, a.gameIdx) !in s && u.Some?
    && L.IdAt(tx, a.gameIdx) == GameId(u.value.ilh, u.value.started)
    && a.stake <= u.value.balance && u.value.started + 1 < U64_LIMIT
  }

  /** The creator once it has put up its stake. */
  function Charged(u: User, stake: u64): User
    requires stake <= u.balance && u.started + 1 < U64_LIMIT
  {
    u.(balance := u.balance - stake, started := u.started + 1)
  }

  lemma CreateSplits(tx: L.Tx, k: nat, s: L.TxState, a: Action)
    requires a.CreateGame? && a.creatorIdx < |tx.access| && a.gameIdx < |tx.access|
    ensures L.ApplyCreateGame(tx, k, s, a) ==
      if !MayCreateGame(tx, k, s.store, a) || !L.Writable(tx, a.creatorIdx) || !L.Writable(tx, a.gameIdx)
         || a.mark == Empty then None
      else
        var creator := L.IdAt(tx, a.creatorIdx);
        var paid := L.PutUser(s.store, creator, Charged(L.FindUser(s.store, creator).value, a.stake));
        var game := Game(creator, None, a.stake, M.Fresh(a.mark, a.rounds));
        Some(s.(store := L.PutGame(paid, L.IdAt(tx, a.gameIdx), game)))
  {
  }

  function Bumped(u: User, credit: u64, won: bool): Option<User> {
    if u.balance + credit < U64_LIMIT && u.finished + 1 < U64_LIMIT && (won ==> u.won + 1 < U64_LIMIT) then
      Some(u.(balance := u.balance + credit,
              finished := u.finished + 1,
              won := if won then u.won + 1 else u.won))
    else None
  }

  lemma PaySplits(tx: L.Tx, s: L.Store, i: nat, credit: u64, won: bool)
    requires L.DistinctIds(tx.access) && i < |tx.access|
    ensures L.Pay(tx, s, tx.access[i].id, credit, won) ==
      var u := L.FindUser(s, tx.access[i].id);
      if !tx.access[i].writable || u.None? || Bumped(u.value, credit, won).None? then None
      else Some(L.PutUser(s, tx.access[i].id, Bumped(u.value, credit, won).value))
  {
    assert tx.access[i] == L.Access(tx.access[i].id, tx.access[i].writable);
  }

  /** The in-place action succeeded exactly when the value-level one is allowed, and then left its
      state. */
  predicate Agrees(r: Result<()>, spec: Option<L.TxState>, view: L.TxState) {
    r.Ok? == spec.Some? && (r.Ok? ==> spec == Some(view))
  }

  /** The node's ledger, advanced one transaction at a time. */
  class Program {
    var store: L.Store
    ghost var deposited: nat
    ghost var exited: nat

    ghost function View(): L.Ledger
      reads this
    {
      L.Ledger(store, deposited, exited)
    }

    constructor ()
      ensures View() == L.GENESIS
    {
      store, deposited, exited := map[], 0, 0;
    }

    /** The round before an action, skipped when nobody waits. */
    method Retry(tx: L.Tx, cx: ApplyContext, auth: S.AuthContext, pending: seq<S.Attempt>)
      returns (r: Result<seq<S.Attempt>>)
      requires cx.Valid() && cx.tx == tx
      modifies auth
      ensures var live := L.LiveIn(tx, cx.store);
        && r.Ok? == S.Resolves(S.Ready(pending, live))
        && (r.Ok? ==> r.value == S.Waiting(pending, live))
        && (r.Ok? ==> auth.multisig == if pending == [] then old(auth.multisig)
                                       else S.ByIndex(S.Shared(old(auth.multisig), pending, live)))
    {
      if |pending| > 0 {
        cx.SlotsAreView();
        r := auth.ResolvePending(pending, L.LockBearing(cx.slots));
      } else {
        r := Ok([]);
      }
    }

    /** One more action, behind the round before it. */
    method Advance(tx: L.Tx, k: nat, cx: ApplyContext, auth: S.AuthContext, pending: seq<S.Attempt>,
                   ghost start: L.TxState)
      returns (r: Result<seq<S.Attempt>>)
      requires cx.Valid() && cx.tx == tx && k < |tx.actions|
      requires ProgressAt(tx, k, start) == Some(Progress(cx.View(), auth.multisig, pending))
      modifies cx, auth
      ensures cx.Valid()
      ensures r.Ok? ==> ProgressAt(tx, k + 1, start) == Some(Progress(cx.View(), auth.multisig, r.value))
      ensures r.Err? ==> L.Execute(tx, start).None?
    {
      NextProgress(tx, k, start);
      r := Retry(tx, cx, auth, pending);
      if r.Err? {
        return;
      }
      // The decoder has rejected every action that is not admitted.
      if !Admitted(tx.actions[k], |tx.access|) {
        return Err("action: malformed");
      }
      var applied := cx.ApplyAction(k, tx.actions[k]);
      if applied.Err? {
        return Err(applied.error);
      }
    }

    /** Loads the declared resources and tries every signer once. */
    method Load(tx: L.Tx) returns (cx: ApplyContext, auth: S.AuthContext, r: Result<seq<S.Attempt>>)
      requires L.DistinctIds(tx.access)
      ensures cx.tx == tx && cx.Valid() && fresh(cx) && fresh(auth)
      ensures r.Ok? ==>
        ProgressAt(tx, 0, L.Begin(View())) == Some(Progress(cx.View(), auth.multisig, r.value))
      ensures r.Err? ==> L.Execute(tx, L.Begin(View())).None?
    {
      var slots := seq(|tx.access|, i requires 0 <= i < |tx.access| reads this => L.Lookup(store, tx.access[i].id));
      cx := new ApplyContext(tx, store, slots);
      auth := new S.AuthContext();
      FirstProgress(tx, cx.View());
      cx.SlotsAreView();
      r := auth.ResolvePending(tx.signers, L.LockBearing(cx.slots));
    }

    /** Runs the actions in order, each behind a round, and returns the signers left waiting; the first error
        rejects the transaction. */
    method Drive(tx: L.Tx, cx: ApplyContext, auth: S.AuthContext, waiting: seq<S.Attempt>, ghost start: L.TxState)
      returns (r: Result<seq<S.Attempt>>)
      requires cx.Valid() && cx.tx == tx
      requires ProgressAt(tx, 0, start) == Some(Progress(cx.View(), auth.multisig, waiting))
      modifies cx, auth
      ensures cx.Valid()
      ensures r.Ok? ==>
        ProgressAt(tx, |tx.actions|, start) == Some(Progress(cx.View(), auth.multisig, r.value))
      ensures r.Err? ==> L.Execute(tx, start).None?
    {
      r := Ok(waiting);
      for k := 0 to |tx.actions|
        invariant cx.Valid() && r.Ok?
        invariant ProgressAt(tx, k, start) == Some(Progress(cx.View(), auth.multisig, r.value))
      {
        r := Advance(tx, k, cx, auth, r.value, start);
        if r.Err? {
          return;
        }
      }
    }

    /** Loads the declared resources, tries the signers, and runs the actions, trying the signers still waiting
        before each; the first error, or a signer left waiting, rejects the transaction. */
    method RunActions(tx: L.Tx) returns (cx: ApplyContext, auth: S.AuthContext, r: Result<()>)
      requires L.DistinctIds(tx.access)
      ensures cx.tx == tx && cx.Valid()
      ensures r.Ok? == L.Execute(tx, L.Begin(View())).Some?
      ensures r.Ok? ==> L.Execute(tx, L.Begin(View())) == Some(cx.View())
      ensures r.Ok? ==> StoreGrew(tx, store, cx.store)
      ensures r.Ok? ==> auth.multisig == BucketAt(tx, |tx.actions|, L.Begin(View())).0
    {
      var tried;
      cx, auth, tried := Load(tx);
      if tried.Ok? {
        tried := Drive(tx, cx, auth, tried.value, L.Begin(View()));
      }
      if tried.Err? {
        return cx, auth, Err(tried.error);
      }
      LastProgress(tx, L.Begin(View()));
      r := if |tried.value| > 0 then Err("signer: unknown or absent resource kind") else Ok(());
    }

    /** Runs a transaction and commits its slots only when it was accepted. */
    method Run(tx: L.Tx) returns (r: Result<()>)
      requires L.DistinctIds(tx.access)
      modifies this
      ensures View() == L.Transact(old(View()), tx)
      ensures r.Ok? == L.Execute(tx, L.Begin(old(View()))).Some?
    {
      var cx, auth;
      cx, auth, r := RunActions(tx);
      if r.Ok? {
        CommitSlots(tx, cx);
      }
    }

    /** Writes the transaction's slots back over the committed store. */
    method CommitSlots(tx: L.Tx, cx: ApplyContext)
      requires cx.Valid() && cx.tx == tx && StoreGrew(tx, store, cx.store)
      modifies this
      ensures store == old(cx.store)
      ensures deposited == old(deposited) + L.OutputSum(tx.outputs, old(cx.consumedOutputs))
      ensures exited == old(exited) + L.ExitSum(old(cx.exits))
    {
      for i := 0 to |tx.access|
        invariant StoreGrew(tx, store, cx.store)
        invariant deposited == old(deposited) && exited == old(exited)
        invariant forall j :: 0 <= j < i ==> L.Lookup(store, tx.access[j].id) == cx.slots[j]
      {
        if cx.slots[i].Some? {
          store := store[tx.access[i].id := cx.slots[i].value];
        }
      }
      SlotsAreTheStore(tx, store, cx.store, cx.slots);
      deposited := deposited + L.OutputSum(tx.outputs, cx.consumedOutputs);
      exited := exited + L.ExitSum(cx.exits);
    }
  }

  /** The store changed only at attached ids, and lost nothing. */
  ghost predicate StoreGrew(tx: L.Tx, s: L.Store, s': L.Store) {
    forall id :: (!Attached(tx, id) ==> L.Lookup(s', id) == L.Lookup(s, id)) && (id in s ==> id in s')
  }

  lemma ActionGrows(tx: L.Tx, k: nat, s: L.TxState, a: Action)
    requires Admitted(a, |tx.access|) && L.ApplyAction(tx, k, s, a).Some?
    ensures StoreGrew(tx, s.store, L.ApplyAction(tx, k, s, a).value.store)
  {
    var s' := L.ApplyAction(tx, k, s, a).value;
    forall id
      ensures !Attached(tx, id) ==> L.Lookup(s'.store, id) == L.Lookup(s.store, id)
      ensures id in s.store ==> id in s'.store
    {
      WritesAreDeclared(tx, k, s, a, id);
      if !Attached(tx, id) {
        OnlyAttachedChange(tx, k, s, a, id);
      }
    }
  }

  lemma GrowTwice(tx: L.Tx, a: L.Store, b: L.Store, c: L.Store)
    requires StoreGrew(tx, a, b) && StoreGrew(tx, b, c)
    ensures StoreGrew(tx, a, c)
  {
    assert forall id :: L.Lookup(b, id) == L.Lookup(b, id);
  }

  /** However many actions were accepted, the slots have only grown. */
  lemma {:induction false} PrefixGrows(tx: L.Tx, k: nat, start: L.TxState)
    requires k <= |tx.actions| && StateBefore(tx, k, start).Some?
    ensures StoreGrew(tx, start.store, StateBefore(tx, k, start).value.store)
  {
    if k > 0 {
      PrefixGrows(tx, k - 1, start);
      var before := StateBefore(tx, k - 1, start).value;
      ActionGrows(tx, k - 1, before, tx.actions[k - 1]);
      GrowTwice(tx, start.store, before.store, StateBefore(tx, k, start).value.store);
    }
  }

  /** How far a transaction has come: its state, the multisig bucket and the signers still waiting. */
  datatype Progress = Progress(now: L.TxState, bucket: seq<S.Slot<seq<Bytes>>>, pending: seq<S.Attempt>)

  /** Where a transaction stands before action `k`, if it gets there with its outcome still open. */
  ghost function ProgressAt(tx: L.Tx, k: nat, start: L.TxState): Option<Progress>
    requires k <= |tx.actions|
  {
    var (bucket, pending) := BucketAt(tx, k, start);
    match StateBefore(tx, k, start)
    case None => None
    case Some(now) =>
      if L.Execute(tx, start) == L.Resume(tx, k, now, pending) then Some(Progress(now, bucket, pending)) else None
  }

  lemma FirstProgress(tx: L.Tx, start: L.TxState)
    ensures var live := L.LiveIn(tx, start.store);
      if S.Resolves(S.Ready(tx.signers, live)) then
        ProgressAt(tx, 0, start)
        == Some(Progress(start, S.ByIndex(S.Shared([], tx.signers, live)), S.Waiting(tx.signers, live)))
      else L.Execute(tx, start).None?
  {
    FirstRound(tx, start);
  }

  lemma NextProgress(tx: L.Tx, k: nat, start: L.TxState)
    requires k < |tx.actions| && ProgressAt(tx, k, start).Some?
    ensures var p := ProgressAt(tx, k, start).value;
      var live := L.LiveIn(tx, p.now.store);
      var bucket := if p.pending == [] then p.bucket else S.ByIndex(S.Shared(p.bucket, p.pending, live));
      if S.Resolves(S.Ready(p.pending, live)) && Admitted(tx.actions[k], |tx.access|)
         && L.ApplyAction(tx, k, p.now, tx.actions[k]).Some?
      then
        ProgressAt(tx, k + 1, start)
        == Some(Progress(L.ApplyAction(tx, k, p.now, tx.actions[k]).value, bucket, S.Waiting(p.pending, live)))
      else L.Execute(tx, start).None?
  {
    NextRound(tx, k, start);
  }

  lemma LastProgress(tx: L.Tx, start: L.TxState)
    requires ProgressAt(tx, |tx.actions|, start).Some?
    ensures var p := ProgressAt(tx, |tx.actions|, start).value;
      && L.Execute(tx, start) == (if p.pending == [] then Some(p.now) else None)
      && p.bucket == BucketAt(tx, |tx.actions|, start).0 && StoreGrew(tx, start.store, p.now.store)
  {
    PrefixGrows(tx, |tx.actions|, start);
  }

  lemma SlotsAreTheStore(tx: L.Tx, s: L.Store, s': L.Store, slots: seq<Option<Resource>>)
    requires StoreGrew(tx, s, s') && |slots| == |tx.access|
    requires forall i :: 0 <= i < |slots| ==> slots[i] == L.Lookup(s', tx.access[i].id)
    requires forall i :: 0 <= i < |slots| ==> L.Lookup(s, tx.access[i].id) == slots[i]
    ensures s == s'
  {
    forall id ensures L.Lookup(s, id) == L.Lookup(s', id) {
      if Attached(tx, id) {
        var i :| 0 <= i < |tx.access| && tx.access[i].id == id;
        assert slots[i] == L.Lookup(s', tx.access[i].id);
      }
    }
    SameLookups(s, s');
  }

  lemma SameLookups(a: L.Store, b: L.Store)
    requires forall id :: L.Lookup(a, id) == L.Lookup(b, id)
    ensures a == b
  {
    forall id ensures id in a <==> id in b {
      assert L.Lookup(a, id) == L.Lookup(b, id);
    }
    forall id | id in a ensures a[id] == b[id] {
      assert L.Lookup(a, id) == L.Lookup(b, id);
    }
  }
}
