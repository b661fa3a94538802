/** What every reachable store satisfies: resources live at their derived ids, every stored match is
    valid, and the account counters count exactly the games they claim to. */
module LedgerInvariant {
  import opened Prelude
  import opened Rules
  import M = Match
  import MI = MatchInvariant
  import opened Resources
  import opened Actions
  import opened GameBody
  import opened Ledger
  import opened LedgerSigners
  import opened Totals

  // ---------- placement ----------

  predicate IsUser(s: Store, id: Id) {
    FindUser(s, id).Some?
  }

  /** A stored game: bound to its creator's address, two distinct live players once it has started,
      and a valid match. */
  predicate GameOk(s: Store, id: Id, g: Game) {
    && id.GameId? && g.creator == UserId(id.creatorIlh) && IsUser(s, g.creator)
    && (g.joiner.Some? <==> !g.play.core.state.Open?)
    && (g.joiner.Some? ==> g.joiner.value != g.creator && IsUser(s, g.joiner.value))
    && MI.Valid(g.play)
  }

  /** A user sits at the address of its permanent initial lock hash, and its derived game slots are
      occupied up to its counter and free beyond it. */
  ghost predicate UserOk(s: Store, id: Id, u: User) {
    && id == UserId(u.ilh)
    && forall k: nat :: GameId(u.ilh, k) in s <==> k < u.started
  }

  ghost predicate Placed(s: Store, id: Id)
    requires id in s
  {
    match s[id]
    case ConfigRes(_) => id == ConfigId
    case UserRes(u) => UserOk(s, id, u)
    case GameRes(g) => GameOk(s, id, g)
  }

  ghost predicate Sound(s: Store) {
    forall id :: id in s ==> Placed(s, id)
  }

  lemma PutConfigSound(s: Store, c: Config)
    requires Sound(s)
    ensures Sound(s[ConfigId := ConfigRes(c)])
  {
    var s' := s[ConfigId := ConfigRes(c)];
    assert ConfigId in s ==> Placed(s, ConfigId);
    forall id | id in s' ensures Placed(s', id) {
      if id != ConfigId {
        assert Placed(s, id);
      }
    }
  }

  /** Rewriting a user that keeps its address and its game counter. */
  lemma PutUserSound(s: Store, id: Id, u: User)
    requires Sound(s) && IsUser(s, id)
    requires u.ilh == s[id].user.ilh && u.started == s[id].user.started
    ensures Sound(PutUser(s, id, u))
  {
    var s' := PutUser(s, id, u);
    assert Placed(s, id);
    forall j | j in s' ensures Placed(s', j) {
      if j != id {
        assert Placed(s, j);
      }
    }
  }

  lemma GamesNeedTheirCreator(s: Store, ilh: LockHash, k: nat)
    requires Sound(s)
    ensures GameId(ilh, k) in s ==> UserId(ilh) in s
  {
    if GameId(ilh, k) in s {
      assert Placed(s, GameId(ilh, k));
    }
  }

  /** A newborn user has no games: the slots its address derives are all free. */
  lemma BirthSound(s: Store, id: Id, balance: u64, lock: Lock)
    requires Sound(s) && id !in s && id == UserId(LockHash(lock))
    ensures Sound(PutUser(s, id, NewUser(balance, lock)))
  {
    var s' := PutUser(s, id, NewUser(balance, lock));
    forall k: nat ensures GameId(LockHash(lock), k) !in s {
      GamesNeedTheirCreator(s, LockHash(lock), k);
    }
    forall j | j in s' ensures Placed(s', j) {
      if j != id {
        assert Placed(s, j);
      }
    }
  }

  /** Rewriting a game. */
  lemma PutGameSound(s: Store, id: Id, g: Game)
    requires Sound(s) && FindGame(s, id).Some? && GameOk(s, id, g)
    ensures Sound(PutGame(s, id, g))
  {
    var s' := PutGame(s, id, g);
    forall j | j in s' ensures Placed(s', j) {
      if j != id {
        assert Placed(s, j);
      }
    }
  }

  /** The slot CreateGame demands is always free. */
  lemma NextGameSlotIsFree(s: Store, creator: Id)
    requires Sound(s) && IsUser(s, creator)
    ensures creator == UserId(s[creator].user.ilh)
    ensures GameId(s[creator].user.ilh, s[creator].user.started) !in s
  {
    assert Placed(s, creator);
  }

  /** Starting a game: the creator pays, its counter moves, and the derived slot fills. */
  lemma CreateSound(s: Store, creator: Id, u: User, stake: u64, mark: Cell, rounds: u8)
    requires Sound(s) && IsUser(s, creator) && mark != Empty && rounds >= 1
    requires u.ilh == s[creator].user.ilh && u.started == s[creator].user.started + 1
    ensures Sound(PutGame(PutUser(s, creator, u), GameId(u.ilh, u.started - 1),
                          Game(creator, None, stake, M.Fresh(mark, rounds))))
  {
    var id := GameId(u.ilh, u.started - 1);
    var g := Game(creator, None, stake, M.Fresh(mark, rounds));
    var s' := PutGame(PutUser(s, creator, u), id, g);
    NextGameSlotIsFree(s, creator);
    MI.FreshValid(mark, rounds, 0);
    forall j | j in s' ensures Placed(s', j) {
      if j == creator {
        CreatorFillsSlot(s, s', creator, u);
      } else if j == id {
        assert GameOk(s', j, g);
      } else {
        OthersStayPlaced(s, s', creator, u, id, j);
      }
    }
  }

  /** Whatever else is stored stays in its place when one game slot fills. */
  lemma OthersStayPlaced(s: Store, s': Store, creator: Id, u: User, id: Id, j: Id)
    requires Sound(s) && IsUser(s, creator) && creator == UserId(u.ilh)
    requires u.started >= 1 && id == GameId(u.ilh, u.started - 1) && j in s && j != creator && j != id
    requires s'.Keys == s.Keys + {id} && s'[j] == s[j]
    requires forall k :: IsUser(s, k) ==> IsUser(s', k)
    ensures Placed(s', j)
  {
    assert Placed(s, j);
    if s[j].UserRes? {
      OtherUsersKeepSlots(s, s', creator, j, u.ilh, u.started - 1);
    }
  }

  lemma CreatorFillsSlot(s: Store, s': Store, creator: Id, u: User)
    requires Sound(s) && IsUser(s, creator)
    requires u.ilh == s[creator].user.ilh && u.started == s[creator].user.started + 1
    requires s'.Keys == s.Keys + {GameId(u.ilh, u.started - 1)}
    ensures UserOk(s', creator, u)
  {
    assert Placed(s, creator);
  }

  lemma OtherUsersKeepSlots(s: Store, s': Store, creator: Id, other: Id, ilh: LockHash, n: nat)
    requires Sound(s) && IsUser(s, creator) && IsUser(s, other) && other != creator
    requires creator == UserId(ilh) && s'.Keys == s.Keys + {GameId(ilh, n)}
    requires other in s' && s'[other] == s[other]
    ensures UserOk(s', other, s[other].user)
  {
    assert Placed(s, other);
  }

  // ---------- counters ----------

  predicate Sits(g: Game, user: Id) {
    g.creator == user || g.joiner == Some(user)
  }

  predicate Won(g: Game, user: Id) {
    || (g.play.core.state.First? && g.creator == user)
    || (g.play.core.state.Second? && g.joiner == Some(user))
  }

  function StartedBy(user: Id): Resource -> int {
    (r: Resource) => if r.GameRes? && r.game.creator == user then 1 else 0
  }

  function FinishedBy(user: Id): Resource -> int {
    (r: Resource) => if r.GameRes? && r.game.play.core.Finished() && Sits(r.game, user) then 1 else 0
  }

  function WonBy(user: Id): Resource -> int {
    (r: Resource) => if r.GameRes? && Won(r.game, user) then 1 else 0
  }

  /** The three counters of `user`, counted over the games in the store. */
  ghost function Tally(s: Store, user: Id): (int, int, int) {
    (Total(s, StartedBy(user)), Total(s, FinishedBy(user)), Total(s, WonBy(user)))
  }

  ghost predicate CountersExact(s: Store, id: Id) {
    FindUser(s, id).Some? ==>
      var u := s[id].user;
      (u.started, u.finished, u.won) == Tally(s, id)
  }

  ghost predicate Counted(s: Store) {
    forall id :: id in s ==> CountersExact(s, id)
  }

  lemma TallyWrite(s: Store, id: Id, r: Resource, user: Id)
    ensures var t, t' := Tally(s, user), Tally(s[id := r], user);
            && t'.0 == t.0 - WeightAt(s, id, StartedBy(user)) + StartedBy(user)(r)
            && t'.1 == t.1 - WeightAt(s, id, FinishedBy(user)) + FinishedBy(user)(r)
            && t'.2 == t.2 - WeightAt(s, id, WonBy(user)) + WonBy(user)(r)
  {
    TotalWrite(s, id, r, StartedBy(user));
    TotalWrite(s, id, r, FinishedBy(user));
    TotalWrite(s, id, r, WonBy(user));
  }

  /** Writes that do not replace or bring a game leave every tally alone. */
  lemma NonGameWriteKeepsTally(s: Store, id: Id, r: Resource, user: Id)
    requires !r.GameRes? && FindGame(s, id).None?
    ensures Tally(s[id := r], user) == Tally(s, user)
  {
    TallyWrite(s, id, r, user);
  }

  ghost predicate Reachable(s: Store) {
    Sound(s) && Counted(s)
  }

  lemma EmptyStoreReachable()
    ensures Reachable(map[])
  {
  }

  // ---------- elementary writes keep the store reachable ----------

  lemma PutConfigKeeps(s: Store, c: Config)
    requires Reachable(s)
    ensures Reachable(s[ConfigId := ConfigRes(c)])
  {
    var s' := s[ConfigId := ConfigRes(c)];
    PutConfigSound(s, c);
    assert ConfigId in s ==> Placed(s, ConfigId);
    forall id | id in s' ensures CountersExact(s', id) {
      NonGameWriteKeepsTally(s, ConfigId, ConfigRes(c), id);
      if id != ConfigId {
        assert CountersExact(s, id);
      }
    }
  }

  /** Balances and locks may change freely; address and counters may not. */
  lemma PutUserKeeps(s: Store, id: Id, u: User)
    requires Reachable(s) && IsUser(s, id)
    requires var old' := s[id].user;
             u.ilh == old'.ilh && u.started == old'.started && u.finished == old'.finished && u.won == old'.won
    ensures Reachable(PutUser(s, id, u))
  {
    PutUserSound(s, id, u);
    var s' := PutUser(s, id, u);
    forall j | j in s' ensures CountersExact(s', j) {
      NonGameWriteKeepsTally(s, id, UserRes(u), j);
      assert CountersExact(s, j);
    }
  }

  lemma BirthKeeps(s: Store, id: Id, balance: u64, lock: Lock)
    requires Reachable(s) && id !in s && id == UserId(LockHash(lock))
    ensures Reachable(PutUser(s, id, NewUser(balance, lock)))
  {
    BirthSound(s, id, balance, lock);
    var s' := PutUser(s, id, NewUser(balance, lock));
    forall j | j in s' ensures CountersExact(s', j) {
      NonGameWriteKeepsTally(s, id, UserRes(NewUser(balance, lock)), j);
      if j != id {
        assert CountersExact(s, j);
      } else {
        StrangersHaveNoGames(s, id);
      }
    }
  }

  /** No game mentions an id that is not a live user. */
  lemma StrangersHaveNoGames(s: Store, id: Id)
    requires Sound(s) && !IsUser(s, id)
    ensures Tally(s, id) == (0, 0, 0)
  {
    forall j | j in s
      ensures StartedBy(id)(s[j]) == FinishedBy(id)(s[j]) == WonBy(id)(s[j]) == 0
    {
      assert Placed(s, j);
    }
    TotalZero(s, StartedBy(id));
    TotalZero(s, FinishedBy(id));
    TotalZero(s, WonBy(id));
  }

  lemma CreateKeeps(s: Store, creator: Id, u: User, stake: u64, mark: Cell, rounds: u8)
    requires Reachable(s) && IsUser(s, creator) && mark != Empty && rounds >= 1
    requires var old' := s[creator].user;
             && u.ilh == old'.ilh && u.started == old'.started + 1
             && u.finished == old'.finished && u.won == old'.won
    ensures Reachable(PutGame(PutUser(s, creator, u), GameId(u.ilh, u.started - 1),
                              Game(creator, None, stake, M.Fresh(mark, rounds))))
  {
    CreateSound(s, creator, u, stake, mark, rounds);
    NextGameSlotIsFree(s, creator);
    var id := GameId(u.ilh, u.started - 1);
    var g := Game(creator, None, stake, M.Fresh(mark, rounds));
    var paid := PutUser(s, creator, u);
    var s' := PutGame(paid, id, g);
    forall j | j in s' ensures CountersExact(s', j) {
      NonGameWriteKeepsTally(s, creator, UserRes(u), j);
      TallyWrite(paid, id, GameRes(g), j);
      if j in s {
        assert CountersExact(s, j);
      }
    }
  }

  /** Rewriting a game that is not finished, before or after, keeps every count. */
  lemma PutUnfinishedGameKeeps(s: Store, id: Id, g: Game)
    requires Reachable(s) && FindGame(s, id).Some? && GameOk(s, id, g)
    requires g.creator == s[id].game.creator
    requires !s[id].game.play.core.Finished() && !g.play.core.Finished()
    ensures Reachable(PutGame(s, id, g))
  {
    PutGameSound(s, id, g);
    var s' := PutGame(s, id, g);
    forall j | j in s' ensures CountersExact(s', j) {
      UnfinishedGameTally(s, id, g, j);
      assert CountersExact(s, j);
    }
  }

  lemma UnfinishedGameTally(s: Store, id: Id, g: Game, user: Id)
    requires FindGame(s, id).Some? && g.creator == s[id].game.creator
    requires !s[id].game.play.core.Finished() && !g.play.core.Finished()
    ensures Tally(PutGame(s, id, g), user) == Tally(s, user)
  {
    TallyWrite(s, id, GameRes(g), user);
  }

  // ---------- settlement ----------

  /** What one payout does to every user: the credit and one more finished game for the player, one
      more won if it won; no tally changes. */
  lemma PayEffect(tx: Tx, s: Store, player: Id, credit: nat, won: bool, user: Id)
    requires Pay(tx, s, player, credit, won).Some?
    ensures var s' := Pay(tx, s, player, credit, won).value;
            && Tally(s', user) == Tally(s, user)
            && IsUser(s', user) == IsUser(s, user)
            && (IsUser(s, user) ==>
                var u, u' := s[user].user, s'[user].user;
                && u'.started == u.started && u'.ilh == u.ilh
                && u'.balance == u.balance + (if user == player then credit else 0)
                && u'.finished == u.finished + (if user == player then 1 else 0)
                && u'.won == u.won + (if user == player && won then 1 else 0))
  {
    var u := s[player].user;
    NonGameWriteKeepsTally(s, player, Pay(tx, s, player, credit, won).value[player], user);
  }

  lemma PaySound(tx: Tx, s: Store, player: Id, credit: nat, won: bool)
    requires Sound(s) && Pay(tx, s, player, credit, won).Some?
    ensures Sound(Pay(tx, s, player, credit, won).value)
  {
    var s' := Pay(tx, s, player, credit, won).value;
    PutUserSound(s, player, s'[player].user);
    assert s' == PutUser(s, player, s'[player].user);
  }

  lemma SettleSound(tx: Tx, s: Store, g: Game)
    requires Sound(s) && SettleMatch(tx, s, g).Some?
    ensures Sound(SettleMatch(tx, s, g).value)
  {
    PaySound(tx, s, g.creator, Share(g, 0), WonBySeat(g, 0));
    PaySound(tx, Pay(tx, s, g.creator, Share(g, 0), WonBySeat(g, 0)).value, g.joiner.value,
             Share(g, 1), WonBySeat(g, 1));
  }

  /** What a settlement does to every user: the winner takes both stakes, a draw returns each. */
  lemma SettleEffect(tx: Tx, s: Store, g: Game, user: Id)
    requires SettleMatch(tx, s, g).Some? && g.joiner.value != g.creator
    ensures var s' := SettleMatch(tx, s, g).value;
            && Tally(s', user) == Tally(s, user)
            && IsUser(s', user) == IsUser(s, user)
            && (IsUser(s, user) ==>
                var u, u' := s[user].user, s'[user].user;
                && u'.started == u.started
                && u'.balance == u.balance + (if Won(g, user) then 2 * g.stake
                                              else if g.play.core.state.Draw? && Sits(g, user) then g.stake
                                              else 0)
                && u'.finished == u.finished + (if Sits(g, user) then 1 else 0)
                && u'.won == u.won + (if Won(g, user) then 1 else 0))
  {
    PayEffect(tx, s, g.creator, Share(g, 0), WonBySeat(g, 0), user);
    PayEffect(tx, Pay(tx, s, g.creator, Share(g, 0), WonBySeat(g, 0)).value, g.joiner.value,
              Share(g, 1), WonBySeat(g, 1), user);
  }

  /** Settling a match that has just finished: the game is final and both players' counters take
      exactly the finished and won games it adds. */
  lemma SettleKeeps(tx: Tx, s: Store, id: Id, g: Game)
    requires Reachable(s) && FindGame(s, id).Some? && GameOk(s, id, g) && g.play.core.Finished()
    requires !s[id].game.play.core.Finished() && g.creator == s[id].game.creator
    requires SettleMatch(tx, PutGame(s, id, g), g).Some?
    ensures Reachable(SettleMatch(tx, PutGame(s, id, g), g).value)
  {
    var s1 := PutGame(s, id, g);
    PutGameSound(s, id, g);
    SettleSound(tx, s1, g);
    var s2 := SettleMatch(tx, s1, g).value;
    forall j | j in s2 ensures CountersExact(s2, j) {
      SettleCounts(tx, s, id, g, j);
    }
  }

  lemma SettleCounts(tx: Tx, s: Store, id: Id, g: Game, j: Id)
    requires Counted(s) && FindGame(s, id).Some? && g.play.core.Finished()
    requires !s[id].game.play.core.Finished() && g.creator == s[id].game.creator
    requires SettleMatch(tx, PutGame(s, id, g), g).Some? && g.joiner.value != g.creator
    ensures CountersExact(SettleMatch(tx, PutGame(s, id, g), g).value, j)
  {
    assert j in s ==> CountersExact(s, j);
    FinishedGameTally(s, id, g, j);
    SettleEffect(tx, PutGame(s, id, g), g, j);
  }

  /** What a match that just finished adds to the tallies. */
  lemma FinishedGameTally(s: Store, id: Id, g: Game, user: Id)
    requires FindGame(s, id).Some? && g.play.core.Finished() && g.creator == s[id].game.creator
    requires !s[id].game.play.core.Finished()
    ensures var t, t' := Tally(s, user), Tally(PutGame(s, id, g), user);
            && t'.0 == t.0
            && t'.1 == t.1 + (if Sits(g, user) then 1 else 0)
            && t'.2 == t.2 + (if Won(g, user) then 1 else 0)
  {
    TallyWrite(s, id, GameRes(g), user);
  }

  /** A turn or a claim that is accepted keeps the game's players and stake, starts from a playing
      match and ends in a valid one. */
  predicate PlayedOn(g: Game, g': Game) {
    && g.play.core.state.Playing? && !g'.play.core.state.Open?
    && g' == g.(play := g'.play)
    && MI.Valid(g'.play)
  }

  lemma PlayGamePlaysOn(g: Game, mover: Id, cell: Pos, now: nat)
    requires MI.Valid(g.play) && PlayGame(g, mover, cell, now).Ok?
    ensures PlayedOn(g, PlayGame(g, mover, cell, now).value)
  {
    var seat: Seat := if g.creator == mover then 0 else 1;
    MI.PlayTurnValid(g.play, seat, cell, now);
    MI.TurnKeepsStarted(g.play, seat, cell, now);
  }

  lemma ForfeitGamePlaysOn(g: Game, turnTtl: nat, now: nat)
    requires MI.Valid(g.play) && ForfeitGame(g, turnTtl, now).Ok?
    ensures PlayedOn(g, ForfeitGame(g, turnTtl, now).value)
  {
    MI.ForfeitValid(g.play, turnTtl, now);
    MI.ForfeitKeepsStarted(g.play, turnTtl, now);
  }

  lemma ConcludeKeeps(tx: Tx, s: TxState, id: Id, played: Result<Game>)
    requires Reachable(s.store) && FindGame(s.store, id).Some?
    requires played.Ok? ==> PlayedOn(s.store[id].game, played.value)
    requires Conclude(tx, s, id, played).Some?
    ensures Reachable(Conclude(tx, s, id, played).value.store)
  {
    assert Placed(s.store, id);
    if played.value.play.core.Finished() {
      SettleKeeps(tx, s.store, id, played.value);
    } else {
      PutUnfinishedGameKeeps(s.store, id, played.value);
    }
  }

  // ---------- the actions ----------

  /** A transfer writes two distinct users: the debited source, then the born or credited
      destination. */
  lemma TransferWrites(tx: Tx, k: nat, s: TxState, a: Action)
    requires DistinctIds(tx.access) && a.Transfer? && a.sourceIdx < |tx.access| && a.destIdx < |tx.access|
    requires ApplyTransfer(tx, k, s, a).Some?
    ensures var src, dst := IdAt(tx, a.sourceIdx), IdAt(tx, a.destIdx);
            && src != dst && IsUser(s.store, src) && a.amount <= s.store[src].user.balance
            && var u := s.store[src].user;
               var debited := PutUser(s.store, src, u.(balance := u.balance - a.amount));
               var store := ApplyTransfer(tx, k, s, a).value.store;
               if dst !in s.store then
                 && a.destInit.Some? && dst == UserId(LockHash(a.destInit.value))
                 && store == PutUser(debited, dst, NewUser(a.amount, a.destInit.value))
               else
                 && IsUser(s.store, dst) && s.store[dst].user.balance + a.amount < U64_LIMIT
                 && store == PutUser(debited, dst,
                      s.store[dst].user.(balance := s.store[dst].user.balance + a.amount))
  {
  }

  lemma TransferKeeps(tx: Tx, k: nat, s: TxState, a: Action)
    requires Reachable(s.store) && DistinctIds(tx.access) && a.Transfer?
    requires a.sourceIdx < |tx.access| && a.destIdx < |tx.access| && ApplyTransfer(tx, k, s, a).Some?
    ensures Reachable(ApplyTransfer(tx, k, s, a).value.store)
  {
    TransferWrites(tx, k, s, a);
    MoveKeeps(s.store, IdAt(tx, a.sourceIdx), IdAt(tx, a.destIdx), a.amount, a.destInit,
              ApplyTransfer(tx, k, s, a).value.store);
  }

  /** Debiting `src`, then bringing or crediting `dst`. */
  lemma MoveKeeps(s: Store, src: Id, dst: Id, amount: u64, init: Option<Lock>, s': Store)
    requires Reachable(s) && src != dst && IsUser(s, src) && amount <= s[src].user.balance
    requires var debited := PutUser(s, src, s[src].user.(balance := s[src].user.balance - amount));
             if dst !in s then init.Some? && dst == UserId(LockHash(init.value))
                               && s' == PutUser(debited, dst, NewUser(amount, init.value))
             else IsUser(s, dst) && s[dst].user.balance + amount < U64_LIMIT
                  && s' == PutUser(debited, dst, s[dst].user.(balance := s[dst].user.balance + amount))
    ensures Reachable(s')
  {
    var paid := s[src].user.(balance := s[src].user.balance - amount);
    PutUserKeeps(s, src, paid);
    TwoWritesKeep(PutUser(s, src, paid), dst, amount, init, s');
  }

  /** Bringing or crediting the user at `dst`. */
  lemma TwoWritesKeep(s: Store, dst: Id, amount: u64, init: Option<Lock>, s': Store)
    requires Reachable(s)
    requires if dst !in s then init.Some? && dst == UserId(LockHash(init.value))
                               && s' == PutUser(s, dst, NewUser(amount, init.value))
             else IsUser(s, dst) && s[dst].user.balance + amount < U64_LIMIT
                  && s' == PutUser(s, dst, s[dst].user.(balance := s[dst].user.balance + amount))
    ensures Reachable(s')
  {
    if dst !in s {
      BirthKeeps(s, dst, amount, init.value);
    } else {
      PutUserKeeps(s, dst, s[dst].user.(balance := s[dst].user.balance + amount));
    }
  }

  lemma DepositKeeps(tx: Tx, k: nat, s: TxState, a: Action)
    requires Reachable(s.store) && a.Deposit? && a.userIdx < |tx.access| && a.configIdx < |tx.access|
    requires ApplyDeposit(tx, k, s, a).Some?
    ensures Reachable(ApplyDeposit(tx, k, s, a).value.store)
  {
    TwoWritesKeep(s.store, IdAt(tx, a.userIdx), Funding(tx, s, a).value, Some(a.lock),
                  ApplyDeposit(tx, k, s, a).value.store);
  }

  lemma CreateGameKeeps(tx: Tx, k: nat, s: TxState, a: Action)
    requires Reachable(s.store) && a.CreateGame? && a.creatorIdx < |tx.access| && a.gameIdx < |tx.access|
    requires ApplyCreateGame(tx, k, s, a).Some?
    ensures Reachable(ApplyCreateGame(tx, k, s, a).value.store)
  {
    var creator := IdAt(tx, a.creatorIdx);
    var u := s.store[creator].user;
    var paid := u.(balance := u.balance - a.stake, started := u.started + 1);
    CreateKeeps(s.store, creator, paid, a.stake, a.mark, a.rounds);
    assert ApplyCreateGame(tx, k, s, a).value.store ==
           PutGame(PutUser(s.store, creator, paid), GameId(paid.ilh, paid.started - 1),
                   Game(creator, None, a.stake, M.Fresh(a.mark, a.rounds)));
  }

  lemma JoinGameKeeps(tx: Tx, k: nat, s: TxState, a: Action)
    requires Reachable(s.store) && a.JoinGame? && a.joinerIdx < |tx.access| && a.gameIdx < |tx.access|
    requires ApplyJoinGame(tx, k, s, a).Some?
    ensures Reachable(ApplyJoinGame(tx, k, s, a).value.store)
  {
    JoinWrites(tx, k, s, a);
    JoinKeeps(s.store, IdAt(tx, a.joinerIdx), IdAt(tx, a.gameIdx), tx.now, ApplyJoinGame(tx, k, s, a).value.store);
  }

  predicate CanJoin(s: Store, joiner: Id, id: Id) {
    && IsUser(s, joiner) && FindGame(s, id).Some? && s[id].game.play.core.state.Open?
    && s[id].game.creator != joiner && s[id].game.stake <= s[joiner].user.balance
  }

  /** The joiner without the stake. */
  function Staked(s: Store, joiner: Id, id: Id): User
    requires CanJoin(s, joiner, id)
  {
    s[joiner].user.(balance := s[joiner].user.balance - s[id].game.stake)
  }

  function Started(s: Store, joiner: Id, id: Id, now: nat): Game
    requires CanJoin(s, joiner, id)
  {
    s[id].game.(joiner := Some(joiner), play := M.Start(s[id].game.play, now))
  }

  lemma JoinWrites(tx: Tx, k: nat, s: TxState, a: Action)
    requires a.JoinGame? && a.joinerIdx < |tx.access| && a.gameIdx < |tx.access|
    requires ApplyJoinGame(tx, k, s, a).Some?
    ensures var joiner, id := IdAt(tx, a.joinerIdx), IdAt(tx, a.gameIdx);
      && CanJoin(s.store, joiner, id)
      && ApplyJoinGame(tx, k, s, a).value.store
         == PutGame(PutUser(s.store, joiner, Staked(s.store, joiner, id)), id, Started(s.store, joiner, id, tx.now))
  {
  }

  lemma StartedOk(s: Store, joiner: Id, id: Id, now: nat)
    requires Sound(s) && CanJoin(s, joiner, id)
    ensures GameOk(PutUser(s, joiner, Staked(s, joiner, id)), id, Started(s, joiner, id, now))
  {
    assert Placed(s, id);
    StartValid(s[id].game.play, now);
  }

  /** Seating the second player, who pays the stake. */
  lemma JoinKeeps(s: Store, joiner: Id, id: Id, now: nat, s': Store)
    requires Reachable(s) && CanJoin(s, joiner, id)
    requires s' == PutGame(PutUser(s, joiner, Staked(s, joiner, id)), id, Started(s, joiner, id, now))
    ensures Reachable(s')
  {
    var paid := PutUser(s, joiner, Staked(s, joiner, id));
    PutUserKeeps(s, joiner, Staked(s, joiner, id));
    StartedOk(s, joiner, id, now);
    PutUnfinishedGameKeeps(paid, id, Started(s, joiner, id, now));
  }

  lemma StartValid(m: M.Match, now: nat)
    requires MI.Valid(m) && m.core.state.Open?
    ensures MI.Valid(M.Start(m, now))
  {
    EmptyBoardHasNoMark();
  }

  lemma ConfigActionKeeps(tx: Tx, k: nat, s: TxState, a: Action)
    requires Reachable(s.store) && (a.Update? || a.Init?) && a.configIdx < |tx.access|
    requires (if a.Update? then ApplyUpdate(tx, k, s, a) else ApplyInit(tx, k, s, a)).Some?
    ensures Reachable((if a.Update? then ApplyUpdate(tx, k, s, a) else ApplyInit(tx, k, s, a)).value.store)
  {
    var id := IdAt(tx, a.configIdx);
    assert id in s.store ==> Placed(s.store, id);
    PutConfigKeeps(s.store, Config(a.minWithdrawal, a.turnTtl, a.covenant, a.lock));
  }

  lemma LockKeeps(tx: Tx, k: nat, s: TxState, a: Action)
    requires Reachable(s.store) && a.UpdateUserLock? && a.userIdx < |tx.access|
    requires ApplyUpdateUserLock(tx, k, s, a).Some?
    ensures Reachable(ApplyUpdateUserLock(tx, k, s, a).value.store)
  {
    var id := IdAt(tx, a.userIdx);
    var rotated := s.store[id].user.(lock := a.lock);
    PutUserKeeps(s.store, id, rotated);
    assert ApplyUpdateUserLock(tx, k, s, a).value.store == PutUser(s.store, id, rotated);
  }

  lemma WithdrawKeeps(tx: Tx, k: nat, s: TxState, a: Action)
    requires Reachable(s.store) && a.Withdraw? && a.userIdx < |tx.access| && a.configIdx < |tx.access|
    requires ApplyWithdraw(tx, k, s, a).Some?
    ensures Reachable(ApplyWithdraw(tx, k, s, a).value.store)
  {
    var id := IdAt(tx, a.userIdx);
    var u := s.store[id].user;
    var paid := u.(balance := u.balance - a.amount);
    PutUserKeeps(s.store, id, paid);
    assert ApplyWithdraw(tx, k, s, a).value.store == PutUser(s.store, id, paid);
  }

  /** The game an accepted turn or claim stores: the old one, played on. */
  lemma PlaysOn(tx: Tx, k: nat, s: TxState, a: Action)
    requires Sound(s.store) && (a.Turn? || a.Timeout?) && Admitted(a, |tx.access|)
    requires ApplyAction(tx, k, s, a).Some?
    ensures a.gameIdx < |tx.access| && FindGame(s.store, IdAt(tx, a.gameIdx)).Some?
    ensures exists g: Game ::
              && PlayedOn(s.store[IdAt(tx, a.gameIdx)].game, g)
              && ApplyAction(tx, k, s, a) == Conclude(tx, s, IdAt(tx, a.gameIdx), Ok(g))
  {
    var ix := Indexes(a);
    assert ix[0] < |tx.access| && ix[1] < |tx.access|;
    var id := IdAt(tx, a.gameIdx);
    assert Placed(s.store, id);
    var g := s.store[id].game;
    if a.Turn? {
      PlayGamePlaysOn(g, IdAt(tx, a.userIdx), a.cell, tx.now);
      assert PlayedOn(g, PlayGame(g, IdAt(tx, a.userIdx), a.cell, tx.now).value);
    } else {
      var ttl := s.store[IdAt(tx, a.configIdx)].config.turnTtl;
      ForfeitGamePlaysOn(g, ttl, tx.now);
      assert PlayedOn(g, ForfeitGame(g, ttl, tx.now).value);
    }
  }

  /** Every accepted action keeps the store reachable. */
  lemma ActionKeeps(tx: Tx, k: nat, s: TxState, a: Action)
    requires Reachable(s.store) && DistinctIds(tx.access) && Admitted(a, |tx.access|)
    requires ApplyAction(tx, k, s, a).Some?
    ensures Reachable(ApplyAction(tx, k, s, a).value.store)
  {
    var ix := Indexes(a);
    assert ix[0] < |tx.access| && (|ix| == 2 ==> ix[1] < |tx.access|);
    if a.Turn? || a.Timeout? {
      PlaysOn(tx, k, s, a);
      var g :| PlayedOn(s.store[IdAt(tx, a.gameIdx)].game, g)
               && ApplyAction(tx, k, s, a) == Conclude(tx, s, IdAt(tx, a.gameIdx), Ok(g));
      ConcludeKeeps(tx, s, IdAt(tx, a.gameIdx), Ok(g));
    } else if a.Update? || a.Init? {
      ConfigActionKeeps(tx, k, s, a);
    } else {
      match a
      case Transfer(_, _, _, _) => TransferKeeps(tx, k, s, a);
      case UpdateUserLock(_, _) => LockKeeps(tx, k, s, a);
      case Deposit(_, _, _, _) => DepositKeeps(tx, k, s, a);
      case Withdraw(_, _, _, _) => WithdrawKeeps(tx, k, s, a);
      case CreateGame(_, _, _, _, _) => CreateGameKeeps(tx, k, s, a);
      case JoinGame(_, _) => JoinGameKeeps(tx, k, s, a);
    }
  }

  lemma {:induction false} AllKeeps(tx: Tx, k: nat, s: TxState)
    requires Reachable(s.store) && DistinctIds(tx.access) && k <= |tx.actions|
    requires ApplyAll(tx, k, s).Some?
    ensures Reachable(ApplyAll(tx, k, s).value.store)
    decreases |tx.actions| - k
  {
    if k < |tx.actions| {
      ActionKeeps(tx, k, s, tx.actions[k]);
      AllKeeps(tx, k + 1, ApplyAction(tx, k, s, tx.actions[k]).value);
    }
  }

  /** Every run of transactions from the empty ledger leaves a reachable store. */
  lemma {:induction false} RunsAreReachable(txs: seq<Tx>)
    ensures Reachable(TransactAll(GENESIS, txs).store)
  {
    if txs == [] {
      EmptyStoreReachable();
    } else {
      RunsAreReachable(txs[..|txs| - 1]);
      var l := TransactAll(GENESIS, txs[..|txs| - 1]);
      var tx := txs[|txs| - 1];
      if DistinctIds(tx.access) && Execute(tx, Begin(l)).Some? {
        ExecuteApplies(tx, Begin(l));
        AllKeeps(tx, 0, Begin(l));
      }
    }
  }
}
