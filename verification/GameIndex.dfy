/** The secondary game indexes: an event log and a status bucket per game, maintained by a diff when a
    version is applied and by its inverse when it is rolled back. */
module GameIndex {
  import opened Prelude
  import opened Rules
  import opened Lex

  type Id32 = b: Bytes | |b| == 32 witness seq(32, _ => 0)

  datatype PlayerEvent = Created | Joined | Won | Lost | Drew

  datatype GameStatus = IsOpen | IsPlaying | IsFinished

  /** The fields of a stored game the indexes read; players are ids of type `P`. */
  datatype Listing<P> = Listing(creator: P, joiner: Option<P>, state: State)

  predicate Terminal(s: State) {
    s.First? || s.Second? || s.Draw?
  }

  // ---------- events ----------

  function StatusOf(s: State): GameStatus {
    match s case Open => IsOpen case Playing => IsPlaying case _ => IsFinished
  }

  function OutcomeEvents(s: State): (PlayerEvent, PlayerEvent) {
    match s
    case First => (Won, Lost)
    case Second => (Lost, Won)
    case _ => (Drew, Drew)
  }

  /** The player events of a transition from `old` to `now`. */
  function ForwardEvents<P>(before: Option<Listing<P>>, after: Option<Listing<P>>): seq<(P, PlayerEvent)> {
    if after.None? then []
    else
      var g := after.value;
      (if before.None? then [(g.creator, Created)] else [])
      + (if (before.None? || before.value.joiner.None?) && g.joiner.Some? then [(g.joiner.value, Joined)] else [])
      + (if (before.None? || !Terminal(before.value.state)) && Terminal(g.state) then
           [(g.creator, OutcomeEvents(g.state).0)]
           + (if g.joiner.Some? then [(g.joiner.value, OutcomeEvents(g.state).1)] else [])
         else [])
  }

  // ---------- keys ----------

  function EventByte(e: PlayerEvent): u8 {
    match e case Created => 1 case Joined => 2 case Won => 3 case Lost => 4 case Drew => 5
  }

  function StatusByte(s: GameStatus): u8 {
    match s case IsOpen => 0 case IsPlaying => 1 case IsFinished => 2
  }

  /** `0x01 || player || event`. */
  function EventPrefix(player: Id32, e: PlayerEvent): (b: Bytes)
    ensures |b| == 34
  {
    [1] + player + [EventByte(e)]
  }

  /** `0x01 || player || event || version_be || game`. */
  function EventKey(player: Id32, e: PlayerEvent, version: u64, game: Id32): (b: Bytes)
    ensures |b| == 74
  {
    EventPrefix(player, e) + (BigEndian(8, version) + game)
  }

  /** `0x02 || status`. */
  function StatusPrefix(s: GameStatus): (b: Bytes)
    ensures |b| == 2
  {
    [2, StatusByte(s)]
  }

  /** `0x02 || status || game`. */
  function StatusKey(s: GameStatus, game: Id32): (b: Bytes)
    ensures |b| == 34
  {
    StatusPrefix(s) + game
  }

  lemma BigEndianInjective(v: u64, w: u64)
    ensures BigEndian(8, v) == BigEndian(8, w) ==> v == w
  {
    U64FitsEightBytes(v);
    U64FitsEightBytes(w);
    BigEndianRoundTrip(8, v);
    BigEndianRoundTrip(8, w);
  }

  /** An event key names its player, event, version and game. */
  lemma EventKeyInjective(p: Id32, e: PlayerEvent, v: u64, g: Id32, p': Id32, e': PlayerEvent, v': u64, g': Id32)
    ensures EventKey(p, e, v, g) == EventKey(p', e', v', g') ==> p == p' && e == e' && v == v' && g == g'
  {
    var k, k' := EventKey(p, e, v, g), EventKey(p', e', v', g');
    assert k[1..33] == p && k'[1..33] == p';
    assert k[33] == EventByte(e) && k'[33] == EventByte(e');
    assert k[34..42] == BigEndian(8, v) && k'[34..42] == BigEndian(8, v');
    assert k[42..] == g && k'[42..] == g';
    BigEndianInjective(v, v');
  }

  lemma StatusKeyInjective(s: GameStatus, g: Id32, s': GameStatus, g': Id32)
    ensures StatusKey(s, g) == StatusKey(s', g') ==> s == s' && g == g'
  {
    var k, k' := StatusKey(s, g), StatusKey(s', g');
    assert k[1] == StatusByte(s) && k'[1] == StatusByte(s');
    assert k[2..] == g && k'[2..] == g';
  }

  /** The two keyspaces never meet. */
  lemma KeyspacesDisjoint(p: Id32, e: PlayerEvent, v: u64, g: Id32, s: GameStatus, g': Id32)
    ensures EventKey(p, e, v, g) != StatusKey(s, g')
  {
    assert |EventKey(p, e, v, g)| != |StatusKey(s, g')|;
  }

  // ---------- diffs ----------

  type Db = map<Bytes, Bytes>

  type GameState = Option<Listing<Id32>>

  /** The log keys of a transition. */
  function EventKeys(id: Id32, before: GameState, after: GameState, version: u64): set<Bytes> {
    set ev | ev in ForwardEvents(before, after) :: EventKey(ev.0, ev.1, version, id)
  }

  function StatusKeys(id: Id32): set<Bytes> {
    {StatusKey(IsOpen, id), StatusKey(IsPlaying, id), StatusKey(IsFinished, id)}
  }

  function Status(g: GameState): Option<GameStatus> {
    if g.Some? then Some(StatusOf(g.value.state)) else None
  }

  function PutStatus(db: Db, id: Id32, g: GameState, version: u64): Db {
    if g.Some? then db[StatusKey(StatusOf(g.value.state), id) := BigEndian(8, version)] else db
  }

  /** The index after a version moved a game from `before` to `after`. */
  function IndexDiff(db: Db, id: Id32, before: GameState, after: GameState, version: u64): Db {
    var logged := db + (map k | k in EventKeys(id, before, after, version) :: []);
    if Status(before) == Status(after) then logged
    else
      var cleared := if before.Some? then logged - {StatusKey(StatusOf(before.value.state), id)} else logged;
      PutStatus(cleared, id, after, version)
  }

  /** The index after that version was rolled back. */
  function RevertDiff(db: Db, id: Id32, written: GameState, restored: GameState, reverted: u64,
                      restoredVersion: u64): Db
  {
    PutStatus(db - EventKeys(id, restored, written, reverted) - StatusKeys(id), id, restored, restoredVersion)
  }
}
