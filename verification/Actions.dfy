/** The ten actions a transaction can carry, as the decoder delivers them. */
module Actions {
  import opened Prelude
  import opened Rules
  import opened Resources

  /** A typed L1 destination; the payload is a key or script hash. */
  datatype StandardSpk =
    | PubKey(key: Bytes)
    | PubKeyEcdsa(ecdsaKey: Bytes)
    | ScriptHash(hash: Bytes)

  datatype Action =
    | Update(configIdx: u8, minWithdrawal: u64, turnTtl: u64, covenant: Bytes, lock: Lock)
    | Init(configIdx: u8, minWithdrawal: u64, turnTtl: u64, covenant: Bytes, lock: Lock)
    | Transfer(sourceIdx: u8, destIdx: u8, amount: u64, destInit: Option<Lock>)
    | UpdateUserLock(userIdx: u8, lock: Lock)
    | Deposit(userIdx: u8, configIdx: u8, outputIdx: u32, lock: Lock)
    | Withdraw(userIdx: u8, configIdx: u8, amount: u64, dest: StandardSpk)
    | CreateGame(creatorIdx: u8, gameIdx: u8, stake: u64, rounds: u8, mark: Cell)
    | JoinGame(gameIdx: u8, joinerIdx: u8)
    | Turn(gameIdx: u8, userIdx: u8, cell: Pos)
    | Timeout(gameIdx: u8, configIdx: u8)

  /** The resource indexes an action names. */
  function Indexes(a: Action): seq<u8> {
    match a
    case Update(i, _, _, _, _) => [i]
    case Init(i, _, _, _, _) => [i]
    case Transfer(i, j, _, _) => [i, j]
    case UpdateUserLock(i, _) => [i]
    case Deposit(i, j, _, _) => [i, j]
    case Withdraw(i, j, _, _) => [i, j]
    case CreateGame(i, j, _, _, _) => [i, j]
    case JoinGame(i, j) => [i, j]
    case Turn(i, j, _) => [i, j]
    case Timeout(i, j) => [i, j]
  }

  /** What the decoder has already checked: every index names a declared resource, and a created
      game's mark is X or O. */
  predicate Admitted(a: Action, nResources: nat) {
    && (forall j :: 0 <= j < |Indexes(a)| ==> Indexes(a)[j] < nResources)
    && (a.CreateGame? ==> a.mark != Empty)
  }
}
