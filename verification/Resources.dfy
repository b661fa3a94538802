/** Resource identities and the typed records behind them. Hashes are free constructors: distinct
    inputs give distinct identities, and the three kinds of id never meet. */
module Resources {
  import opened Prelude
  import opened Match

  datatype Lock =
    | Schnorr(pubkey: Bytes)
    | Multisig(threshold: u8, pubkeys: Bytes)
    | Unlocked

  datatype LockHash = LockHash(lock: Lock)

  datatype Id =
    | ConfigId
    | UserId(ilh: LockHash)
    | GameId(creatorIlh: LockHash, number: nat)
    | UnderivedId(bytes: Bytes)

  datatype User = User(
    balance: u64,
    started: u64,
    won: u64,
    finished: u64,
    ilh: LockHash,
    lock: Lock)

  datatype Config = Config(minWithdrawal: u64, turnTtl: u64, covenant: Bytes, lock: Lock)

  datatype Game = Game(creator: Id, joiner: Option<Id>, stake: u64, play: Match)

  datatype Resource =
    | ConfigRes(config: Config)
    | UserRes(user: User)
    | GameRes(game: Game)
}
