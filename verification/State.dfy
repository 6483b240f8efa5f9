/** The accounts the lending program owns, as values, and the errors it returns. */
module State {
  import opened Arith

  /** 32-byte addresses and feed ids; only their equality is ever used. */
  type Pubkey = nat
  type FeedId = nat

  const RATE_SCALE_E18: nat := 1_000_000_000_000_000_000
  const BPS_DENOMINATOR: nat := 10_000
  const LIQUIDATION_BONUS_BPS: nat := 500
  const MINT_DECIMALS: u8 := 9

  datatype Option<+T> = None | Some(value: T)

  datatype Result<+T> = Ok(value: T) | Err(error: Error) {
    predicate IsFailure() {
      Err?
    }

    function PropagateFailure<U>(): Result<U>
      requires Err?
    {
      Err(error)
    }

    function Extract(): T
      requires Ok?
    {
      value
    }
  }

  /** The program's own errors, then those of the runtime and the token program. */
  datatype Error =
    | NotAdmin
    | BadLtv
    | ZeroAmount
    | ExceedsLtv
    | WouldBeUnhealthy
    | InsufficientCollateral
    | InsufficientLiquidity
    | NothingToRepay
    | Overflow
    | BadRemainingAccounts
    | BadPositionAccount
    | BadPriceFeed
    | StalePrice
    | SameMintBorrow
    | PositionHealthy
    | NothingToLiquidate
    | SelfLiquidation
    | AccountNotInitialized
    | AccountInUse
    | InsufficientFunds
    | TokenOverflow

  datatype Market = Market(
    admin: Pubkey,
    amountPerClaim: u64,
    maxLtvBps: u16,
    feedId: FeedId,
    borrowRatePerSlotE18: u64,
    borrowIndexE18: u128,
    lastUpdateSlot: u64,
    totalSupplied: u64,
    totalBorrowed: u64,
    claimCount: u64)

  datatype Position = Position(
    user: Pubkey,
    supplied: u64,
    borrowed: u64,
    feedId: FeedId,
    maxLtvBps: u16,
    decimals: u8,
    snapshotE18: u128)

  /** Everything that hangs off one mint: its market account, the mint's supply,
      the vault, and, by wallet, the position, the token balance and the claim receipt.
      A wallet is a key of `wallets` once its token account exists. */
  datatype Book = Book(
    market: Market,
    mintSupply: u64,
    vault: u64,
    positions: map<Pubkey, Position>,
    wallets: map<Pubkey, u64>,
    receipts: map<Pubkey, u64>)

  type Ledger = map<Pubkey, Book>
}
