/**
 * The on-chain reads the comptroller issues, as one snapshot of the chain:
 * each read is a function of its arguments that either yields a value or
 * fails (network error, reverted call). Also the address book the code
 * imports and a log of the reads performed.
 */
module Chain {
  import opened Results
  import opened CacheKeys

  datatype ChainView = ChainView(
    assetsIn: string -> Result<seq<string>>,           // comptroller.getAssetsIn(account)
    balanceOf: (string, string) -> Result<nat>,        // market.balanceOf(account)
    exchangeRateStored: string -> Result<nat>,         // market.exchangeRateStored()
    borrowBalanceStored: (string, string) -> Result<nat>, // market.borrowBalanceStored(account)
    underlying: string -> Result<string>,              // market.underlying()
    decimals: string -> Result<nat>,                   // token.decimals()
    price: string -> Result<nat>)                      // oracle.price(token), 18 decimals, native currency

  /** The static addresses the comptroller code relies on. */
  datatype AddressBook = AddressBook(nullAddress: string, weth: string, usdc: string)

  /** The substitute for the null address must be a real address. */
  predicate WellFormed(book: AddressBook) {
    book.nullAddress != book.weth
  }

  /** `getPrice` divides by the USDC price; a successful USDC read must be non-zero. */
  predicate UsdcPricePositive(chain: ChainView, book: AddressBook) {
    chain.price(book.usdc).Ok? ==> chain.price(book.usdc).value > 0
  }

  /**
   * Addresses that differ only in the case of their hex letters name the same
   * account, so a read keyed by an address answers the same for its
   * lower-cased spelling. The cache relies on this when it keys entries by
   * the lower-cased address.
   */
  ghost predicate CaseInsensitive(chain: ChainView) {
    forall a: string ::
      && chain.underlying(Lower(a)) == chain.underlying(a)
      && chain.decimals(Lower(a)) == chain.decimals(a)
      && chain.price(Lower(a)) == chain.price(a)
  }

  /** One read issued against the chain. */
  datatype Call =
    | AssetsIn(account: string)
    | BalanceOf(market: string, account: string)
    | ExchangeRateStored(market: string)
    | BorrowBalanceStored(market: string, account: string)
    | Underlying(market: string)
    | Decimals(token: string)
    | OraclePrice(token: string)

  predicate Fails(chain: ChainView, c: Call) {
    match c
    case AssetsIn(a) => chain.assetsIn(a).Err?
    case BalanceOf(m, a) => chain.balanceOf(m, a).Err?
    case ExchangeRateStored(m) => chain.exchangeRateStored(m).Err?
    case BorrowBalanceStored(m, a) => chain.borrowBalanceStored(m, a).Err?
    case Underlying(m) => chain.underlying(m).Err?
    case Decimals(t) => chain.decimals(t).Err?
    case OraclePrice(t) => chain.price(t).Err?
  }

  predicate AllSucceed(chain: ChainView, calls: seq<Call>) {
    forall i :: 0 <= i < |calls| ==> !Fails(chain, calls[i])
  }

  /**
   * The reads of one operation, issued strictly in sequence: if it failed,
   * the last read is the one that failed and every read before it succeeded
   * (nothing is read after a failure); if it succeeded, every read did.
   */
  predicate StopsAtFirstFailure(chain: ChainView, calls: seq<Call>, failed: bool) {
    if failed then
      |calls| > 0 && AllSucceed(chain, calls[..|calls| - 1]) && Fails(chain, calls[|calls| - 1])
    else
      AllSucceed(chain, calls)
  }

  /** Successful reads followed by an operation that stopped at its first failure form such a sequence too. */
  lemma StopsAfterSuccesses(chain: ChainView, done: seq<Call>, next: seq<Call>, failed: bool)
    requires AllSucceed(chain, done)
    requires StopsAtFirstFailure(chain, next, failed)
    ensures StopsAtFirstFailure(chain, done + next, failed)
  {
    if failed {
      assert (done + next)[..|done + next| - 1] == done + next[..|next| - 1];
    }
  }

  /** Reads appended in two steps are the reads of both steps appended at once. */
  lemma LogGrows(log: seq<Call>, before: seq<Call>, done: seq<Call>, next: seq<Call>)
    requires log == (before + done) + next
    ensures log == before + (done + next)
  {
  }
}
