# Position watcher: the `Comptroller` aggregation engine in Dafny

This project models the `Comptroller` class of the position watcher, which
computes a wallet's lending position in USD. It has two parts:

- **Memoised market lookups** over one shared key/value cache with a
  per-entry time-to-live:
  - `getDecimals` reads a token's decimals.
  - `getUnderlying` reads a market's underlying asset. A reported null
    address becomes WETH.
  - `getPrice` reads a token's USD price, triangulated through the
    oracle's USDC price.

  Each lookup builds a key from a prefix and the lower-cased address. It
  answers from the cache on a hit. On a miss it reads the chain, stores the
  result and returns it. Decimals and underlying are stored forever (TTL 0).
  Prices are stored for the standard TTL of 600 seconds.
- **`getRariBalance(account)`** walks the markets the wallet entered. For
  each market it reads the market-token balance, resolves the underlying
  asset and its decimals, then reads the exchange rate and the borrow
  balance, and finally the price. It scales the raw integers
  (`formatUnits`), computes `balance * exchangeRate * price` supplied and
  `borrow * price` borrowed, and adds both to two running totals.

Files:

- `results.dfy`: `Option` and `Result`. `Result` carries a failure's message.
- `units.dfy`: `formatUnits` as exact division by 10^d, the oracle price
  triangulation, the per-market USD figures, and the totals. The lemmas
  prove the totals order-independent and non-negative.
- `cache_keys.dfy`: ASCII lower-casing, the three key prefixes, and the
  proof that the key string determines the lookup kind and the address.
  This is the key-isolation property.
- `ttl_cache.dfy`: the node-cache semantics the code relies on, as a
  `Cache` class over a map.
  - A value is stored with an expiry instant.
  - TTL 0 never expires.
  - An omitted TTL takes the standard TTL.
  - `get` answers absent for a missing or expired key.
- `chain.dfy`: the chain as one read-only snapshot. Every read is a function
  of its arguments that may fail. Also the static address book, and a log
  of the reads a call issued. `CaseInsensitive` states that addresses
  differing only in letter case name the same account.
- `comptroller.dfy`: the `Comptroller` class and the chain-only reference.
  - The three lookups are methods that update the cache and the read log.
  - The loop body is split into `ResolveAsset` (source lines 35-36),
    `ValueMarket` (lines 38-51) and `MarketUsd` (lines 32-51). `AddMarket`
    is one whole iteration, with the `+=` of lines 53-54.
  - The loop itself is `TotalMarkets`.
  - `GetRariBalance` reads the entered markets and runs the loop.
  - `ChainRow`, `ChainRows` and `ChainPosition` compute the same figures
    from the chain alone, with no cache, in the same read order.

Every method returns a `Result`. A failed chain read becomes `Err` at the
point where the source's `await` would throw. Nothing is read after the
failure, and no cache entry is written for the failed lookup.
`StopsAtFirstFailure` states this over the ghost read log each method
returns.

Every method also states what it did to the cache:

- `FilledFromChain`: every answer the cache now gives is either the answer
  it gave before or the chain's own answer for that key.
- `StoredByKind`: every entry the cache held is kept exactly, expiry
  included, unless the call stored that key afresh. It only stores keys the
  cache did not answer, each with the TTL of its kind: 0 for decimals and
  underlying, 600 seconds for prices. Together with `Valid()`, which says
  decimals and underlying entries never expire, this means such an answer
  stays in the cache for good.
- `Memoised` and `ReadsOnMiss`: it reads `underlying()` and `decimals()`
  only for keys the cache did not answer, and every such read that
  succeeded leaves its key answered, even when a later read of the same
  call fails. `RepeatSkipsResolved` draws the consequence: a repeated
  `getRariBalance` does not read those again.
- The keys it may have added are named: the lookup's own key, or the
  underlying, decimals and price keys of the markets it valued.
- `ChainTrue`: when every answer of the cache was the chain's own answer
  before the call, the call's result is the chain-only reference's result.
  In particular `GetRariBalance` on an empty cache returns
  `ChainPosition`.

## Model

| member | source | states |
|---|---|---|
| Units.FormatUnits | src/contracts/comptroller.ts:59-61 | `formatUnits(v, d)` is `v / 10^d` exactly: multiplying the result back by `10^d` gives the raw integer, and the result is never negative |
| Units.UsdPrice | src/contracts/comptroller.ts:94-96 | the triangulated price times the raw USDC oracle price equals the raw token oracle price (the two 10^18 scalings cancel); never negative; needs a positive USDC price |
| Units.UsdPriceExample | src/contracts/comptroller.ts:94-96 | a token priced at 200 native units, with USDC at 0.1 native units, is worth exactly 2000 USD |
| Units.SuppliedUsd | src/contracts/comptroller.ts:33-50 | a market's USD supplied is never negative when its price is not |
| Units.BorrowedUsd | src/contracts/comptroller.ts:43-51 | a market's USD borrowed is never negative when its price is not |
| Units.SuppliedUsdScale | src/contracts/comptroller.ts:33-50 | a market's USD supplied is `balance * exchangeRate * price` scaled down by `10^(decimals + 18)`: 8 digits for the market-token balance, `decimals + 10` for the rate |
| Units.Total | src/contracts/comptroller.ts:28-54 | a running total that starts at 0 and adds non-negative figures is never negative |
| Units.TotalAppend | src/contracts/comptroller.ts:31-55 | the total over two lists placed end to end is the sum of their totals |
| Units.TotalPermutation | src/contracts/comptroller.ts:31-55 | the running total depends only on the multiset of rows summed, not on their order |
| CacheKeys.Lower | src/contracts/comptroller.ts:64 | `toLowerCase` keeps the length and lower-cases each character in place; only `A`-`Z` change |
| CacheKeys.LowerIdempotent | src/contracts/comptroller.ts:64 | lower-casing an already lower-cased address changes nothing |
| CacheKeys.KeyText | src/contracts/comptroller.ts:64-90 | a key string is longer than its address, ends with the address, and its first character tells the lookup kind (`d`, `u` or `p`) |
| CacheKeys.KeyTextInjective | src/contracts/comptroller.ts:64-90 | two key strings are equal if and only if they come from the same lookup kind and the same lower-cased address; the `decimals_`, `underlying_` and `price_` prefixes never collide |
| CacheKeys.SharedEntryIffSameLowerCase | src/contracts/comptroller.ts:64-90 | two spellings of an address share a cache entry exactly when they agree after lower-casing |
| TtlCache.Lookup | src/contracts/comptroller.ts:65-66 | `get` answers absent for a missing key and for an expired entry, and the stored value for a live one |
| TtlCache.Store | src/contracts/comptroller.ts:69 | `set` adds exactly its key, which holds the value with no expiry for TTL 0 and `now + ttl` otherwise; every other entry is kept |
| TtlCache.StoreThenLookup | src/lib/cache-provider.ts:7 | a stored value is found again at every later instant up to its TTL; with TTL 0 it is found at every later instant |
| TtlCache.StoreExpires | src/lib/cache-provider.ts:7 | after its TTL, a value stored with a non-zero TTL is absent again |
| TtlCache.StoreLeavesOtherKeys | src/contracts/comptroller.ts:65-69 | storing one key changes no other key's answer, at any instant |
| TtlCache.StoreOnMissExtends | src/contracts/comptroller.ts:66-69 | filling a missing key keeps every answer the cache already gave |
| TtlCache.Cache.constructor | src/lib/cache-provider.ts:6-8 | a new cache holds no entries |
| TtlCache.Cache.Get | src/contracts/comptroller.ts:65 | `get` finds a value only for a stored, unexpired key, and always finds one there |
| TtlCache.Cache.Set | src/lib/cache-provider.ts:7 | `set` replaces the key's entry with the value and an expiry of `now + ttl`; TTL 0 never expires; an omitted TTL means 600 seconds |
| Comptrollers.NormalizeUnderlying | src/contracts/comptroller.ts:80-81 | the result is never the null address; any other reported address is kept unchanged |
| Comptrollers.UnderlyingRead | src/contracts/comptroller.ts:80-81 | the `underlying()` read succeeds exactly when the chain read does; a reported null address becomes WETH, any other is kept, and the result is never the null address |
| Comptrollers.RateReads | src/contracts/comptroller.ts:38-46 | the exchange-rate and borrow-balance reads succeed together exactly when both chain reads do, giving both values; otherwise the failure is the exchange rate's if that read failed, else the borrow balance's |
| Comptrollers.ValueCalls | src/contracts/comptroller.ts:38-48 | the reads after `getDecimals` start with `exchangeRateStored()`, then `borrowBalanceStored(account)` once that succeeded, then the price reads only when both succeeded and the price is not cached; they stop at the first failure and read no underlying or decimals |
| Comptrollers.PriceRead | src/contracts/comptroller.ts:93-96 | the price read succeeds if and only if both oracle reads succeed; then the price is non-negative and triangulates the two oracle prices |
| Comptrollers.PriceCalls | src/contracts/comptroller.ts:93-95 | a price miss issues exactly `price(token)` when that read fails, and exactly `price(token)` then `price(USDC)` when it succeeds; so it stops at the first failure |
| Comptrollers.ChainRows | src/contracts/comptroller.ts:31-55 | the chain-only reference succeeds exactly when every market's own reads succeed; then it has one row per entered market, in list order, the i-th being the i-th market's chain row, for that market and with a non-negative price |
| Comptrollers.ChainRowsPermutation | src/contracts/comptroller.ts:27-55 | reordering the markets `getAssetsIn` returns changes neither whether the chain-only rows all read nor their supplied and borrowed totals |
| Comptrollers.ChainPosition | src/contracts/comptroller.ts:26-57 | the chain-only position: the summed rows, never negative |
| Comptrollers.ChainRowsFailEarly | src/contracts/comptroller.ts:31-55 | a failed read among the first markets fails the whole list with that failure |
| Comptrollers.StoreFromChain | src/contracts/comptroller.ts:66-69 | storing the chain's own answer on a miss fills the cache from the chain: every other key's answer is unchanged |
| Comptrollers.PermanentAnswers | src/contracts/comptroller.ts:69-82 | in a cache the lookups filled, a decimals or underlying key answers the same at every instant: what it answers at `now` it still answers later, so a later lookup of it reads nothing. |
| Comptrollers.MemoStep | src/contracts/comptroller.ts:35-48 | two cache steps in a row read only on misses of the first cache, and leave every underlying or decimals read that succeeded answered in the last |
| Comptrollers.RepeatSkipsResolved | src/contracts/comptroller.ts:63-87 | a call that starts from the cache an earlier call left, at any later instant, reads the underlying of no market and the decimals of no token that the earlier call read successfully, in any spelling |
| Comptrollers.StoreByKind | src/contracts/comptroller.ts:66-97 | a miss stored with its kind's TTL (0 for decimals and underlying, the standard 600 s for prices) keeps every other entry exactly and gives the new entry that expiry |
| Comptrollers.StoredByKindExtends | src/contracts/comptroller.ts:65-69 | a cache changed only by stores by kind still gives every answer it gave at `now` |
| Comptrollers.AccountsAt | src/contracts/comptroller.ts:31-55 | the i-th recorded row belongs to the i-th entered market; it carries that market's chain reads and the cache's answers |
| Comptrollers.AccountedTotalsNonnegative | src/contracts/comptroller.ts:28-55 | totals over rows the loop accounted for are never negative |
| Comptrollers.RowFromChain | src/contracts/comptroller.ts:32-51 | a row the loop accounted for, in a cache whose every answer is the chain's own, is the chain-only row for that market |
| Comptrollers.ChainRowsFromAccounts | src/contracts/comptroller.ts:31-55 | the rows the loop accounted for, in such a cache, are exactly the chain-only rows |
| Comptrollers.Comptroller.constructor | src/contracts/comptroller.ts:16-24 | the comptroller keeps the given cache and address book and has issued no reads |
| Comptrollers.Comptroller.GetDecimals | src/contracts/comptroller.ts:63-74 | hit: returns the cached decimals, issues no read and leaves the cache unchanged, even when the cached value is 0. Miss: exactly one `decimals()` read. On success that value is stored under `decimals_` + lower-cased address with TTL 0 and returned; on failure the cache is unchanged. Only that key may be added, with TTL 0, and every other entry is kept exactly; the cache only gains the chain's answer; with a truthful cache the result is the chain's decimals. Reads `underlying()` and `decimals()` only for keys the cache did not answer, and every such read that succeeded leaves its key answered, even when a later read fails. |
| Comptrollers.Comptroller.GetUnderlying | src/contracts/comptroller.ts:76-87 | hit: returns the cached address, issues no read and leaves the cache unchanged. Miss: exactly one `underlying()` read. The null address is replaced by WETH, and the result is stored under `underlying_` + lower-cased market with TTL 0; on failure the cache is unchanged. The result is never the null address. Only that key may be added, with TTL 0, and every other entry is kept exactly; with a truthful cache the result is the chain's underlying. Reads `underlying()` and `decimals()` only for keys the cache did not answer, and every such read that succeeded leaves its key answered, even when a later read fails. |
| Comptrollers.Comptroller.GetPrice | src/contracts/comptroller.ts:89-101 | hit: returns the cached price, even 0, with no read. Miss: reads the token's oracle price, then (only if that succeeded) USDC's. On success the triangulated price is stored under `price_` + lower-cased address for the standard TTL and returned; on failure the cache is unchanged. Only that key may be added, with the standard TTL, and every other entry is kept exactly; with a truthful cache the result is the chain's price. Reads no underlying or decimals. |
| Comptrollers.Comptroller.ResolveAsset | src/contracts/comptroller.ts:35-36 | on success the underlying is not the null address, and the cache now answers it for the market and the returned decimals for the underlying. Only those two keys may be added, stored by kind, and every other entry is kept exactly; with a truthful cache the result is the chain-only underlying and decimals. Reads `underlying()` and `decimals()` only for keys the cache did not answer, and every such read that succeeded leaves its key answered, even when a later read fails. |
| Comptrollers.Comptroller.ReadRates | src/contracts/comptroller.ts:38-46 | reads `exchangeRateStored()`, then `borrowBalanceStored(account)` only if the first succeeded; the result is `RateReads` and the cache is untouched |
| Comptrollers.Comptroller.ValueMarket | src/contracts/comptroller.ts:38-51 | on success the exchange-rate and borrow-balance reads and the cached price are recorded, and the result is the row's USD supplied (rate scaled by `decimals + 10`) and USD borrowed (borrow scaled by `decimals`). Only the price key may be added, stored by kind, and every other entry is kept exactly; with a truthful cache the row and the failure are the chain-only reference's. The reads are exactly `ValueCalls`: the exchange rate, the borrow balance, then the price reads only on a price miss, cut at the first failure. A failure leaves the cache unchanged. |
| Comptrollers.Comptroller.MarketUsd | src/contracts/comptroller.ts:32-51 | the iteration's first read is `balanceOf(account)`. On success its row agrees with every chain read and with the cache's answers for underlying, decimals and price, and the result is that row's USD supplied and borrowed. Reads stop at the first failure; entries are kept exactly unless stored by kind for a key the cache did not answer; only the market's keys may be added; with a truthful cache the row and the failure are the chain-only row's. Reads `underlying()` and `decimals()` only for keys the cache did not answer, and every such read that succeeded leaves its key answered, even when a later read fails. |
| Comptrollers.Comptroller.AddMarket | src/contracts/comptroller.ts:32-54 | one iteration adds the market's row to the accounted rows and its USD figures to the running totals, and the cache changes only by stores by kind; a failure ends the loop with the chain-only reference failing the same way when the cache was truthful. Reads `underlying()` and `decimals()` only for keys the cache did not answer, and every such read that succeeded leaves its key answered, even when a later read fails. |
| Comptrollers.Comptroller.TotalMarkets | src/contracts/comptroller.ts:28-55 | no markets: zero totals, no reads and an unchanged cache. Otherwise, on success, one accounted row per market in list order, and the totals are the sums of the rows' USD supplied and borrowed. The first failed read fails the loop. Only the markets' keys may be added, stored by kind, and every other entry is kept exactly; with a truthful cache the rows and the failure are the chain-only rows'. Reads `underlying()` and `decimals()` only for keys the cache did not answer, and every such read that succeeded leaves its key answered, even when a later read fails. |
| Comptrollers.Comptroller.GetRariBalance | src/contracts/comptroller.ts:26-57 | the first read is `getAssetsIn(account)`; its failure fails the call with the cache unchanged. An empty market list gives `{supplied: 0, borrowed: 0}`. Otherwise the totals are the sums over every entered market, each counted once, and never negative. The cache changes only by stores by kind, so, with `PermanentAnswers`, every underlying and decimals answer it gives afterwards lasts. With a truthful cache, and in particular an empty one, the result is `ChainPosition`. Reads `underlying()` and `decimals()` only for keys the cache did not answer, and every such read that succeeded leaves its key answered, even when a later read fails. |

## Left out

- `src/index.ts` (the poll loop, its `sleep` and its un-awaited `forEach` dispatch) is not part of this model. It is scheduling and concurrency.
- `src/lib/prom-server.ts` (the HTTP metrics endpoint and its gauges) is not part of this model. It is I/O.
- `src/contracts/addresses.json` is not part of this model. The null, WETH and USDC addresses are a parameter of the comptroller (`AddressBook`).
- The ethers contract factories and RPC calls are not modelled. Each read is a function of its arguments on one chain snapshot, yielding a value or a failure.
- The clock is an explicit `now` parameter, constant during one call. Expired entries are treated as absent; node-cache's deletion of them on `get` and its 200-second `checkperiod` sweep are not modelled.
- Floating point: JavaScript numbers are modelled as exact reals. IEEE rounding in `parseFloat(formatUnits(...))` and in the products and sums is not captured.
- `toLowerCase` is modelled on ASCII letters only; addresses are hexadecimal ASCII.
- Cache values are typed by lookup kind. The source's `Number(...)`/`String(...)` coercion on a hit is therefore the identity. Error messages are carried, but nothing is stated about their text.
- The code has no `markets()` lookup and no borrow-limit total, so neither is modelled.
- Decimals are an unbounded `nat`; the `uint8` range of an ERC-20 `decimals()` answer is not modelled.
- Ethers' rejection of mixed-case addresses with a bad checksum is not modelled. Every method that touches the cache instead assumes the chain answers the same for two spellings of one address (`CaseInsensitive`); the lines below name them.
- `Comptrollers.Comptroller.GetDecimals`: requires `CaseInsensitive`, so that an entry stored for one spelling is the chain's answer for every spelling.
- `Comptrollers.Comptroller.GetUnderlying`: requires `CaseInsensitive`, for the same reason.
- `Comptrollers.Comptroller.GetPrice`: requires `CaseInsensitive`, for the same reason, and a positive USDC read (see `Units.UsdPrice`).
- `Comptrollers.Comptroller.ResolveAsset`: requires `CaseInsensitive`, because it calls `GetUnderlying` and `GetDecimals`.
- `Comptrollers.Comptroller.ValueMarket`: returns `Ok` for an underlying with more than 246 decimals. Ethers' `formatUnits` rejects a scale above 256, so the source throws at lines 38-41 when `decimals + 10` exceeds 256. It also requires `CaseInsensitive` and a positive USDC price, because it calls `GetPrice`.
- `Comptrollers.Comptroller.MarketUsd`: returns `Ok` for an underlying with more than 246 decimals, as `ValueMarket` does; requires `CaseInsensitive` and a positive USDC price, because it calls `GetPrice`.
- `Comptrollers.Comptroller.AddMarket`: returns `Ok` for an underlying with more than 246 decimals, as `ValueMarket` does; requires `CaseInsensitive` and a positive USDC price, because it calls `MarketUsd`.
- `Comptrollers.Comptroller.TotalMarkets`: returns `Ok` for an underlying with more than 246 decimals, as `ValueMarket` does; requires `CaseInsensitive` and a positive USDC price, because it calls `MarketUsd`.
- `Comptrollers.Comptroller.GetRariBalance`: returns `Ok` for an underlying with more than 246 decimals, as `ValueMarket` does; requires `CaseInsensitive` and a positive USDC price, because it calls `MarketUsd`.
- `Comptrollers.NormalizeUnderlying`: requires the null address and the WETH address to differ. Otherwise the substitution could not keep the null address out of the cache.
- `Units.UsdPrice`: requires a positive USDC oracle price. The source divides by it without a guard (comptroller.ts line 95), and a zero price would give an infinite or NaN price.
- `Comptrollers.PriceRead`: requires a successful USDC read to be positive, for the same reason as `Units.UsdPrice`.
- `Comptrollers.ChainRows`: requires a positive USDC read, for the same reason as `Units.UsdPrice`, and distinct null and WETH addresses.
- `Comptrollers.ChainPosition`: requires a positive USDC read, for the same reason as `Units.UsdPrice`, and distinct null and WETH addresses.
