/**
 * `Comptroller`: memoised per-market lookups (underlying asset, its
 * decimals, its USD price) over the shared TTL cache, and the loop that
 * turns a wallet's entered markets into USD supplied and borrowed totals.
 */
module Comptrollers {
  import opened Results
  import opened Units
  import opened CacheKeys
  import opened TtlCache
  import opened Chain

  /** A wallet's position, as `getRariBalance` returns it. */
  datatype Position = Position(supplied: real, borrowed: real)

  /** The null address a native-asset market reports is replaced by WETH. */
  function NormalizeUnderlying(reported: string, book: AddressBook): (a: string)
    requires WellFormed(book)
    ensures a != book.nullAddress
    ensures reported != book.nullAddress ==> a == reported
  {
    if reported == book.nullAddress then book.weth else reported
  }

  /**
   * The chain side of `getUnderlying`: one `underlying()` read, which fails
   * exactly when the read does; a reported null address becomes WETH and
   * any other address is kept.
   */
  function UnderlyingRead(chain: ChainView, book: AddressBook, market: string): (r: Result<string>)
    requires WellFormed(book)
    ensures r.Ok? <==> chain.underlying(market).Ok?
    ensures r.Ok? ==> r.value != book.nullAddress
    ensures r.Ok? && chain.underlying(market).value != book.nullAddress ==> r.value == chain.underlying(market).value
    ensures r.Ok? && chain.underlying(market).value == book.nullAddress ==> r.value == book.weth
  {
    var reported :- chain.underlying(market);
    Ok(NormalizeUnderlying(reported, book))
  }

  /** The chain side of `getPrice`: the token's oracle price, then USDC's, triangulated to USD. */
  function PriceRead(chain: ChainView, book: AddressBook, token: string): (r: Result<real>)
    requires UsdcPricePositive(chain, book)
    ensures r.Ok? <==> chain.price(token).Ok? && chain.price(book.usdc).Ok?
    ensures r.Ok? ==> r.value >= 0.0 && r.value * chain.price(book.usdc).value as real == chain.price(token).value as real
  {
    var tokenPrice :- chain.price(token);
    var usdcPrice :- chain.price(book.usdc);
    Ok(UsdPrice(tokenPrice, usdcPrice))
  }

  /**
   * The reads a price miss issues: the token's oracle price first, and the
   * USDC price only once the token's price was read; they stop at the first
   * failure.
   */
  function PriceCalls(chain: ChainView, book: AddressBook, token: string): (calls: seq<Call>)
    ensures 0 < |calls| && calls[0] == OraclePrice(token)
    ensures chain.price(token).Err? ==> calls == [OraclePrice(token)]
    ensures chain.price(token).Ok? ==> calls == [OraclePrice(token), OraclePrice(book.usdc)]
    ensures StopsAtFirstFailure(chain, calls, chain.price(token).Err? || chain.price(book.usdc).Err?)
  {
    [OraclePrice(token)] + if chain.price(token).Ok? then [OraclePrice(book.usdc)] else []
  }

  /**
   * The reads of the loop body after `getDecimals`: the exchange rate, then
   * the borrow balance, then, unless the price is cached, the price reads.
   * They stop at the first failure, and none reads an underlying asset or
   * decimals.
   */
  function ValueCalls(chain: ChainView, book: AddressBook, account: string, market: string, token: string,
                      priceCached: bool): (calls: seq<Call>)
    ensures 0 < |calls| && calls[0] == ExchangeRateStored(market)
    ensures chain.exchangeRateStored(market).Ok? ==> 1 < |calls| && calls[1] == BorrowBalanceStored(market, account)
    ensures chain.exchangeRateStored(market).Ok? && chain.borrowBalanceStored(market, account).Ok? ==>
      calls[2..] == if priceCached then [] else PriceCalls(chain, book, token)
    ensures StopsAtFirstFailure(chain, calls, chain.exchangeRateStored(market).Err? || chain.borrowBalanceStored(market, account).Err?
                                             || (!priceCached && (chain.price(token).Err? || chain.price(book.usdc).Err?)))
    ensures NoLookupReads(calls)
  {
    [ExchangeRateStored(market)]
      + (if chain.exchangeRateStored(market).Err? then []
         else
           [BorrowBalanceStored(market, account)]
             + (if chain.borrowBalanceStored(market, account).Err? || priceCached then []
                else PriceCalls(chain, book, token)))
  }

  /**
   * The reference the loop is measured against: each market's row read
   * from the chain alone, with no cache, in the order the loop body reads,
   * failing at the first failed read.
   */
  function ChainAsset(chain: ChainView, book: AddressBook, market: string): Result<(string, nat)>
    requires WellFormed(book)
  {
    var underlying :- UnderlyingRead(chain, book, market);
    var decimals :- chain.decimals(underlying);
    Ok((underlying, decimals))
  }

  /**
   * The market's stored exchange rate, then the wallet's borrow balance:
   * both values when both reads succeed, else the first failure.
   */
  function RateReads(chain: ChainView, account: string, market: string): (r: Result<(nat, nat)>)
    ensures r.Ok? <==> chain.exchangeRateStored(market).Ok? && chain.borrowBalanceStored(market, account).Ok?
    ensures r.Ok? ==> r.value == (chain.exchangeRateStored(market).value, chain.borrowBalanceStored(market, account).value)
    ensures chain.exchangeRateStored(market).Err? ==> r == Err(chain.exchangeRateStored(market).message)
    ensures chain.exchangeRateStored(market).Ok? && chain.borrowBalanceStored(market, account).Err? ==>
      r == Err(chain.borrowBalanceStored(market, account).message)
  {
    var rate :- chain.exchangeRateStored(market);
    var borrow :- chain.borrowBalanceStored(market, account);
    Ok((rate, borrow))
  }

  /** The exchange rate, the borrow balance and the price, once balance, underlying and decimals are known. */
  function ChainReads(chain: ChainView, book: AddressBook, account: string, market: string,
                      balanceRaw: nat, underlying: string, decimals: nat): Result<MarketRow>
    requires UsdcPricePositive(chain, book)
  {
    var rates :- RateReads(chain, account, market);
    var price :- PriceRead(chain, book, underlying);
    Ok(MarketRow(market, underlying, decimals, price, balanceRaw, rates.0, rates.1))
  }

  function ChainRow(chain: ChainView, book: AddressBook, account: string, market: string): Result<MarketRow>
    requires WellFormed(book) && UsdcPricePositive(chain, book)
  {
    var balance :- chain.balanceOf(market, account);
    var asset :- ChainAsset(chain, book, market);
    ChainReads(chain, book, account, market, balance, asset.0, asset.1)
  }

  /**
   * One row per market, in list order, each read from the chain alone; the
   * first market whose reads fail fails the list. Every row is for its own
   * market and carries a non-negative price.
   */
  function ChainRows(chain: ChainView, book: AddressBook, account: string, assets: seq<string>): (r: Result<seq<MarketRow>>)
    requires WellFormed(book) && UsdcPricePositive(chain, book)
    ensures r.Ok? <==> forall i :: 0 <= i < |assets| ==> ChainRow(chain, book, account, assets[i]).Ok?
    ensures r.Ok? ==> |r.value| == |assets|
    ensures r.Ok? ==> forall i :: 0 <= i < |assets| ==> ChainRow(chain, book, account, assets[i]) == Ok(r.value[i])
    ensures r.Ok? ==> forall i :: 0 <= i < |assets| ==> r.value[i].market == assets[i] && r.value[i].price >= 0.0
    decreases |assets|
  {
    if assets == [] then Ok([])
    else
      var init := assets[..|assets| - 1];
      assert forall i :: 0 <= i < |init| ==> init[i] == assets[i];
      var rows :- ChainRows(chain, book, account, init);
      var row :- ChainRow(chain, book, account, assets[|assets| - 1]);
      Ok(rows + [row])
  }

  /** A list with the same markets as one whose chain-only rows all read also reads all of its rows. */
  lemma ChainRowsOkPermutation(chain: ChainView, book: AddressBook, account: string, a: seq<string>, b: seq<string>)
    requires WellFormed(book) && UsdcPricePositive(chain, book)
    requires multiset(a) == multiset(b)
    requires ChainRows(chain, book, account, a).Ok?
    ensures ChainRows(chain, book, account, b).Ok?
  {
    forall i | 0 <= i < |b| ensures ChainRow(chain, book, account, b[i]).Ok? {
      assert b[i] in multiset(a);
      var k :| 0 <= k < |a| && a[k] == b[i];
    }
  }

  /**
   * The order in which `getAssetsIn` lists the markets does not matter:
   * another order of the same markets reads all its rows exactly when the
   * first does, and gives the same supplied and borrowed totals.
   */
  lemma ChainRowsPermutation(chain: ChainView, book: AddressBook, account: string, a: seq<string>, b: seq<string>)
    requires WellFormed(book) && UsdcPricePositive(chain, book)
    requires multiset(a) == multiset(b)
    ensures ChainRows(chain, book, account, a).Ok? <==> ChainRows(chain, book, account, b).Ok?
    ensures ChainRows(chain, book, account, a).Ok? ==>
      && Total(ChainRows(chain, book, account, a).value, SuppliedUsd) == Total(ChainRows(chain, book, account, b).value, SuppliedUsd)
      && Total(ChainRows(chain, book, account, a).value, BorrowedUsd) == Total(ChainRows(chain, book, account, b).value, BorrowedUsd)
  {
    if ChainRows(chain, book, account, a).Ok? {
      ChainRowsOkPermutation(chain, book, account, a, b);
      var ra, rb := ChainRows(chain, book, account, a).value, ChainRows(chain, book, account, b).value;
      MultisetImage(a, ra, b, rb);
      TotalPermutation(ra, rb, SuppliedUsd);
      TotalPermutation(ra, rb, BorrowedUsd);
    } else if ChainRows(chain, book, account, b).Ok? {
      ChainRowsOkPermutation(chain, book, account, b, a);
    }
  }

  /**
   * `getRariBalance` computed from the chain alone: the entered markets'
   * rows, summed. The totals are never negative.
   */
  function ChainPosition(chain: ChainView, book: AddressBook, account: string): (r: Result<Position>)
    requires WellFormed(book) && UsdcPricePositive(chain, book)
    ensures r.Ok? ==> r.value.supplied >= 0.0 && r.value.borrowed >= 0.0
  {
    var assets :- chain.assetsIn(account);
    var rows :- ChainRows(chain, book, account, assets);
    Ok(Position(Total(rows, SuppliedUsd), Total(rows, BorrowedUsd)))
  }

  /** A failure among the first `j` markets is the failure of the whole list. */
  lemma {:induction false} ChainRowsFailEarly(chain: ChainView, book: AddressBook, account: string, assets: seq<string>, j: nat)
    requires WellFormed(book) && UsdcPricePositive(chain, book)
    requires j <= |assets|
    requires ChainRows(chain, book, account, assets[..j]).Err?
    ensures ChainRows(chain, book, account, assets) == ChainRows(chain, book, account, assets[..j])
    decreases |assets|
  {
    if j < |assets| {
      var init := assets[..|assets| - 1];
      assert init[..j] == assets[..j];
      ChainRowsFailEarly(chain, book, account, init, j);
    } else {
      assert assets[..j] == assets;
    }
  }

  /**
   * What the lookups keep in the cache: under a decimals key a decimals
   * value, under an underlying key an address other than the null address,
   * under a price key a non-negative price.
   */
  predicate EntryTyped(k: CacheKey, v: CacheValue, book: AddressBook) {
    match k
    case DecimalsKey(_) => v.DecimalsValue?
    case UnderlyingKey(_) => v.AddressValue? && v.address != book.nullAddress
    case PriceKey(_) => v.PriceValue? && v.usd >= 0.0
  }

  /**
   * What the lookups keep in the cache, with the expiry they store it with:
   * typed values, and decimals and underlying entries that never expire.
   */
  ghost predicate CacheTyped(m: map<CacheKey, Entry<CacheValue>>, book: AddressBook) {
    forall k | k in m :: EntryTyped(k, m[k].value, book) && (k.PriceKey? || m[k].expiresAt == None)
  }

  /**
   * Decimals and underlying answers never expire: what a cache the lookups
   * filled answers for such a key at `now` it answers at every other
   * instant too, so a later lookup of that key is a hit and reads nothing.
   */
  lemma PermanentAnswers(m: map<CacheKey, Entry<CacheValue>>, book: AddressBook, k: CacheKey, now: int, later: int)
    requires CacheTyped(m, book)
    requires !k.PriceKey?
    ensures Lookup(m, k, later) == Lookup(m, k, now)
  {
    if k in m {
      assert m[k].expiresAt == None;
    }
  }

  /**
   * The TTL each lookup stores its answer with: a price is `set` without a
   * TTL, so with the standard one; decimals and underlying with TTL 0, so
   * they never expire.
   */
  function KindTtl(k: CacheKey): nat {
    if k.PriceKey? then STD_TTL else 0
  }

  /**
   * Going from `m` to `m'` kept every key of `m`, and every entry of `m'`
   * is either `m`'s own entry for that key, expiry included, or was stored
   * at `now` for a key `m` did not answer then, with the TTL of its kind.
   */
  ghost predicate StoredByKind(m: map<CacheKey, Entry<CacheValue>>, m': map<CacheKey, Entry<CacheValue>>, now: int) {
    && m.Keys <= m'.Keys
    && forall k | k in m' ::
         || (k in m && m'[k] == m[k])
         || (Lookup(m, k, now).None? && m'[k].expiresAt == ExpiryAfter(KindTtl(k), now))
  }

  /** A miss stored with its kind's TTL is stored by kind. */
  lemma StoreByKind(m: map<CacheKey, Entry<CacheValue>>, key: CacheKey, v: CacheValue, now: int)
    requires Lookup(m, key, now).None?
    ensures StoredByKind(m, Store(m, key, v, KindTtl(key), now), now)
  {
  }

  lemma StoredByKindTransitive(m1: map<CacheKey, Entry<CacheValue>>, m2: map<CacheKey, Entry<CacheValue>>,
                               m3: map<CacheKey, Entry<CacheValue>>, now: int)
    requires StoredByKind(m1, m2, now) && StoredByKind(m2, m3, now)
    ensures StoredByKind(m1, m3, now)
  {
    forall k | k in m3 && Lookup(m1, k, now).Some?
      ensures k in m1 && m3[k] == m1[k]
    {
      assert k in m2 && m2[k] == m1[k];
    }
  }

  /** Storing by kind keeps every answer the cache gave at `now`. */
  lemma StoredByKindExtends(m: map<CacheKey, Entry<CacheValue>>, m': map<CacheKey, Entry<CacheValue>>, now: int)
    requires StoredByKind(m, m', now)
    ensures Extends(m, m', now)
  {
    forall k | k in m && Lookup(m, k, now).Some?
      ensures Lookup(m', k, now) == Lookup(m, k, now)
    {
      assert k in m' && m'[k] == m[k];
    }
  }

  /**
   * The chain's own answer for a cache key, which a miss on that key
   * stores: the token's decimals, the market's normalised underlying, or
   * the token's triangulated price.
   */
  ghost predicate FromChain(k: CacheKey, v: CacheValue, chain: ChainView, book: AddressBook) {
    match k
    case DecimalsKey(t) => chain.decimals(t).Ok? && v == DecimalsValue(chain.decimals(t).value)
    case UnderlyingKey(mk) =>
      WellFormed(book) && UnderlyingRead(chain, book, mk).Ok? && v == AddressValue(UnderlyingRead(chain, book, mk).value)
    case PriceKey(t) =>
      UsdcPricePositive(chain, book) && PriceRead(chain, book, t).Ok? && v == PriceValue(PriceRead(chain, book, t).value)
  }

  /** Every answer the cache gives at `now` is the chain's own answer for that key. */
  ghost predicate ChainTrue(m: map<CacheKey, Entry<CacheValue>>, now: int, chain: ChainView, book: AddressBook) {
    forall k | Lookup(m, k, now).Some? :: FromChain(k, Lookup(m, k, now).value, chain, book)
  }

  /**
   * Going from `m` to `m'` only filled keys from the chain: every answer of
   * `m'` is either the answer `m` already gave or the chain's own answer.
   */
  ghost predicate FilledFromChain(m: map<CacheKey, Entry<CacheValue>>, m': map<CacheKey, Entry<CacheValue>>,
                                  now: int, chain: ChainView, book: AddressBook)
  {
    forall k | Lookup(m', k, now).Some? ::
      Lookup(m', k, now) == Lookup(m, k, now) || FromChain(k, Lookup(m', k, now).value, chain, book)
  }

  lemma FilledFromChainTransitive(m1: map<CacheKey, Entry<CacheValue>>, m2: map<CacheKey, Entry<CacheValue>>,
                                  m3: map<CacheKey, Entry<CacheValue>>, now: int, chain: ChainView, book: AddressBook)
    requires FilledFromChain(m1, m2, now, chain, book) && FilledFromChain(m2, m3, now, chain, book)
    ensures FilledFromChain(m1, m3, now, chain, book)
  {
  }

  /** A cache that agrees with the chain still does after it was filled from the chain. */
  lemma FilledFromChainKeepsTruth(m: map<CacheKey, Entry<CacheValue>>, m': map<CacheKey, Entry<CacheValue>>,
                                  now: int, chain: ChainView, book: AddressBook)
    requires FilledFromChain(m, m', now, chain, book)
    ensures ChainTrue(m, now, chain, book) ==> ChainTrue(m', now, chain, book)
  {
  }

  /**
   * Storing the chain's own answer for a key fills the cache from the
   * chain: every other key's answer is unchanged.
   */
  lemma StoreFromChain(m: map<CacheKey, Entry<CacheValue>>, key: CacheKey, v: CacheValue, ttl: nat, now: int,
                       chain: ChainView, book: AddressBook)
    requires FromChain(key, v, chain, book)
    ensures forall k | k != key :: Lookup(Store(m, key, v, ttl, now), k, now) == Lookup(m, k, now)
    ensures FilledFromChain(m, Store(m, key, v, ttl, now), now, chain, book)
  {
    forall k | k != key
      ensures Lookup(Store(m, key, v, ttl, now), k, now) == Lookup(m, k, now)
    {
      StoreLeavesOtherKeys(m, key, v, ttl, now, k, now);
    }
  }

  /**
   * Every `underlying()` or `decimals()` read of `issued` that succeeded
   * left its lookup's key answered in `m` at `now`: a lookup that finished
   * stays cached even when a later read of the same call fails.
   */
  ghost predicate Memoised(chain: ChainView, issued: seq<Call>, m: map<CacheKey, Entry<CacheValue>>, now: int) {
    forall c | c in issued && !Fails(chain, c) ::
      && (c.Underlying? ==> Lookup(m, UnderlyingKey(Lower(c.market)), now).Some?)
      && (c.Decimals? ==> Lookup(m, DecimalsKey(Lower(c.token)), now).Some?)
  }

  /**
   * Every `underlying()` or `decimals()` read of `issued` is for a key `m`
   * did not answer at `now`: the lookups read the chain only on a miss.
   */
  ghost predicate ReadsOnMiss(issued: seq<Call>, m: map<CacheKey, Entry<CacheValue>>, now: int) {
    forall c | c in issued ::
      && (c.Underlying? ==> Lookup(m, UnderlyingKey(Lower(c.market)), now).None?)
      && (c.Decimals? ==> Lookup(m, DecimalsKey(Lower(c.token)), now).None?)
  }

  /** `issued` reads no underlying asset and no decimals. */
  predicate NoLookupReads(issued: seq<Call>) {
    forall c | c in issued :: !c.Underlying? && !c.Decimals?
  }

  /** Reads of neither kind trivially stay memoised and happen only on misses. */
  lemma NoLookupReadsMemoised(chain: ChainView, issued: seq<Call>, m: map<CacheKey, Entry<CacheValue>>,
                              m': map<CacheKey, Entry<CacheValue>>, now: int)
    requires NoLookupReads(issued)
    ensures Memoised(chain, issued, m, now) && ReadsOnMiss(issued, m', now)
  {
  }

  /**
   * Two calls in a row, the first taking the cache from `m0` to `m1` and
   * reading `issued`, the second from `m1` to `m2` reading `next`: together
   * they read only on misses of `m0`, and what either resolved is still
   * answered in `m2`.
   */
  lemma MemoStep(chain: ChainView, m0: map<CacheKey, Entry<CacheValue>>, m1: map<CacheKey, Entry<CacheValue>>,
                 m2: map<CacheKey, Entry<CacheValue>>, now: int, issued: seq<Call>, next: seq<Call>)
    requires Extends(m0, m1, now) && Extends(m1, m2, now)
    requires Memoised(chain, issued, m1, now) && ReadsOnMiss(issued, m0, now)
    requires Memoised(chain, next, m2, now) && ReadsOnMiss(next, m1, now)
    ensures Memoised(chain, issued + next, m2, now) && ReadsOnMiss(issued + next, m0, now)
  {
    forall c | c in issued + next
      ensures c.Underlying? && !Fails(chain, c) ==> Lookup(m2, UnderlyingKey(Lower(c.market)), now).Some?
      ensures c.Decimals? && !Fails(chain, c) ==> Lookup(m2, DecimalsKey(Lower(c.token)), now).Some?
      ensures c.Underlying? ==> Lookup(m0, UnderlyingKey(Lower(c.market)), now).None?
      ensures c.Decimals? ==> Lookup(m0, DecimalsKey(Lower(c.token)), now).None?
    {
      var before := if c in next then m0 else m1;
      if c.Underlying? && Lookup(before, UnderlyingKey(Lower(c.market)), now).Some? {
        assert UnderlyingKey(Lower(c.market)) in before;
      }
      if c.Decimals? && Lookup(before, DecimalsKey(Lower(c.token)), now).Some? {
        assert DecimalsKey(Lower(c.token)) in before;
      }
    }
  }

  /**
   * A repeated call skips what an earlier one resolved: once a call that
   * read `first` left the cache at `m`, a call that starts from `m` at any
   * instant `later` and reads only on misses reads the underlying of no
   * market, and the decimals of no token, that `first` read successfully,
   * in any spelling.
   */
  lemma RepeatSkipsResolved(chain: ChainView, book: AddressBook, first: seq<Call>, m: map<CacheKey, Entry<CacheValue>>,
                            now: int, second: seq<Call>, later: int)
    requires CacheTyped(m, book)
    requires Memoised(chain, first, m, now)
    requires ReadsOnMiss(second, m, later)
    ensures forall c, d | c in first && d in second && !Fails(chain, c) && c.Underlying? && d.Underlying? ::
      Lower(c.market) != Lower(d.market)
    ensures forall c, d | c in first && d in second && !Fails(chain, c) && c.Decimals? && d.Decimals? ::
      Lower(c.token) != Lower(d.token)
  {
    forall c, d | c in first && d in second && !Fails(chain, c) && c.Underlying? && d.Underlying?
      ensures Lower(c.market) != Lower(d.market)
    {
      PermanentAnswers(m, book, UnderlyingKey(Lower(c.market)), now, later);
    }
    forall c, d | c in first && d in second && !Fails(chain, c) && c.Decimals? && d.Decimals?
      ensures Lower(c.token) != Lower(d.token)
    {
      PermanentAnswers(m, book, DecimalsKey(Lower(c.token)), now, later);
    }
  }

  /** The three raw reads of one market agree with the row. */
  ghost predicate RowRead(chain: ChainView, account: string, row: MarketRow) {
    && chain.balanceOf(row.market, account) == Ok(row.balance)
    && chain.exchangeRateStored(row.market) == Ok(row.exchangeRate)
    && chain.borrowBalanceStored(row.market, account) == Ok(row.borrowBalance)
  }

  /** The underlying, decimals and price the row used are what the cache answers for them. */
  ghost predicate RowCached(m: map<CacheKey, Entry<CacheValue>>, now: int, row: MarketRow) {
    && Lookup(m, UnderlyingKey(Lower(row.market)), now) == Some(AddressValue(row.underlying))
    && Lookup(m, DecimalsKey(Lower(row.underlying)), now) == Some(DecimalsValue(row.decimals))
    && Lookup(m, PriceKey(Lower(row.underlying)), now) == Some(PriceValue(row.price))
  }

  /** Everything one loop iteration established about its row. */
  ghost predicate RowAccounted(row: MarketRow, market: string, chain: ChainView, account: string,
                               m: map<CacheKey, Entry<CacheValue>>, now: int, book: AddressBook)
  {
    && row.market == market
    && RowRead(chain, account, row)
    && RowCached(m, now, row)
    && row.underlying != book.nullAddress
    && row.price >= 0.0
  }

  /** One row per market of `assets`, in order, each accounted for by its own iteration. */
  ghost predicate Accounts(rows: seq<MarketRow>, assets: seq<string>, chain: ChainView, account: string,
                           m: map<CacheKey, Entry<CacheValue>>, now: int, book: AddressBook)
    decreases |rows|
  {
    && |rows| == |assets|
    && (rows != [] ==>
         && Accounts(rows[..|rows| - 1], assets[..|assets| - 1], chain, account, m, now, book)
         && RowAccounted(rows[|rows| - 1], assets[|assets| - 1], chain, account, m, now, book))
  }

  /** Read per index: the i-th row belongs to the i-th market. */
  lemma {:induction false} AccountsAt(rows: seq<MarketRow>, assets: seq<string>, chain: ChainView, account: string,
                                      m: map<CacheKey, Entry<CacheValue>>, now: int, book: AddressBook, i: nat)
    requires Accounts(rows, assets, chain, account, m, now, book)
    requires i < |rows|
    ensures i < |assets| && RowAccounted(rows[i], assets[i], chain, account, m, now, book)
    decreases |rows|
  {
    if i < |rows| - 1 {
      AccountsAt(rows[..|rows| - 1], assets[..|assets| - 1], chain, account, m, now, book, i);
    }
  }

  lemma AccountsAppend(rows: seq<MarketRow>, assets: seq<string>, row: MarketRow, market: string, chain: ChainView,
                       account: string, m: map<CacheKey, Entry<CacheValue>>, now: int, book: AddressBook)
    requires Accounts(rows, assets, chain, account, m, now, book)
    requires RowAccounted(row, market, chain, account, m, now, book)
    ensures Accounts(rows + [row], assets + [market], chain, account, m, now, book)
  {
    assert (rows + [row])[..|rows|] == rows;
    assert (assets + [market])[..|assets|] == assets;
  }

  lemma {:induction false} AccountsExtend(rows: seq<MarketRow>, assets: seq<string>, chain: ChainView, account: string,
                                          m: map<CacheKey, Entry<CacheValue>>, m': map<CacheKey, Entry<CacheValue>>, now: int, book: AddressBook)
    requires Accounts(rows, assets, chain, account, m, now, book)
    requires Extends(m, m', now)
    ensures Accounts(rows, assets, chain, account, m', now, book)
    decreases |rows|
  {
    if rows != [] {
      AccountsExtend(rows[..|rows| - 1], assets[..|assets| - 1], chain, account, m, m', now, book);
      var row := rows[|rows| - 1];
      assert Lookup(m, UnderlyingKey(Lower(row.market)), now).Some?;
      assert Lookup(m, DecimalsKey(Lower(row.underlying)), now).Some?;
      assert Lookup(m, PriceKey(Lower(row.underlying)), now).Some?;
    }
  }

  /** One more iteration: the rows so far stay accounted as the cache grows, and the new row joins them. */
  lemma AccountsStep(rows: seq<MarketRow>, assets: seq<string>, i: nat, row: MarketRow, chain: ChainView, account: string,
                     m: map<CacheKey, Entry<CacheValue>>, m': map<CacheKey, Entry<CacheValue>>, now: int, book: AddressBook)
    requires i < |assets|
    requires Accounts(rows, assets[..i], chain, account, m, now, book)
    requires Extends(m, m', now)
    requires RowAccounted(row, assets[i], chain, account, m', now, book)
    ensures Accounts(rows + [row], assets[..i + 1], chain, account, m', now, book)
  {
    AccountsExtend(rows, assets[..i], chain, account, m, m', now, book);
    AccountsAppend(rows, assets[..i], row, assets[i], chain, account, m', now, book);
    assert assets[..i + 1] == assets[..i] + [assets[i]];
  }

  /** Totals over accounted rows are never negative: every row's price, hence its USD amounts, is not. */
  lemma AccountedTotalsNonnegative(rows: seq<MarketRow>, assets: seq<string>, chain: ChainView, account: string,
                                   m: map<CacheKey, Entry<CacheValue>>, now: int, book: AddressBook)
    requires Accounts(rows, assets, chain, account, m, now, book)
    ensures Total(rows, SuppliedUsd) >= 0.0 && Total(rows, BorrowedUsd) >= 0.0
  {
    forall j | 0 <= j < |rows| ensures rows[j].price >= 0.0 {
      AccountsAt(rows, assets, chain, account, m, now, book, j);
    }
  }

  /**
   * A row the loop accounted for, in a cache that agrees with the chain, is
   * the chain's own row for that market: the cached underlying, decimals and
   * price are what the chain reads for them.
   */
  lemma RowFromChain(row: MarketRow, market: string, chain: ChainView, account: string,
                     m: map<CacheKey, Entry<CacheValue>>, now: int, book: AddressBook)
    requires WellFormed(book) && UsdcPricePositive(chain, book) && CaseInsensitive(chain)
    requires RowAccounted(row, market, chain, account, m, now, book)
    requires ChainTrue(m, now, chain, book)
    ensures ChainRow(chain, book, account, market) == Ok(row)
  {
    var uk, dk, pk := UnderlyingKey(Lower(market)), DecimalsKey(Lower(row.underlying)), PriceKey(Lower(row.underlying));
    assert FromChain(uk, Lookup(m, uk, now).value, chain, book);
    assert FromChain(dk, Lookup(m, dk, now).value, chain, book);
    assert FromChain(pk, Lookup(m, pk, now).value, chain, book);
    assert ChainAsset(chain, book, market) == Ok((row.underlying, row.decimals));
  }

  /** Rows the loop accounted for, in a cache that agrees with the chain, are the chain's own rows. */
  lemma {:induction false} ChainRowsFromAccounts(rows: seq<MarketRow>, assets: seq<string>, chain: ChainView, account: string,
                                                 m: map<CacheKey, Entry<CacheValue>>, now: int, book: AddressBook)
    requires WellFormed(book) && UsdcPricePositive(chain, book) && CaseInsensitive(chain)
    requires Accounts(rows, assets, chain, account, m, now, book)
    requires ChainTrue(m, now, chain, book)
    ensures ChainRows(chain, book, account, assets) == Ok(rows)
    decreases |rows|
  {
    if rows != [] {
      ChainRowsFromAccounts(rows[..|rows| - 1], assets[..|assets| - 1], chain, account, m, now, book);
      RowFromChain(rows[|rows| - 1], assets[|assets| - 1], chain, account, m, now, book);
      assert rows == rows[..|rows| - 1] + [rows[|rows| - 1]];
    }
  }

  /** The loop stopped at market `i`: its failure is the failure of the chain's rows for the whole list. */
  lemma ChainRowsFailAt(rows: seq<MarketRow>, assets: seq<string>, i: nat, chain: ChainView, account: string,
                        m: map<CacheKey, Entry<CacheValue>>, now: int, book: AddressBook, message: string)
    requires WellFormed(book) && UsdcPricePositive(chain, book) && CaseInsensitive(chain)
    requires i < |assets|
    requires Accounts(rows, assets[..i], chain, account, m, now, book)
    requires ChainTrue(m, now, chain, book)
    requires ChainRow(chain, book, account, assets[i]) == Err(message)
    ensures ChainRows(chain, book, account, assets) == Err(message)
  {
    ChainRowsFromAccounts(rows, assets[..i], chain, account, m, now, book);
    assert assets[..i + 1][..i] == assets[..i];
    ChainRowsFailEarly(chain, book, account, assets, i + 1);
  }

  /**
   * The cache keys one iteration of the loop may write for `market`: its
   * underlying key and, once `m` answers the underlying, that asset's
   * decimals and price keys.
   */
  ghost function MarketKeys(m: map<CacheKey, Entry<CacheValue>>, now: int, market: string): set<CacheKey> {
    var uk := UnderlyingKey(Lower(market));
    var answer: Option<CacheValue> := Lookup(m, uk, now);
    {uk} + match answer
           case Some(AddressValue(u)) => {DecimalsKey(Lower(u)), PriceKey(Lower(u))}
           case _ => {}
  }

  ghost function AllMarketKeys(m: map<CacheKey, Entry<CacheValue>>, now: int, assets: seq<string>): set<CacheKey>
    decreases |assets|
  {
    if assets == [] then {}
    else AllMarketKeys(m, now, assets[..|assets| - 1]) + MarketKeys(m, now, assets[|assets| - 1])
  }

  lemma {:induction false} AllMarketKeysGrow(m: map<CacheKey, Entry<CacheValue>>, m': map<CacheKey, Entry<CacheValue>>,
                                             now: int, assets: seq<string>)
    requires Extends(m, m', now)
    ensures AllMarketKeys(m, now, assets) <= AllMarketKeys(m', now, assets)
    decreases |assets|
  {
    if assets != [] {
      AllMarketKeysGrow(m, m', now, assets[..|assets| - 1]);
      var uk := UnderlyingKey(Lower(assets[|assets| - 1]));
      if Lookup(m, uk, now).Some? {
        assert uk in m;
      }
    }
  }

  lemma {:induction false} AllMarketKeysPrefix(m: map<CacheKey, Entry<CacheValue>>, now: int, assets: seq<string>, j: nat)
    requires j <= |assets|
    ensures AllMarketKeys(m, now, assets[..j]) <= AllMarketKeys(m, now, assets)
    decreases |assets|
  {
    if j < |assets| {
      var init := assets[..|assets| - 1];
      assert init[..j] == assets[..j];
      AllMarketKeysPrefix(m, now, init, j);
    } else {
      assert assets[..j] == assets;
    }
  }

  /** The loop's two `+=` on a position: adding one market's figures to the totals over `rows`. */
  lemma PositionSnoc(rows: seq<MarketRow>, row: MarketRow, supplied: real, borrowed: real, usd: Position)
    requires supplied == Total(rows, SuppliedUsd) && borrowed == Total(rows, BorrowedUsd)
    requires usd == Position(SuppliedUsd(row), BorrowedUsd(row))
    ensures supplied + usd.supplied == Total(rows + [row], SuppliedUsd)
    ensures borrowed + usd.borrowed == Total(rows + [row], BorrowedUsd)
  {
    TotalSnoc(rows, row, SuppliedUsd);
    TotalSnoc(rows, row, BorrowedUsd);
  }

  /**
   * One more iteration: keys the cache held before it were written for the
   * earlier markets, the iteration wrote keys for its own market, and
   * answers the cache gave are kept; so every key is one of the first
   * `i + 1` markets' keys, and one of all the markets' keys.
   */
  lemma StepKeys(start: map<CacheKey, Entry<CacheValue>>, m0: map<CacheKey, Entry<CacheValue>>,
                 m1: map<CacheKey, Entry<CacheValue>>, now: int, assets: seq<string>, i: nat)
    requires i < |assets|
    requires m0.Keys <= start.Keys + AllMarketKeys(m0, now, assets[..i])
    requires Extends(m0, m1, now)
    requires m1.Keys <= m0.Keys + MarketKeys(m1, now, assets[i])
    ensures m1.Keys <= start.Keys + AllMarketKeys(m1, now, assets[..i + 1])
    ensures m1.Keys <= start.Keys + AllMarketKeys(m1, now, assets)
  {
    AllMarketKeysGrow(m0, m1, now, assets[..i]);
    assert assets[..i + 1][..i] == assets[..i];
    AllMarketKeysPrefix(m1, now, assets, i + 1);
  }

  /**
   * One market's two cache-touching steps: resolving the underlying and
   * its decimals took the cache from `m0` to `m1` reading `issued`, valuing
   * the market took it from `m1` to `m2` reading `next`. The cache facts of
   * the steps compose, the keys stay within the market's own, and `m2`
   * still answers the underlying and decimals `m1` answered.
   */
  lemma MarketSteps(m0: map<CacheKey, Entry<CacheValue>>, m1: map<CacheKey, Entry<CacheValue>>, m2: map<CacheKey, Entry<CacheValue>>,
                    now: int, chain: ChainView, book: AddressBook, market: string, underlying: string, decimals: nat,
                    issued: seq<Call>, next: seq<Call>)
    requires Extends(m0, m1, now) && StoredByKind(m0, m1, now) && FilledFromChain(m0, m1, now, chain, book)
    requires Extends(m1, m2, now) && StoredByKind(m1, m2, now) && FilledFromChain(m1, m2, now, chain, book)
    requires m1.Keys <= m0.Keys + {UnderlyingKey(Lower(market))} + {DecimalsKey(Lower(underlying))}
    requires m2.Keys <= m1.Keys + {PriceKey(Lower(underlying))}
    requires Lookup(m1, UnderlyingKey(Lower(market)), now) == Some(AddressValue(underlying))
    requires Lookup(m1, DecimalsKey(Lower(underlying)), now) == Some(DecimalsValue(decimals))
    requires Memoised(chain, issued, m1, now) && ReadsOnMiss(issued, m0, now) && NoLookupReads(next)
    ensures Extends(m0, m2, now) && StoredByKind(m0, m2, now) && FilledFromChain(m0, m2, now, chain, book)
    ensures m2.Keys <= m0.Keys + MarketKeys(m2, now, market)
    ensures Lookup(m2, UnderlyingKey(Lower(market)), now) == Some(AddressValue(underlying))
    ensures Lookup(m2, DecimalsKey(Lower(underlying)), now) == Some(DecimalsValue(decimals))
    ensures Memoised(chain, issued + next, m2, now) && ReadsOnMiss(issued + next, m0, now)
    ensures ChainTrue(m0, now, chain, book) ==> ChainTrue(m1, now, chain, book)
  {
    ExtendsTransitive(m0, m1, m2, now);
    StoredByKindTransitive(m0, m1, m2, now);
    FilledFromChainTransitive(m0, m1, m2, now, chain, book);
    FilledFromChainKeepsTruth(m0, m1, now, chain, book);
    NoLookupReadsMemoised(chain, next, m2, m1, now);
    MemoStep(chain, m0, m1, m2, now, issued, next);
    assert UnderlyingKey(Lower(market)) in m1;
    assert DecimalsKey(Lower(underlying)) in m1;
  }

  /**
   * What the loop of `getRariBalance` knows after its first `i` markets: the
   * cache `m` kept `start`'s entries except where it stored afresh, by kind,
   * only keys `start` did not answer, filled them from the chain, holds no
   * key beyond those markets' lookups, and `rows` account for those markets
   * in list order.
   */
  ghost predicate LoopState(start: map<CacheKey, Entry<CacheValue>>, m: map<CacheKey, Entry<CacheValue>>, now: int, chain: ChainView, book: AddressBook,
                            account: string, assets: seq<string>, i: nat, rows: seq<MarketRow>)
  {
    && i <= |assets|
    && StoredByKind(start, m, now)
    && FilledFromChain(start, m, now, chain, book)
    && m.Keys <= start.Keys + AllMarketKeys(m, now, assets[..i])
    && Accounts(rows, assets[..i], chain, account, m, now, book)
  }

  /** A market valued successfully (cache `m0` to `m1`) extends the loop's state by its row. */
  lemma StepSucceeds(start: map<CacheKey, Entry<CacheValue>>, m0: map<CacheKey, Entry<CacheValue>>, m1: map<CacheKey, Entry<CacheValue>>, now: int, chain: ChainView, book: AddressBook,
                     account: string, assets: seq<string>, i: nat, rows: seq<MarketRow>, row: MarketRow)
    requires i < |assets|
    requires LoopState(start, m0, now, chain, book, account, assets, i, rows)
    requires Extends(m0, m1, now) && StoredByKind(m0, m1, now) && FilledFromChain(m0, m1, now, chain, book)
    requires m1.Keys <= m0.Keys + MarketKeys(m1, now, assets[i])
    requires RowAccounted(row, assets[i], chain, account, m1, now, book)
    ensures LoopState(start, m1, now, chain, book, account, assets, i + 1, rows + [row])
  {
    StoredByKindTransitive(start, m0, m1, now);
    FilledFromChainTransitive(start, m0, m1, now, chain, book);
    StepKeys(start, m0, m1, now, assets, i);
    AccountsStep(rows, assets, i, row, chain, account, m0, m1, now, book);
  }

  /**
   * A market whose valuation failed with `message` (cache `m0` to `m1`) ends
   * the loop: the cache still only holds lookups of the list's markets, and
   * when `start` told the truth the chain-only reference fails the same way.
   */
  lemma StepFails(start: map<CacheKey, Entry<CacheValue>>, m0: map<CacheKey, Entry<CacheValue>>, m1: map<CacheKey, Entry<CacheValue>>, now: int, chain: ChainView, book: AddressBook,
                  account: string, assets: seq<string>, i: nat, rows: seq<MarketRow>, message: string)
    requires WellFormed(book) && UsdcPricePositive(chain, book) && CaseInsensitive(chain)
    requires i < |assets|
    requires LoopState(start, m0, now, chain, book, account, assets, i, rows)
    requires Extends(m0, m1, now) && StoredByKind(m0, m1, now) && FilledFromChain(m0, m1, now, chain, book)
    requires m1.Keys <= m0.Keys + MarketKeys(m1, now, assets[i])
    requires ChainTrue(m0, now, chain, book) ==> ChainRow(chain, book, account, assets[i]) == Err(message)
    ensures Extends(start, m1, now) && StoredByKind(start, m1, now) && FilledFromChain(start, m1, now, chain, book)
    ensures m1.Keys <= start.Keys + AllMarketKeys(m1, now, assets)
    ensures ChainTrue(start, now, chain, book) ==> ChainRows(chain, book, account, assets) == Err(message)
  {
    StoredByKindTransitive(start, m0, m1, now);
    StoredByKindExtends(start, m1, now);
    FilledFromChainTransitive(start, m0, m1, now, chain, book);
    FilledFromChainKeepsTruth(start, m0, now, chain, book);
    StepKeys(start, m0, m1, now, assets, i);
    if ChainTrue(m0, now, chain, book) {
      ChainRowsFailAt(rows, assets, i, chain, account, m0, now, book, message);
    }
  }

  /**
   * The loop's state after the whole list: the cache facts hold for `assets`
   * itself, and when `start` told the truth the rows are the chain-only
   * reference's rows.
   */
  lemma LoopDone(start: map<CacheKey, Entry<CacheValue>>, m: map<CacheKey, Entry<CacheValue>>, now: int, chain: ChainView, book: AddressBook,
                 account: string, assets: seq<string>, rows: seq<MarketRow>)
    requires WellFormed(book) && UsdcPricePositive(chain, book) && CaseInsensitive(chain)
    requires LoopState(start, m, now, chain, book, account, assets, |assets|, rows)
    ensures Extends(start, m, now) && StoredByKind(start, m, now) && FilledFromChain(start, m, now, chain, book)
    ensures m.Keys <= start.Keys + AllMarketKeys(m, now, assets)
    ensures Accounts(rows, assets, chain, account, m, now, book)
    ensures ChainTrue(start, now, chain, book) ==> ChainRows(chain, book, account, assets) == Ok(rows)
  {
    assert assets[..|assets|] == assets;
    StoredByKindExtends(start, m, now);
    FilledFromChainKeepsTruth(start, m, now, chain, book);
    if ChainTrue(start, now, chain, book) {
      ChainRowsFromAccounts(rows, assets, chain, account, m, now, book);
    }
  }

  class Comptroller {
    const book: AddressBook
    const cache: Cache<CacheKey, CacheValue>
    /** The chain reads issued so far, in order. */
    ghost var calls: seq<Call>

    ghost predicate Valid()
      reads this, cache
    {
      WellFormed(book) && CacheTyped(cache.entries, book)
    }

    constructor (cache: Cache<CacheKey, CacheValue>, book: AddressBook)
      requires WellFormed(book) && CacheTyped(cache.entries, book)
      ensures Valid()
      ensures this.cache == cache && this.book == book && calls == []
    {
      this.cache := cache;
      this.book := book;
      calls := [];
    }

    /** `getDecimals(address)`: cached forever after the first successful `decimals()` read. */
    method GetDecimals(chain: ChainView, now: int, address: string) returns (r: Result<nat>, ghost issued: seq<Call>)
      requires Valid()
      requires CaseInsensitive(chain)
      modifies this, cache
      ensures Valid()
      ensures old(cache.Get(DecimalsKey(Lower(address)), now)).Some? ==>
        && old(cache.Get(DecimalsKey(Lower(address)), now)).value.DecimalsValue?
        && r == Ok(old(cache.Get(DecimalsKey(Lower(address)), now)).value.decimals)
        && issued == [] && cache.entries == old(cache.entries)
      ensures old(cache.Get(DecimalsKey(Lower(address)), now)).None? ==>
        && issued == [Decimals(address)]
        && r == chain.decimals(address)
        && cache.entries == if r.Ok?
             then Store(old(cache.entries), DecimalsKey(Lower(address)), DecimalsValue(r.value), 0, now)
             else old(cache.entries)
      ensures r.Ok? ==> cache.Get(DecimalsKey(Lower(address)), now) == Some(DecimalsValue(r.value))
      ensures Extends(old(cache.entries), cache.entries, now)
      ensures StoredByKind(old(cache.entries), cache.entries, now)
      ensures FilledFromChain(old(cache.entries), cache.entries, now, chain, book)
      ensures cache.entries.Keys <= old(cache.entries).Keys + {DecimalsKey(Lower(address))}
      ensures ChainTrue(old(cache.entries), now, chain, book) ==> r == chain.decimals(address)
      ensures Memoised(chain, issued, cache.entries, now) && ReadsOnMiss(issued, old(cache.entries), now)
      ensures calls == old(calls) + issued
      ensures StopsAtFirstFailure(chain, issued, r.Err?)
    {
      issued := [];
      var key := DecimalsKey(Lower(address));
      var cached := cache.Get(key, now);
      if cached.None? {
        issued := [Decimals(address)];
        calls := calls + issued;
        var decimals := chain.decimals(address);
        if decimals.Err? {
          r := Err(decimals.message);
          return;
        }
        StoreOnMissExtends(cache.entries, key, DecimalsValue(decimals.value), 0, now);
        StoreByKind(cache.entries, key, DecimalsValue(decimals.value), now);
        StoreFromChain(cache.entries, key, DecimalsValue(decimals.value), 0, now, chain, book);
        cache.Set(key, DecimalsValue(decimals.value), Some(0), now);
        r := Ok(decimals.value);
      } else {
        assert key in cache.entries;
        r := Ok(cached.value.decimals);
      }
    }

    /** `getUnderlying(market)`: cached forever; never the null address. */
    method GetUnderlying(chain: ChainView, now: int, market: string) returns (r: Result<string>, ghost issued: seq<Call>)
      requires Valid()
      requires CaseInsensitive(chain)
      modifies this, cache
      ensures Valid()
      ensures old(cache.Get(UnderlyingKey(Lower(market)), now)).Some? ==>
        && old(cache.Get(UnderlyingKey(Lower(market)), now)).value.AddressValue?
        && r == Ok(old(cache.Get(UnderlyingKey(Lower(market)), now)).value.address)
        && issued == [] && cache.entries == old(cache.entries)
      ensures old(cache.Get(UnderlyingKey(Lower(market)), now)).None? ==>
        && issued == [Underlying(market)]
        && r == UnderlyingRead(chain, book, market)
        && cache.entries == if r.Ok?
             then Store(old(cache.entries), UnderlyingKey(Lower(market)), AddressValue(r.value), 0, now)
             else old(cache.entries)
      ensures r.Ok? ==> r.value != book.nullAddress
      ensures r.Ok? ==> cache.Get(UnderlyingKey(Lower(market)), now) == Some(AddressValue(r.value))
      ensures Extends(old(cache.entries), cache.entries, now)
      ensures StoredByKind(old(cache.entries), cache.entries, now)
      ensures FilledFromChain(old(cache.entries), cache.entries, now, chain, book)
      ensures cache.entries.Keys <= old(cache.entries).Keys + {UnderlyingKey(Lower(market))}
      ensures ChainTrue(old(cache.entries), now, chain, book) ==> r == UnderlyingRead(chain, book, market)
      ensures Memoised(chain, issued, cache.entries, now) && ReadsOnMiss(issued, old(cache.entries), now)
      ensures calls == old(calls) + issued
      ensures StopsAtFirstFailure(chain, issued, r.Err?)
    {
      issued := [];
      var key := UnderlyingKey(Lower(market));
      var cached := cache.Get(key, now);
      if cached.None? {
        issued := [Underlying(market)];
        calls := calls + issued;
        var reported := chain.underlying(market);
        if reported.Err? {
          r := Err(reported.message);
          return;
        }
        var underlying := reported.value;
        if underlying == book.nullAddress {
          underlying := book.weth;
        }
        StoreOnMissExtends(cache.entries, key, AddressValue(underlying), 0, now);
        StoreByKind(cache.entries, key, AddressValue(underlying), now);
        StoreFromChain(cache.entries, key, AddressValue(underlying), 0, now, chain, book);
        cache.Set(key, AddressValue(underlying), Some(0), now);
        r := Ok(underlying);
      } else {
        assert key in cache.entries;
        r := Ok(cached.value.address);
      }
    }

    /** `getPrice(address)`: the triangulated USD price, cached for the standard TTL. */
    method GetPrice(chain: ChainView, now: int, address: string) returns (r: Result<real>, ghost issued: seq<Call>)
      requires Valid()
      requires UsdcPricePositive(chain, book)
      requires CaseInsensitive(chain)
      modifies this, cache
      ensures Valid()
      ensures old(cache.Get(PriceKey(Lower(address)), now)).Some? ==>
        && old(cache.Get(PriceKey(Lower(address)), now)).value.PriceValue?
        && r == Ok(old(cache.Get(PriceKey(Lower(address)), now)).value.usd)
        && issued == [] && cache.entries == old(cache.entries)
      ensures old(cache.Get(PriceKey(Lower(address)), now)).None? ==>
        && issued == PriceCalls(chain, book, address)
        && r == PriceRead(chain, book, address)
        && cache.entries == if r.Ok?
             then Store(old(cache.entries), PriceKey(Lower(address)), PriceValue(r.value), STD_TTL, now)
             else old(cache.entries)
      ensures r.Ok? ==> r.value >= 0.0
      ensures r.Ok? ==> cache.Get(PriceKey(Lower(address)), now) == Some(PriceValue(r.value))
      ensures Extends(old(cache.entries), cache.entries, now)
      ensures StoredByKind(old(cache.entries), cache.entries, now)
      ensures FilledFromChain(old(cache.entries), cache.entries, now, chain, book)
      ensures cache.entries.Keys <= old(cache.entries).Keys + {PriceKey(Lower(address))}
      ensures ChainTrue(old(cache.entries), now, chain, book) ==> r == PriceRead(chain, book, address)
      ensures NoLookupReads(issued)
      ensures calls == old(calls) + issued
      ensures StopsAtFirstFailure(chain, issued, r.Err?)
    {
      issued := [];
      var key := PriceKey(Lower(address));
      var cached := cache.Get(key, now);
      if cached.None? {
        issued := [OraclePrice(address)];
        calls := calls + issued;
        var tokenPriceRaw := chain.price(address);
        if tokenPriceRaw.Err? {
          r := Err(tokenPriceRaw.message);
          return;
        }
        issued := issued + [OraclePrice(book.usdc)];
        calls := calls + [OraclePrice(book.usdc)];
        var usdcPriceRaw := chain.price(book.usdc);
        if usdcPriceRaw.Err? {
          r := Err(usdcPriceRaw.message);
          return;
        }
        var tokenPrice := UsdPrice(tokenPriceRaw.value, usdcPriceRaw.value);
        StoreOnMissExtends(cache.entries, key, PriceValue(tokenPrice), STD_TTL, now);
        StoreByKind(cache.entries, key, PriceValue(tokenPrice), now);
        StoreFromChain(cache.entries, key, PriceValue(tokenPrice), STD_TTL, now, chain, book);
        cache.Set(key, PriceValue(tokenPrice), None, now);
        r := Ok(tokenPrice);
      } else {
        assert key in cache.entries;
        r := Ok(cached.value.usd);
      }
    }
    /**
     * The `getUnderlying(assetInstance)` and `getDecimals(underlying)` calls of the
     * loop body: the market's underlying asset, then that asset's decimals,
     * both through the cache.
     */
    method ResolveAsset(chain: ChainView, now: int, market: string)
      returns (r: Result<(string, nat)>, ghost issued: seq<Call>)
      requires Valid()
      requires CaseInsensitive(chain)
      modifies this, cache
      ensures Valid()
      ensures calls == old(calls) + issued
      ensures StopsAtFirstFailure(chain, issued, r.Err?)
      ensures Extends(old(cache.entries), cache.entries, now)
      ensures StoredByKind(old(cache.entries), cache.entries, now)
      ensures FilledFromChain(old(cache.entries), cache.entries, now, chain, book)
      ensures cache.entries.Keys <= old(cache.entries).Keys + {UnderlyingKey(Lower(market))}
                                    + (if r.Ok? then {DecimalsKey(Lower(r.value.0))} else {})
      ensures ChainTrue(old(cache.entries), now, chain, book) ==> r == ChainAsset(chain, book, market)
      ensures Memoised(chain, issued, cache.entries, now) && ReadsOnMiss(issued, old(cache.entries), now)
      ensures r.Ok? ==>
        && r.value.0 != book.nullAddress
        && cache.Get(UnderlyingKey(Lower(market)), now) == Some(AddressValue(r.value.0))
        && cache.Get(DecimalsKey(Lower(r.value.0)), now) == Some(DecimalsValue(r.value.1))
    {
      var underlying;
      underlying, issued := GetUnderlying(chain, now, market);
      if underlying.Err? {
        r := Err(underlying.message);
        return;
      }
      ghost var entries1 := cache.entries;
      var underlyingDecimals, sub := GetDecimals(chain, now, underlying.value);
      MemoStep(chain, old(cache.entries), entries1, cache.entries, now, issued, sub);
      StopsAfterSuccesses(chain, issued, sub, underlyingDecimals.Err?);
      LogGrows(calls, old(calls), issued, sub);
      issued := issued + sub;
      FilledFromChainTransitive(old(cache.entries), entries1, cache.entries, now, chain, book);
      FilledFromChainKeepsTruth(old(cache.entries), entries1, now, chain, book);
      StoredByKindTransitive(old(cache.entries), entries1, cache.entries, now);
      if underlyingDecimals.Err? {
        r := Err(underlyingDecimals.message);
        return;
      }
      ExtendsTransitive(old(cache.entries), entries1, cache.entries, now);
      assert Lookup(entries1, UnderlyingKey(Lower(market)), now).Some?;
      r := Ok((underlying.value, underlyingDecimals.value));
    }

    /** The `exchangeRateStored()` and `borrowBalanceStored(account)` reads of the loop body, in that order. */
    method ReadRates(chain: ChainView, account: string, market: string) returns (r: Result<(nat, nat)>, ghost issued: seq<Call>)
      requires Valid()
      modifies this
      ensures Valid()
      ensures calls == old(calls) + issued
      ensures r == RateReads(chain, account, market)
      ensures issued == [ExchangeRateStored(market)]
                        + (if chain.exchangeRateStored(market).Err? then [] else [BorrowBalanceStored(market, account)])
      ensures StopsAtFirstFailure(chain, issued, r.Err?)
    {
      issued := [ExchangeRateStored(market)];
      calls := calls + issued;
      var rateRead := chain.exchangeRateStored(market);
      if rateRead.Err? {
        r := Err(rateRead.message);
        return;
      }

      issued := issued + [BorrowBalanceStored(market, account)];
      calls := calls + [BorrowBalanceStored(market, account)];
      var borrowRead := chain.borrowBalanceStored(market, account);
      if borrowRead.Err? {
        r := Err(borrowRead.message);
        return;
      }
      r := Ok((rateRead.value, borrowRead.value));
    }

    /**
     * The rest of the loop body, once the underlying asset and its
     * decimals are known: read the stored exchange rate and borrow balance,
     * resolve the underlying's price through the cache, and value the
     * market's supply (`balanceRaw` market tokens) and borrow in USD.
     */
    method ValueMarket(chain: ChainView, now: int, account: string, market: string,
                       balanceRaw: nat, underlying: string, underlyingDecimals: nat)
      returns (r: Result<Position>, ghost row: MarketRow, ghost issued: seq<Call>)
      requires Valid()
      requires UsdcPricePositive(chain, book)
      requires CaseInsensitive(chain)
      modifies this, cache
      ensures Valid()
      ensures calls == old(calls) + issued
      ensures StopsAtFirstFailure(chain, issued, r.Err?)
      ensures Extends(old(cache.entries), cache.entries, now)
      ensures StoredByKind(old(cache.entries), cache.entries, now)
      ensures FilledFromChain(old(cache.entries), cache.entries, now, chain, book)
      ensures cache.entries.Keys <= old(cache.entries).Keys + {PriceKey(Lower(underlying))}
      ensures ChainTrue(old(cache.entries), now, chain, book) ==>
        ChainReads(chain, book, account, market, balanceRaw, underlying, underlyingDecimals)
          == if r.Ok? then Ok(row) else Err(r.message)
      ensures r.Err? ==> cache.entries == old(cache.entries)
      ensures issued == ValueCalls(chain, book, account, market, underlying, old(cache.Get(PriceKey(Lower(underlying)), now)).Some?)
      ensures r.Ok? ==>
        && row.market == market && row.underlying == underlying
        && row.decimals == underlyingDecimals && row.balance == balanceRaw
        && chain.exchangeRateStored(market) == Ok(row.exchangeRate)
        && chain.borrowBalanceStored(market, account) == Ok(row.borrowBalance)
        && cache.Get(PriceKey(Lower(underlying)), now) == Some(PriceValue(row.price))
        && row.price >= 0.0
        && r.value == Position(SuppliedUsd(row), BorrowedUsd(row))
    {
      row := MarketRow(market, underlying, underlyingDecimals, 0.0, balanceRaw, 0, 0);
      var rates;
      rates, issued := ReadRates(chain, account, market);
      if rates.Err? {
        r := Err(rates.message);
        return;
      }
      var (rate, borrow) := rates.value;

      var underlyingPrice, sub := GetPrice(chain, now, underlying);
      StopsAfterSuccesses(chain, issued, sub, underlyingPrice.Err?);
      LogGrows(calls, old(calls), issued, sub);
      issued := issued + sub;
      if underlyingPrice.Err? {
        r := Err(underlyingPrice.message);
        return;
      }

      var valued := MarketRow(market, underlying, underlyingDecimals, underlyingPrice.value,
                               balanceRaw, rate, borrow);
      row := valued;
      r := Ok(Position(SuppliedUsd(valued), BorrowedUsd(valued)));
    }

    /**
     * One iteration of the `getRariBalance` loop for `market`: read the
     * wallet's market-token balance, resolve underlying and decimals, then
     * value the market in USD. The first failed read fails it. `row`
     * records the values the iteration worked with.
     */
    method MarketUsd(chain: ChainView, now: int, account: string, market: string)
      returns (r: Result<Position>, ghost row: MarketRow, ghost issued: seq<Call>)
      requires Valid()
      requires UsdcPricePositive(chain, book)
      requires CaseInsensitive(chain)
      modifies this, cache
      ensures Valid()
      ensures calls == old(calls) + issued
      ensures |issued| > 0 && issued[0] == BalanceOf(market, account)
      ensures StopsAtFirstFailure(chain, issued, r.Err?)
      ensures Extends(old(cache.entries), cache.entries, now)
      ensures StoredByKind(old(cache.entries), cache.entries, now)
      ensures FilledFromChain(old(cache.entries), cache.entries, now, chain, book)
      ensures cache.entries.Keys <= old(cache.entries).Keys + MarketKeys(cache.entries, now, market)
      ensures ChainTrue(old(cache.entries), now, chain, book) ==>
        ChainRow(chain, book, account, market) == if r.Ok? then Ok(row) else Err(r.message)
      ensures Memoised(chain, issued, cache.entries, now) && ReadsOnMiss(issued, old(cache.entries), now)
      ensures r.Ok? ==>
        && RowAccounted(row, market, chain, account, cache.entries, now, book)
        && r.value == Position(SuppliedUsd(row), BorrowedUsd(row))
    {
      row := MarketRow(market, book.weth, 0, 0.0, 0, 0, 0);
      issued := [BalanceOf(market, account)];
      calls := calls + [BalanceOf(market, account)];
      var balanceRead := chain.balanceOf(market, account);
      if balanceRead.Err? {
        r := Err(balanceRead.message);
        return;
      }

      var asset, sub := ResolveAsset(chain, now, market);
      MemoStep(chain, old(cache.entries), old(cache.entries), cache.entries, now, issued, sub);
      StopsAfterSuccesses(chain, issued, sub, asset.Err?);
      LogGrows(calls, old(calls), issued, sub);
      issued := issued + sub;
      if asset.Err? {
        r := Err(asset.message);
        return;
      }
      var (underlying, underlyingDecimals) := asset.value;
      ghost var entries1 := cache.entries;

      r, row, sub := ValueMarket(chain, now, account, market, balanceRead.value, underlying, underlyingDecimals);
      MarketSteps(old(cache.entries), entries1, cache.entries, now, chain, book, market, underlying, underlyingDecimals, issued, sub);
      StopsAfterSuccesses(chain, issued, sub, r.Err?);
      LogGrows(calls, old(calls), issued, sub);
      issued := issued + sub;
    }

    /**
     * One pass of the `for` body over `getAssetsIn` for `assets[i]`: value the
     * market with `MarketUsd` and add its USD figures to the running totals
     * `supplied` and `borrowed`. `start` is the cache before the loop and
     * `rows` are the rows of the markets before `i`; on success `rows'`
     * extends them by this market's row.
     */
    method AddMarket(chain: ChainView, now: int, account: string, assets: seq<string>, i: nat,
                     supplied: real, borrowed: real, ghost start: map<CacheKey, Entry<CacheValue>>,
                     ghost rows: seq<MarketRow>)
      returns (r: Result<Position>, ghost rows': seq<MarketRow>, ghost issued: seq<Call>)
      requires Valid()
      requires UsdcPricePositive(chain, book)
      requires CaseInsensitive(chain)
      requires i < |assets|
      requires LoopState(start, cache.entries, now, chain, book, account, assets, i, rows)
      requires supplied == Total(rows, SuppliedUsd) && borrowed == Total(rows, BorrowedUsd)
      modifies this, cache
      ensures Valid()
      ensures calls == old(calls) + issued
      ensures StopsAtFirstFailure(chain, issued, r.Err?)
      ensures Extends(old(cache.entries), cache.entries, now)
      ensures Memoised(chain, issued, cache.entries, now) && ReadsOnMiss(issued, old(cache.entries), now)
      ensures r.Ok? ==>
        && LoopState(start, cache.entries, now, chain, book, account, assets, i + 1, rows')
        && r.value.supplied == Total(rows', SuppliedUsd)
        && r.value.borrowed == Total(rows', BorrowedUsd)
      ensures r.Err? ==>
        && Extends(start, cache.entries, now)
        && StoredByKind(start, cache.entries, now)
        && FilledFromChain(start, cache.entries, now, chain, book)
        && cache.entries.Keys <= start.Keys + AllMarketKeys(cache.entries, now, assets)
        && (ChainTrue(start, now, chain, book) ==> ChainRows(chain, book, account, assets) == Err(r.message))
    {
      ghost var entries0 := cache.entries;
      var usd;
      ghost var row;
      usd, row, issued := MarketUsd(chain, now, account, assets[i]);
      rows' := rows;
      if usd.Err? {
        StepFails(start, entries0, cache.entries, now, chain, book, account, assets, i, rows, usd.message);
        r := Err(usd.message);
        return;
      }
      StepSucceeds(start, entries0, cache.entries, now, chain, book, account, assets, i, rows, row);
      PositionSnoc(rows, row, supplied, borrowed, usd.value);
      rows' := rows + [row];
      r := Ok(Position(supplied + usd.value.supplied, borrowed + usd.value.borrowed));
    }

    /**
     * The loop of `getRariBalance` over `assets`: each market valued and added
     * to the running totals by one `AddMarket` pass, in list order. The
     * first failed read fails the whole loop. `rows` records, per market,
     * the values its step worked with.
     */
    method TotalMarkets(chain: ChainView, now: int, account: string, assets: seq<string>)
      returns (r: Result<Position>, ghost rows: seq<MarketRow>, ghost issued: seq<Call>)
      requires Valid()
      requires UsdcPricePositive(chain, book)
      requires CaseInsensitive(chain)
      modifies this, cache
      ensures Valid()
      ensures calls == old(calls) + issued
      ensures StopsAtFirstFailure(chain, issued, r.Err?)
      ensures Extends(old(cache.entries), cache.entries, now)
      ensures StoredByKind(old(cache.entries), cache.entries, now)
      ensures FilledFromChain(old(cache.entries), cache.entries, now, chain, book)
      ensures cache.entries.Keys <= old(cache.entries).Keys + AllMarketKeys(cache.entries, now, assets)
      ensures ChainTrue(old(cache.entries), now, chain, book) ==>
        ChainRows(chain, book, account, assets) == if r.Ok? then Ok(rows) else Err(r.message)
      ensures Memoised(chain, issued, cache.entries, now) && ReadsOnMiss(issued, old(cache.entries), now)
      ensures assets == [] ==> r == Ok(Position(0.0, 0.0)) && issued == [] && cache.entries == old(cache.entries)
      ensures r.Ok? ==>
        && Accounts(rows, assets, chain, account, cache.entries, now, book)
        && r.value == Position(Total(rows, SuppliedUsd), Total(rows, BorrowedUsd))
    {
      rows, issued := [], [];
      var totalSupplied, totalBorrowed := 0.0, 0.0;
      ghost var start := cache.entries;
      for i := 0 to |assets|
        invariant Valid()
        invariant calls == old(calls) + issued
        invariant AllSucceed(chain, issued)
        invariant LoopState(start, cache.entries, now, chain, book, account, assets, i, rows)
        invariant totalSupplied == Total(rows, SuppliedUsd) && totalBorrowed == Total(rows, BorrowedUsd)
        invariant i == 0 ==> issued == [] && cache.entries == start
        invariant Memoised(chain, issued, cache.entries, now) && ReadsOnMiss(issued, start, now)
      {
        var totals;
        ghost var sub;
        ghost var entries0 := cache.entries;
        StoredByKindExtends(start, entries0, now);
        totals, rows, sub := AddMarket(chain, now, account, assets, i, totalSupplied, totalBorrowed, start, rows);
        MemoStep(chain, start, entries0, cache.entries, now, issued, sub);
        StopsAfterSuccesses(chain, issued, sub, totals.Err?);
        LogGrows(calls, old(calls), issued, sub);
        issued := issued + sub;
        if totals.Err? {
          r := Err(totals.message);
          return;
        }
        totalSupplied, totalBorrowed := totals.value.supplied, totals.value.borrowed;
      }
      LoopDone(start, cache.entries, now, chain, book, account, assets, rows);
      r := Ok(Position(totalSupplied, totalBorrowed));
    }

    /**
     * `getRariBalance(account)`: the markets the wallet entered, read from
     * the comptroller, then the USD totals over them. A wallet in no market
     * has zero supplied and borrowed; the first failed read fails the call.
     */
    method GetRariBalance(chain: ChainView, now: int, account: string)
      returns (r: Result<Position>, ghost rows: seq<MarketRow>, ghost issued: seq<Call>)
      requires Valid()
      requires UsdcPricePositive(chain, book)
      requires CaseInsensitive(chain)
      modifies this, cache
      ensures Valid()
      ensures calls == old(calls) + issued
      ensures |issued| > 0 && issued[0] == AssetsIn(account)
      ensures StopsAtFirstFailure(chain, issued, r.Err?)
      ensures Extends(old(cache.entries), cache.entries, now)
      ensures StoredByKind(old(cache.entries), cache.entries, now)
      ensures FilledFromChain(old(cache.entries), cache.entries, now, chain, book)
      ensures cache.entries.Keys <= old(cache.entries).Keys
        + (if chain.assetsIn(account).Ok? then AllMarketKeys(cache.entries, now, chain.assetsIn(account).value) else {})
      ensures ChainTrue(old(cache.entries), now, chain, book) ==> r == ChainPosition(chain, book, account)
      ensures Memoised(chain, issued, cache.entries, now) && ReadsOnMiss(issued, old(cache.entries), now)
      ensures old(cache.entries) == map[] ==> r == ChainPosition(chain, book, account)
      ensures chain.assetsIn(account).Err? ==>
        r.Err? && issued == [AssetsIn(account)] && cache.entries == old(cache.entries)
      ensures chain.assetsIn(account) == Ok([]) ==>
        r == Ok(Position(0.0, 0.0)) && issued == [AssetsIn(account)] && cache.entries == old(cache.entries)
      ensures r.Ok? ==>
        && chain.assetsIn(account).Ok?
        && Accounts(rows, chain.assetsIn(account).value, chain, account, cache.entries, now, book)
        && r.value == Position(Total(rows, SuppliedUsd), Total(rows, BorrowedUsd))
      ensures r.Ok? ==> r.value.supplied >= 0.0 && r.value.borrowed >= 0.0
    {
      rows := [];
      issued := [AssetsIn(account)];
      calls := calls + [AssetsIn(account)];
      var assets := chain.assetsIn(account);
      if assets.Err? {
        r := Err(assets.message);
        return;
      }
      ghost var sub;
      r, rows, sub := TotalMarkets(chain, now, account, assets.value);
      MemoStep(chain, old(cache.entries), old(cache.entries), cache.entries, now, issued, sub);
      StopsAfterSuccesses(chain, issued, sub, r.Err?);
      LogGrows(calls, old(calls), issued, sub);
      issued := issued + sub;
      if r.Ok? {
        AccountedTotalsNonnegative(rows, assets.value, chain, account, cache.entries, now, book);
      }
    }
  }
}
