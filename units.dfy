/**
 * The arithmetic of `Comptroller.getRariBalance`: fixed-point scaling
 * (`formatUnits`), the oracle price triangulation of `getPrice`, the
 * per-market USD figures and their totals. JavaScript floats are modelled
 * as exact reals.
 */
module Units {

  /** 10^n as an exact real. */
  function Pow10(n: nat): (p: real)
    ensures p >= 1.0
  {
    if n == 0 then 1.0 else 10.0 * Pow10(n - 1)
  }

  lemma {:induction false} Pow10Add(a: nat, b: nat)
    ensures Pow10(a + b) == Pow10(a) * Pow10(b)
  {
    if b > 0 {
      Pow10Add(a, b - 1);
      calc {
        Pow10(a + b);
        10.0 * Pow10(a + b - 1);
        10.0 * (Pow10(a) * Pow10(b - 1));
        Pow10(a) * (10.0 * Pow10(b - 1));
        Pow10(a) * Pow10(b);
      }
    }
  }

  /**
   * `parseFloat(utils.formatUnits(value, decimals))`: a raw unsigned integer
   * read as a number with `decimals` fractional digits. Scaling back by
   * 10^decimals recovers the raw integer; the result is never negative.
   */
  function FormatUnits(value: nat, decimals: nat): (r: real)
    ensures 0.0 <= r
    ensures r * Pow10(decimals) == value as real
  {
    value as real / Pow10(decimals)
  }

  /** Fractional digits of a market-token balance. */
  const MARKET_TOKEN_DECIMALS: nat := 8
  /** The exchange rate carries this many fractional digits on top of the underlying's decimals. */
  const EXCHANGE_RATE_EXTRA_DECIMALS: nat := 10
  /** Fractional digits of an oracle price (native-currency units). */
  const ORACLE_DECIMALS: nat := 18

  /**
   * The USD price of a token from two oracle reads in native currency:
   * the token's price times one over the USDC price, each scaled by 10^18.
   */
  function UsdPrice(tokenPriceRaw: nat, usdcPriceRaw: nat): (usd: real)
    requires usdcPriceRaw > 0
    ensures 0.0 <= usd
    ensures usd * usdcPriceRaw as real == tokenPriceRaw as real
  {
    var tokenPriceInEth := FormatUnits(tokenPriceRaw, ORACLE_DECIMALS);
    var usdcPriceInEth := FormatUnits(usdcPriceRaw, ORACLE_DECIMALS);
    assert usdcPriceInEth > 0.0;
    var ethUsdPrice := 1.0 / usdcPriceInEth;
    UsdPriceCancels(tokenPriceRaw as real, usdcPriceRaw as real, Pow10(ORACLE_DECIMALS));
    tokenPriceInEth * ethUsdPrice
  }

  lemma UsdPriceCancels(t: real, u: real, scale: real)
    requires u > 0.0 && scale > 0.0
    ensures (t / scale) * (1.0 / (u / scale)) * u == t
  {
    assert 1.0 / (u / scale) == scale / u;
    assert (t / scale) * (scale / u) == t / u;
  }

  /** A token priced at 200 native units while USDC is priced at 0.1 native units is worth 2000 USD. */
  lemma UsdPriceExample()
    ensures UsdPrice(200 * 1_000_000_000_000_000_000, 100_000_000_000_000_000) == 2000.0
  {
    var usd := UsdPrice(200 * 1_000_000_000_000_000_000, 100_000_000_000_000_000);
    assert usd * 100_000_000_000_000_000.0 == 200_000_000_000_000_000_000.0;
  }

  /** What one loop iteration of `getRariBalance` knows about one entered market. */
  datatype MarketRow = MarketRow(
    market: string,        // the market (lending token) address from `getAssetsIn`
    underlying: string,    // its underlying asset, null address already replaced by WETH
    decimals: nat,         // the underlying asset's decimals
    price: real,           // the underlying asset's USD price
    balance: nat,          // raw `balanceOf(account)`, 8 fractional digits
    exchangeRate: nat,     // raw `exchangeRateStored()`, decimals + 10 fractional digits
    borrowBalance: nat)    // raw `borrowBalanceStored(account)`, decimals fractional digits

  /** `usdSupplied` of one market: token balance times exchange rate times price; not negative unless the price is. */
  function SuppliedUsd(row: MarketRow): (usd: real)
    ensures row.price >= 0.0 ==> usd >= 0.0
  {
    var balance := FormatUnits(row.balance, MARKET_TOKEN_DECIMALS);
    var exchangeRate := FormatUnits(row.exchangeRate, row.decimals + EXCHANGE_RATE_EXTRA_DECIMALS);
    assert balance * exchangeRate >= 0.0;
    balance * exchangeRate * row.price
  }

  /** `usdBorrowed` of one market: borrow balance times price; not negative unless the price is. */
  function BorrowedUsd(row: MarketRow): (usd: real)
    ensures row.price >= 0.0 ==> usd >= 0.0
  {
    FormatUnits(row.borrowBalance, row.decimals) * row.price
  }

  /**
   * The supplied figure is the raw product balance * exchangeRate scaled down
   * by 10^(decimals + 18): 8 digits for the token balance and decimals + 10
   * for the rate.
   */
  lemma SuppliedUsdScale(row: MarketRow)
    ensures SuppliedUsd(row) * Pow10(row.decimals + 18) == (row.balance * row.exchangeRate) as real * row.price
  {
    var b, x := row.balance as real, row.exchangeRate as real;
    var p8, pr := Pow10(8), Pow10(row.decimals + 10);
    Pow10Add(8, row.decimals + 10);
    assert Pow10(row.decimals + 18) == p8 * pr;
    var fb, fx := FormatUnits(row.balance, 8), FormatUnits(row.exchangeRate, row.decimals + 10);
    assert fb * p8 == b;
    assert fx * pr == x;
    calc {
      SuppliedUsd(row) * Pow10(row.decimals + 18);
      (fb * fx * row.price) * (p8 * pr);
      (fb * p8) * (fx * pr) * row.price;
      b * x * row.price;
    }
  }

  /**
   * The running total of the loop: it starts at 0 and markets are added in
   * list order, so non-negative per-market figures give a non-negative total.
   */
  function Total(rows: seq<MarketRow>, f: MarketRow -> real): (sum: real)
    ensures (forall i :: 0 <= i < |rows| ==> f(rows[i]) >= 0.0) ==> sum >= 0.0
  {
    if rows == [] then 0.0
    else
      var rest := rows[..|rows| - 1];
      assert forall i :: 0 <= i < |rest| ==> rest[i] == rows[i];
      Total(rest, f) + f(rows[|rows| - 1])
  }

  lemma {:induction false} TotalAppend(a: seq<MarketRow>, b: seq<MarketRow>, f: MarketRow -> real)
    ensures Total(a + b, f) == Total(a, f) + Total(b, f)
    decreases |b|
  {
    if b == [] {
      assert a + b == a;
    } else {
      var b' := b[..|b| - 1];
      assert (a + b)[..|a + b| - 1] == a + b';
      TotalAppend(a, b', f);
    }
  }

  /** One more market at the end adds exactly its own figure: the loop's `+=`. */
  lemma TotalSnoc(rows: seq<MarketRow>, row: MarketRow, f: MarketRow -> real)
    ensures Total(rows + [row], f) == Total(rows, f) + f(row)
  {
    assert (rows + [row])[..|rows|] == rows;
  }

  /** A list is its prefix before `j`, its `j`-th element and the rest. */
  lemma SplitAround(b: seq<MarketRow>, j: nat)
    requires j < |b|
    ensures b == (b[..j] + [b[j]]) + b[j + 1..]
  {
    assert b[..j + 1] == b[..j] + [b[j]];
  }

  /** Taking one market out of the list takes exactly its own figure out of the total. */
  lemma TotalRemove(b: seq<MarketRow>, j: nat, f: MarketRow -> real)
    requires j < |b|
    ensures Total(b, f) == Total(b[..j] + b[j + 1..], f) + f(b[j])
  {
    var left, x, right := b[..j], b[j], b[j + 1..];
    var leftx := left + [x];
    SplitAround(b, j);
    calc {
      Total(b, f);
      { TotalAppend(leftx, right, f); }
      Total(leftx, f) + Total(right, f);
      { TotalSnoc(left, x, f); }
      Total(left, f) + f(x) + Total(right, f);
      { TotalAppend(left, right, f); }
      Total(left + right, f) + f(x);
    }
  }

  lemma MultisetCancel<T>(a: seq<T>, x: T, b: seq<T>, j: nat)
    requires j < |b| && b[j] == x
    requires multiset(a + [x]) == multiset(b)
    ensures multiset(a) == multiset(b[..j] + b[j + 1..])
  {
    var left, right := b[..j], b[j + 1..];
    assert b == left + [x] + right;
    assert multiset(b) == multiset(left) + multiset{x} + multiset(right);
    assert multiset(a + [x]) == multiset(a) + multiset{x};
    assert multiset(left + right) == multiset(left) + multiset(right);
    assert multiset(a) == multiset(b) - multiset{x};
    assert multiset(left + right) == multiset(b) - multiset{x};
  }

  /**
   * Two lists with the same elements, each mapped element by element to
   * values where equal elements get equal values, map to the same values
   * up to order.
   */
  lemma {:induction false} MultisetImage<T, U>(a: seq<T>, fa: seq<U>, b: seq<T>, fb: seq<U>)
    requires |fa| == |a| && |fb| == |b|
    requires forall i, j :: 0 <= i < |a| && 0 <= j < |b| && a[i] == b[j] ==> fa[i] == fb[j]
    requires multiset(a) == multiset(b)
    ensures multiset(fa) == multiset(fb)
    decreases |a|
  {
    if a == [] {
      assert |b| == |multiset(b)| == 0;
    } else {
      var x, a', fa' := a[|a| - 1], a[..|a| - 1], fa[..|fa| - 1];
      assert a == a' + [x];
      assert x in multiset(b);
      var j :| 0 <= j < |b| && b[j] == x;
      MultisetCancel(a', x, b, j);
      var b', fb' := b[..j] + b[j + 1..], fb[..j] + fb[j + 1..];
      forall i, k | 0 <= i < |a'| && 0 <= k < |b'| && a'[i] == b'[k] ensures fa'[i] == fb'[k] {
        if k < j {
          assert b'[k] == b[k] && fb'[k] == fb[k];
        } else {
          assert b'[k] == b[k + 1] && fb'[k] == fb[k + 1];
        }
      }
      MultisetImage(a', fa', b', fb');
      assert fa == fa' + [fb[j]];
      assert fb == fb[..j] + [fb[j]] + fb[j + 1..];
    }
  }

  /** The totals do not depend on the order of the rows: every permutation gives the same sum. */
  lemma {:induction false} TotalPermutation(a: seq<MarketRow>, b: seq<MarketRow>, f: MarketRow -> real)
    requires multiset(a) == multiset(b)
    ensures Total(a, f) == Total(b, f)
    decreases |a|
  {
    if a == [] {
      assert |b| == |multiset(b)| == 0;
    } else {
      var x := a[|a| - 1];
      var a' := a[..|a| - 1];
      assert a == a' + [x];
      assert x in multiset(b);
      var j :| 0 <= j < |b| && b[j] == x;
      MultisetCancel(a', x, b, j);
      TotalPermutation(a', b[..j] + b[j + 1..], f);
      TotalRemove(b, j, f);
    }
  }
}
