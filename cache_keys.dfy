/**
 * The keys and values `Comptroller` keeps in the shared cache. A key is
 * the lookup kind's prefix followed by the lower-cased address; the model
 * keys the cache by the kind and the lower-cased address and proves that
 * the string the code builds determines both, so distinct model keys are
 * distinct cache entries.
 */
module CacheKeys {

  /** `toLowerCase` on one character; addresses are ASCII hex, so only A-Z change. */
  function LowerChar(c: char): char {
    if 'A' <= c <= 'Z' then (c as int + 32) as char else c
  }

  /** `toLowerCase`: every character lower-cased, in place. */
  function Lower(s: string): (r: string)
    ensures |r| == |s|
    ensures forall i :: 0 <= i < |s| ==> r[i] == LowerChar(s[i])
  {
    if s == [] then [] else [LowerChar(s[0])] + Lower(s[1..])
  }

  lemma {:induction false} LowerIdempotent(s: string)
    ensures Lower(Lower(s)) == Lower(s)
  {
    if s != [] {
      LowerIdempotent(s[1..]);
      assert Lower(s)[1..] == Lower(s[1..]);
    }
  }

  const DECIMALS_PREFIX: string := "decimals_"
  const UNDERLYING_PREFIX: string := "underlying_"
  const PRICE_PREFIX: string := "price_"

  /** A cache key: the lookup kind and the lower-cased address it is for. */
  datatype CacheKey =
    | DecimalsKey(address: string)
    | UnderlyingKey(address: string)
    | PriceKey(address: string)

  /**
   * The key string the code builds, e.g. `'decimals_' + address.toLowerCase()`:
   * its first character tells the lookup kind apart and it ends with the address.
   */
  function KeyText(k: CacheKey): (s: string)
    ensures |s| > |k.address|
    ensures s[0] == (if k.DecimalsKey? then 'd' else if k.UnderlyingKey? then 'u' else 'p')
    ensures s[|s| - |k.address|..] == k.address
  {
    match k
    case DecimalsKey(a) => DECIMALS_PREFIX + a
    case UnderlyingKey(a) => UNDERLYING_PREFIX + a
    case PriceKey(a) => PRICE_PREFIX + a
  }

  lemma PrefixCancel(p: string, x: string, y: string)
    ensures p + x == p + y <==> x == y
  {
    if p + x == p + y {
      assert x == (p + x)[|p|..];
      assert y == (p + y)[|p|..];
    }
  }

  /**
   * Key isolation: equal key strings come from the same lookup kind and the
   * same address. The three prefixes already differ in their first
   * character, so no lookup can write an entry another lookup reads.
   */
  lemma KeyTextInjective(k1: CacheKey, k2: CacheKey)
    ensures KeyText(k1) == KeyText(k2) <==> k1 == k2
  {
    match k1
    case DecimalsKey(a) => if k2.DecimalsKey? { PrefixCancel(DECIMALS_PREFIX, a, k2.address); }
    case UnderlyingKey(a) => if k2.UnderlyingKey? { PrefixCancel(UNDERLYING_PREFIX, a, k2.address); }
    case PriceKey(a) => if k2.PriceKey? { PrefixCancel(PRICE_PREFIX, a, k2.address); }
  }

  /** Two spellings of an address share one entry exactly when they agree after lower-casing. */
  lemma SharedEntryIffSameLowerCase(a: string, b: string)
    ensures KeyText(DecimalsKey(Lower(a))) == KeyText(DecimalsKey(Lower(b))) <==> Lower(a) == Lower(b)
    ensures KeyText(UnderlyingKey(Lower(a))) == KeyText(UnderlyingKey(Lower(b))) <==> Lower(a) == Lower(b)
    ensures KeyText(PriceKey(Lower(a))) == KeyText(PriceKey(Lower(b))) <==> Lower(a) == Lower(b)
  {
    KeyTextInjective(DecimalsKey(Lower(a)), DecimalsKey(Lower(b)));
    KeyTextInjective(UnderlyingKey(Lower(a)), UnderlyingKey(Lower(b)));
    KeyTextInjective(PriceKey(Lower(a)), PriceKey(Lower(b)));
  }

  /** Values the lookups store, tagged by lookup kind. */
  datatype CacheValue =
    | DecimalsValue(decimals: nat)
    | AddressValue(address: string)
    | PriceValue(usd: real)
}
