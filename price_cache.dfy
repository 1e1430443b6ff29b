/**
 * The observable behaviour of the server's NodeCache instance, created with a
 * standard time-to-live of 3600 seconds. Time is a millisecond clock passed in
 * explicitly. An entry is live while the clock has not passed its expiry
 * time; `has` and `get` treat a stale entry as absent and delete it; `set`
 * overwrites whatever the key held.
 */
module PriceCache {
  import opened Wrappers

  /** The standard time-to-live of every entry, in seconds. */
  const StdTtlSeconds: nat := 3600

  /** The same time-to-live on the millisecond clock. */
  const TtlMillis: nat := StdTtlSeconds * 1000

  /** A price as JavaScript's parseFloat can produce it. */
  datatype JsNumber = NaN | Finite(value: real) | Infinite(negative: bool)

  /** JavaScript truthiness of a number: everything except NaN and zero. */
  predicate Truthy(n: JsNumber) {
    !(n.NaN? || (n.Finite? && n.value == 0.0))
  }

  /** A stored value with its absolute expiry time. */
  datatype Entry = Entry(price: JsNumber, expiresAt: int)

  type Cache = map<string, Entry>

  /** An entry is still usable at `now` unless its expiry time lies in the past. */
  predicate Live(e: Entry, now: nat) {
    now <= e.expiresAt
  }

  /** `cache.has(key)`: the key holds an entry that is still live. */
  predicate Has(c: Cache, key: string, now: nat) {
    key in c && Live(c[key], now)
  }

  /**
   * The cache after `has(key)` or `get(key)` has looked the key up: a stale
   * entry for that key is deleted, nothing else changes.
   */
  function AfterLookup(c: Cache, key: string, now: nat): (r: Cache)
    ensures key !in c || Live(c[key], now) ==> r == c
    ensures key in c && !Live(c[key], now) ==> key !in r && r == c - {key}
  {
    if key in c && !Live(c[key], now) then c - {key} else c
  }

  /** `cache.get(key)`: the live value, or None (undefined) for a missing or stale key. */
  function Get(c: Cache, key: string, now: nat): (r: Option<JsNumber>)
    ensures r.Some? <==> Has(c, key, now)
    ensures r.Some? ==> r.value == c[key].price
  {
    if Has(c, key, now) then Some(c[key].price) else None
  }

  /** `cache.set(key, value)`: the key now holds the value, live for the standard TTL. */
  function Set(c: Cache, key: string, v: JsNumber, now: nat): (r: Cache)
    ensures r.Keys == c.Keys + {key}
    ensures r[key] == Entry(v, now + TtlMillis)
    ensures forall k :: k in c && k != key ==> r[k] == c[k]
  {
    c[key := Entry(v, now + TtlMillis)]
  }

  /** A value just set is returned by every `get` until its TTL has run out, and by none after. */
  lemma SetThenGet(c: Cache, key: string, v: JsNumber, now: nat, later: nat)
    requires now <= later
    ensures Get(Set(c, key, v, now), key, later) == if later <= now + TtlMillis then Some(v) else None
  {
  }

  /** A `set` changes what `has` and `get` see for its own key only, at any time. */
  lemma SetLeavesOthers(c: Cache, key: string, v: JsNumber, now: nat, k: string, t: nat)
    requires k != key
    ensures Has(Set(c, key, v, now), k, t) <==> Has(c, k, t)
    ensures Get(Set(c, key, v, now), k, t) == Get(c, k, t)
  {
  }

  /** What a lookup deletes is never visible to `has`: the live view does not change. */
  lemma LookupKeepsLiveView(c: Cache, key: string, now: nat, k: string)
    ensures Has(AfterLookup(c, key, now), k, now) <==> Has(c, k, now)
    ensures Has(c, k, now) ==> AfterLookup(c, key, now)[k] == c[k]
  {
  }
}
