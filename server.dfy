/**
 * The `/get-price` route of the price server: input validation, the cache key,
 * the cache hit, the case-insensitive dispatch to the three retailer
 * scrapers, the 404 for a missing price and the cache write on success.
 *
 * The scrapers' I/O is an environment passed in: `encode` stands for
 * encodeURIComponent, `fetch(url, selector)` for the HTTP GET plus the
 * cheerio query (it says whether the fetch threw, matched nothing, or the
 * text of the first match), and `parseFloat` for JavaScript's parseFloat.
 */
module Server {
  import opened Wrappers
  import opened Sequences
  import opened JsText
  import opened PriceCache

  datatype Retailer = Asda | Sainsburys | Tesco

  /** The lower-case store name that selects the retailer. */
  function Name(r: Retailer): string {
    match r
    case Asda => "asda"
    case Sainsburys => "sainsburys"
    case Tesco => "tesco"
  }

  /** The search page of the retailer for an already URI-encoded item. */
  function SearchUrl(r: Retailer, encodedItem: string): string {
    match r
    case Asda => "https://groceries.asda.com/search/" + encodedItem
    case Sainsburys =>
      "https://www.sainsburys.co.uk/webapp/wcs/stores/servlet/SearchResultsCmd?searchTerm=" + encodedItem
    case Tesco => "https://www.tesco.com/groceries/en-GB/search?query=" + encodedItem
  }

  /** The CSS selector of the price element on the retailer's search page. */
  function Selector(r: Retailer): string {
    match r
    case Asda => ".product-price"
    case Sainsburys => ".product-price"
    case Tesco => ".price"
  }

  /** The `switch (store.toLowerCase())`: which scraper a store string selects, if any. */
  function StoreOf(store: string): Option<Retailer>
  {
    var s := ToLower(store);
    if s == "asda" then Some(Asda)
    else if s == "sainsburys" then Some(Sainsburys)
    else if s == "tesco" then Some(Tesco)
    else None
  }

  /** A store selects exactly the retailer whose name is its lower-case form. */
  lemma StoreOfNames(store: string, r: Retailer)
    ensures StoreOf(store) == Some(r) <==> ToLower(store) == Name(r)
  {
  }

  /** The retailer dispatch ignores case: `Asda` and `asda` reach the same scraper. */
  lemma StoreOfIgnoresCase(a: string, b: string)
    requires ToLower(a) == ToLower(b)
    ensures StoreOf(a) == StoreOf(b)
  {
  }

  /** What fetching and querying a search page produced. */
  datatype PageOutcome = FetchFailed | NoMatch | FirstMatch(text: string)

  /** The foreign code a scraper calls. */
  datatype Env = Env(
    encode: string -> string,
    fetch: (string, string) -> PageOutcome,
    parseFloat: string -> JsNumber)

  /**
   * The price-text clean-up shared by the three scrapers: trim, then drop the
   * first `£`, then drop the first `,`. Exactly one copy of each is removed
   * when there is one, so later copies stay; a text with neither is only trimmed.
   */
  function Normalise(text: string): (r: string)
    ensures '£' !in Trim(text) && ',' !in Trim(text) ==> r == Trim(text)
  {
    RemoveFirst(RemoveFirst(Trim(text), '£'), ',')
  }

  /**
   * Normalise removes one `£` and one `,` from the trimmed text when it has
   * them, and nothing else: the result holds the trimmed text's characters
   * less one copy of each of those two (multiset difference removes nothing
   * that is not there).
   */
  lemma NormaliseRemovesFirstOnly(text: string)
    ensures multiset(Normalise(text)) == multiset(Trim(text)) - multiset{'£'} - multiset{','}
  {
    RemoveTwoMultiset(Trim(text), '£', ',');
  }

  /** A price with a thousands separator keeps every comma after the first. */
  lemma NormaliseKeepsLaterCommas()
    ensures Normalise("£1,234,567") == "1234,567"
  {
    TrimUntouched("£1,234,567");
    PoundDropped();
    FirstCommaDropped();
  }

  /** The `£` of the example is its first character. */
  lemma PoundDropped()
    ensures RemoveFirst("£1,234,567", '£') == "1,234,567"
  {
  }

  /** Only the first comma of the example goes. */
  lemma FirstCommaDropped()
    ensures RemoveFirst("1,234,567", ',') == "1234,567"
  {
    var s := "1,234,567";
    assert s[1..] == ",234,567" && s[0] != ',';
    assert RemoveFirst(s[1..], ',') == "234,567";
  }

  /**
   * The usual price text, a `£` and an amount with no further `£` or `,`,
   * padded with whitespace, normalises to the bare amount.
   */
  lemma NormalisePadded(pre: string, amount: string, post: string)
    requires AllWhitespace(pre) && AllWhitespace(post)
    requires '£' !in amount && ',' !in amount
    requires amount == [] || !IsWhitespace(amount[|amount| - 1])
    ensures Normalise(pre + ['£'] + amount + post) == amount
  {
    var m := ['£'] + amount;
    assert pre + ['£'] + amount + post == pre + m + post;
    TrimPadded(pre, m, post);
  }

  /** JavaScript's `price || null`: NaN and zero become null. */
  function OrNull(n: JsNumber): (r: Option<JsNumber>)
    ensures r.Some? <==> Truthy(n)
    ensures r.Some? ==> r.value == n
  {
    if Truthy(n) then Some(n) else None
  }

  /**
   * What a scraper makes of the page it fetched: null when the fetch threw or
   * nothing matched the selector, otherwise the `|| null` of parseFloat of the
   * normalised text of the first match.
   */
  function PriceOf(page: PageOutcome, env: Env): (p: Option<JsNumber>)
    ensures p.Some? ==> Truthy(p.value)
  {
    match page
    case FetchFailed => None
    case NoMatch => None
    case FirstMatch(text) => OrNull(env.parseFloat(Normalise(text)))
  }

  /** The retailer's search page for the item, queried with the retailer's selector. */
  function Page(r: Retailer, item: string, env: Env): PageOutcome {
    env.fetch(SearchUrl(r, env.encode(item)), Selector(r))
  }

  /** getPriceFromAsda / getPriceFromSainsburys / getPriceFromTesco: the price on the retailer's page, never NaN or zero. */
  function Scrape(r: Retailer, item: string, env: Env): (p: Option<JsNumber>)
    ensures p.Some? ==> Truthy(p.value)
  {
    PriceOf(Page(r, item, env), env)
  }

  /**
   * A scraper yields null exactly when the fetch throws, nothing matches, or
   * the normalised first match parses to NaN or zero; otherwise it yields
   * that parse.
   */
  lemma ScrapeOutcomes(page: PageOutcome, env: Env)
    ensures page.FetchFailed? || page.NoMatch? ==> PriceOf(page, env).None?
    ensures page.FirstMatch? ==>
      var n := env.parseFloat(Normalise(page.text));
      PriceOf(page, env) == if n.NaN? || n == Finite(0.0) then None else Some(n)
  {
  }

  /** The scraper a request can run: a retailer and an item to a price, or null. */
  type Scraper = (Retailer, string) -> Option<JsNumber>

  /** The three scrapers of the server, running in the environment `env`. */
  function Scrapers(env: Env): Scraper {
    (r: Retailer, item: string) => Scrape(r, item, env)
  }

  /** A scraper that never yields NaN or zero. */
  ghost predicate Truthful(scrape: Scraper) {
    forall r, item :: scrape(r, item).Some? ==> Truthy(scrape(r, item).value)
  }

  /** The server's scrapers are truthful, thanks to the `|| null` collapse. */
  lemma ScrapersTruthful(env: Env)
    ensures Truthful(Scrapers(env))
  {
  }

  /** `${store}-${item.toLowerCase()}`: the store as given, the item lower-cased. */
  function CacheKey(store: string, item: string): (k: string)
    ensures |k| == |store| + 1 + |item|
    ensures k[..|store|] == store && k[|store|] == '-' && k[|store| + 1..] == ToLower(item)
  {
    store + "-" + ToLower(item)
  }

  /** Items differing only in letter case share a key. */
  lemma ItemCaseIgnored(store: string, a: string, b: string)
    requires ToLower(a) == ToLower(b)
    ensures CacheKey(store, a) == CacheKey(store, b)
  {
  }

  /** A store spelt in another case gets another key, yet selects the same retailer. */
  lemma StoreCaseKept()
    ensures CacheKey("Asda", "milk") != CacheKey("asda", "milk")
    ensures StoreOf("Asda") == StoreOf("asda") == Some(Asda)
  {
    assert CacheKey("Asda", "milk")[0] == 'A';
    LowerOfLower("asda");
    assert ToLower("Asda") == "asda";
  }

  /** The JSON response: `{price}` with status 200, or `{error}` with its status. */
  datatype Reply = Price(value: JsNumber) | Failure(status: nat, error: string)

  const RequiredMessage := "Store and item are required."
  const InvalidStoreMessage := "Invalid store."
  const NotFoundMessage := "Price not found."

  /** One request's effect: the reply, the cache afterwards, and which scraper ran. */
  datatype Outcome = Outcome(reply: Reply, cache: Cache, scraped: Option<Retailer>)

  /** `!store || !item`: a query parameter that is absent or empty. */
  predicate Missing(v: Option<string>) {
    v.None? || v.value == ""
  }

  /** `c` and `d` agree on every key other than `key`. */
  predicate SameExcept(c: Cache, d: Cache, key: string) {
    c - {key} == d - {key}
  }

  /**
   * The `/get-price` handler at clock time `now`, as a function of the cache
   * before the request; the lemmas below state its outcomes.
   */
  function Respond(cache: Cache, store: Option<string>, item: Option<string>, now: nat, scrape: Scraper): (o: Outcome)
    ensures o.reply.Failure? ==> (o.reply.status == 400 || o.reply.status == 404) && o.cache.Keys <= cache.Keys
    ensures o.scraped.Some? ==> !Missing(store) && !Missing(item) && o.scraped == StoreOf(store.value)
  {
    if Missing(store) || Missing(item) then Outcome(Failure(400, RequiredMessage), cache, None)
    else
      var key := CacheKey(store.value, item.value);
      if Has(cache, key, now) then Outcome(Price(cache[key].price), cache, None)
      else
        var looked := AfterLookup(cache, key, now);
        match StoreOf(store.value)
        case None => Outcome(Failure(400, InvalidStoreMessage), looked, None)
        case Some(r) =>
          match scrape(r, item.value)
          case None => Outcome(Failure(404, NotFoundMessage), looked, Some(r))
          case Some(p) => Outcome(Price(p), Set(looked, key, p, now), Some(r))
  }

  /** An absent or empty store or item is a 400 that touches nothing and scrapes nothing. */
  lemma MissingInputRejected(cache: Cache, store: Option<string>, item: Option<string>, now: nat, scrape: Scraper)
    ensures var o := Respond(cache, store, item, now, scrape);
      (o.reply == Failure(400, RequiredMessage)) <==> (Missing(store) || Missing(item))
    ensures Missing(store) || Missing(item) ==>
      Respond(cache, store, item, now, scrape) == Outcome(Failure(400, RequiredMessage), cache, None)
  {
  }

  /** A live entry for the key is answered as it is, with no scraper run and no cache change. */
  lemma HitServedFromCache(cache: Cache, store: string, item: string, now: nat, scrape: Scraper)
    requires store != "" && item != ""
    requires Has(cache, CacheKey(store, item), now)
    ensures Respond(cache, Some(store), Some(item), now, scrape)
      == Outcome(Price(cache[CacheKey(store, item)].price), cache, None)
  {
  }

  /** A scraper runs exactly when the key has no live entry and the store names a retailer, and it is that retailer's. */
  lemma ScrapesOnlyOnMiss(cache: Cache, store: string, item: string, now: nat, scrape: Scraper)
    requires store != "" && item != ""
    ensures var o := Respond(cache, Some(store), Some(item), now, scrape);
      && (o.scraped.Some? <==> !Has(cache, CacheKey(store, item), now) && StoreOf(store).Some?)
      && (o.scraped.Some? ==> o.scraped == StoreOf(store))
  {
  }

  /**
   * A store that names no retailer is a 400 "Invalid store." unless its key
   * has a live entry; the cache only loses the key's stale entry, if any.
   */
  lemma UnknownStoreRejected(cache: Cache, store: string, item: string, now: nat, scrape: Scraper)
    requires store != "" && item != ""
    requires StoreOf(store).None?
    ensures var o := Respond(cache, Some(store), Some(item), now, scrape);
      && o.scraped.None?
      && (!Has(cache, CacheKey(store, item), now) ==>
            o.reply == Failure(400, InvalidStoreMessage)
            && o.cache == AfterLookup(cache, CacheKey(store, item), now))
  {
  }

  /** A 404 is exactly a scraper run that yielded null; it leaves only the lookup's eviction behind. */
  lemma NotFoundLeavesCache(cache: Cache, store: string, item: string, now: nat, scrape: Scraper)
    requires store != "" && item != ""
    ensures var o := Respond(cache, Some(store), Some(item), now, scrape);
      && (o.reply == Failure(404, NotFoundMessage) <==>
            o.scraped.Some? && scrape(o.scraped.value, item).None?)
      && (o.reply.Failure? ==> o.cache == AfterLookup(cache, CacheKey(store, item), now))
  {
  }

  /** A request changes the cache at its own key only. */
  lemma OnlyOwnKeyChanges(cache: Cache, store: string, item: string, now: nat, scrape: Scraper)
    requires store != "" && item != ""
    ensures SameExcept(Respond(cache, Some(store), Some(item), now, scrape).cache, cache, CacheKey(store, item))
  {
  }

  /** A scraped price is answered and cached under the key for the standard TTL. */
  lemma SuccessIsCached(cache: Cache, store: string, item: string, now: nat, scrape: Scraper)
    requires store != "" && item != ""
    ensures var o := Respond(cache, Some(store), Some(item), now, scrape);
      var key := CacheKey(store, item);
      o.scraped.Some? && o.reply.Price? ==>
        && o.reply.value == scrape(o.scraped.value, item).value
        && key in o.cache
        && o.cache[key] == Entry(o.reply.value, now + TtlMillis)
  {
    var key := CacheKey(store, item);
    if !Has(cache, key, now) && StoreOf(store).Some? {
      var r := StoreOf(store).value;
      var p := scrape(r, item);
      if p.Some? {
        var looked := AfterLookup(cache, key, now);
        assert Respond(cache, Some(store), Some(item), now, scrape)
          == Outcome(Price(p.value), Set(looked, key, p.value, now), Some(r));
      }
    }
  }

  /**
   * The cache's invariant: every stored price is truthy (never NaN or zero),
   * and every key starts with a store string, up to its first `-`, that
   * selects one of the three retailers.
   */
  predicate WellFormed(cache: Cache) {
    forall k :: k in cache ==>
      && Truthy(cache[k].price)
      && IndexOf(k, '-') >= 0
      && StoreOf(k[..IndexOf(k, '-')]).Some?
  }

  /** A store string that selects a retailer contains no `-`, so it is the key's prefix up to the first `-`. */
  lemma KeyPrefix(store: string, item: string)
    requires StoreOf(store).Some?
    ensures IndexOf(CacheKey(store, item), '-') == |store|
  {
    var r := StoreOf(store).value;
    StoreOfNames(store, r);
    StoreHasNoDash(store, r);
    var rest := "-" + ToLower(item);
    assert rest[0] == '-';
    IndexOfAfter(store, rest, '-');
    assert IndexOf(rest, '-') == 0;
  }

  /**
   * For stores that select a retailer the key is injective: two such requests
   * share a key only when they name the same store and the same item up to case.
   */
  lemma KeyInjective(s1: string, i1: string, s2: string, i2: string)
    requires StoreOf(s1).Some? && StoreOf(s2).Some?
    requires CacheKey(s1, i1) == CacheKey(s2, i2)
    ensures s1 == s2 && ToLower(i1) == ToLower(i2)
  {
    var k := CacheKey(s1, i1);
    KeyPrefix(s1, i1);
    KeyPrefix(s2, i2);
    assert s1 == k[..|s1|] == s2;
    assert ToLower(i1) == k[|s1| + 1..] == ToLower(i2);
  }

  /** A store string that lower-cases to a retailer's name contains no `-`. */
  lemma StoreHasNoDash(store: string, r: Retailer)
    requires ToLower(store) == Name(r)
    ensures '-' !in store
  {
    NameHasNoDash(r);
    forall i | 0 <= i < |store|
      ensures store[i] != '-'
    {
      assert ToLower(store)[i] == Name(r)[i];
    }
  }

  /** No retailer's name contains a `-`. */
  lemma NameHasNoDash(r: Retailer)
    ensures forall i :: 0 <= i < |Name(r)| ==> Name(r)[i] != '-'
  {
  }

  /** Every request keeps the cache well formed, and so never answers with NaN or zero. */
  lemma RespondKeepsWellFormed(cache: Cache, store: Option<string>, item: Option<string>, now: nat, scrape: Scraper)
    requires WellFormed(cache) && Truthful(scrape)
    ensures WellFormed(Respond(cache, store, item, now, scrape).cache)
    ensures Respond(cache, store, item, now, scrape).reply.Price? ==>
      Truthy(Respond(cache, store, item, now, scrape).reply.value)
  {
    if !Missing(store) && !Missing(item) {
      var key := CacheKey(store.value, item.value);
      var looked := AfterLookup(cache, key, now);
      assert WellFormed(looked);
      if !Has(cache, key, now) && StoreOf(store.value).Some? {
        var p := scrape(StoreOf(store.value).value, item.value);
        if p.Some? {
          KeyPrefix(store.value, item.value);
          assert key[..|store.value|] == store.value;
          SetKeepsWellFormed(looked, key, p.value, now);
        }
      }
    }
  }

  /** Storing a truthy price under a key with a retailer prefix keeps the cache well formed. */
  lemma SetKeepsWellFormed(c: Cache, key: string, v: JsNumber, now: nat)
    requires WellFormed(c) && Truthy(v)
    requires IndexOf(key, '-') >= 0 && StoreOf(key[..IndexOf(key, '-')]).Some?
    ensures WellFormed(Set(c, key, v, now))
  {
  }

  /**
   * After a request that scraped and cached a price, the same request within
   * the TTL is a hit: the same price, no scraper and no cache change, however
   * the retailer's page has changed meanwhile.
   */
  lemma RepeatIsHit(cache: Cache, store: Option<string>, item: Option<string>, now: nat, scrape: Scraper,
                    later: nat, scrape': Scraper)
    requires Respond(cache, store, item, now, scrape).scraped.Some?
    requires Respond(cache, store, item, now, scrape).reply.Price?
    requires now <= later <= now + TtlMillis
    ensures var o := Respond(cache, store, item, now, scrape);
      Respond(o.cache, store, item, later, scrape') == Outcome(o.reply, o.cache, None)
  {
  }

  /**
   * Once the TTL of a freshly cached price has run out, the same request
   * scrapes the retailer again, although the stale entry is still stored.
   */
  lemma ExpiredIsScrapedAgain(cache: Cache, store: Option<string>, item: Option<string>, now: nat, scrape: Scraper,
                              later: nat, scrape': Scraper)
    requires Respond(cache, store, item, now, scrape).scraped.Some?
    requires Respond(cache, store, item, now, scrape).reply.Price?
    requires later > now + TtlMillis
    ensures var o := Respond(cache, store, item, now, scrape);
      && CacheKey(store.value, item.value) in o.cache
      && Respond(o.cache, store, item, later, scrape').scraped == o.scraped
  {
  }

  /**
   * As written, the cache is consulted before the store is checked, and a key
   * does not say where its store ends. Once (`asda`, `milk-x`) has cached a
   * price, the request (`asda-milk`, `x`) is answered 200 with that price,
   * although `asda-milk` names no retailer.
   */
  lemma InvalidStoreAnsweredFromCache(scrape: Scraper, p: JsNumber, scrape': Scraper)
    requires scrape(Asda, "milk-x") == Some(p)
    ensures var first := Respond(map[], Some("asda"), Some("milk-x"), 0, scrape);
      && StoreOf("asda-milk").None?
      && first.reply == Price(p)
      && Respond(first.cache, Some("asda-milk"), Some("x"), 0, scrape').reply == Price(p)
  {
    FirstRequestCaches(scrape, p);
    CounterexampleKey();
    AsdaSelectsAsda();
    var c := map["asda-milk-x" := Entry(p, TtlMillis)];
    HitServedFromCache(c, "asda-milk", "x", 0, scrape');
  }

  /** The first request of the counterexample scrapes the price and caches it. */
  lemma FirstRequestCaches(scrape: Scraper, p: JsNumber)
    requires scrape(Asda, "milk-x") == Some(p)
    ensures Respond(map[], Some("asda"), Some("milk-x"), 0, scrape)
      == Outcome(Price(p), map["asda-milk-x" := Entry(p, TtlMillis)], Some(Asda))
  {
    CounterexampleKey();
    AsdaSelectsAsda();
    assert !Has(map[], "asda-milk-x", 0);
  }

  /** Both requests of the counterexample use the key `asda-milk-x`. */
  lemma CounterexampleKey()
    ensures CacheKey("asda", "milk-x") == "asda-milk-x"
    ensures CacheKey("asda-milk", "x") == "asda-milk-x"
  {
    LowerOfLower("milk-x");
    LowerOfLower("x");
  }

  /** `asda` selects Asda and `asda-milk` selects nothing. */
  lemma AsdaSelectsAsda()
    ensures StoreOf("asda") == Some(Asda)
    ensures StoreOf("asda-milk") == None
  {
    LowerOfLower("asda");
    LowerOfLower("asda-milk");
  }

  /**
   * The handler with the store checked before the cache is consulted: an
   * unknown store is always a 400 that leaves the cache as it was, and every
   * other request behaves as the route does.
   */
  function RespondStoreFirst(cache: Cache, store: Option<string>, item: Option<string>, now: nat, scrape: Scraper): (o: Outcome)
    ensures !Missing(store) && !Missing(item) && StoreOf(store.value).None? ==>
      o == Outcome(Failure(400, InvalidStoreMessage), cache, None)
    ensures Missing(store) || Missing(item) || StoreOf(store.value).Some? ==>
      o == Respond(cache, store, item, now, scrape)
    ensures o.reply.Price? && o.scraped.None? ==> StoreOf(store.value).Some?
  {
    if !Missing(store) && !Missing(item) && StoreOf(store.value).None? then
      Outcome(Failure(400, InvalidStoreMessage), cache, None)
    else Respond(cache, store, item, now, scrape)
  }

  /** With the store checked first, the second request of the counterexample is rejected. */
  lemma StoreFirstRejectsCounterexample(scrape: Scraper, p: JsNumber, scrape': Scraper)
    requires scrape(Asda, "milk-x") == Some(p)
    ensures var first := RespondStoreFirst(map[], Some("asda"), Some("milk-x"), 0, scrape);
      && first.reply == Price(p)
      && RespondStoreFirst(first.cache, Some("asda-milk"), Some("x"), 0, scrape').reply == Failure(400, InvalidStoreMessage)
  {
    FirstRequestCaches(scrape, p);
    AsdaSelectsAsda();
  }

  /** The price server's state: the shared module-level cache. */
  class PriceServer {
    var cache: Cache

    constructor ()
      ensures cache == map[] && WellFormed(cache)
    {
      cache := map[];
    }

    /**
     * Handles one `/get-price` request as the route is written; `scraped`
     * names the scraper it ran, if any. The cache is consulted before the
     * store is checked.
     */
    method GetPrice(store: Option<string>, item: Option<string>, now: nat, env: Env)
      returns (reply: Reply, scraped: Option<Retailer>)
      modifies this
      ensures Outcome(reply, cache, scraped) == Respond(old(cache), store, item, now, Scrapers(env))
      ensures WellFormed(old(cache)) ==> WellFormed(cache)
    {
      if WellFormed(cache) {
        ScrapersTruthful(env);
        RespondKeepsWellFormed(cache, store, item, now, Scrapers(env));
      }
      if Missing(store) || Missing(item) {
        return Failure(400, RequiredMessage), None;
      }
      var key := CacheKey(store.value, item.value);
      var hit := Has(cache, key, now);
      cache := AfterLookup(cache, key, now);
      if hit {
        return Price(Get(cache, key, now).value), None;
      }
      var retailer := StoreOf(store.value);
      if retailer.None? {
        return Failure(400, InvalidStoreMessage), None;
      }
      var price := Scrape(retailer.value, item.value, env);
      if price.None? {
        return Failure(404, NotFoundMessage), retailer;
      }
      cache := Set(cache, key, price.value, now);
      return Price(price.value), retailer;
    }

    /**
     * Handles one `/get-price` request with the store checked before the
     * cache is consulted, the correction `RespondStoreFirst` makes.
     */
    method GetPriceStoreFirst(store: Option<string>, item: Option<string>, now: nat, env: Env)
      returns (reply: Reply, scraped: Option<Retailer>)
      modifies this
      ensures Outcome(reply, cache, scraped) == RespondStoreFirst(old(cache), store, item, now, Scrapers(env))
      ensures WellFormed(old(cache)) ==> WellFormed(cache)
    {
      if WellFormed(cache) {
        ScrapersTruthful(env);
        RespondKeepsWellFormed(cache, store, item, now, Scrapers(env));
      }
      if Missing(store) || Missing(item) {
        return Failure(400, RequiredMessage), None;
      }
      var retailer := StoreOf(store.value);
      if retailer.None? {
        return Failure(400, InvalidStoreMessage), None;
      }
      var key := CacheKey(store.value, item.value);
      var hit := Has(cache, key, now);
      cache := AfterLookup(cache, key, now);
      if hit {
        return Price(Get(cache, key, now).value), None;
      }
      var price := Scrape(retailer.value, item.value, env);
      if price.None? {
        return Failure(404, NotFoundMessage), retailer;
      }
      cache := Set(cache, key, price.value, now);
      return Price(price.value), retailer;
    }
  }
}
