/** The FX triangulation repository: a mutable map from currency-pair key to
    quote that answers a request for a pair from a direct entry, from the
    reversed pair's entry (an inverse quote) or from two entries that share a
    third currency (a composite quote), and stores the quote it constructs
    under the requested key. */
module FxTriangulation {
  import opened CurrencyPairs

  /** An opaque identifier of a quote handle supplied by a caller. */
  type HandleId = nat

  /** A quote as the repository stores and returns it. Constructed quotes keep
      the quotes they are built from (not their values), so later changes of an
      original quote are seen through every quote built on it. */
  datatype QuoteExpr =
    | Direct(handle: HandleId)
    | Inverse(reversed: QuoteExpr)
    | Bridge(baseLeg: QuoteExpr, quoteLeg: QuoteExpr)

  /** The supplied handles a quote is built from. */
  function Leaves(e: QuoteExpr): set<HandleId>
  {
    match e
    case Direct(h) => {h}
    case Inverse(x) => Leaves(x)
    case Bridge(x, y) => Leaves(x) + Leaves(y)
  }

  /** The repository's contents: any string may be a key, as in addQuote. */
  type QuoteMap = map<seq<char>, QuoteExpr>

  /** Every entry of m is built from handles in s. */
  ghost predicate LeavesWithin(m: QuoteMap, s: set<HandleId>)
  {
    forall k :: k in m ==> Leaves(m[k]) <= s
  }

  datatype Option<T> = None | Some(value: T)

  /** Why a lookup failed: the key is not two currency codes, or no path exists. */
  datatype LookupError = InvalidKey | NotFound

  datatype Lookup = Found(quote: QuoteExpr) | Failed(error: LookupError)

  /** A candidate triangulation for a requested pair: the key of an entry
      relating the base currency with `via`, and the key of an entry relating
      the quote currency with the same `via`. */
  datatype BridgeLegs = BridgeLegs(baseKey: seq<char>, quoteKey: seq<char>, via: Currency)

  /** b is a bridge for pair p in m: both legs are entries of m, in either orientation. */
  predicate IsBridge(m: QuoteMap, p: PairKey, b: BridgeLegs)
  {
    && b.baseKey in m && b.quoteKey in m
    && Relates(b.baseKey, Base(p), b.via)
    && Relates(b.quoteKey, Quote(p), b.via)
  }

  /** The composite quote a bridge yields: it references both leg entries. */
  function Composite(m: QuoteMap, b: BridgeLegs): QuoteExpr
    requires b.baseKey in m && b.quoteKey in m
  {
    Bridge(m[b.baseKey], m[b.quoteKey])
  }

  /** The lookup rule, tried in order, first success wins:
      (1) the key itself is in the map;
      (2) the reversed key is, giving its inverse;
      (3) some bridge exists, giving the composite of any one of them;
      otherwise the lookup fails. A key that misses step 1 and is not six
      characters long is rejected before steps 2 and 3. */
  ghost predicate Resolves(m: QuoteMap, pair: seq<char>, r: Lookup)
  {
    if pair in m then r == Found(m[pair])
    else if |pair| != 6 then r == Failed(InvalidKey)
    else if Reverse(pair) in m then r == Found(Inverse(m[Reverse(pair)]))
    else if exists b :: IsBridge(m, pair, b) then
      exists b :: IsBridge(m, pair, b) && r == Found(Composite(m, b))
    else r == Failed(NotFound)
  }

  /** The map after a lookup with result r: a found quote is stored under the
      requested key (a no-op for a direct hit), a failure changes nothing. */
  function Cached(m: QuoteMap, pair: seq<char>, r: Lookup): QuoteMap
  {
    if r.Found? then m[pair := r.quote] else m
  }

  /** Step 3: look through the map for a bridging pair of entries. */
  method FindBridge(m: QuoteMap, p: PairKey) returns (found: Option<BridgeLegs>)
    ensures found.Some? ==> IsBridge(m, p, found.value)
    ensures found.None? ==> forall b :: !IsBridge(m, p, b)
  {
    var todo := m.Keys;
    while todo != {}
      invariant todo <= m.Keys
      invariant forall b :: IsBridge(m, p, b) ==> b.baseKey in todo
      decreases todo
    {
      var k :| k in todo;
      if |k| == 6 && (Base(k) == Base(p) || Quote(k) == Base(p)) {
        var via := if Base(k) == Base(p) then Quote(k) else Base(k);
        RelatesHalves(k, Base(p), via);
        if Pair(Quote(p), via) in m {
          return Some(BridgeLegs(k, Pair(Quote(p), via), via));
        }
        if Pair(via, Quote(p)) in m {
          return Some(BridgeLegs(k, Pair(via, Quote(p)), via));
        }
        forall b | IsBridge(m, p, b) && b.baseKey == k
          ensures false
        {
          RelatesHalves(k, Base(p), b.via);
        }
      } else {
        forall b | IsBridge(m, p, b) && b.baseKey == k
          ensures false
        {
          PairOfHalves(Pair(Base(p), b.via));
          PairOfHalves(Pair(b.via, Base(p)));
        }
      }
      todo := todo - {k};
    }
    return None;
  }

  /** Steps 1 to 3 of a lookup on the map m, without caching. */
  method Resolve(m: QuoteMap, pair: seq<char>) returns (r: Lookup)
    ensures Resolves(m, pair, r)
  {
    if pair in m {
      return Found(m[pair]);
    }
    if |pair| != 6 {
      return Failed(InvalidKey);
    }
    var reverse := Reverse(pair);
    if reverse in m {
      return Found(Inverse(m[reverse]));
    }
    var bridge := FindBridge(m, pair);
    match bridge
    case Some(b) => r := Found(Composite(m, b));
    case None => r := Failed(NotFound);
  }

  /** A lookup succeeds exactly when one of the three steps applies, and is
      rejected as an invalid key exactly when the key misses and is malformed. */
  lemma ResolvesSucceedsIff(m: QuoteMap, pair: seq<char>, r: Lookup)
    requires Resolves(m, pair, r)
    ensures r.Found? <==>
              pair in m || (|pair| == 6 && (Reverse(pair) in m || exists b :: IsBridge(m, pair, b)))
    ensures r == Failed(InvalidKey) <==> pair !in m && |pair| != 6
  {
  }

  /** Whether a lookup succeeds does not depend on which bridge is chosen, and
      two results can differ only when the lookup goes through step 3. */
  lemma ResolvesOnlyBridgeVaries(m: QuoteMap, pair: seq<char>, r1: Lookup, r2: Lookup)
    requires Resolves(m, pair, r1) && Resolves(m, pair, r2)
    ensures r1.Found? == r2.Found?
    ensures r1 != r2 ==> pair !in m && |pair| == 6 && Reverse(pair) !in m && r1.quote.Bridge?
  {
  }

  /** In step 3 the shared currency is a genuine third currency, and neither leg
      is the requested key or its reverse: the constructed quote depends only on
      entries stored under other keys. */
  lemma BridgeIsThirdCurrency(m: QuoteMap, p: PairKey, b: BridgeLegs)
    requires p !in m && Reverse(p) !in m
    requires IsBridge(m, p, b)
    ensures b.via != Base(p) && b.via != Quote(p)
    ensures b.baseKey != p && b.quoteKey != p
    ensures b.baseKey != Reverse(p) && b.quoteKey != Reverse(p)
  {
    PairOfHalves(p);
  }

  /** A quote found by step 2 or 3 is built from entries stored under keys other
      than the requested one, which it contains as proper parts: caching it
      under the requested key introduces no entry that depends on itself. */
  lemma ConstructedFromOtherEntries(m: QuoteMap, pair: seq<char>, r: Lookup)
    requires Resolves(m, pair, r) && r.Found? && pair !in m
    ensures |pair| == 6
    ensures || (Reverse(pair) in m && Reverse(pair) != pair && r.quote == Inverse(m[Reverse(pair)]))
            || (exists b :: IsBridge(m, pair, b) && r.quote == Composite(m, b)
                            && b.baseKey != pair && b.quoteKey != pair)
  {
    if Reverse(pair) !in m {
      var b :| IsBridge(m, pair, b) && r.quote == Composite(m, b);
      BridgeIsThirdCurrency(m, pair, b);
    }
  }

  /** A found quote is built only from handles that the map's entries are built from. */
  lemma ResolvedLeavesWithin(m: QuoteMap, pair: seq<char>, r: Lookup, s: set<HandleId>)
    requires LeavesWithin(m, s)
    requires Resolves(m, pair, r) && r.Found?
    ensures Leaves(r.quote) <= s
  {
    if pair !in m && Reverse(pair) !in m {
      var b :| IsBridge(m, pair, b) && r.quote == Composite(m, b);
      assert Leaves(m[b.baseKey]) <= s && Leaves(m[b.quoteKey]) <= s;
    }
  }

  /** A lookup only ever adds the requested key: every earlier entry keeps its
      binding, no other key appears, and a direct hit or a failure leaves the
      map as it was. */
  lemma CachedOnlyAdds(m: QuoteMap, pair: seq<char>, r: Lookup)
    requires Resolves(m, pair, r)
    ensures forall k :: k in m ==> k in Cached(m, pair, r) && Cached(m, pair, r)[k] == m[k]
    ensures Cached(m, pair, r).Keys <= m.Keys + {pair}
    ensures pair in m || r.Failed? ==> Cached(m, pair, r) == m
    ensures r.Found? ==> pair in Cached(m, pair, r) && Cached(m, pair, r)[pair] == r.quote
  {
    if pair in m {
      assert m[pair := m[pair]] == m;
    }
  }

  /** Caching is idempotent: once a lookup has stored its quote, the same lookup
      hits step 1, returns that same quote and changes nothing. */
  lemma CachingIsIdempotent(m: QuoteMap, pair: seq<char>, r: Lookup, r2: Lookup)
    requires Resolves(m, pair, r) && r.Found?
    ensures Resolves(Cached(m, pair, r), pair, r2) <==> r2 == r
    ensures Cached(Cached(m, pair, r), pair, r) == Cached(m, pair, r)
  {
  }

  /** The repository. `quotes` is the map that both addQuote and the caching
      of getQuote change in place; `supplied` records every handle given to
      AddQuote. */
  class FXTriangulation {
    var quotes: QuoteMap
    ghost var supplied: set<HandleId>

    /** Every entry is built from handles that were supplied to AddQuote. */
    ghost predicate Valid()
      reads this
    {
      LeavesWithin(quotes, supplied)
    }

    /** Once built the repository is empty. */
    constructor ()
      ensures Valid()
      ensures quotes == map[] && supplied == {}
    {
      quotes := map[];
      supplied := {};
    }

    /** Adds a quote: inserts or overwrites the entry for `pair`, and only it. */
    method AddQuote(pair: seq<char>, spot: HandleId)
      requires Valid()
      modifies this
      ensures Valid()
      ensures quotes == old(quotes)[pair := Direct(spot)]
      ensures supplied == old(supplied) + {spot}
      ensures forall k :: k in old(quotes) && k != pair ==> k in quotes && quotes[k] == old(quotes)[k]
    {
      quotes := quotes[pair := Direct(spot)];
      supplied := supplied + {spot};
    }

    /** Gets a quote by the lookup rule and stores a quote constructed by step 2
        or 3 under `pair`, so that the next request for `pair` hits step 1. */
    method GetQuote(pair: seq<char>) returns (r: Lookup)
      requires Valid()
      modifies this
      ensures Valid() && supplied == old(supplied)
      ensures Resolves(old(quotes), pair, r)
      ensures quotes == Cached(old(quotes), pair, r)
      ensures pair in old(quotes) || r.Failed? ==> quotes == old(quotes)
      ensures forall k :: k in old(quotes) ==> k in quotes && quotes[k] == old(quotes)[k]
      ensures quotes.Keys <= old(quotes).Keys + {pair}
    {
      r := Resolve(quotes, pair);
      CachedOnlyAdds(quotes, pair, r);
      if r.Found? {
        ResolvedLeavesWithin(quotes, pair, r, supplied);
        if pair !in quotes {
          quotes := quotes[pair := r.quote];
        }
      }
    }
  }
}
