# FX triangulation repository

A model of `FXTriangulation` from ORE (`OREData/ored/marketdata/fxtriangulation.hpp`).
`FXTriangulation` is an FX spot-price repository. It keeps a mutable map from a currency-pair key
such as `"EURUSD"` to a quote handle. `addQuote` inserts or overwrites one entry.
`getQuote` answers a request for a pair in this order:

1. the pair itself;
2. the reversed pair (`EURUSD` for `USDEUR`), which gives an inverse quote;
3. a bridging pair that shares a third currency (`EURUSD` and `EURJPY` give `USDJPY`), which gives a composite quote.

A quote made by step 2 or 3 is stored under the requested key, so the next request hits step 1.
The C++ `getQuote` is declared `const`, but it still changes the map, because the map is `mutable`.

The files:

- `pairs.dfy`, module `CurrencyPairs`, is pure. A key is six characters: a three-letter base code
  followed by a three-letter quote code. The module splits a key (`Base`, `Quote`), joins two codes
  (`Pair`), reverses a key (`Reverse`), and defines `Relates`, which says that a key links two
  currencies in either orientation.
- `fxtriangulation.dfy`, module `FxTriangulation`, is the repository.
  - Quotes are symbolic: `Direct(handle)`, `Inverse(q)` and `Bridge(baseLeg, quoteLeg)`.
    A constructed quote holds the quotes it is built from, not a number.
  - `Resolves(m, pair, r)` is the lookup rule as a relation. It fixes the result completely in
    steps 1 and 2 and in the failure cases. In step 3 it allows the composite of ANY qualifying
    bridge, because the source does not document a tie-break.
  - `FindBridge` is the search loop over the map. `Resolve` runs steps 1 to 3 on a map value.
  - The class `FXTriangulation` has the field `quotes`, changed in place by `AddQuote` and by the
    caching in `GetQuote`. Its ghost field `supplied` records every handle given to `AddQuote`.
    `Valid()` says that every entry is built only from supplied handles.
- `scenarios.dfy`, module `Scenarios`, holds the documented examples as lemmas, and two client
  methods that use the class.

Decisions where the header leaves something open:

- The body of `getQuote` is not part of this model; only its documented algorithm is.
- Keys are arbitrary strings, as in `addQuote`. Step 1 is tried on any key. A key that misses
  step 1 and is not six characters long fails with `InvalidKey`. Other misses fail with
  `NotFound`. The map is unchanged after either failure.
- A bridge may use either orientation of each leg (`EURUSD` or `USDEUR`, `EURJPY` or `JPYEUR`).
  `Bridge(x, y)` records the entry `x` relating the base currency to the shared currency and the
  entry `y` relating the quote currency to it. Which leg is inverted numerically is not modelled.
- Overwriting a key with `AddQuote` does not invalidate quotes cached earlier under other keys.
  Those quotes keep the path chosen when they were first resolved (`OverwriteKeepsCachedPath`).
- No entry can depend on itself. Quotes are an inductive datatype, so each one is a finite tree.
  A cached quote contains the entries it was built from, and those are stored under keys other
  than the requested one (`ConstructedFromOtherEntries`).

## Model

| member | source | states |
|---|---|---|
| `CurrencyPairs.Pair` | OREData/ored/marketdata/fxtriangulation.hpp:43 | splitting the joined key gives back the base code and the quote code |
| `CurrencyPairs.PairOfHalves` | OREData/ored/marketdata/fxtriangulation.hpp:43 | joining a key's base half and quote half gives the key back |
| `CurrencyPairs.PairInjective` | OREData/ored/marketdata/fxtriangulation.hpp:43 | two keys are equal exactly when their base codes are equal and their quote codes are equal |
| `CurrencyPairs.Reverse` | OREData/ored/marketdata/fxtriangulation.hpp:43 | the reversed key (EURUSD -> USDEUR) has the original quote code as its base and the original base code as its quote |
| `CurrencyPairs.ReverseInvolutive` | OREData/ored/marketdata/fxtriangulation.hpp:43 | reversing a key twice gives the original key |
| `CurrencyPairs.ReverseFixedPoint` | OREData/ored/marketdata/fxtriangulation.hpp:43 | a key equals its reverse exactly when its base and quote codes coincide |
| `CurrencyPairs.RelatesHalves` | OREData/ored/marketdata/fxtriangulation.hpp:44 | a key relates two currencies in either orientation exactly when its two halves are those currencies in some order |
| `FxTriangulation.FindBridge` | OREData/ored/marketdata/fxtriangulation.hpp:44-45 | the search over the map: a returned pair of keys is a bridge, i.e. two entries, one relating the requested base and one relating the requested quote to the same third currency; no result means no bridge exists |
| `FxTriangulation.Resolve` | OREData/ored/marketdata/fxtriangulation.hpp:41-45 | the lookup follows the rule in order: direct entry; else the inverse of the reversed entry; else the composite of the two entries of some bridge; else failure (InvalidKey for a malformed key, otherwise NotFound) |
| `FxTriangulation.ResolvesSucceedsIff` | OREData/ored/marketdata/fxtriangulation.hpp:41-45 | a lookup succeeds if and only if the key, its reverse or a bridge is present; it fails with InvalidKey if and only if the key misses and is not six characters long |
| `FxTriangulation.ResolvesOnlyBridgeVaries` | OREData/ored/marketdata/fxtriangulation.hpp:44-45 | whether a lookup succeeds does not depend on the bridge chosen; two allowed results differ only in step 3, where both are composites |
| `FxTriangulation.BridgeIsThirdCurrency` | OREData/ored/marketdata/fxtriangulation.hpp:44 | when step 3 applies, the shared currency differs from both requested currencies, and neither leg is the requested key or its reverse |
| `FxTriangulation.ConstructedFromOtherEntries` | OREData/ored/marketdata/fxtriangulation.hpp:47-51 | a quote built by step 2 or 3 is the inverse of the entry under the reversed key, which is a different key, or the composite of two entries under keys different from the requested one |
| `FxTriangulation.ResolvedLeavesWithin` | OREData/ored/marketdata/fxtriangulation.hpp:49-51 | a returned quote references only handles that the map's entries reference |
| `FxTriangulation.CachedOnlyAdds` | OREData/ored/marketdata/fxtriangulation.hpp:47 | caching keeps every earlier binding, adds no key other than the requested one, binds it to the returned quote, and changes nothing after a direct hit or a failure |
| `FxTriangulation.CachingIsIdempotent` | OREData/ored/marketdata/fxtriangulation.hpp:47 | after caching, the same request returns exactly the cached quote by step 1, and caching it again leaves the map as it is |
| `FxTriangulation.FXTriangulation.constructor` | OREData/ored/marketdata/fxtriangulation.hpp:57-58 | a new repository is empty |
| `FxTriangulation.FXTriangulation.AddQuote` | OREData/ored/marketdata/fxtriangulation.hpp:60-61 | the map binds the pair to the supplied handle; every other binding is unchanged; the repository invariant is kept |
| `FxTriangulation.FXTriangulation.GetQuote` | OREData/ored/marketdata/fxtriangulation.hpp:63-67 | the result follows the lookup rule on the map before the call; the map after the call is the map before, plus the requested key bound to a quote built by step 2 or 3; every entry still references only supplied handles |
| `Scenarios.InverseExample` | OREData/ored/marketdata/fxtriangulation.hpp:43 | with only EURUSD present, USDEUR resolves to exactly the inverse of the EURUSD quote |
| `Scenarios.BridgeExample` | OREData/ored/marketdata/fxtriangulation.hpp:44 | with EURUSD and EURJPY present, USDJPY resolves to exactly the composite of those two quotes, since it is the only bridge |
| `Scenarios.NotFoundExample` | OREData/ored/marketdata/fxtriangulation.hpp:41-45 | with only EURUSD present, GBPCHF fails with NotFound |

## Left out

- Numeric values of quotes, i.e. the reciprocal and the ratio of doubles: these are floating-point arithmetic, so quotes are symbolic expressions instead.
- QuantLib `Handle<Quote>` and `Quote` internals, observer notification of value changes, and shared ownership: this is library code outside the repository, so handles are opaque identifiers (`HandleId`). Because a constructed quote holds its handles, later value changes would show through it.
- Handles that a caller got from `getQuote` and passes back to `addQuote`: the repository cannot see inside a handle, so every supplied handle is an opaque leaf (`Direct`).
- The exception type raised when no path exists: it is not visible in the header, so a failure is a `Failed` result, and the map is unchanged.
- Bridge tie-break order and the numeric orientation of the bridge legs: the body of `getQuote` is not part of this model, so any qualifying bridge is allowed and the search order over the map is left open.
- Thread safety of the `mutable` cache: the model is sequential.
