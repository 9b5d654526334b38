/** Currency-pair keys of the FX repository.

    A pair key such as "EURUSD" is two three-letter currency codes: the base
    currency ("EUR") followed by the quote currency ("USD"); it denotes the
    number of units of the quote currency per unit of the base currency.
    No validation against a list of real currencies takes place. */
module CurrencyPairs {

  /** A three-character currency code. */
  type Currency = s: seq<char> | |s| == 3 witness "XXX"

  /** A six-character pair key: base code followed by quote code. */
  type PairKey = s: seq<char> | |s| == 6 witness "XXXXXX"

  /** The base currency: the first half of the key. */
  function Base(p: PairKey): Currency
  {
    p[..3]
  }

  /** The quote currency: the second half of the key. */
  function Quote(p: PairKey): Currency
  {
    p[3..]
  }

  /** The key of the pair base/quote; splitting it gives back both codes. */
  function Pair(base: Currency, quote: Currency): (p: PairKey)
    ensures Base(p) == base && Quote(p) == quote
  {
    base + quote
  }

  /** Splitting a key and joining the halves again gives the key back. */
  lemma PairOfHalves(p: PairKey)
    ensures Pair(Base(p), Quote(p)) == p
  {
    assert p == p[..3] + p[3..];
  }

  /** A key is determined by its two currencies, and conversely. */
  lemma PairInjective(a: Currency, b: Currency, c: Currency, d: Currency)
    ensures Pair(a, b) == Pair(c, d) <==> a == c && b == d
  {
    if Pair(a, b) == Pair(c, d) {
      assert a == Base(Pair(a, b)) == Base(Pair(c, d)) == c;
      assert b == Quote(Pair(a, b)) == Quote(Pair(c, d)) == d;
    }
  }

  /** The reversed pair (EURUSD -> USDEUR): base and quote swap places. */
  function Reverse(p: PairKey): (r: PairKey)
    ensures Base(r) == Quote(p) && Quote(r) == Base(p)
  {
    Pair(Quote(p), Base(p))
  }

  /** Reversing twice gives the original key. */
  lemma ReverseInvolutive(p: PairKey)
    ensures Reverse(Reverse(p)) == p
  {
    PairOfHalves(p);
  }

  /** A key equals its reverse exactly when base and quote coincide ("EUREUR"). */
  lemma ReverseFixedPoint(p: PairKey)
    ensures Reverse(p) == p <==> Base(p) == Quote(p)
  {
    PairOfHalves(p);
    PairInjective(Quote(p), Base(p), Base(p), Quote(p));
  }

  /** The key relates currencies x and y, in either orientation: it is xy or yx. */
  predicate Relates(k: seq<char>, x: Currency, y: Currency)
  {
    k == Pair(x, y) || k == Pair(y, x)
  }

  /** A key relates x and y exactly when its two halves are x and y in some order. */
  lemma RelatesHalves(k: PairKey, x: Currency, y: Currency)
    ensures Relates(k, x, y) <==>
              (Base(k) == x && Quote(k) == y) || (Base(k) == y && Quote(k) == x)
  {
    PairOfHalves(k);
    PairInjective(Base(k), Quote(k), x, y);
    PairInjective(Base(k), Quote(k), y, x);
  }
}
