/** The worked examples of the repository's documentation, stated over the
    lookup rule and exercised on the repository object. */
module Scenarios {
  import opened CurrencyPairs
  import opened FxTriangulation

  /** With only EURUSD supplied, USDEUR resolves to the inverse of that quote. */
  lemma InverseExample(h: HandleId, r: Lookup)
    ensures Resolves(map["EURUSD" := Direct(h)], "USDEUR", r) <==> r == Found(Inverse(Direct(h)))
  {
    assert Reverse("USDEUR") == "EURUSD";
  }

  /** EURUSD and EURJPY bridge USDJPY through EUR, and no other bridge exists. */
  lemma BridgeExample(h1: HandleId, h2: HandleId, r: Lookup)
    ensures Resolves(map["EURUSD" := Direct(h1), "EURJPY" := Direct(h2)], "USDJPY", r)
            <==> r == Found(Bridge(Direct(h1), Direct(h2)))
  {
    var m := map["EURUSD" := Direct(h1), "EURJPY" := Direct(h2)];
    var legs := BridgeLegs("EURUSD", "EURJPY", "EUR");
    assert Reverse("USDJPY") == "JPYUSD";
    assert IsBridge(m, "USDJPY", legs) by {
      assert "EURUSD" == Pair("EUR", "USD");
      assert "EURJPY" == Pair("EUR", "JPY");
    }
    forall b | IsBridge(m, "USDJPY", b)
      ensures b == legs
    {
      RelatesHalves(b.baseKey, "USD", b.via);
      RelatesHalves(b.quoteKey, "JPY", b.via);
    }
  }

  /** GBPCHF cannot be built from EURUSD alone. */
  lemma NotFoundExample(h: HandleId, r: Lookup)
    ensures Resolves(map["EURUSD" := Direct(h)], "GBPCHF", r) <==> r == Failed(NotFound)
  {
    assert Reverse("GBPCHF") == "CHFGBP";
  }

  /** A client of the repository: supply EURUSD and EURJPY and ask twice for
      USDJPY. The first request builds the composite through EUR and caches it;
      the second hits the cache and changes nothing. */
  method DocumentedUse(h1: HandleId, h2: HandleId)
  {
    var fx := new FXTriangulation();
    fx.AddQuote("EURUSD", h1);
    fx.AddQuote("EURJPY", h2);
    var r := fx.GetQuote("USDJPY");
    BridgeExample(h1, h2, r);
    assert r == Found(Bridge(Direct(h1), Direct(h2)));
    ghost var cachedMap := fx.quotes;
    assert "USDJPY" in cachedMap;

    var again := fx.GetQuote("USDJPY");
    assert again == r && fx.quotes == cachedMap;
  }

  /** Overwriting a quote replaces only its own entry: an inverse cached
      earlier keeps the path chosen at first resolution (it still references
      the first quote), while a request for the overwritten key returns the
      new quote. */
  method OverwriteKeepsCachedPath(h1: HandleId, h2: HandleId)
  {
    var fx := new FXTriangulation();
    fx.AddQuote("EURUSD", h1);
    var inv := fx.GetQuote("USDEUR");
    InverseExample(h1, inv);
    assert fx.quotes == map["EURUSD" := Direct(h1), "USDEUR" := Inverse(Direct(h1))];

    fx.AddQuote("EURUSD", h2);
    assert fx.quotes == map["EURUSD" := Direct(h2), "USDEUR" := Inverse(Direct(h1))];
    var direct := fx.GetQuote("EURUSD");
    assert direct == Found(Direct(h2));
    var cached := fx.GetQuote("USDEUR");
    assert cached == Found(Inverse(Direct(h1)));
  }
}
