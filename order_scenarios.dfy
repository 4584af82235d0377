/** The request scenarios of main_test.go, replayed against the contracts of
    `Buy` and `Sell` (the HTTP layer those tests go through is not modelled:
    only the service's results are checked here), and the sentinel edge
    cases of services/order/order.go. */
module OrderScenarios {
  import opened Exchange
  import opened Selection
  import opened Order

  function Pair(name: string, buy: real, sell: real): Exchange
  {
    Exchange(name, Prices(buy, sell))
  }

  function Down(name: string): Exchange
  {
    Exchange(name, Failed(name + " error"))
  }

  method BuyBestOnCoinbase()
  {
    var service := NewOrderService([Pair("coinbase", 9900.0, 9900.0), Pair("kraken", 10000.0, 10000.0)]);
    var usd, names, err := service.Buy(1.0, "BTC");
    assert err == None && usd == 9900.0 && names == ["coinbase"];
  }

  method BuyEthBestOnCoinbase()
  {
    var service := NewOrderService([Pair("coinbase", 9900.0, 9900.0), Pair("kraken", 10000.0, 10000.0)]);
    var usd, names, err := service.Buy(1.0, "ETH");
    assert err == None && usd == 9900.0 && names == ["coinbase"];
  }

  method BuyBestOnKraken()
  {
    var service := NewOrderService([Pair("coinbase", 10000.0, 10000.0), Pair("kraken", 9900.0, 9900.0)]);
    var usd, names, err := service.Buy(1.0, "BTC");
    assert err == None && usd == 9900.0 && names == ["kraken"];
  }

  method BuySamePriceOnBoth()
  {
    var service := NewOrderService([Pair("coinbase", 10000.0, 10000.0), Pair("kraken", 10000.0, 10000.0)]);
    var usd, names, err := service.Buy(1.0, "BTC");
    assert err == None && usd == 10000.0 && names == ["coinbase", "kraken"];
  }

  method BuyFractionalAmount()
  {
    var service := NewOrderService([Pair("coinbase", 10000.0, 10000.0), Pair("kraken", 9900.0, 9900.0)]);
    var usd, names, err := service.Buy(0.5, "BTC");
    assert err == None && usd == 4950.0 && names == ["kraken"];
  }

  method BuyCoinbaseDown()
  {
    var service := NewOrderService([Down("coinbase"), Pair("kraken", 9900.0, 9900.0)]);
    var usd, names, err := service.Buy(1.0, "BTC");
    assert err == None && usd == 9900.0 && names == ["kraken"];
  }

  method BuyBothDown()
  {
    var service := NewOrderService([Down("coinbase"), Down("kraken")]);
    var usd, names, err := service.Buy(1.0, "BTC");
    assert NoPriceError("BTC") == "failed to find best price for BTC";
    assert err == Some("failed to find best price for BTC") && usd == 0.0 && names == [];
  }

  method SellBestOnCoinbase()
  {
    var service := NewOrderService([Pair("coinbase", 10000.0, 10000.0), Pair("kraken", 9900.0, 9900.0)]);
    var usd, names, err := service.Sell(1.0, "BTC");
    assert err == None && usd == 10000.0 && names == ["coinbase"];
  }

  method SellEthBestOnCoinbase()
  {
    var service := NewOrderService([Pair("coinbase", 10000.0, 10000.0), Pair("kraken", 9900.0, 9900.0)]);
    var usd, names, err := service.Sell(1.0, "ETH");
    assert err == None && usd == 10000.0 && names == ["coinbase"];
  }

  method SellBestOnKraken()
  {
    var service := NewOrderService([Pair("coinbase", 9900.0, 9900.0), Pair("kraken", 10000.0, 10000.0)]);
    var usd, names, err := service.Sell(1.0, "BTC");
    assert err == None && usd == 10000.0 && names == ["kraken"];
  }

  method SellSamePriceOnBoth()
  {
    var service := NewOrderService([Pair("coinbase", 9900.0, 9900.0), Pair("kraken", 9900.0, 9900.0)]);
    var usd, names, err := service.Sell(1.0, "BTC");
    assert err == None && usd == 9900.0 && names == ["coinbase", "kraken"];
  }

  method SellFractionalAmount()
  {
    var service := NewOrderService([Pair("coinbase", 9900.0, 9900.0), Pair("kraken", 10000.0, 10000.0)]);
    var usd, names, err := service.Sell(0.5, "BTC");
    assert err == None && usd == 5000.0 && names == ["kraken"];
  }

  method SellCoinbaseDown()
  {
    var service := NewOrderService([Down("coinbase"), Pair("kraken", 9900.0, 9900.0)]);
    var usd, names, err := service.Sell(1.0, "BTC");
    assert err == None && usd == 9900.0 && names == ["kraken"];
  }

  method SellBothDown()
  {
    var service := NewOrderService([Down("coinbase"), Down("kraken")]);
    var usd, names, err := service.Sell(1.0, "BTC");
    assert NoPriceError("BTC") == "failed to find best price for BTC";
    assert err == Some("failed to find best price for BTC") && usd == 0.0 && names == [];
  }

  method NoExchanges()
  {
    var service := NewOrderService([]);
    assert NoPriceError("ETH") == "failed to find best price for ETH";
    var usd, names, err := service.Buy(1.0, "ETH");
    assert err == Some("failed to find best price for ETH") && usd == 0.0 && names == [];
    usd, names, err := service.Sell(1.0, "ETH");
    assert err == Some("failed to find best price for ETH") && usd == 0.0 && names == [];
  }

  /** A buy price of exactly 1e18 ties the sentinel: the loop appends the
      exchange to its winners, yet the call fails. */
  method BuyAtSentinel()
  {
    var offers := [Offer("coinbase", BuySentinel)];
    assert Offers(Ask, [Pair("coinbase", BuySentinel, 5.0)]) == offers;
    assert Best(Ask, offers) == BuySentinel && QuotedAt(offers, BuySentinel) == ["coinbase"];
    var service := NewOrderService([Pair("coinbase", BuySentinel, 5.0)]);
    var usd, names, err := service.Buy(1.0, "BTC");
    assert err.Some? && names == [];
  }

  /** A sell price of exactly 0.0 ties the sentinel in the same way, and a
      negative sell price is not even collected. */
  method SellAtSentinel()
  {
    var service := NewOrderService([Pair("coinbase", 5.0, 0.0), Pair("kraken", 5.0, -1.0)]);
    var usd, names, err := service.Sell(1.0, "BTC");
    assert err.Some? && names == [];
  }

  /** A buy price above 1e18 is ignored: the other exchange wins alone. */
  method BuyAboveSentinel()
  {
    var service := NewOrderService([Pair("coinbase", 2.0 * BuySentinel, 1.0), Pair("kraken", 9900.0, 1.0)]);
    var usd, names, err := service.Buy(2.0, "BTC");
    assert err == None && usd == 19800.0 && names == ["kraken"];
  }
}
