/** The order service of services/order/order.go: it holds an ordered list
    of exchanges and answers buy and sell requests with the best price found
    across them. */
module Order {
  import opened Exchange
  import opened Selection

  datatype Option<T> = None | Some(value: T)

  /** The one error the service reports: no exchange gave a usable price. */
  function NoPriceError(symbol: string): string
  {
    "failed to find best price for " + symbol
  }

  /** The dollar value of `amount` units at `price` each. */
  function UsdAmount(amount: real, price: real): real
  {
    amount * price
  }

  /** The service never changes its exchange list after construction, so it
      is a value. `Buy` and `Sell` visit `exchanges` in order. A Go `nil`
      slice of winners is the empty sequence here. */
  datatype OrderService = OrderService(exchanges: seq<Exchange>)
  {
    /** Keep a running minimum of the buy price, starting at 1e18; a strictly
        lower price replaces the winners, an equal one is appended. Succeeds
        unless the running minimum is still 1e18 at the end. */
    method Buy(amount: real, symbol: string) returns (usdAmount: real, bestExchanges: seq<string>, err: Option<string>)
      ensures err.None? <==> Improves(Ask, Offers(Ask, exchanges))
      ensures err.None? ==>
        && Best(Ask, Offers(Ask, exchanges)) < BuySentinel
        && usdAmount == UsdAmount(amount, Best(Ask, Offers(Ask, exchanges)))
        && bestExchanges == QuotedAt(Offers(Ask, exchanges), Best(Ask, Offers(Ask, exchanges)))
        && bestExchanges != []
      ensures err.Some? ==> usdAmount == 0.0 && bestExchanges == [] && err.value == NoPriceError(symbol)
    {
      var bestPrice := BuySentinel;
      bestExchanges := [];
      for i := 0 to |exchanges|
        invariant bestPrice == Best(Ask, Offers(Ask, exchanges[..i]))
        invariant bestExchanges == QuotedAt(Offers(Ask, exchanges[..i]), bestPrice)
      {
        var e := exchanges[i];
        ghost var seen := Offers(Ask, exchanges[..i]);
        OffersStep(Ask, exchanges, i);
        match e.quote
        case Failed(_) =>
          // the failure is only logged; the scan goes on
        case Prices(price, _) =>
          ScanStep(Ask, seen, OfferOf(Ask, e));
          if price < bestPrice {
            bestPrice := price;
            bestExchanges := [e.name];
          } else if price == bestPrice {
            bestExchanges := bestExchanges + [e.name];
          }
      }
      assert exchanges[..|exchanges|] == exchanges;
      assert bestPrice == Best(Ask, Offers(Ask, exchanges));
      SucceedsIffImproves(Ask, Offers(Ask, exchanges));
      if bestPrice == BuySentinel {
        return 0.0, [], Some(NoPriceError(symbol));
      }
      usdAmount := UsdAmount(amount, bestPrice);
      err := None;
    }

    /** The mirror image of `Buy`: a running maximum of the sell price,
        starting at 0.0, failing if it is still 0.0 at the end. */
    method Sell(amount: real, symbol: string) returns (usdAmount: real, bestExchanges: seq<string>, err: Option<string>)
      ensures err.None? <==> Improves(Bid, Offers(Bid, exchanges))
      ensures err.None? ==>
        && Best(Bid, Offers(Bid, exchanges)) > SellSentinel
        && usdAmount == UsdAmount(amount, Best(Bid, Offers(Bid, exchanges)))
        && bestExchanges == QuotedAt(Offers(Bid, exchanges), Best(Bid, Offers(Bid, exchanges)))
        && bestExchanges != []
      ensures err.Some? ==> usdAmount == 0.0 && bestExchanges == [] && err.value == NoPriceError(symbol)
    {
      var bestPrice := SellSentinel;
      bestExchanges := [];
      for i := 0 to |exchanges|
        invariant bestPrice == Best(Bid, Offers(Bid, exchanges[..i]))
        invariant bestExchanges == QuotedAt(Offers(Bid, exchanges[..i]), bestPrice)
      {
        var e := exchanges[i];
        ghost var seen := Offers(Bid, exchanges[..i]);
        OffersStep(Bid, exchanges, i);
        match e.quote
        case Failed(_) =>
          // the failure is only logged; the scan goes on
        case Prices(_, price) =>
          ScanStep(Bid, seen, OfferOf(Bid, e));
          if price > bestPrice {
            bestPrice := price;
            bestExchanges := [e.name];
          } else if price == bestPrice {
            bestExchanges := bestExchanges + [e.name];
          }
      }
      assert exchanges[..|exchanges|] == exchanges;
      assert bestPrice == Best(Bid, Offers(Bid, exchanges));
      SucceedsIffImproves(Bid, Offers(Bid, exchanges));
      if bestPrice == SellSentinel {
        return 0.0, [], Some(NoPriceError(symbol));
      }
      usdAmount := UsdAmount(amount, bestPrice);
      err := None;
    }
  }

  /** The service keeps the exchanges exactly as given, in the given order. */
  function NewOrderService(exchanges: seq<Exchange>): (s: OrderService)
    ensures s.exchanges == exchanges
  {
    OrderService(exchanges)
  }
}
