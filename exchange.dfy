/** The result shape of one exchange, standing in for the `Exchange` interface
    of services/exchange/exchange.go. The concrete HTTP adapters are replaced
    by an oracle: each exchange comes with the outcome its `GetPrices` call
    produced for the current request. */
module Exchange {

  /** What `GetPrices` returned: the (buy, sell) price pair, or an error. */
  datatype Quote =
    | Prices(buy: real, sell: real)
    | Failed(cause: string)

  /** One exchange as the order service sees it: the name `GetName` reports
      and the quote `GetPrices` produced. */
  datatype Exchange = Exchange(name: string, quote: Quote)
}
