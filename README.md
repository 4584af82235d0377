# Best-execution order service, modelled in Dafny

This project models the order service of a small crypto price service. The
service holds an ordered list of exchanges. For a buy, it asks every
exchange for its prices and picks the lowest buy price. For a sell, it picks
the highest sell price. It reports `amount * bestPrice` and the names of all
exchanges that quoted exactly that price, in list order. An exchange whose
call fails is skipped. When no exchange gives a usable price, the service
fails with `failed to find best price for <symbol>`.

Files:

- `exchange.dfy` (module `Exchange`): what one exchange produced for the
  request. This is the name, and either a `(buy, sell)` price pair or an
  error. It stands in for the `Exchange` interface
  (services/exchange/exchange.go:14-20).
- `selection.dfy` (module `Selection`): the specification. `Offers` gives
  the `(name, price)` pairs of the successful exchanges, in order, for one
  side. `Best` gives the running best price, starting from the sentinel.
  `QuotedAt` gives the names at one price, in order. The lemmas state what
  these mean: `Best` is the minimum (or maximum) and the only value with
  that property; it does not depend on order; failed exchanges and prices
  worse than the sentinel are ignored; only one side of each price pair is
  read; the winners are exactly the exchanges at the best price, in input
  order.
- `order.dfy` (module `Order`): `OrderService` with the `Buy` and `Sell`
  loops of services/order/order.go. Each loop is proved against `Selection`
  through loop invariants over the prefix visited so far.
- `order_scenarios.dfy` (module `OrderScenarios`): every case of
  main_test.go that reaches the service (all but the two invalid-amount
  cases of each handler, which the controller rejects), plus an empty
  exchange list and the sentinel edge cases, checked against the contracts
  of `Buy` and `Sell`.

Buying and selling are mirror images. `Selection` describes both once, over a
`Side`: `Ask` (buy: lower wins, sentinel 1e18, reads the first price) and
`Bid` (sell: higher wins, sentinel 0.0, reads the second price).

`OrderService` is a datatype, not a class. Nothing ever changes its exchange
list after `NewOrderService` builds it, so `Buy` and `Sell` cannot change
it either. The nil winners slice that Go returns on failure is the empty
sequence here. The Go `error` is `Option<string>`, holding the error
message.

Three behaviours of the code that a reader might not expect:

- The only error is `failed to find best price for <symbol>`
  (services/order/order.go:44, 76).
- `Buy` and `Sell` accept any amount, including zero or a negative one. Only
  the HTTP controller rejects an amount of 0 (controllers/orders/orders.go:24,
  48). So the model has no precondition on `amount`.
- Prices are not assumed positive (services/order/order.go:34-44, 66-76). A
  sell price of exactly 0.0, or a buy price of exactly 1e18, is appended to
  the running winners, but the call still fails. Sell prices below 0.0 and
  buy prices above 1e18 are never collected at all.

## Model

| member | source | states |
|---|---|---|
| `Order.OrderService.Buy` | services/order/order.go:21-51 | Succeeds exactly when some successful exchange has a buy price below 1e18. Then the USD amount is `amount` times the lowest successful buy price, which is below 1e18. The winners are the names at that price, in input order, and there is at least one. On failure it returns 0, no winners and `failed to find best price for <symbol>`. |
| `Order.OrderService.Sell` | services/order/order.go:54-83 | The mirror image: succeeds exactly when some successful sell price is above 0.0. Then it returns `amount` times the highest successful sell price, which is above 0.0, and the non-empty names at that price in order. Otherwise 0, no winners and the same error. |
| `Order.NewOrderService` | services/order/order.go:15-18 | The service holds exactly the exchanges given, in the given order. |
| `Selection.Offers` | services/order/order.go:26-31 | Every successful exchange contributes its `(name, price)` offer. Every offer comes from a successful exchange. There are no more offers than exchanges. |
| `Selection.Best` | services/order/order.go:22-40 | The running best is no worse than the sentinel. No offer beats it. It is either the sentinel or the price of some offer. |
| `Selection.QuotedAt` | services/order/order.go:34-39 | A name is among the winners at price `p` exactly when some offer with that name has price `p`. |
| `Selection.BestIsUnique` | services/order/order.go:34-40 | Any value with the three properties of `Best` equals `Best`. So the running best is the minimum (or maximum), capped by the sentinel. |
| `Selection.BestIgnoresOrder` | services/order/order.go:26-40 | Reordering the offers (same multiset) does not change the best price. |
| `Selection.BestIgnoresExchangeOrder` | services/order/order.go:26-40 | Two exchange lists holding the same exchanges (same multiset) give the same best price, whatever their order. |
| `Selection.SucceedsIffImproves` | services/order/order.go:42-45 | The best price differs from the sentinel exactly when some offer beats the sentinel. Then the best price is strictly better than the sentinel and the winners list is non-empty. |
| `Selection.BestOverExchanges` | services/order/order.go:22-45 | The same facts stated on the exchanges. Some successful exchange beats the sentinel exactly when the selection improves on it. No successful exchange's price beats the best. When it improves, some successful exchange quotes exactly the best price. |
| `Selection.WinnersOverExchanges` | services/order/order.go:34-39 | A name is among the winners at price `p` exactly when some successful exchange with that name quotes `p` on this side. |
| `Selection.QuotedAtAppend` | services/order/order.go:34-39 | Winners come in input order. The winners of a concatenation are the first part's winners followed by the second part's. |
| `Selection.ScanStep` | services/order/order.go:34-39 | One loop step on the spec. A strictly better offer becomes the best, with itself as the only winner. An offer equal to the best is appended to the winners. Any other offer changes nothing. |
| `Selection.FailedExchangeIgnored` | services/order/order.go:26-31 | A failed exchange at any position contributes no offer. The offers are the same as without it. |
| `Selection.OffersReadOneSide` | services/order/order.go:27 | Two exchange lists that agree on names, on which calls failed, and on this side's prices give the same offers. The other side of each pair never matters. |
| `Selection.WorseThanSentinelIgnored` | services/order/order.go:22-40 | An offer strictly worse than the sentinel, at any position, changes neither the best price nor the winners at that price. Examples are a buy price above 1e18 or a negative sell price. |

## Left out

- The Coinbase and Kraken adapters (services/exchange/exchange.go:22-167). They do HTTP calls with timeouts, JSON decoding and string-to-float parsing. The model replaces them by the result each call produced: a price pair or an error.
- Quotes per request. An `OrderService` value stands for the service during one request. Each exchange carries the outcome of its `GetPrices` call for that request's symbol. In the model the quotes do not depend on `symbol`, which only reaches the error message. Several `Buy`/`Sell` calls on one value share the same outcomes, whereas the code calls `GetPrices(ctx, symbol)` afresh on every call (services/order/order.go:27, 60), so a later call or another symbol may see different prices or failures.
- The order of the Kraken result map. Go iterates it in random order, so which entry is read is not deterministic. It is part of the adapters above.
- `context.Context`, cancellation and timeouts. They only affect whether an adapter call fails, and that is already an input of the model.
- The `log.Printf` of each failed exchange (services/order/order.go:29, 62). It is only an observation and never changes the result.
- IEEE-754 arithmetic. Prices and amounts are `real`, so NaN comparisons and the rounding of `amount * bestPrice` are not modelled.
- The HTTP controller (controllers/orders/orders.go): query parsing, the amount-0 rejection, the JSON envelope and the status codes. main.go (wiring and server start) is not part of this model either.
- The scenario methods in `OrderScenarios` check only the service's results from main_test.go. They do not check the HTTP bodies and status codes.
