/** The specification of best-price selection: which quotes take part, which
    price is best, and which exchanges attain it. Buying and selling differ
    only in the side of the quote they read, the direction of "better" and
    the sentinel the running best starts from, so both are described once,
    over a `Side`. */
module Selection {
  import opened Exchange

  /** Ask: buying, lowest buy price wins. Bid: selling, highest sell price wins. */
  datatype Side = Ask | Bid

  /** A successful exchange reduced to what the selection looks at. */
  datatype Offer = Offer(name: string, price: real)

  /** The running best of `Buy` starts at 1e18, that of `Sell` at 0.0. */
  const BuySentinel: real := 1000000000000000000.0
  const SellSentinel: real := 0.0

  function Sentinel(side: Side): real
  {
    match side
    case Ask => BuySentinel
    case Bid => SellSentinel
  }

  /** `a` is strictly better than `b`: lower when buying, higher when selling. */
  predicate Beats(side: Side, a: real, b: real)
  {
    match side
    case Ask => a < b
    case Bid => a > b
  }

  /** The price a side reads from a quote: the first of the pair when
      buying, the second when selling. */
  function PriceOn(side: Side, q: Quote): real
    requires q.Prices?
  {
    match side
    case Ask => q.buy
    case Bid => q.sell
  }

  function OfferOf(side: Side, e: Exchange): Offer
    requires e.quote.Prices?
  {
    Offer(e.name, PriceOn(side, e.quote))
  }

  /** The offers of the exchanges whose call succeeded, in input order;
      failed exchanges contribute nothing. */
  function Offers(side: Side, xs: seq<Exchange>): (r: seq<Offer>)
    ensures |r| <= |xs|
    ensures forall i :: 0 <= i < |xs| && xs[i].quote.Prices? ==> OfferOf(side, xs[i]) in r
    ensures forall o :: o in r ==> exists i :: 0 <= i < |xs| && xs[i].quote.Prices? && o == OfferOf(side, xs[i])
    decreases |xs|
  {
    if xs == [] then []
    else
      var init := xs[..|xs| - 1];
      var last := xs[|xs| - 1];
      assert forall i :: 0 <= i < |init| ==> init[i] == xs[i];
      if last.quote.Prices? then Offers(side, init) + [OfferOf(side, last)] else Offers(side, init)
  }

  /** `r` is the best price over `offers` as the selection computes it: no
      worse than the sentinel, not beaten by any offer, and either the
      sentinel itself or the price of some offer. */
  ghost predicate IsBest(side: Side, offers: seq<Offer>, r: real)
  {
    && !Beats(side, Sentinel(side), r)
    && (forall i :: 0 <= i < |offers| ==> !Beats(side, offers[i].price, r))
    && (r == Sentinel(side) || exists i :: 0 <= i < |offers| && offers[i].price == r)
  }

  /** Some offer is strictly better than the sentinel. */
  predicate Improves(side: Side, offers: seq<Offer>)
  {
    exists i :: 0 <= i < |offers| && Beats(side, offers[i].price, Sentinel(side))
  }

  /** The running best price after visiting `offers`, starting from the sentinel. */
  function Best(side: Side, offers: seq<Offer>): (r: real)
    ensures IsBest(side, offers, r)
    decreases |offers|
  {
    if offers == [] then Sentinel(side)
    else
      var init := offers[..|offers| - 1];
      var last := offers[|offers| - 1];
      var rest := Best(side, init);
      assert forall i :: 0 <= i < |init| ==> init[i] == offers[i];
      if Beats(side, last.price, rest) then last.price else rest
  }

  /** The names of the offers at exactly price `p`, in input order. */
  function QuotedAt(offers: seq<Offer>, p: real): (r: seq<string>)
    ensures |r| <= |offers|
    ensures forall n :: n in r <==> exists i :: 0 <= i < |offers| && offers[i].price == p && offers[i].name == n
    decreases |offers|
  {
    if offers == [] then []
    else
      var init := offers[..|offers| - 1];
      var last := offers[|offers| - 1];
      assert forall i :: 0 <= i < |init| ==> init[i] == offers[i];
      if last.price == p then QuotedAt(init, p) + [last.name] else QuotedAt(init, p)
  }

  // ---------------------------------------------------------------------
  // The best price is determined by the offers alone

  /** Exactly one value satisfies `IsBest`, so `Best` is that value. */
  lemma BestIsUnique(side: Side, offers: seq<Offer>, r: real)
    requires IsBest(side, offers, r)
    ensures r == Best(side, offers)
  {
  }

  /** The best price does not depend on the order of the offers. */
  lemma BestIgnoresOrder(side: Side, offers: seq<Offer>, shuffled: seq<Offer>)
    requires multiset(offers) == multiset(shuffled)
    ensures Best(side, shuffled) == Best(side, offers)
  {
    var b := Best(side, offers);
    forall i | 0 <= i < |shuffled|
      ensures !Beats(side, shuffled[i].price, b)
    {
      assert shuffled[i] in multiset(offers);
      var j :| 0 <= j < |offers| && offers[j] == shuffled[i];
    }
    if b != Sentinel(side) {
      var j :| 0 <= j < |offers| && offers[j].price == b;
      assert offers[j] in multiset(shuffled);
      var i :| 0 <= i < |shuffled| && shuffled[i] == offers[j];
    }
    BestIsUnique(side, shuffled, b);
  }

  /** The best price does not depend on the order of the exchanges either:
      two exchange lists holding the same exchanges yield the same best price. */
  lemma BestIgnoresExchangeOrder(side: Side, xs: seq<Exchange>, ys: seq<Exchange>)
    requires multiset(xs) == multiset(ys)
    ensures Best(side, Offers(side, ys)) == Best(side, Offers(side, xs))
  {
    var from, to := Offers(side, xs), Offers(side, ys);
    var b := Best(side, from);
    forall k | 0 <= k < |to|
      ensures !Beats(side, to[k].price, b)
    {
      assert to[k] in to;
      var i :| 0 <= i < |ys| && ys[i].quote.Prices? && to[k] == OfferOf(side, ys[i]);
      assert ys[i] in multiset(xs);
      var j :| 0 <= j < |xs| && xs[j] == ys[i];
      var m :| 0 <= m < |from| && from[m] == OfferOf(side, xs[j]);
    }
    if b != Sentinel(side) {
      var m :| 0 <= m < |from| && from[m].price == b;
      assert from[m] in from;
      var j :| 0 <= j < |xs| && xs[j].quote.Prices? && from[m] == OfferOf(side, xs[j]);
      assert xs[j] in multiset(ys);
      var i :| 0 <= i < |ys| && ys[i] == xs[j];
      var k :| 0 <= k < |to| && to[k] == OfferOf(side, ys[i]);
    }
    BestIsUnique(side, to, b);
  }

  /** The call succeeds exactly when some offer beats the sentinel; then the
      best price is strictly better than the sentinel, and at least one
      exchange attains it. */
  lemma SucceedsIffImproves(side: Side, offers: seq<Offer>)
    ensures Improves(side, offers) <==> Best(side, offers) != Sentinel(side)
    ensures Improves(side, offers) ==> Beats(side, Best(side, offers), Sentinel(side))
    ensures Improves(side, offers) ==> QuotedAt(offers, Best(side, offers)) != []
  {
  }

  // ---------------------------------------------------------------------
  // Which exchanges take part

  lemma {:induction false} OffersAppend(side: Side, a: seq<Exchange>, b: seq<Exchange>)
    ensures Offers(side, a + b) == Offers(side, a) + Offers(side, b)
    decreases |b|
  {
    if b == [] {
      assert a + b == a;
    } else {
      var init := b[..|b| - 1];
      assert (a + b)[..|a + b| - 1] == a + init;
      assert (a + b)[|a + b| - 1] == b[|b| - 1];
      OffersAppend(side, a, init);
    }
  }

  /** An exchange whose call failed contributes no offer, wherever it stands. */
  lemma FailedExchangeIgnored(side: Side, a: seq<Exchange>, e: Exchange, b: seq<Exchange>)
    requires e.quote.Failed?
    ensures Offers(side, a + [e] + b) == Offers(side, a + b)
  {
    OffersAppend(side, a + [e], b);
    OffersAppend(side, a, [e]);
    OffersAppend(side, a, b);
    assert [e][..0] == [];
  }

  /** Two lists that agree on names, on which calls failed and on the price
      of the side in question yield the same offers: the other side of each
      pair is never read. */
  lemma {:induction false} OffersReadOneSide(side: Side, xs: seq<Exchange>, ys: seq<Exchange>)
    requires |xs| == |ys|
    requires forall i :: 0 <= i < |xs| ==> xs[i].name == ys[i].name && xs[i].quote.Prices? == ys[i].quote.Prices?
    requires forall i :: 0 <= i < |xs| && xs[i].quote.Prices? && ys[i].quote.Prices? ==> PriceOn(side, xs[i].quote) == PriceOn(side, ys[i].quote)
    ensures Offers(side, xs) == Offers(side, ys)
    decreases |xs|
  {
    if xs != [] {
      var n := |xs| - 1;
      OffersReadOneSide(side, xs[..n], ys[..n]);
    }
  }

  /** The selection read back on the exchanges themselves: it improves on
      the sentinel exactly when some successful exchange quotes better than
      the sentinel; no successful exchange quotes better than the best
      price; and when it improves, some successful exchange quotes exactly
      the best price. */
  lemma BestOverExchanges(side: Side, xs: seq<Exchange>)
    ensures Improves(side, Offers(side, xs)) <==>
      exists i :: 0 <= i < |xs| && xs[i].quote.Prices? && Beats(side, PriceOn(side, xs[i].quote), Sentinel(side))
    ensures forall i :: 0 <= i < |xs| && xs[i].quote.Prices? ==>
      !Beats(side, PriceOn(side, xs[i].quote), Best(side, Offers(side, xs)))
    ensures Improves(side, Offers(side, xs)) ==>
      exists i :: 0 <= i < |xs| && xs[i].quote.Prices? && PriceOn(side, xs[i].quote) == Best(side, Offers(side, xs))
  {
    var offers := Offers(side, xs);
    var b := Best(side, offers);
    forall i | 0 <= i < |xs| && xs[i].quote.Prices?
      ensures !Beats(side, PriceOn(side, xs[i].quote), b)
    {
      var k :| 0 <= k < |offers| && offers[k] == OfferOf(side, xs[i]);
    }
    if Improves(side, offers) {
      var k :| 0 <= k < |offers| && Beats(side, offers[k].price, Sentinel(side));
      assert offers[k] in offers;
      var i :| 0 <= i < |xs| && xs[i].quote.Prices? && offers[k] == OfferOf(side, xs[i]);
      SucceedsIffImproves(side, offers);
      var j :| 0 <= j < |offers| && offers[j].price == b;
      assert offers[j] in offers;
      var i' :| 0 <= i' < |xs| && xs[i'].quote.Prices? && offers[j] == OfferOf(side, xs[i']);
    } else {
      forall i | 0 <= i < |xs| && xs[i].quote.Prices?
        ensures !Beats(side, PriceOn(side, xs[i].quote), Sentinel(side))
      {
        var k :| 0 <= k < |offers| && offers[k] == OfferOf(side, xs[i]);
      }
    }
  }

  // ---------------------------------------------------------------------
  // Which exchanges win

  /** The winners at price `p` are exactly the names of the successful
      exchanges whose price on this side is `p`. */
  lemma WinnersOverExchanges(side: Side, xs: seq<Exchange>, p: real)
    ensures forall n :: n in QuotedAt(Offers(side, xs), p) <==>
      exists i :: 0 <= i < |xs| && xs[i].quote.Prices? && PriceOn(side, xs[i].quote) == p && xs[i].name == n
  {
  }

  /** The winners are collected in input order: the names at price `p` of a
      concatenation are those of the first part followed by those of the second. */
  lemma {:induction false} QuotedAtAppend(a: seq<Offer>, b: seq<Offer>, p: real)
    ensures QuotedAt(a + b, p) == QuotedAt(a, p) + QuotedAt(b, p)
    decreases |b|
  {
    if b == [] {
      assert a + b == a;
    } else {
      var init := b[..|b| - 1];
      assert (a + b)[..|a + b| - 1] == a + init;
      assert (a + b)[|a + b| - 1] == b[|b| - 1];
      QuotedAtAppend(a, init, p);
    }
  }

  /** No offer is priced strictly better than the best price. */
  lemma NoneQuotedBeyondBest(side: Side, offers: seq<Offer>, p: real)
    requires Beats(side, p, Best(side, offers))
    ensures QuotedAt(offers, p) == []
  {
    if QuotedAt(offers, p) != [] {
      assert QuotedAt(offers, p)[0] in QuotedAt(offers, p);
    }
  }

  /** One step of the scan: visiting exchange `i` after `xs[..i]` adds its
      offer if its call succeeded, and nothing otherwise. */
  lemma OffersStep(side: Side, xs: seq<Exchange>, i: nat)
    requires i < |xs|
    ensures Offers(side, xs[..i + 1]) ==
      if xs[i].quote.Prices? then Offers(side, xs[..i]) + [OfferOf(side, xs[i])] else Offers(side, xs[..i])
  {
    assert xs[..i + 1][..i] == xs[..i];
  }

  /** One step of the running best: a strictly better offer takes over,
      any other leaves the best price as it was. */
  lemma BestStep(side: Side, offers: seq<Offer>, o: Offer)
    ensures Best(side, offers + [o]) ==
      if Beats(side, o.price, Best(side, offers)) then o.price else Best(side, offers)
  {
  }

  /** One step of the winners: an offer at price `p` is appended. */
  lemma QuotedAtStep(offers: seq<Offer>, o: Offer, p: real)
    ensures QuotedAt(offers + [o], p) ==
      if o.price == p then QuotedAt(offers, p) + [o.name] else QuotedAt(offers, p)
  {
  }

  /** One step of the scan as a whole: a strictly better offer becomes the
      best price with itself as the only winner, an offer at the best price
      joins the winners, and any other offer changes nothing. */
  lemma ScanStep(side: Side, offers: seq<Offer>, o: Offer)
    ensures var best := Best(side, offers);
      && Best(side, offers + [o]) == (if Beats(side, o.price, best) then o.price else best)
      && QuotedAt(offers + [o], Best(side, offers + [o])) ==
           if Beats(side, o.price, best) then [o.name]
           else if o.price == best then QuotedAt(offers, best) + [o.name]
           else QuotedAt(offers, best)
  {
    var best := Best(side, offers);
    BestStep(side, offers, o);
    QuotedAtStep(offers, o, Best(side, offers + [o]));
    if Beats(side, o.price, best) {
      NoneQuotedBeyondBest(side, offers, o.price);
    }
  }

  /** An offer strictly worse than the sentinel (a sell price below 0.0, a
      buy price above 1e18) changes neither the best price nor the winners. */
  lemma WorseThanSentinelIgnored(side: Side, a: seq<Offer>, o: Offer, b: seq<Offer>)
    requires Beats(side, Sentinel(side), o.price)
    ensures Best(side, a + [o] + b) == Best(side, a + b)
    ensures QuotedAt(a + [o] + b, Best(side, a + b)) == QuotedAt(a + b, Best(side, a + b))
  {
    var with, without := a + [o] + b, a + b;
    var r := Best(side, without);
    assert forall i :: 0 <= i < |a| ==> with[i] == without[i];
    assert forall i :: |a| < i < |with| ==> with[i] == without[i - 1];
    assert with[|a|] == o;
    forall i | 0 <= i < |with|
      ensures !Beats(side, with[i].price, r)
    {
      if i == |a| {
        assert !Beats(side, Sentinel(side), r);
      } else if i > |a| {
        assert with[i] == without[i - 1];
      }
    }
    if r != Sentinel(side) {
      var j :| 0 <= j < |without| && without[j].price == r;
      assert with[if j < |a| then j else j + 1] == without[j];
    }
    BestIsUnique(side, with, r);
    assert o.price != r;
    QuotedAtAppend(a + [o], b, r);
    QuotedAtAppend(a, [o], r);
    QuotedAtAppend(a, b, r);
    assert [o][..0] == [];
  }
}
