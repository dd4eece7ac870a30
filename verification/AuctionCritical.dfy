// What the winner is paid, and exactly when bidding the true cost is optimal:
// edgegrid/market.py, `effective_price`, `ScoredBid.sort_key`, `evaluate`.

module AuctionCritical {
  import opened ByteStrings
  import opened AuctionModel
  import opened AuctionOrder
  import opened AuctionSpec
  import opened AuctionIncentives
  import opened Rounding

  // ---------------------------------------------------------------- the clearing price

  lemma RankedIsPriced(rules: Rules, job: Job, bids: seq<SignedBid>, i: nat)
    requires i < |Ranked(rules, job, bids)|
    ensures var b := Ranked(rules, job, bids)[i];
            && Eligible(rules, job, b) && 0.0 < ValueOf(b.bid.price) <= job.maxPrice
            && Effective(rules, b.bid) == ValueOf(b.bid.price) * Discount(rules, b.bid)
            && Effective(rules, b.bid) > 0.0
  {
    RankingIsSorted(rules, job, bids);
    var b := Ranked(rules, job, bids)[i];
    assert b in Ranked(rules, job, bids);
    MeetingIsPriced(rules, job, b);
  }

  lemma MeetingIsPriced(rules: Rules, job: Job, b: SignedBid)
    requires Meets(rules, job, b)
    ensures Eligible(rules, job, b) && 0.0 < ValueOf(b.bid.price) <= job.maxPrice
    ensures Effective(rules, b.bid) == ValueOf(b.bid.price) * Discount(rules, b.bid) && Effective(rules, b.bid) > 0.0
  {
    MeetsExactlyWhen(rules, job, b);
    PositiveProduct(ValueOf(b.bid.price), Discount(rules, b.bid));
  }

  // The winner meets every constraint of the job with its newest bid, nobody who could
  // have won is more than a grid step cheaper, and nobody eligible was left out.
  lemma WinnerIsCheapest(rules: Rules, job: Job, bids: seq<SignedBid>)
    requires |Ranked(rules, job, bids)| > 0
    ensures var ranked := Ranked(rules, job, bids);
            var award := AwardOf(rules, job, ranked).value;
            && IsNewest(rules, job, bids, ranked[0])
            && award.jobId == job.jobId && award.nBids == |ranked| && award.wallet == ranked[0].bid.wallet
            && award.winner == ranked[0].bid.peer && ranked[0].bid.price == Finite(award.winningPrice)
            && (forall i :: 0 <= i < |ranked| ==>
                  Effective(rules, ranked[0].bid) <= Effective(rules, ranked[i].bid) + STEP)
            && (forall b :: b in bids && Meets(rules, job, b) ==> HasPeer(ranked, b.bid.peer))
  {
    var ranked := Ranked(rules, job, bids);
    RankingIsSorted(rules, job, bids);
    assert ranked[0] in ranked;
    forall i | 0 <= i < |ranked| ensures Effective(rules, ranked[0].bid) <= Effective(rules, ranked[i].bid) + STEP {
      if i > 0 {
        RankedWithinStep(rules, ranked[0], ranked[i]);
      }
    }
    forall b | b in bids && Meets(rules, job, b) ensures HasPeer(ranked, b.bid.peer) {
      EligibleIsRanked(rules, job, bids, b);
    }
  }

  lemma EligibleIsRanked(rules: Rules, job: Job, bids: seq<SignedBid>, b: SignedBid)
    requires b in bids && Meets(rules, job, b)
    ensures HasPeer(Ranked(rules, job, bids), b.bid.peer)
  {
    var latest, ranked := Collect(rules, job, bids).latest, Ranked(rules, job, bids);
    CollectKeepsLatest(rules, job, bids);
    assert HasPeer(latest, b.bid.peer);
    var i :| 0 <= i < |latest| && latest[i].bid.peer == b.bid.peer;
    SortMembers(rules, latest, latest[i]);
    var k :| 0 <= k < |ranked| && ranked[k] == latest[i];
  }

  lemma PositiveProduct(a: real, b: real)
    requires a > 0.0 && b > 0.0
    ensures a * b > 0.0
  {
  }

  // The clearing price is within the ceiling and at most a grid step, in discounted
  // units, below the winning bid. It falls below the winning bid exactly when rounding
  // ranked the winner above a runner-up that was really cheaper.
  lemma ClearingPrice(rules: Rules, job: Job, bids: seq<SignedBid>)
    requires |Ranked(rules, job, bids)| > 0
    ensures var ranked := Ranked(rules, job, bids);
            var award := AwardOf(rules, job, ranked).value;
            && award.clearing <= job.maxPrice
            && award.clearing >= award.winningPrice - STEP / Discount(rules, ranked[0].bid)
            && (award.clearing >= award.winningPrice <==>
                  |ranked| == 1 || Effective(rules, ranked[0].bid) <= Effective(rules, ranked[1].bid))
  {
    RankedIsPriced(rules, job, bids, 0);
    if |Ranked(rules, job, bids)| > 1 {
      FirstRanksBeforeSecond(rules, job, bids);
      RankedWithinStep(rules, Ranked(rules, job, bids)[0], Ranked(rules, job, bids)[1]);
    }
    AwardBounds(rules, job, Ranked(rules, job, bids));
  }

  // Seen from one bidder and its rivals: it wins exactly when it outranks the best of them,
  // and is then paid at least what it asked exactly when it really is no dearer than that one.
  lemma PaidAgainstBestRival(rules: Rules, job: Job, pre: seq<SignedBid>, own: SignedBid, post: seq<SignedBid>)
    requires NewPeer(pre + post, own.bid.peer)
    ensures var rivals := Ranked(rules, job, pre + post);
            var award := AwardOf(rules, job, Ranked(rules, job, pre + [own] + post));
            && (award.Some? && award.value.winner == own.bid.peer <==> Wins(rules, job, own, rivals))
            && (Wins(rules, job, own, rivals) ==>
                  && award.value.winningPrice == ValueOf(own.bid.price)
                  && award.value.clearing == Payment(rules, job, own, rivals)
                  && award.value.clearing >= ValueOf(own.bid.price) - STEP / Discount(rules, own.bid)
                  && (award.value.clearing >= ValueOf(own.bid.price) <==>
                        |rivals| == 0 || Effective(rules, own.bid) <= Effective(rules, rivals[0].bid)))
  {
    var rivals, ranked := Ranked(rules, job, pre + post), Ranked(rules, job, pre + [own] + post);
    RankedWith(rules, job, pre, own, post);
    FirstOfInserted(rules, own, rivals);
    if Wins(rules, job, own, rivals) {
      ClearingPrice(rules, job, pre + [own] + post);
    } else if |ranked| > 0 {
      assert ranked[0] == rivals[0] && rivals[0].bid.peer != own.bid.peer;
    }
  }

  lemma {:induction false} FirstOfInserted(rules: Rules, own: SignedBid, rivals: seq<SignedBid>)
    ensures var all := InsertByKey(rules, own, rivals);
            if |rivals| == 0 || RanksBefore(rules, own, rivals[0]) then all == [own] + rivals else all[0] == rivals[0]
  {
  }

  lemma AwardBounds(rules: Rules, job: Job, ranked: seq<SignedBid>)
    requires |ranked| > 0 && ValueOf(ranked[0].bid.price) <= job.maxPrice
    requires |ranked| > 1 ==> Effective(rules, ranked[0].bid) <= Effective(rules, ranked[1].bid) + STEP
    ensures var award := AwardOf(rules, job, ranked).value;
            && award.clearing <= job.maxPrice
            && award.clearing >= award.winningPrice - STEP / Discount(rules, ranked[0].bid)
            && (award.clearing >= award.winningPrice <==>
                  |ranked| == 1 || Effective(rules, ranked[0].bid) <= Effective(rules, ranked[1].bid))
  {
    var price, d := ValueOf(ranked[0].bid.price), Discount(rules, ranked[0].bid);
    if |ranked| == 1 {
      PaymentBounds(0.0, d, price, job.maxPrice);
    } else {
      PaidForPrice(Effective(rules, ranked[1].bid), d, price, job.maxPrice, Effective(rules, ranked[0].bid));
    }
  }

  lemma FirstRanksBeforeSecond(rules: Rules, job: Job, bids: seq<SignedBid>)
    requires |Ranked(rules, job, bids)| > 1
    ensures RanksBefore(rules, Ranked(rules, job, bids)[0], Ranked(rules, job, bids)[1])
  {
    RankingIsSorted(rules, job, bids);
  }

  lemma PaidForPrice(best: real, d: real, price: real, max: real, mine: real)
    requires d > 0.0 && price <= max && mine == price * d && mine <= best + STEP
    ensures Lower(best / d, max) >= price - STEP / d
    ensures Lower(best / d, max) >= price <==> mine <= best
  {
    PaymentBounds(best, d, price, max);
    DivideOut(best, d, price);
  }

  // On prices whose effective values are whole grid steps the winner is never paid
  // less than it bid.
  lemma ClearingPriceOnGrid(rules: Rules, job: Job, bids: seq<SignedBid>)
    requires |Ranked(rules, job, bids)| > 0
    requires forall i :: 0 <= i < |Ranked(rules, job, bids)| ==>
               OnGrid(Effective(rules, Ranked(rules, job, bids)[i].bid))
    ensures var award := AwardOf(rules, job, Ranked(rules, job, bids)).value;
            award.winningPrice <= award.clearing <= job.maxPrice
  {
    var ranked := Ranked(rules, job, bids);
    ClearingPrice(rules, job, bids);
    if |ranked| > 1 {
      FirstRanksBeforeSecond(rules, job, bids);
      FirstIsCheaper(rules, ranked[0], ranked[1]);
    }
  }

  lemma FirstIsCheaper(rules: Rules, first: SignedBid, second: SignedBid)
    requires OnGrid(Effective(rules, first.bid)) && OnGrid(Effective(rules, second.bid))
    ensures RanksBefore(rules, first, second) ==> Effective(rules, first.bid) <= Effective(rules, second.bid)
    ensures !RanksBefore(rules, first, second) ==> Effective(rules, second.bid) <= Effective(rules, first.bid)
  {
    GridOrder(Effective(rules, first.bid), Effective(rules, second.bid));
    GridOrder(Effective(rules, second.bid), Effective(rules, first.bid));
  }

  // Two bids a third of a grid step apart are tied, and the faster one is paid less than
  // it asked.
  lemma PaidBelowBid(rules: Rules, job: Job)
    requires !rules.requireSignature && job.maxPrice >= 2.0 && job.maxLatency >= 2.0
    ensures exists bids :: |Ranked(rules, job, bids)| == 2 &&
              var award := AwardOf(rules, job, Ranked(rules, job, bids)).value;
              award.clearing < award.winningPrice
  {
    var price := 1.000_000_000_000_3;
    var fast := SignedBid(Bid(job.jobId, "a", "", Finite(price), Finite(1.0), false, job.minTier, 0.0, 0), None);
    var cheap := SignedBid(Bid(job.jobId, "b", "", Finite(1.0), Finite(2.0), false, job.minTier, 0.0, 0), None);
    var bids := [fast, cheap];
    assert bids[..1] == [fast] && [fast][..0] == [];
    assert Collect(rules, job, [fast]).latest == [fast];
    assert FindPeer([fast], "b").None?;
    assert Collect(rules, job, bids).latest == bids;
    assert SortByKey(rules, [fast]) == [fast];
    assert Scaled(1.000_000_000_000_3) == 1_000_000_000_000.3 && Scaled(1.0) == 1_000_000_000_000.0;
    assert Quantised(1.000_000_000_000_3) == Quantised(1.0);
    assert Quantised(1.0 * 1.0) < Quantised(2.0);
    assert RanksBefore(rules, fast, cheap);
    KeyLessTotal(SortKey(rules, fast.bid), SortKey(rules, cheap.bid));
    assert InsertByKey(rules, cheap, [fast]) == [fast] + InsertByKey(rules, cheap, []);
    assert Ranked(rules, job, bids) == [fast, cheap];
  }

  // ---------------------------------------------------------------- the critical price

  // An offer against its best rival, in prices.
  lemma OfferPaidNearly(rules: Rules, job: Job, offer: Offer, q: real, rivals: seq<SignedBid>)
    requires |rivals| > 0
    ensures var own, slack := offer.At(Finite(q)), STEP / Discount(rules, offer.base);
            && (RanksBefore(rules, own, rivals[0]) && q <= job.maxPrice ==>
                  Payment(rules, job, own, rivals) >= q - slack)
            && (!RanksBefore(rules, own, rivals[0]) ==> Payment(rules, job, own, rivals) <= q + slack)
  {
    OfferKeys(rules, offer, Finite(q));
    PaidNearly(rules, job, offer.At(Finite(q)), rivals, q, Discount(rules, offer.base));
  }

  lemma OfferPaidExactly(rules: Rules, job: Job, offer: Offer, q: real, rivals: seq<SignedBid>)
    requires |rivals| > 0
    ensures var own, best := offer.At(Finite(q)), Effective(rules, rivals[0].bid);
            && (best / Discount(rules, own.bid) >= q <==> Effective(rules, own.bid) <= best)
            && (best / Discount(rules, own.bid) <= q <==> best <= Effective(rules, own.bid))
            && Payment(rules, job, own, rivals) == Lower(best / Discount(rules, own.bid), job.maxPrice)
  {
    OfferKeys(rules, offer, Finite(q));
    DivideOut(Effective(rules, rivals[0].bid), Discount(rules, offer.base), q);
  }

  lemma ScaledDown(p: real, q: real, d: real)
    requires q <= p && d > 0.0
    ensures q * d <= p * d
  {
  }

  lemma CheaperKey(rules: Rules, offer: Offer, p: real, q: real)
    requires q <= p
    ensures SortKey(rules, offer.At(Finite(q)).bid).price <= SortKey(rules, offer.At(Finite(p)).bid).price
    ensures SortKey(rules, offer.At(Finite(q)).bid) ==
            SortKey(rules, offer.At(Finite(p)).bid).(price := SortKey(rules, offer.At(Finite(q)).bid).price)
  {
    OfferKeys(rules, offer, Finite(p));
    OfferKeys(rules, offer, Finite(q));
    CheaperQuantised(p, q, Discount(rules, offer.base), Effective(rules, offer.At(Finite(p)).bid),
                     Effective(rules, offer.At(Finite(q)).bid));
  }

  lemma CheaperQuantised(p: real, q: real, d: real, dear: real, cheap: real)
    requires q <= p && d > 0.0 && dear == p * d && cheap == q * d
    ensures Quantised(cheap) <= Quantised(dear)
  {
    ScaledDown(p, q, d);
    QuantisedOrder(cheap, dear);
  }

  lemma CheaperRanksBefore(rules: Rules, offer: Offer, p: real, q: real, rival: SignedBid)
    requires q <= p && RanksBefore(rules, offer.At(Finite(p)), rival)
    ensures RanksBefore(rules, offer.At(Finite(q)), rival)
  {
    CheaperKey(rules, offer, p, q);
    KeyOnlyCheaper(SortKey(rules, offer.At(Finite(p)).bid), SortKey(rules, offer.At(Finite(q)).bid),
                   SortKey(rules, rival.bid));
  }

  lemma KeyOnlyCheaper(p: Key, q: Key, rival: Key)
    requires KeyLess(p, rival) && q == p.(price := q.price) && q.price <= p.price
    ensures KeyLess(q, rival)
  {
  }

  // The winning price is critical: what a provider is paid does not depend on its own
  // price, any price lower than the winning one wins too, any price more than a grid
  // step above the payment loses, and any more than a grid step below it wins.
  lemma CriticalPrice(rules: Rules, job: Job, pre: seq<SignedBid>, post: seq<SignedBid>, offer: Offer, p: real, q: real)
    requires NewPeer(pre + post, offer.base.peer)
    requires p > 0.0 && q > 0.0 && SignsAlike(rules, offer, Finite(p), Finite(q))
    requires Wins(rules, job, offer.At(Finite(p)), Ranked(rules, job, pre + post))
    ensures var rivals := Ranked(rules, job, pre + post);
            var payment, slack := Payment(rules, job, offer.At(Finite(p)), rivals), STEP / Discount(rules, offer.base);
            && Payment(rules, job, offer.At(Finite(q)), rivals) == payment
            && (q <= p ==> Wins(rules, job, offer.At(Finite(q)), rivals))
            && (Wins(rules, job, offer.At(Finite(q)), rivals) ==> q <= payment + slack)
            && (q < payment - slack ==> Wins(rules, job, offer.At(Finite(q)), rivals))
  {
    var rivals := Ranked(rules, job, pre + post);
    SamePayment(rules, job, offer, Finite(p), Finite(q), rivals);
    OnlyPriceExcludes(rules, job, offer, q, Finite(p));
    OnlyPriceExcludes(rules, job, offer, p, Finite(q));
    PaymentBounds(0.0, Discount(rules, offer.base), q, job.maxPrice);
    PaymentCap(rules, job, offer.At(Finite(q)), rivals);
    if |rivals| > 0 {
      OfferPaidNearly(rules, job, offer, q, rivals);
      if q <= p {
        CheaperRanksBefore(rules, offer, p, q, rivals[0]);
      }
    }
  }

  // ---------------------------------------------------------------- truth is optimal exactly when

  // The rounding puts the provider on the wrong side of its best rival: it wins although
  // the rival is cheaper, or it loses although it is cheaper, could still gain under the
  // ceiling, and the rival's price does not round to nothing.
  predicate Misjudged(rules: Rules, job: Job, own: SignedBid, cost: real, rivals: seq<SignedBid>) {
    Eligible(rules, job, own) && |rivals| > 0 &&
    var mine, best := Effective(rules, own.bid), Effective(rules, rivals[0].bid);
    if RanksBefore(rules, own, rivals[0]) then mine > best
    else mine < best && cost < job.maxPrice && Quantised(best) > 0
  }

  lemma TruthIsOptimal(rules: Rules, job: Job, offer: Offer, cost: real, other: Num, rivals: seq<SignedBid>)
    requires cost > 0.0 && SignsAlike(rules, offer, Finite(cost), other)
    requires |rivals| > 0 ==> Effective(rules, rivals[0].bid) > 0.0
    requires !Misjudged(rules, job, offer.At(Finite(cost)), cost, rivals)
    ensures var truth, lie := offer.At(Finite(cost)), offer.At(other);
            var payment := Payment(rules, job, truth, rivals);
            && payment == Payment(rules, job, lie, rivals)
            && (Wins(rules, job, truth, rivals) ==> payment >= cost)
            && (Wins(rules, job, lie, rivals) && !Wins(rules, job, truth, rivals) ==> payment <= cost)
  {
    var truth, lie := offer.At(Finite(cost)), offer.At(other);
    SamePayment(rules, job, offer, Finite(cost), other, rivals);
    OnlyPriceExcludes(rules, job, offer, cost, other);
    PaymentCap(rules, job, truth, rivals);
    if |rivals| > 0 {
      OfferPaidExactly(rules, job, offer, cost, rivals);
      if Wins(rules, job, lie, rivals) && Quantised(Effective(rules, rivals[0].bid)) <= 0 {
        TinyRivalTies(rules, offer, cost, other.value, rivals[0]);
      }
    }
  }

  // Against a rival whose price rounds to nothing, every price that wins does so by the
  // tie break, and then so does the truth, unless the truth is dearer.
  lemma TinyRivalTies(rules: Rules, offer: Offer, cost: real, price: real, rival: SignedBid)
    requires cost > 0.0 && price > 0.0
    requires Effective(rules, rival.bid) > 0.0 && Quantised(Effective(rules, rival.bid)) <= 0
    requires RanksBefore(rules, offer.At(Finite(price)), rival)
    ensures RanksBefore(rules, offer.At(Finite(cost)), rival)
            || Effective(rules, rival.bid) <= Effective(rules, offer.At(Finite(cost)).bid)
  {
    var d := Discount(rules, offer.base);
    OfferKeys(rules, offer, Finite(cost));
    OfferKeys(rules, offer, Finite(price));
    PositiveProduct(price, d);
    PositiveProduct(cost, d);
    QuantisedOrder(0.0, price * d);
    QuantisedOrder(0.0, cost * d);
    QuantisedOrder(0.0, Effective(rules, rival.bid));
    QuantisedOrder(cost * d, Effective(rules, rival.bid));
    assert Quantised(0.0) == 0;
  }

  // A price that does better than the truth when the rounding misjudges it.
  lemma BetterPrice(rules: Rules, job: Job, offer: Offer, cost: real, rivals: seq<SignedBid>) returns (other: Num)
    requires cost > 0.0 && forall p :: SignsAlike(rules, offer, Finite(cost), p)
    requires Misjudged(rules, job, offer.At(Finite(cost)), cost, rivals)
    ensures var truth, lie := offer.At(Finite(cost)), offer.At(other);
            Gain(Wins(rules, job, lie, rivals), Payment(rules, job, lie, rivals), cost) >
            Gain(Wins(rules, job, truth, rivals), Payment(rules, job, truth, rivals), cost)
  {
    var truth := offer.At(Finite(cost));
    OfferPaidExactly(rules, job, offer, cost, rivals);
    if RanksBefore(rules, truth, rivals[0]) {
      other := NonFinite;
    } else {
      var tiny := Lower(cost, 0.000_000_000_000_1);
      other := Finite(tiny);
      assert SignsAlike(rules, offer, Finite(cost), other);
      SamePayment(rules, job, offer, Finite(cost), other, rivals);
      OnlyPriceExcludes(rules, job, offer, tiny, Finite(cost));
      TinyWins(rules, offer, tiny, rivals[0]);
    }
  }

  lemma TinyWins(rules: Rules, offer: Offer, tiny: real, rival: SignedBid)
    requires 0.0 < tiny <= 0.000_000_000_000_1 && Quantised(Effective(rules, rival.bid)) > 0
    ensures RanksBefore(rules, offer.At(Finite(tiny)), rival)
  {
    TinyKey(rules, offer, tiny);
  }

  lemma TinyKey(rules: Rules, offer: Offer, tiny: real)
    requires 0.0 < tiny <= 0.000_000_000_000_1
    ensures SortKey(rules, offer.At(Finite(tiny)).bid).price == 0
  {
    OfferKeys(rules, offer, Finite(tiny));
    TinyQuantised(tiny, Discount(rules, offer.base), Effective(rules, offer.At(Finite(tiny)).bid));
  }

  lemma TinyQuantised(tiny: real, d: real, effective: real)
    requires 0.0 < tiny <= 0.000_000_000_000_1 && 0.0 < d <= 1.0 && effective == tiny * d
    ensures Quantised(effective) == 0
  {
    TinyProduct(tiny, d);
    assert 0.0 <= Scaled(effective) < 0.5;
    RoundsToZero(Scaled(effective));
  }

  lemma TinyProduct(x: real, d: real)
    requires x > 0.0 && 0.0 < d <= 1.0
    ensures 0.0 < x * d <= x
  {
    assert x * (1.0 - d) >= 0.0;
  }

  lemma RoundsToZero(x: real)
    requires 0.0 <= x < 0.5
    ensures Round(x) == 0
  {
  }

  // Bidding the cost is optimal against given rivals, whatever they bid, exactly when
  // the rounding does not misjudge the provider against the best of them.
  lemma TruthIsDominantExactlyWhen(rules: Rules, job: Job, pre: seq<SignedBid>, post: seq<SignedBid>, offer: Offer,
                                   cost: real)
    requires NewPeer(pre + post, offer.base.peer) && cost > 0.0
    requires forall p :: SignsAlike(rules, offer, Finite(cost), p)
    ensures (forall other ::
               Utility(rules, job, pre + [offer.At(other)] + post, offer.base.peer, cost) <=
               Utility(rules, job, pre + [offer.At(Finite(cost))] + post, offer.base.peer, cost))
            <==> !Misjudged(rules, job, offer.At(Finite(cost)), cost, Ranked(rules, job, pre + post))
  {
    var rivals := Ranked(rules, job, pre + post);
    var truth := offer.At(Finite(cost));
    UtilityOf(rules, job, pre, truth, post, cost);
    if Misjudged(rules, job, truth, cost, rivals) {
      var other := BetterPrice(rules, job, offer, cost, rivals);
      UtilityOf(rules, job, pre, offer.At(other), post, cost);
    } else {
      if |rivals| > 0 {
        RankedIsPriced(rules, job, pre + post, 0);
      }
      forall other
        ensures Utility(rules, job, pre + [offer.At(other)] + post, offer.base.peer, cost) <=
                Utility(rules, job, pre + [truth] + post, offer.base.peer, cost)
      {
        assert SignsAlike(rules, offer, Finite(cost), other);
        UtilityOf(rules, job, pre, offer.At(other), post, cost);
        TruthIsOptimal(rules, job, offer, cost, other, rivals);
      }
    }
  }

  // On the grid nothing is misjudged: truth is dominant, with no slack.
  lemma GridIsNeverMisjudged(rules: Rules, job: Job, own: SignedBid, cost: real, rivals: seq<SignedBid>)
    requires OnGrid(Effective(rules, own.bid))
    requires |rivals| > 0 ==> OnGrid(Effective(rules, rivals[0].bid))
    ensures !Misjudged(rules, job, own, cost, rivals)
  {
    if |rivals| > 0 {
      FirstIsCheaper(rules, own, rivals[0]);
    }
  }
}
