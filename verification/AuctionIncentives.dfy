// Why bidding the true cost is safe, and up to what: edgegrid/market.py, `_q`,
// `effective_price`, `rank_bids`, `evaluate`.

module AuctionIncentives {
  import opened ByteStrings
  import opened AuctionModel
  import opened AuctionOrder
  import opened Rounding

  // ---------------------------------------------------------------- rounding

  lemma RoundIsNear(x: real)
    ensures -0.5 <= Round(x) as real - x <= 0.5
  {
  }

  lemma RoundIsMonotone(x: real, y: real)
    requires x <= y
    ensures Round(x) <= Round(y)
  {
    assert x.Floor <= y.Floor;
  }

  // The grid step of the ranking.
  const STEP: real := 0.000_000_000_001

  lemma QuantisedOrder(x: real, y: real)
    ensures x <= y ==> Quantised(x) <= Quantised(y)
    ensures Quantised(x) <= Quantised(y) ==> x <= y + STEP
    ensures Quantised(x) < Quantised(y) ==> x < y
  {
    if x <= y {
      RoundIsMonotone(Scaled(x), Scaled(y));
    } else {
      RoundIsMonotone(Scaled(y), Scaled(x));
    }
    RoundIsNear(Scaled(x));
    RoundIsNear(Scaled(y));
  }

  predicate OnGrid(x: real) { Quantised(x) as real == Scaled(x) }

  lemma GridOrder(x: real, y: real)
    requires OnGrid(x) && OnGrid(y)
    ensures x <= y <==> Quantised(x) <= Quantised(y)
  {
    QuantisedOrder(x, y);
  }

  lemma DivideOut(e: real, d: real, p: real)
    requires d > 0.0
    ensures e / d >= p <==> e >= p * d
    ensures e / d <= p <==> e <= p * d
  {
    var q := e / d;
    assert q * d == e;
    if q >= p {
      assert q * d >= p * d;
    }
    if q <= p {
      assert q * d <= p * d;
    }
  }

  // ---------------------------------------------------------------- one bid among the others

  lemma {:induction false} FindPeerAt(latest: seq<SignedBid>, i: nat)
    requires DistinctPeers(latest) && i < |latest|
    ensures FindPeer(latest, latest[i].bid.peer) == Some(i)
  {
    var found := FindPeer(latest, latest[i].bid.peer);
    assert found.Some?;
  }

  function With(latest: seq<SignedBid>, k: nat, own: SignedBid): seq<SignedBid>
    requires k <= |latest|
  {
    latest[..k] + [own] + latest[k..]
  }

  // A bid that joins the list of a peer's rivals does not see the extra entry.
  lemma AddBeside(rules: Rules, job: Job, c: Collected, c': Collected, k: nat, own: SignedBid, b: SignedBid)
    returns (k': nat)
    requires DistinctPeers(c.latest) && NewPeer(c.latest, own.bid.peer) && b.bid.peer != own.bid.peer
    requires k <= |c.latest| && c'.latest == With(c.latest, k, own)
    ensures k' <= |AddBid(rules, job, c, b).latest|
    ensures AddBid(rules, job, c', b).latest == With(AddBid(rules, job, c, b).latest, k', own)
  {
    k' := k;
    var found := FindPeer(c.latest, b.bid.peer);
    if found.Some? {
      var i := found.value;
      var i' := if i < k then i else i + 1;
      assert c'.latest[i'] == c.latest[i];
      WithIsDistinct(c.latest, k, own);
      FindPeerAt(c'.latest, i');
      assert With(c.latest, k, own)[i' := b] == With(c.latest[i := b], k, own);
    } else {
      assert FindPeer(c'.latest, b.bid.peer).None?;
      assert With(c.latest, k, own) + [b] == With(c.latest + [b], k, own);
    }
  }

  lemma WithIsDistinct(latest: seq<SignedBid>, k: nat, own: SignedBid)
    requires DistinctPeers(latest) && NewPeer(latest, own.bid.peer) && k <= |latest|
    ensures DistinctPeers(With(latest, k, own))
  {
  }

  lemma {:induction false} LatestPeers(rules: Rules, job: Job, bids: seq<SignedBid>, peer: PeerId)
    requires NewPeer(bids, peer)
    ensures DistinctPeers(Collect(rules, job, bids).latest) && NewPeer(Collect(rules, job, bids).latest, peer)
  {
    CollectKeepsLatest(rules, job, bids);
    var latest := Collect(rules, job, bids).latest;
    forall i | 0 <= i < |latest| ensures latest[i].bid.peer != peer {
      assert IsNewest(rules, job, bids, latest[i]);
    }
  }

  // `c'` has collected one bid more than `c`, that of a new peer, if it was eligible.
  ghost predicate Beside(rules: Rules, job: Job, c: Collected, c': Collected, k: nat, own: SignedBid) {
    if Eligible(rules, job, own) then k <= |c.latest| && c'.latest == With(c.latest, k, own) else c'.latest == c.latest
  }

  lemma BesideNext(rules: Rules, job: Job, bids: seq<SignedBid>, c': Collected, k: nat, own: SignedBid, b: SignedBid)
    returns (k': nat)
    requires NewPeer(bids, own.bid.peer) && b.bid.peer != own.bid.peer
    requires Beside(rules, job, Collect(rules, job, bids), c', k, own)
    ensures Beside(rules, job, Collect(rules, job, bids + [b]), AddBid(rules, job, c', b), k', own)
  {
    var c := Collect(rules, job, bids);
    LatestPeers(rules, job, bids, own.bid.peer);
    assert (bids + [b])[..|bids|] == bids;
    k' := k;
    if Eligible(rules, job, own) {
      k' := AddBeside(rules, job, c, c', k, own, b);
    } else {
      SameLatest(rules, job, c, c', b);
    }
  }

  lemma BesideFirst(rules: Rules, job: Job, pre: seq<SignedBid>, own: SignedBid) returns (k: nat)
    requires NewPeer(pre, own.bid.peer)
    ensures Beside(rules, job, Collect(rules, job, pre), Collect(rules, job, pre + [own]), k, own)
  {
    LatestPeers(rules, job, pre, own.bid.peer);
    assert (pre + [own])[..|pre|] == pre;
    k := |Collect(rules, job, pre).latest|;
  }

  // The entries collected with one more bid of a new peer, wherever it arrived.
  lemma {:induction false} CollectWith(rules: Rules, job: Job, pre: seq<SignedBid>, own: SignedBid,
                                       post: seq<SignedBid>)
    returns (k: nat)
    requires NewPeer(pre + post, own.bid.peer)
    ensures Beside(rules, job, Collect(rules, job, pre + post), Collect(rules, job, pre + [own] + post), k, own)
    decreases |post|
  {
    if |post| == 0 {
      assert pre + post == pre && pre + [own] + post == pre + [own];
      k := BesideFirst(rules, job, pre, own);
    } else {
      var front, b := post[..|post| - 1], post[|post| - 1];
      assert post == front + [b];
      NewPeerFront(pre, front, b, own.bid.peer);
      k := CollectWith(rules, job, pre, own, front);
      assert pre + post == pre + front + [b];
      CollectLast(rules, job, pre + [own], front, b);
      k := BesideNext(rules, job, pre + front, Collect(rules, job, pre + [own] + front), k, own, b);
    }
  }

  lemma {:induction false} CollectLast(rules: Rules, job: Job, pre: seq<SignedBid>, front: seq<SignedBid>, b: SignedBid)
    ensures Collect(rules, job, pre + (front + [b])) == AddBid(rules, job, Collect(rules, job, pre + front), b)
  {
    var all := pre + (front + [b]);
    assert all[..|all| - 1] == pre + front && all[|all| - 1] == b;
  }

  lemma NewPeerFront(pre: seq<SignedBid>, front: seq<SignedBid>, b: SignedBid, peer: PeerId)
    requires NewPeer(pre + (front + [b]), peer)
    ensures NewPeer(pre + front, peer) && b.bid.peer != peer
  {
    var all := pre + (front + [b]);
    assert all[|pre| + |front|] == b;
    forall i | 0 <= i < |pre + front| ensures (pre + front)[i].bid.peer != peer {
      assert all[i] == (pre + front)[i];
    }
  }

  lemma SameLatest(rules: Rules, job: Job, c: Collected, c': Collected, b: SignedBid)
    requires c.latest == c'.latest
    ensures AddBid(rules, job, c, b).latest == AddBid(rules, job, c', b).latest
  {
  }

  // With one more bid of a new peer, the ranking is that of its rivals with the bid
  // inserted at its place.
  lemma {:induction false} RankedWith(rules: Rules, job: Job, pre: seq<SignedBid>, own: SignedBid, post: seq<SignedBid>)
    requires NewPeer(pre + post, own.bid.peer)
    ensures var rivals := Ranked(rules, job, pre + post);
            && NewPeer(rivals, own.bid.peer)
            && Ranked(rules, job, pre + [own] + post) ==
               if Eligible(rules, job, own) then InsertByKey(rules, own, rivals) else rivals
  {
    var latest := Collect(rules, job, pre + post).latest;
    var k := CollectWith(rules, job, pre, own, post);
    LatestPeers(rules, job, pre + post, own.bid.peer);
    SortSorts(rules, latest);
    var rivals := SortByKey(rules, latest);
    forall i | 0 <= i < |rivals| ensures rivals[i].bid.peer != own.bid.peer {
      SortMembers(rules, latest, rivals[i]);
      var j :| 0 <= j < |latest| && latest[j] == rivals[i];
    }
    if Eligible(rules, job, own) {
      var all := With(latest, k, own);
      WithIsDistinct(latest, k, own);
      SortSorts(rules, all);
      InsertSorts(rules, own, rivals);
      forall x ensures x in SortByKey(rules, all) <==> x in InsertByKey(rules, own, rivals) {
        SortMembers(rules, all, x);
        SortMembers(rules, latest, x);
        InsertMembers(rules, own, rivals, x);
        assert x in all <==> x == own || x in latest by {
          assert latest == latest[..k] + latest[k..];
        }
      }
      SortedIsUnique(rules, SortByKey(rules, all), InsertByKey(rules, own, rivals));
    }
  }

  // ---------------------------------------------------------------- utility

  // What a provider gains: the price it is paid less its cost if it wins, else nothing.
  function Utility(rules: Rules, job: Job, bids: seq<SignedBid>, peer: PeerId, cost: real): real {
    match AwardOf(rules, job, Ranked(rules, job, bids))
    case None => 0.0
    case Some(award) => if award.winner == peer then award.clearing - cost else 0.0
  }

  predicate Wins(rules: Rules, job: Job, own: SignedBid, rivals: seq<SignedBid>) {
    Eligible(rules, job, own) && (|rivals| == 0 || RanksBefore(rules, own, rivals[0]))
  }

  // What a winner is paid: fixed by the best rival, never by its own price.
  function Payment(rules: Rules, job: Job, own: SignedBid, rivals: seq<SignedBid>): real {
    if |rivals| == 0 then job.maxPrice
    else Lower(Effective(rules, rivals[0].bid) / Discount(rules, own.bid), job.maxPrice)
  }

  lemma UtilityOf(rules: Rules, job: Job, pre: seq<SignedBid>, own: SignedBid, post: seq<SignedBid>, cost: real)
    requires NewPeer(pre + post, own.bid.peer)
    ensures var rivals := Ranked(rules, job, pre + post);
            Utility(rules, job, pre + [own] + post, own.bid.peer, cost) ==
            if Wins(rules, job, own, rivals) then Payment(rules, job, own, rivals) - cost else 0.0
  {
    RankedWith(rules, job, pre, own, post);
  }

  // ---------------------------------------------------------------- truthful bidding

  // The bids a provider could make: everything but the price is fixed, and whether the
  // signature holds does not depend on the price.
  datatype Offer = Offer(base: Bid, sign: Num -> Option<string>) {
    function At(price: Num): (b: SignedBid)
      ensures b.bid.peer == base.peer
    {
      SignedBid(base.(price := price), sign(price))
    }
  }

  predicate SignsAlike(rules: Rules, offer: Offer, p: Num, q: Num) {
    rules.verifies(offer.At(p)) == rules.verifies(offer.At(q))
  }

  lemma OfferKeys(rules: Rules, offer: Offer, p: Num)
    ensures Discount(rules, offer.At(p).bid) == Discount(rules, offer.base)
    ensures Effective(rules, offer.At(p).bid) == ValueOf(p) * Discount(rules, offer.base)
  {
  }

  // Who ranks first, in effective prices: the better one is at most a grid step dearer.
  lemma RankedWithinStep(rules: Rules, a: SignedBid, b: SignedBid)
    ensures RanksBefore(rules, a, b) ==> Effective(rules, a.bid) <= Effective(rules, b.bid) + STEP
    ensures !RanksBefore(rules, a, b) ==> Effective(rules, b.bid) <= Effective(rules, a.bid) + STEP
  {
    QuantisedOrder(Effective(rules, a.bid), Effective(rules, b.bid));
    QuantisedOrder(Effective(rules, b.bid), Effective(rules, a.bid));
  }

  // The truthful bid and another one differ in eligibility only by their price.
  lemma OnlyPriceExcludes(rules: Rules, job: Job, offer: Offer, cost: real, other: Num)
    requires cost > 0.0 && SignsAlike(rules, offer, Finite(cost), other)
    ensures Eligible(rules, job, offer.At(other)) ==>
              (Eligible(rules, job, offer.At(Finite(cost))) <==> cost <= job.maxPrice)
    ensures Eligible(rules, job, offer.At(Finite(cost))) ==> cost <= job.maxPrice
  {
  }

  function Gain(wins: bool, payment: real, cost: real): real { if wins then payment - cost else 0.0 }

  // The comparison of two bids that would be paid the same.
  lemma GainsCompared(truthWins: bool, otherWins: bool, payment: real, cost: real, slack: real)
    requires slack >= 0.0
    requires truthWins ==> payment >= cost - slack
    requires otherWins && !truthWins ==> payment <= cost + slack
    ensures Gain(otherWins, payment, cost) <= Gain(truthWins, payment, cost) + slack
  {
  }

  // No price gives a provider more than a grid step, in its own discounted units, above
  // what it gains by bidding its cost; whoever else bids whatever they bid.
  lemma TruthIsNearlyDominant(rules: Rules, job: Job, pre: seq<SignedBid>, post: seq<SignedBid>, offer: Offer,
                              cost: real, other: Num)
    requires NewPeer(pre + post, offer.base.peer) && cost > 0.0
    requires SignsAlike(rules, offer, Finite(cost), other)
    ensures Utility(rules, job, pre + [offer.At(other)] + post, offer.base.peer, cost) <=
            Utility(rules, job, pre + [offer.At(Finite(cost))] + post, offer.base.peer, cost)
            + STEP / Discount(rules, offer.base)
  {
    var rivals := Ranked(rules, job, pre + post);
    var truth, lie := offer.At(Finite(cost)), offer.At(other);
    var d := Discount(rules, offer.base);
    UtilityOf(rules, job, pre, truth, post, cost);
    UtilityOf(rules, job, pre, lie, post, cost);
    TruthfulGain(rules, job, offer, cost, other, rivals);
    GainsCompared(Wins(rules, job, truth, rivals), Wins(rules, job, lie, rivals), Payment(rules, job, truth, rivals),
                  cost, STEP / d);
  }

  lemma PaymentBounds(best: real, d: real, cost: real, max: real)
    requires d > 0.0
    ensures STEP / d >= 0.0
    ensures cost * d <= best + STEP && cost <= max ==> Lower(best / d, max) >= cost - STEP / d
    ensures best <= cost * d + STEP ==> Lower(best / d, max) <= cost + STEP / d
  {
    DivideOut(STEP, d, 0.0);
    SlackDivides(best, d, cost);
  }

  lemma SamePayment(rules: Rules, job: Job, offer: Offer, p: Num, q: Num, rivals: seq<SignedBid>)
    ensures Payment(rules, job, offer.At(p), rivals) == Payment(rules, job, offer.At(q), rivals)
  {
    OfferKeys(rules, offer, p);
    OfferKeys(rules, offer, q);
  }

  // Payment of a bid against its best rival, from their effective prices.
  lemma PaidNearly(rules: Rules, job: Job, own: SignedBid, rivals: seq<SignedBid>, cost: real, d: real)
    requires |rivals| > 0 && d == Discount(rules, own.bid) && Effective(rules, own.bid) == cost * d
    ensures RanksBefore(rules, own, rivals[0]) && cost <= job.maxPrice ==>
              Payment(rules, job, own, rivals) >= cost - STEP / d
    ensures !RanksBefore(rules, own, rivals[0]) ==> Payment(rules, job, own, rivals) <= cost + STEP / d
  {
    RankedWithinStep(rules, own, rivals[0]);
    PaymentBounds(Effective(rules, rivals[0].bid), d, cost, job.maxPrice);
  }

  lemma TruthfulGain(rules: Rules, job: Job, offer: Offer, cost: real, other: Num, rivals: seq<SignedBid>)
    requires cost > 0.0 && SignsAlike(rules, offer, Finite(cost), other)
    ensures var truth, lie := offer.At(Finite(cost)), offer.At(other);
            var payment, slack := Payment(rules, job, truth, rivals), STEP / Discount(rules, offer.base);
            && payment == Payment(rules, job, lie, rivals) && slack >= 0.0
            && (Wins(rules, job, truth, rivals) ==> payment >= cost - slack)
            && (Wins(rules, job, lie, rivals) && !Wins(rules, job, truth, rivals) ==> payment <= cost + slack)
  {
    var truth, d := offer.At(Finite(cost)), Discount(rules, offer.base);
    SamePayment(rules, job, offer, Finite(cost), other, rivals);
    OnlyPriceExcludes(rules, job, offer, cost, other);
    OfferKeys(rules, offer, Finite(cost));
    PaymentBounds(0.0, d, cost, job.maxPrice);
    if |rivals| > 0 {
      PaidNearly(rules, job, truth, rivals, cost, d);
      PaymentCap(rules, job, truth, rivals);
    }
  }

  lemma PaymentCap(rules: Rules, job: Job, own: SignedBid, rivals: seq<SignedBid>)
    ensures Payment(rules, job, own, rivals) <= job.maxPrice
  {
  }

  lemma SlackDivides(best: real, d: real, cost: real)
    requires d > 0.0
    ensures cost * d <= best + STEP ==> best / d >= cost - STEP / d
    ensures best <= cost * d + STEP ==> best / d <= cost + STEP / d
  {
    var slack := STEP / d;
    assert slack * d == STEP;
    assert (cost - slack) * d == cost * d - STEP && (cost + slack) * d == cost * d + STEP;
    DivideOut(best, d, cost - slack);
    DivideOut(best, d, cost + slack);
  }
}
