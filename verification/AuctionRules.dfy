// What is ranked, in which order, and what is rejected for which reason: edgegrid/market.py,
// `rank_bids`, in the words of `AuctionSpec` alone.

module AuctionRules {
  import opened AuctionModel
  import opened AuctionOrder
  import opened AuctionSpec
  import opened ByteStrings

  // Who is ranked meets every constraint with its newest bid, and goes before those that are
  // dearer after the handicap, slower at one price, or later in the order of peer ids.
  lemma RankingFollowsRules(rules: Rules, job: Job, bids: seq<SignedBid>, i: nat, j: nat, di: real, dj: real)
    requires i < j < |Ranked(rules, job, bids)|
    requires IsHandicap(rules, Ranked(rules, job, bids)[i].bid, di)
    requires IsHandicap(rules, Ranked(rules, job, bids)[j].bid, dj)
    ensures var a, b := Ranked(rules, job, bids)[i], Ranked(rules, job, bids)[j];
            && Meets(rules, job, a) && Meets(rules, job, b) && a.bid.peer != b.bid.peer
            && Before(rules, a.bid, b.bid, di, dj)
  {
    var a, b := Ranked(rules, job, bids)[i], Ranked(rules, job, bids)[j];
    RankedIsNewest(rules, job, bids, i);
    RankedIsNewest(rules, job, bids, j);
    RankingIsSorted(rules, job, bids);
    RanksExactlyWhen(rules, a, b, di, dj);
    RankedDiffer(rules, job, bids, i, j);
  }

  lemma RankedIsNewest(rules: Rules, job: Job, bids: seq<SignedBid>, i: nat)
    requires i < |Ranked(rules, job, bids)|
    ensures IsNewest(rules, job, bids, Ranked(rules, job, bids)[i])
  {
    RankingIsSorted(rules, job, bids);
    assert Ranked(rules, job, bids)[i] in Ranked(rules, job, bids);
  }

  // Two places of the ranking are never one peer's.
  lemma RankedDiffer(rules: Rules, job: Job, bids: seq<SignedBid>, i: nat, j: nat)
    requires i < j < |Ranked(rules, job, bids)|
    ensures Ranked(rules, job, bids)[i].bid.peer != Ranked(rules, job, bids)[j].bid.peer
  {
    var latest, ranked := Collect(rules, job, bids).latest, Ranked(rules, job, bids);
    CollectKeepsLatest(rules, job, bids);
    RankingIsSorted(rules, job, bids);
    SortMembers(rules, latest, ranked[i]);
    SortMembers(rules, latest, ranked[j]);
    var k :| 0 <= k < |latest| && latest[k] == ranked[i];
    var l :| 0 <= l < |latest| && latest[l] == ranked[j];
    if ranked[i].bid.peer == ranked[j].bid.peer {
      assert k == l;
      KeyLessTotal(SortKey(rules, ranked[i].bid), SortKey(rules, ranked[j].bid));
    }
  }

  // Every rejection names the first constraint that the bid violates, or the bid meets them
  // all and one of its peer's that is ranked is no older.
  lemma RejectionFollowsRules(rules: Rules, job: Job, bids: seq<SignedBid>, i: nat)
    requires i < |Rejected(rules, job, bids)|
    ensures var r, ranked := Rejected(rules, job, bids)[i], Ranked(rules, job, bids);
            && r.bid in bids
            && (r.reason.Superseded? ==>
                  && Meets(rules, job, r.bid)
                  && exists k :: 0 <= k < |ranked| && ranked[k].bid.peer == r.bid.bid.peer
                                 && NotOlder(rules, ranked[k].bid, r.bid.bid))
            && (!r.reason.Superseded? ==> Violates(rules, job, r.bid, r.reason))
  {
    var r, ranked := Rejected(rules, job, bids)[i], Ranked(rules, job, bids);
    RejectedIsReceived(rules, job, bids, i);
    RejectedAreReported(rules, job, bids);
    assert RejectionReports(Rejected(rules, job, bids))[i] == Reports(rules, job, Bids(Rejected(rules, job, bids)))[i];
    MeetsExactlyWhen(rules, job, r.bid);
    if r.reason.Superseded? {
      SomeoneIsNewer(rules, job, bids, r.bid);
    }
  }

  lemma RejectedIsReceived(rules: Rules, job: Job, bids: seq<SignedBid>, i: nat)
    requires i < |Rejected(rules, job, bids)|
    ensures Rejected(rules, job, bids)[i].bid in bids
  {
    EveryBidIsAccountedFor(rules, job, bids);
    assert Bids(Rejected(rules, job, bids))[i] in multiset(Bids(Rejected(rules, job, bids)));
    assert Rejected(rules, job, bids)[i].bid in multiset(bids);
  }

  lemma SomeoneIsNewer(rules: Rules, job: Job, bids: seq<SignedBid>, b: SignedBid)
    requires b in bids && Meets(rules, job, b)
    ensures var ranked := Ranked(rules, job, bids);
            exists k :: 0 <= k < |ranked| && ranked[k].bid.peer == b.bid.peer && NotOlder(rules, ranked[k].bid, b.bid)
  {
    var latest, ranked := Collect(rules, job, bids).latest, Ranked(rules, job, bids);
    CollectKeepsLatest(rules, job, bids);
    assert HasPeer(latest, b.bid.peer);
    var k :| 0 <= k < |latest| && latest[k].bid.peer == b.bid.peer;
    assert IsNewest(rules, job, bids, latest[k]);
    SortMembers(rules, latest, latest[k]);
    var l :| 0 <= l < |ranked| && ranked[l] == latest[k];
  }

  // `paid` would cost `cost` after the handicap `d`, unless that is above the ceiling.
  predicate Pays(cost: real, d: real, most: real, paid: real) {
    if cost <= most * d then paid * d == cost else paid == most
  }

  lemma SmallerOfQuotient(cost: real, d: real, most: real, paid: real)
    requires d > 0.0 && paid == Lower(cost / d, most)
    ensures Pays(cost, d, most, paid)
  {
    var q := cost / d;
    assert q * d == cost;
    if q <= most {
      assert q * d <= most * d;
    } else {
      assert most * d < q * d;
    }
  }

  lemma PaidQuotient(rules: Rules, job: Job, ranked: seq<SignedBid>, d0: real, cost: real)
    requires |ranked| > 1 && d0 == Discount(rules, ranked[0].bid) && cost == Effective(rules, ranked[1].bid)
    ensures AwardOf(rules, job, ranked).value.clearing == Lower(cost / d0, job.maxPrice)
  {
  }

  // What is paid is the price at which the winner would cost, after its handicap, what the
  // runner-up costs after its own, but no more than the ceiling; alone, it is the ceiling.
  lemma PaymentFollowsRules(rules: Rules, job: Job, bids: seq<SignedBid>, d0: real, d1: real)
    requires var ranked := Ranked(rules, job, bids);
             && |ranked| > 0 && IsHandicap(rules, ranked[0].bid, d0)
             && (|ranked| > 1 ==> IsHandicap(rules, ranked[1].bid, d1))
    ensures var ranked := Ranked(rules, job, bids);
            var award := Evaluate(rules, job, bids).award;
            && award.Some?
            && (|ranked| == 1 ==> award.value.clearing == job.maxPrice)
            && (|ranked| > 1 ==>
                  && ranked[1].bid.price.Finite?
                  && Pays(Handicapped(ranked[1].bid, d1), d0, job.maxPrice, award.value.clearing))
  {
    var ranked := Ranked(rules, job, bids);
    DiscountIsHandicap(rules, ranked[0].bid, d0);
    if |ranked| > 1 {
      RankedIsNewest(rules, job, bids, 1);
      DiscountIsHandicap(rules, ranked[1].bid, d1);
      var cost := Handicapped(ranked[1].bid, d1);
      EffectiveIs(rules, ranked[1].bid, d1, Effective(rules, ranked[1].bid));
      PaidQuotient(rules, job, ranked, d0, cost);
      SmallerOfQuotient(cost, d0, job.maxPrice, AwardOf(rules, job, ranked).value.clearing);
    }
  }
}
