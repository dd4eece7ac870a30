// The rules of the auction as `edgegrid/market.py` words them, apart from how it computes
// them: `exclusion_reason`, `_revision_key`, `ScoredBid.sort_key`, `discount_factor`.

module AuctionSpec {
  import opened AuctionModel
  import opened ByteStrings
  import opened Rounding

  // ---------------------------------------------------------------- constraints of the job

  predicate OnJob(job: Job, b: Bid) { b.jobId == job.jobId }

  predicate Vouched(rules: Rules, b: SignedBid) { rules.requireSignature ==> rules.verifies(b) }

  predicate Priced(b: Bid) { b.price.Finite? && 0.0 < b.price.value }

  predicate Tiered(job: Job, b: Bid) { job.minTier <= b.tier }

  predicate Timely(job: Job, b: Bid) { b.ttft.Finite? && b.ttft.value <= job.maxLatency }

  predicate Affordable(job: Job, b: Bid)
    requires b.price.Finite?
  {
    b.price.value <= job.maxPrice
  }

  predicate Meets(rules: Rules, job: Job, b: SignedBid) {
    && OnJob(job, b.bid) && Vouched(rules, b) && Priced(b.bid) && Tiered(job, b.bid) && Timely(job, b.bid)
    && Affordable(job, b.bid)
  }

  // The most fundamental constraint that a bid violates: all before it are met.
  predicate Violates(rules: Rules, job: Job, b: SignedBid, reason: Reason) {
    match reason
    case JobMismatch => !OnJob(job, b.bid)
    case BadSignature => OnJob(job, b.bid) && !Vouched(rules, b)
    case NonpositivePrice => OnJob(job, b.bid) && Vouched(rules, b) && !Priced(b.bid)
    case TierBelowMin => OnJob(job, b.bid) && Vouched(rules, b) && Priced(b.bid) && !Tiered(job, b.bid)
    case LatencyOverBudget =>
      OnJob(job, b.bid) && Vouched(rules, b) && Priced(b.bid) && Tiered(job, b.bid) && !Timely(job, b.bid)
    case PriceOverMax =>
      && OnJob(job, b.bid) && Vouched(rules, b) && Priced(b.bid) && Tiered(job, b.bid) && Timely(job, b.bid)
      && !Affordable(job, b.bid)
    case Superseded => false
  }

  lemma MeetsExactlyWhen(rules: Rules, job: Job, b: SignedBid)
    ensures Eligible(rules, job, b) <==> Meets(rules, job, b)
    ensures !Eligible(rules, job, b) ==> Violates(rules, job, b, Exclusion(rules, job, b).value)
  {
  }

  // ---------------------------------------------------------------- revisions

  // By the stamp a bid carries, and by its hash when the stamps are the same.
  predicate NotOlder(rules: Rules, a: Bid, b: Bid) {
    b.created < a.created || (b.created == a.created && rules.digest(b) <= rules.digest(a))
  }

  lemma NewerExactlyWhen(rules: Rules, a: Bid, b: Bid)
    ensures Newer(rules, a, b) <==> !NotOlder(rules, b, a)
  {
  }

  // ---------------------------------------------------------------- ranks

  // What a warm bid's price is multiplied by: less the bonus, which counts as zero if it is
  // negative and as 99 per cent if it is more.
  predicate IsHandicap(rules: Rules, b: Bid, d: real) {
    && (!b.warm ==> d == 1.0)
    && (b.warm && 0.0 <= rules.warmBonus <= 0.99 ==> d == 1.0 - rules.warmBonus)
    && (b.warm && rules.warmBonus < 0.0 ==> d == 1.0)
    && (b.warm && 0.99 < rules.warmBonus ==> d == 0.01)
  }

  lemma DiscountIsHandicap(rules: Rules, b: Bid, d: real)
    ensures IsHandicap(rules, b, d) <==> d == Discount(rules, b)
  {
  }

  // The first place where the texts differ decides; a text comes before those it begins.
  predicate TextBefore(a: string, b: string) {
    exists k: nat :: k <= |a| && k < |b| && a[..k] == b[..k] && (k == |a| || a[k] < b[k])
  }

  lemma PrefixStarts(a: string, b: string, k: nat)
    requires 0 < |a| && 0 < |b| && k <= |a| && k <= |b| && a[..k] == b[..k]
    ensures k == 0 || a[0] == b[0]
  {
    if k > 0 {
      assert a[0] == a[..k][0] && b[0] == b[..k][0];
    }
  }

  lemma {:induction false} TextLessExactlyWhen(a: string, b: string)
    ensures TextLess(a, b) <==> TextBefore(a, b)
    decreases |a|
  {
    if |a| > 0 && |b| > 0 && a[0] == b[0] {
      TextLessExactlyWhen(a[1..], b[1..]);
      if TextBefore(a[1..], b[1..]) {
        var k: nat :| k <= |a[1..]| && k < |b[1..]| && a[1..][..k] == b[1..][..k] &&
                      (k == |a[1..]| || a[1..][k] < b[1..][k]);
        assert a[..k + 1] == [a[0]] + a[1..][..k] && b[..k + 1] == [b[0]] + b[1..][..k];
      }
      if TextBefore(a, b) {
        var k: nat :| k <= |a| && k < |b| && a[..k] == b[..k] && (k == |a| || a[k] < b[k]);
        assert k > 0;
        assert a[1..][..k - 1] == a[..k][1..] == b[..k][1..] == b[1..][..k - 1];
      }
    } else if |b| > 0 && |a| > 0 && TextBefore(a, b) {
      var k: nat :| k <= |a| && k < |b| && a[..k] == b[..k] && (k == |a| || a[k] < b[k]);
      PrefixStarts(a, b, k);
    } else if TextLess(a, b) {
      assert a[..0] == b[..0];
    }
  }

  // Twelve decimals are counted; `Round` says which way a half goes.
  function Decimals(x: real): int { Round(x * 1_000_000_000_000.0) }

  function Handicapped(b: Bid, d: real): real
    requires b.price.Finite?
  {
    b.price.value * d
  }

  function Count(b: Bid, d: real): int
    requires b.price.Finite?
  {
    Decimals(Handicapped(b, d))
  }

  // Cheaper first, by the handicapped price; of equal ones the faster; then by peer id.
  predicate Before(rules: Rules, a: Bid, b: Bid, da: real, db: real)
    requires a.price.Finite? && b.price.Finite? && a.ttft.Finite? && b.ttft.Finite?
  {
    || Count(a, da) < Count(b, db)
    || (Count(a, da) == Count(b, db) &&
        var s, t := Decimals(a.ttft.value), Decimals(b.ttft.value);
        s < t || (s == t && TextBefore(a.peer, b.peer)))
  }

  lemma PriceCounts(rules: Rules, b: Bid, d: real)
    requires b.price.Finite? && b.ttft.Finite? && d == Discount(rules, b)
    ensures SortKey(rules, b) == Key(Count(b, d), Decimals(b.ttft.value), b.peer)
  {
    var e := Effective(rules, b);
    EffectiveIs(rules, b, d, e);
    DecimalsAreCounted(e);
    DecimalsAreCounted(b.ttft.value);
    CountsAlike(b, d, e);
  }

  lemma EffectiveIs(rules: Rules, b: Bid, d: real, e: real)
    requires b.price.Finite? && d == Discount(rules, b) && e == Effective(rules, b)
    ensures e == Handicapped(b, d)
  {
    SameProduct(ValueOf(b.price), Discount(rules, b), b.price.value, d);
  }

  lemma SameProduct(x: real, y: real, x': real, y': real)
    requires x == x' && y == y'
    ensures x * y == x' * y'
  {
  }

  lemma CountsAlike(b: Bid, d: real, e: real)
    requires b.price.Finite? && e == Handicapped(b, d)
    ensures Count(b, d) == Decimals(e)
  {
  }

  lemma DecimalsAreCounted(x: real)
    ensures Quantised(x) == Decimals(x)
  {
  }

  lemma RanksExactlyWhen(rules: Rules, a: SignedBid, b: SignedBid, da: real, db: real)
    requires a.bid.price.Finite? && b.bid.price.Finite? && a.bid.ttft.Finite? && b.bid.ttft.Finite?
    requires IsHandicap(rules, a.bid, da) && IsHandicap(rules, b.bid, db)
    ensures RanksBefore(rules, a, b) <==> Before(rules, a.bid, b.bid, da, db)
  {
    DiscountIsHandicap(rules, a.bid, da);
    DiscountIsHandicap(rules, b.bid, db);
    TextLessExactlyWhen(a.bid.peer, b.bid.peer);
    PriceCounts(rules, a.bid, da);
    PriceCounts(rules, b.bid, db);
    KeysCompare(a.bid.peer, b.bid.peer, SortKey(rules, a.bid), SortKey(rules, b.bid));
  }

  lemma {:induction false} KeysCompare(peerA: PeerId, peerB: PeerId, a: Key, b: Key)
    requires a.peer == peerA && b.peer == peerB && (TextLess(peerA, peerB) <==> TextBefore(peerA, peerB))
    ensures KeyLess(a, b) <==>
            || a.price < b.price
            || (a.price == b.price && (a.ttft < b.ttft || (a.ttft == b.ttft && TextBefore(peerA, peerB))))
  {
  }
}
