// The reverse second-price auction: edgegrid/market.py.
//
// Prices are real numbers, so what is lost to binary floating point is not modelled;
// the rounding to twelve decimals that ranking depends on is.

module AuctionModel {
  import opened ByteStrings
  import opened Rounding

  type PeerId = string

  // ---------------------------------------------------------------- entities

  // A number off the wire; infinities and NaN are one case, as the checks treat them.
  datatype Num = Finite(value: real) | NonFinite

  // What is signed of a bid.
  datatype Bid = Bid(
    jobId: string, peer: PeerId, wallet: string, price: Num, ttft: Num, warm: bool, tier: int, stake: real,
    created: int)

  datatype SignedBid = SignedBid(bid: Bid, signature: Option<string>)

  datatype Job = Job(jobId: string, maxPrice: real, maxLatency: real, minTier: int)

  // The configured warm bonus, the signature check, and the hash of a bid's canonical
  // bytes, which leave the signature out. Hex digests compare as the numbers they are.
  datatype Rules = Rules(warmBonus: real, requireSignature: bool, verifies: SignedBid -> bool, digest: Bid -> nat)

  datatype Reason =
    | JobMismatch | BadSignature | NonpositivePrice | TierBelowMin | LatencyOverBudget | PriceOverMax | Superseded

  datatype Rejection = Rejection(bid: SignedBid, reason: Reason)

  datatype Award = Award(
    jobId: string, winner: PeerId, wallet: string, clearing: real, winningPrice: real, nBids: nat)

  datatype Outcome = Outcome(award: Option<Award>, ranked: seq<SignedBid>, rejected: seq<Rejection>, received: nat)

  // ---------------------------------------------------------------- scoring

  function Discount(rules: Rules, bid: Bid): (d: real)
    ensures 0.01 <= d <= 1.0
  {
    if !bid.warm then 1.0
    else
      var bonus := if rules.warmBonus < 0.0 then 0.0 else if rules.warmBonus > 0.99 then 0.99 else rules.warmBonus;
      1.0 - bonus
  }

  function Exclusion(rules: Rules, job: Job, b: SignedBid): Option<Reason> {
    if b.bid.jobId != job.jobId then Some(JobMismatch)
    else if rules.requireSignature && !rules.verifies(b) then Some(BadSignature)
    else if b.bid.price.NonFinite? || b.bid.price.value <= 0.0 then Some(NonpositivePrice)
    else if b.bid.tier < job.minTier then Some(TierBelowMin)
    else if b.bid.ttft.NonFinite? || b.bid.ttft.value > job.maxLatency then Some(LatencyOverBudget)
    else if b.bid.price.value > job.maxPrice then Some(PriceOverMax)
    else None
  }

  predicate Eligible(rules: Rules, job: Job, b: SignedBid) { Exclusion(rules, job, b).None? }

  function ValueOf(x: Num): real { if x.Finite? then x.value else 0.0 }

  // The price a bid is ranked by.
  function Effective(rules: Rules, bid: Bid): real { ValueOf(bid.price) * Discount(rules, bid) }

  // ---------------------------------------------------------------- ranking

  // Rounding to the twelfth decimal, counted in steps of that size.
  function Scaled(x: real): real { x * 1_000_000_000_000.0 }

  function Quantised(x: real): int { Round(Scaled(x)) }

  datatype Key = Key(price: int, ttft: int, peer: PeerId)

  function SortKey(rules: Rules, bid: Bid): Key {
    Key(Quantised(Effective(rules, bid)), Quantised(ValueOf(bid.ttft)), bid.peer)
  }

  predicate TextLess(a: string, b: string)
    decreases |a|
  {
    |b| > 0 && (|a| == 0 || a[0] < b[0] || (a[0] == b[0] && TextLess(a[1..], b[1..])))
  }

  predicate KeyLess(a: Key, b: Key) {
    || a.price < b.price
    || (a.price == b.price && (a.ttft < b.ttft || (a.ttft == b.ttft && TextLess(a.peer, b.peer))))
  }

  predicate RanksBefore(rules: Rules, a: SignedBid, b: SignedBid) {
    KeyLess(SortKey(rules, a.bid), SortKey(rules, b.bid))
  }

  function InsertByKey(rules: Rules, b: SignedBid, sorted: seq<SignedBid>): seq<SignedBid> {
    if |sorted| == 0 then [b]
    else if RanksBefore(rules, b, sorted[0]) then [b] + sorted
    else [sorted[0]] + InsertByKey(rules, b, sorted[1..])
  }

  function SortByKey(rules: Rules, bids: seq<SignedBid>): seq<SignedBid> {
    if |bids| == 0 then []
    else InsertByKey(rules, bids[|bids| - 1], SortByKey(rules, bids[..|bids| - 1]))
  }

  // ---------------------------------------------------------------- revisions

  predicate Newer(rules: Rules, a: Bid, b: Bid) {
    a.created > b.created || (a.created == b.created && rules.digest(a) > rules.digest(b))
  }

  // `latest` lists the entries of the code's dict in insertion order, one per peer.
  datatype Collected = Collected(latest: seq<SignedBid>, rejected: seq<Rejection>, superseded: seq<SignedBid>)

  function FindPeer(latest: seq<SignedBid>, peer: PeerId): (found: Option<nat>)
    ensures found.Some? ==> found.value < |latest| && latest[found.value].bid.peer == peer
    ensures found.None? ==> forall i :: 0 <= i < |latest| ==> latest[i].bid.peer != peer
  {
    if |latest| == 0 then None
    else if latest[|latest| - 1].bid.peer == peer then Some(|latest| - 1)
    else FindPeer(latest[..|latest| - 1], peer)
  }

  function AddBid(rules: Rules, job: Job, c: Collected, b: SignedBid): Collected {
    match Exclusion(rules, job, b)
    case Some(reason) => c.(rejected := c.rejected + [Rejection(b, reason)])
    case None =>
      match FindPeer(c.latest, b.bid.peer)
      case None => c.(latest := c.latest + [b])
      case Some(i) =>
        if Newer(rules, b.bid, c.latest[i].bid)
        then c.(latest := c.latest[i := b], superseded := c.superseded + [c.latest[i]])
        else c.(superseded := c.superseded + [b])
  }

  function Collect(rules: Rules, job: Job, bids: seq<SignedBid>): Collected {
    if |bids| == 0 then Collected([], [], [])
    else AddBid(rules, job, Collect(rules, job, bids[..|bids| - 1]), bids[|bids| - 1])
  }

  function Rejections(superseded: seq<SignedBid>): (rejections: seq<Rejection>)
    ensures |rejections| == |superseded|
  {
    seq(|superseded|, i requires 0 <= i < |superseded| => Rejection(superseded[i], Superseded))
  }

  function Ranked(rules: Rules, job: Job, bids: seq<SignedBid>): seq<SignedBid> {
    SortByKey(rules, Collect(rules, job, bids).latest)
  }

  function Rejected(rules: Rules, job: Job, bids: seq<SignedBid>): seq<Rejection> {
    var c := Collect(rules, job, bids);
    c.rejected + Rejections(c.superseded)
  }

  // ---------------------------------------------------------------- the award

  function Lower(a: real, b: real): real { if a <= b then a else b }

  // The highest price at which the best bid would still have ranked first.
  function Threshold(rules: Rules, job: Job, ranked: seq<SignedBid>): real
    requires |ranked| > 0
  {
    if |ranked| >= 2 then Effective(rules, ranked[1].bid) / Discount(rules, ranked[0].bid) else job.maxPrice
  }

  function AwardOf(rules: Rules, job: Job, ranked: seq<SignedBid>): Option<Award> {
    if |ranked| == 0 then None
    else
      var winner := ranked[0].bid;
      Some(Award(job.jobId, winner.peer, winner.wallet, Lower(Threshold(rules, job, ranked), job.maxPrice),
                 ValueOf(winner.price), |ranked|))
  }

  function Evaluate(rules: Rules, job: Job, bids: seq<SignedBid>): Outcome {
    var ranked := Ranked(rules, job, bids);
    Outcome(AwardOf(rules, job, ranked), ranked, Rejected(rules, job, bids), |bids|)
  }

  // ---------------------------------------------------------------- the loops of the code

  method RankBids(rules: Rules, job: Job, bids: seq<SignedBid>)
    returns (ranked: seq<SignedBid>, rejected: seq<Rejection>)
    ensures ranked == Ranked(rules, job, bids) && rejected == Rejected(rules, job, bids)
  {
    var latest: seq<SignedBid> := [];
    var superseded: seq<SignedBid> := [];
    rejected := [];
    for k := 0 to |bids|
      invariant Collected(latest, rejected, superseded) == Collect(rules, job, bids[..k])
    {
      assert bids[..k + 1][..k] == bids[..k];
      var b := bids[k];
      var reason := Exclusion(rules, job, b);
      if reason.Some? {
        rejected := rejected + [Rejection(b, reason.value)];
        continue;
      }
      var found := FindPeer(latest, b.bid.peer);
      if found.None? {
        latest := latest + [b];
      } else if Newer(rules, b.bid, latest[found.value].bid) {
        superseded := superseded + [latest[found.value]];
        latest := latest[found.value := b];
      } else {
        superseded := superseded + [b];
      }
    }
    assert bids[..|bids|] == bids;
    rejected := rejected + Rejections(superseded);
    ranked := Sort(rules, latest);
  }

  method Sort(rules: Rules, bids: seq<SignedBid>) returns (sorted: seq<SignedBid>)
    ensures sorted == SortByKey(rules, bids)
  {
    sorted := [];
    for k := 0 to |bids|
      invariant sorted == SortByKey(rules, bids[..k])
    {
      assert bids[..k + 1][..k] == bids[..k];
      sorted := InsertByKey(rules, bids[k], sorted);
    }
    assert bids[..|bids|] == bids;
  }
}
