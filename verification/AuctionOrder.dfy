// The auction depends on which bids arrive, not on how: edgegrid/market.py,
// `ScoredBid.sort_key`, `_revision_key`, `rank_bids`, `evaluate`.

module AuctionOrder {
  import opened ByteStrings
  import opened AuctionModel
  import opened AuctionSpec

  // ---------------------------------------------------------------- the order of keys

  lemma {:induction false} TextLessTotal(a: string, b: string)
    ensures TextLess(a, b) || TextLess(b, a) || a == b
    ensures !(TextLess(a, b) && TextLess(b, a)) && !TextLess(a, a)
    decreases |a| + |b|
  {
    if |a| > 0 && |b| > 0 && a[0] == b[0] {
      TextLessTotal(a[1..], b[1..]);
      assert a == [a[0]] + a[1..] && b == [b[0]] + b[1..];
    }
    if |a| > 0 {
      TextLessIrreflexive(a);
    }
  }

  lemma {:induction false} TextLessIrreflexive(a: string)
    ensures !TextLess(a, a)
    decreases |a|
  {
    if |a| > 0 {
      TextLessIrreflexive(a[1..]);
    }
  }

  lemma {:induction false} TextLessTransitive(a: string, b: string, c: string)
    requires TextLess(a, b) && TextLess(b, c)
    ensures TextLess(a, c)
    decreases |a|
  {
    if |a| > 0 && a[0] == b[0] == c[0] {
      TextLessTransitive(a[1..], b[1..], c[1..]);
    }
  }

  lemma KeyLessTotal(a: Key, b: Key)
    ensures KeyLess(a, b) || KeyLess(b, a) || a == b
    ensures !(KeyLess(a, b) && KeyLess(b, a)) && !KeyLess(a, a)
  {
    TextLessTotal(a.peer, b.peer);
    TextLessTotal(a.peer, a.peer);
  }

  lemma KeyLessTransitive(a: Key, b: Key, c: Key)
    requires KeyLess(a, b) && KeyLess(b, c)
    ensures KeyLess(a, c)
  {
    if TextLess(a.peer, b.peer) && TextLess(b.peer, c.peer) {
      TextLessTransitive(a.peer, b.peer, c.peer);
    }
  }

  // ---------------------------------------------------------------- sorted rankings

  predicate Sorted(rules: Rules, bids: seq<SignedBid>) {
    forall i, j :: 0 <= i < j < |bids| ==> RanksBefore(rules, bids[i], bids[j])
  }

  predicate DistinctPeers(bids: seq<SignedBid>) {
    forall i, j :: 0 <= i < j < |bids| ==> bids[i].bid.peer != bids[j].bid.peer
  }

  predicate NewPeer(bids: seq<SignedBid>, peer: PeerId) {
    forall i :: 0 <= i < |bids| ==> bids[i].bid.peer != peer
  }

  lemma {:induction false} InsertKeepsBids(rules: Rules, b: SignedBid, sorted: seq<SignedBid>)
    ensures multiset(InsertByKey(rules, b, sorted)) == multiset(sorted) + multiset{b}
    ensures |InsertByKey(rules, b, sorted)| == |sorted| + 1
    decreases |sorted|
  {
    if |sorted| > 0 {
      assert sorted == [sorted[0]] + sorted[1..];
      InsertKeepsBids(rules, b, sorted[1..]);
    }
  }

  lemma {:induction false} InsertMembers(rules: Rules, b: SignedBid, sorted: seq<SignedBid>, x: SignedBid)
    ensures x in InsertByKey(rules, b, sorted) <==> x == b || x in sorted
    decreases |sorted|
  {
    if |sorted| > 0 {
      assert sorted == [sorted[0]] + sorted[1..];
      InsertMembers(rules, b, sorted[1..], x);
    }
  }

  lemma {:induction false} InsertSorts(rules: Rules, b: SignedBid, sorted: seq<SignedBid>)
    requires Sorted(rules, sorted) && NewPeer(sorted, b.bid.peer)
    ensures Sorted(rules, InsertByKey(rules, b, sorted))
    decreases |sorted|
  {
    if |sorted| > 0 {
      var first, rest := sorted[0], sorted[1..];
      KeyLessTotal(SortKey(rules, b.bid), SortKey(rules, first.bid));
      if RanksBefore(rules, b, first) {
        forall j | 0 <= j < |sorted| ensures RanksBefore(rules, b, sorted[j]) {
          if j > 0 {
            KeyLessTransitive(SortKey(rules, b.bid), SortKey(rules, first.bid), SortKey(rules, sorted[j].bid));
          }
        }
      } else {
        InsertSorts(rules, b, rest);
        var tail := InsertByKey(rules, b, rest);
        forall j | 0 <= j < |tail| ensures RanksBefore(rules, first, tail[j]) {
          InsertMembers(rules, b, rest, tail[j]);
          if tail[j] != b {
            var i :| 0 <= i < |rest| && rest[i] == tail[j];
            assert sorted[i + 1] == tail[j];
          }
        }
      }
    }
  }

  lemma {:induction false} SortKeepsBids(rules: Rules, bids: seq<SignedBid>)
    ensures multiset(SortByKey(rules, bids)) == multiset(bids) && |SortByKey(rules, bids)| == |bids|
    decreases |bids|
  {
    if |bids| > 0 {
      var front := bids[..|bids| - 1];
      assert bids == front + [bids[|bids| - 1]];
      SortKeepsBids(rules, front);
      InsertKeepsBids(rules, bids[|bids| - 1], SortByKey(rules, front));
    }
  }

  lemma {:induction false} SortMembers(rules: Rules, bids: seq<SignedBid>, x: SignedBid)
    ensures x in SortByKey(rules, bids) <==> x in bids
  {
    SortKeepsBids(rules, bids);
    assert x in multiset(SortByKey(rules, bids)) <==> x in multiset(bids);
  }

  lemma {:induction false} SortSorts(rules: Rules, bids: seq<SignedBid>)
    requires DistinctPeers(bids)
    ensures Sorted(rules, SortByKey(rules, bids))
    decreases |bids|
  {
    if |bids| > 0 {
      var front, last := bids[..|bids| - 1], bids[|bids| - 1];
      SortSorts(rules, front);
      var sorted := SortByKey(rules, front);
      forall i | 0 <= i < |sorted| ensures sorted[i].bid.peer != last.bid.peer {
        SortMembers(rules, front, sorted[i]);
        var j :| 0 <= j < |front| && front[j] == sorted[i];
        assert bids[j] == front[j];
      }
      InsertSorts(rules, last, sorted);
    }
  }

  // ---------------------------------------------------------------- every bid accounted for

  function Bids(rejected: seq<Rejection>): (bids: seq<SignedBid>)
    ensures |bids| == |rejected|
  {
    seq(|rejected|, i requires 0 <= i < |rejected| => rejected[i].bid)
  }

  ghost predicate Accounts(c: Collected, bids: seq<SignedBid>) {
    && multiset(c.latest) + multiset(Bids(c.rejected)) + multiset(c.superseded) == multiset(bids)
    && |c.latest| + |c.rejected| + |c.superseded| == |bids|
  }

  lemma ReplaceAccounts(latest: seq<SignedBid>, i: nat, b: SignedBid)
    requires i < |latest|
    ensures multiset(latest[i := b]) + multiset{latest[i]} == multiset(latest) + multiset{b}
  {
  }

  lemma AddAccounts(rules: Rules, job: Job, c: Collected, bids: seq<SignedBid>, b: SignedBid)
    requires Accounts(c, bids)
    ensures Accounts(AddBid(rules, job, c, b), bids + [b])
  {
    var reason, found := Exclusion(rules, job, b), FindPeer(c.latest, b.bid.peer);
    var d := AddBid(rules, job, c, b);
    if reason.Some? {
      assert Bids(d.rejected) == Bids(c.rejected) + [b];
    } else if found.None? {
      assert d == c.(latest := c.latest + [b]);
    } else if Newer(rules, b.bid, c.latest[found.value].bid) {
      ReplaceAccounts(c.latest, found.value, b);
      assert multiset(d.superseded) == multiset(c.superseded) + multiset{c.latest[found.value]};
    } else {
      assert d == c.(superseded := c.superseded + [b]);
    }
  }

  lemma {:induction false} CollectAccounts(rules: Rules, job: Job, bids: seq<SignedBid>)
    ensures Accounts(Collect(rules, job, bids), bids)
    decreases |bids|
  {
    if |bids| > 0 {
      var front, last := bids[..|bids| - 1], bids[|bids| - 1];
      CollectAccounts(rules, job, front);
      CollectUnfolds(rules, job, bids, front, last);
      NextAccounts(rules, job, bids, front, last, Collect(rules, job, bids));
    }
  }

  lemma {:induction false} CollectUnfolds(rules: Rules, job: Job, bids: seq<SignedBid>, front: seq<SignedBid>,
                                          last: SignedBid)
    requires |bids| > 0 && front == bids[..|bids| - 1] && last == bids[|bids| - 1]
    ensures bids == front + [last]
    ensures Collect(rules, job, bids) == AddBid(rules, job, Collect(rules, job, front), last)
  {
  }

  lemma {:induction false} NextAccounts(rules: Rules, job: Job, bids: seq<SignedBid>, front: seq<SignedBid>,
                                        last: SignedBid, c: Collected)
    requires Accounts(Collect(rules, job, front), front) && bids == front + [last]
    requires c == AddBid(rules, job, Collect(rules, job, front), last)
    ensures Accounts(c, bids)
  {
    AddAccounts(rules, job, Collect(rules, job, front), front, last);
  }

  lemma BidsOfRejections(rejected: seq<Rejection>, superseded: seq<SignedBid>)
    ensures Bids(rejected + Rejections(superseded)) == Bids(rejected) + superseded
  {
  }

  lemma {:induction false} OutcomeAccounts(rules: Rules, c: Collected, bids: seq<SignedBid>)
    requires Accounts(c, bids)
    ensures multiset(SortByKey(rules, c.latest)) + multiset(Bids(c.rejected + Rejections(c.superseded)))
            == multiset(bids)
    ensures |SortByKey(rules, c.latest)| + |c.rejected + Rejections(c.superseded)| == |bids|
  {
    SortKeepsBids(rules, c.latest);
    BidsOfRejections(c.rejected, c.superseded);
  }

  // Ranked and rejected together are exactly the bids received, so the assertion of
  // `evaluate` never fires.
  lemma EveryBidIsAccountedFor(rules: Rules, job: Job, bids: seq<SignedBid>)
    ensures multiset(Ranked(rules, job, bids)) + multiset(Bids(Rejected(rules, job, bids))) == multiset(bids)
    ensures |Ranked(rules, job, bids)| + |Rejected(rules, job, bids)| == |bids|
    ensures var outcome := Evaluate(rules, job, bids);
            && multiset(outcome.ranked) + multiset(Bids(outcome.rejected)) == multiset(bids)
            && |outcome.ranked| + |outcome.rejected| == outcome.received == |bids|
  {
    CollectAccounts(rules, job, bids);
    OutcomeAccounts(rules, Collect(rules, job, bids), bids);
  }

  method EvaluateAuction(rules: Rules, job: Job, bids: seq<SignedBid>) returns (outcome: Option<Outcome>)
    ensures outcome == Some(Evaluate(rules, job, bids))
  {
    var ranked, rejected := RankBids(rules, job, bids);
    EveryBidIsAccountedFor(rules, job, bids);
    if |ranked| + |rejected| != |bids| {
      return None;
    }
    outcome := Some(Outcome(AwardOf(rules, job, ranked), ranked, rejected, |bids|));
  }

  // ---------------------------------------------------------------- the newest revision

  // It meets the constraints of the job, and of those of its peer that do none is newer.
  ghost predicate IsNewest(rules: Rules, job: Job, bids: seq<SignedBid>, b: SignedBid) {
    && b in bids && Meets(rules, job, b)
    && forall c :: c in bids && Meets(rules, job, c) && c.bid.peer == b.bid.peer ==> NotOlder(rules, b.bid, c.bid)
  }

  ghost predicate HasPeer(latest: seq<SignedBid>, peer: PeerId) {
    exists i :: 0 <= i < |latest| && latest[i].bid.peer == peer
  }

  // The entries are newest revisions of different peers, and no eligible peer is missing.
  ghost predicate LatestOf(rules: Rules, job: Job, bids: seq<SignedBid>, latest: seq<SignedBid>) {
    && DistinctPeers(latest)
    && (forall i :: 0 <= i < |latest| ==> IsNewest(rules, job, bids, latest[i]))
    && (forall b :: b in bids && Meets(rules, job, b) ==> HasPeer(latest, b.bid.peer))
  }

  lemma AddKeepsLatest(rules: Rules, job: Job, bids: seq<SignedBid>, c: Collected, b: SignedBid)
    requires LatestOf(rules, job, bids, c.latest)
    ensures LatestOf(rules, job, bids + [b], AddBid(rules, job, c, b).latest)
  {
    var latest := AddBid(rules, job, c, b).latest;
    MeetsExactlyWhen(rules, job, b);
    if Meets(rules, job, b) {
      AddPeers(rules, job, bids, c, b);
      forall i | 0 <= i < |latest| ensures IsNewest(rules, job, bids + [b], latest[i]) {
        StillNewest(rules, job, bids, c, b, i);
      }
    }
  }

  lemma StillNewest(rules: Rules, job: Job, bids: seq<SignedBid>, c: Collected, b: SignedBid, i: nat)
    requires LatestOf(rules, job, bids, c.latest) && Meets(rules, job, b)
    requires Eligible(rules, job, b) && i < |AddBid(rules, job, c, b).latest|
    ensures IsNewest(rules, job, bids + [b], AddBid(rules, job, c, b).latest[i])
  {
    if i < |c.latest| {
      assert IsNewest(rules, job, bids, c.latest[i]);
    }
  }

  lemma AddPeers(rules: Rules, job: Job, bids: seq<SignedBid>, c: Collected, b: SignedBid)
    requires LatestOf(rules, job, bids, c.latest) && Eligible(rules, job, b)
    ensures var latest := AddBid(rules, job, c, b).latest;
            && DistinctPeers(latest)
            && forall d :: d in bids + [b] && Meets(rules, job, d) ==> HasPeer(latest, d.bid.peer)
  {
    var latest := AddBid(rules, job, c, b).latest;
    forall d | d in bids + [b] && Meets(rules, job, d) ensures HasPeer(latest, d.bid.peer) {
      if d in bids {
        PeerStays(rules, job, c, b, d.bid.peer);
      } else {
        PeerStays(rules, job, c, b, b.bid.peer);
      }
    }
  }

  // An eligible bid brings in its peer and drops none.
  lemma PeerStays(rules: Rules, job: Job, c: Collected, b: SignedBid, peer: PeerId)
    requires Eligible(rules, job, b) && (HasPeer(c.latest, peer) || peer == b.bid.peer)
    ensures HasPeer(AddBid(rules, job, c, b).latest, peer)
  {
    var latest := AddBid(rules, job, c, b).latest;
    if HasPeer(c.latest, peer) {
      var i :| 0 <= i < |c.latest| && c.latest[i].bid.peer == peer;
      assert latest[i].bid.peer == peer;
    } else {
      assert FindPeer(c.latest, peer).None? && latest[|c.latest|] == b;
    }
  }

  lemma {:induction false} CollectKeepsLatest(rules: Rules, job: Job, bids: seq<SignedBid>)
    ensures LatestOf(rules, job, bids, Collect(rules, job, bids).latest)
    decreases |bids|
  {
    if |bids| > 0 {
      var front := bids[..|bids| - 1];
      CollectKeepsLatest(rules, job, front);
      AddKeepsLatest(rules, job, front, Collect(rules, job, front), bids[|bids| - 1]);
      assert bids == front + [bids[|bids| - 1]];
    }
  }

  // The ranking: newest revisions of different peers, strictly sorted.
  lemma RankingIsSorted(rules: Rules, job: Job, bids: seq<SignedBid>)
    ensures Sorted(rules, Ranked(rules, job, bids))
    ensures forall b :: b in Ranked(rules, job, bids) ==> IsNewest(rules, job, bids, b)
  {
    var latest := Collect(rules, job, bids).latest;
    CollectKeepsLatest(rules, job, bids);
    SortSorts(rules, latest);
    forall b | b in Ranked(rules, job, bids) ensures IsNewest(rules, job, bids, b) {
      SortMembers(rules, latest, b);
      var i :| 0 <= i < |latest| && latest[i] == b;
    }
  }

  // ---------------------------------------------------------------- permutations

  // No two different bids in hand have one canonical hash.
  ghost predicate NoCollision(rules: Rules, bids: seq<SignedBid>) {
    forall b, c :: b in bids && c in bids && rules.digest(b.bid) == rules.digest(c.bid) ==> b.bid == c.bid
  }

  // The bids without their signatures.
  function Unsigned(bids: seq<SignedBid>): (unsigned: seq<SignedBid>)
    ensures |unsigned| == |bids|
  {
    seq(|bids|, i requires 0 <= i < |bids| => SignedBid(bids[i].bid, None))
  }

  lemma NewestIsUnique(rules: Rules, job: Job, bids: seq<SignedBid>, b: SignedBid, c: SignedBid)
    requires NoCollision(rules, bids)
    requires IsNewest(rules, job, bids, b) && IsNewest(rules, job, bids, c) && b.bid.peer == c.bid.peer
    ensures b.bid == c.bid
  {
  }

  lemma PermutedNewest(rules: Rules, job: Job, bids: seq<SignedBid>, bids': seq<SignedBid>, b: SignedBid)
    requires multiset(bids) == multiset(bids') && IsNewest(rules, job, bids, b)
    ensures IsNewest(rules, job, bids', b)
  {
    assert forall c :: c in bids <==> c in multiset(bids);
    assert forall c :: c in bids' <==> c in multiset(bids');
  }

  // What one ranking lists, the other lists too, up to the signature.
  lemma RankedInBoth(rules: Rules, job: Job, bids: seq<SignedBid>, bids': seq<SignedBid>, b: SignedBid)
    requires multiset(bids) == multiset(bids') && NoCollision(rules, bids)
    requires b in Ranked(rules, job, bids)
    ensures SignedBid(b.bid, None) in Unsigned(Ranked(rules, job, bids'))
  {
    RankingIsSorted(rules, job, bids);
    PermutedNewest(rules, job, bids, bids', b);
    var latest' := Collect(rules, job, bids').latest;
    CollectKeepsLatest(rules, job, bids');
    var i :| 0 <= i < |latest'| && latest'[i].bid.peer == b.bid.peer;
    PermutedNewest(rules, job, bids', bids, latest'[i]);
    NewestIsUnique(rules, job, bids, b, latest'[i]);
    SortMembers(rules, latest', latest'[i]);
    var ranked' := Ranked(rules, job, bids');
    var k :| 0 <= k < |ranked'| && ranked'[k] == latest'[i];
    assert Unsigned(ranked')[k] == SignedBid(b.bid, None);
  }

  // Strictly sorted lists of the same bids are the same list.
  lemma {:induction false} SortedIsUnique(rules: Rules, a: seq<SignedBid>, b: seq<SignedBid>)
    requires Sorted(rules, a) && Sorted(rules, b)
    requires forall x :: x in a <==> x in b
    ensures a == b
    decreases |a|
  {
    if |b| > 0 {
      assert b[0] in b && b[0] in a;
    }
    if |a| > 0 {
      assert a[0] in a && a[0] in b;
      FirstsAgree(rules, a, b);
      forall x ensures x in a[1..] <==> x in b[1..] {
        RestMembers(rules, a, x);
        RestMembers(rules, b, x);
      }
      SortedIsUnique(rules, a[1..], b[1..]);
      assert a == [a[0]] + a[1..] && b == [b[0]] + b[1..];
    }
  }

  lemma RestMembers(rules: Rules, a: seq<SignedBid>, x: SignedBid)
    requires Sorted(rules, a) && |a| > 0
    ensures x in a[1..] <==> x in a && x != a[0]
  {
    if x in a[1..] {
      var i :| 0 <= i < |a| - 1 && a[1..][i] == x;
      assert a[i + 1] == x;
      KeyLessTotal(SortKey(rules, a[0].bid), SortKey(rules, x.bid));
    }
    if x in a && x != a[0] {
      var i :| 0 <= i < |a| && a[i] == x;
      assert a[1..][i - 1] == x;
    }
  }

  lemma FirstsAgree(rules: Rules, a: seq<SignedBid>, b: seq<SignedBid>)
    requires Sorted(rules, a) && Sorted(rules, b) && |a| > 0 && |b| > 0
    requires a[0] in b && b[0] in a
    ensures a[0] == b[0]
  {
    var i :| 0 <= i < |b| && b[i] == a[0];
    var j :| 0 <= j < |a| && a[j] == b[0];
    KeyLessTotal(SortKey(rules, a[0].bid), SortKey(rules, b[0].bid));
  }

  // Any two arrival orders rank the same bids in the same order, up to signatures, and
  // make the same award.
  lemma ArrivalOrderIsIrrelevant(rules: Rules, job: Job, bids: seq<SignedBid>, bids': seq<SignedBid>)
    requires multiset(bids) == multiset(bids') && NoCollision(rules, bids)
    ensures Unsigned(Ranked(rules, job, bids)) == Unsigned(Ranked(rules, job, bids'))
    ensures Evaluate(rules, job, bids).award == Evaluate(rules, job, bids').award
  {
    var ranked, ranked' := Ranked(rules, job, bids), Ranked(rules, job, bids');
    var a, b := Unsigned(ranked), Unsigned(ranked');
    assert NoCollision(rules, bids') by {
      assert forall c :: c in bids <==> c in multiset(bids);
      assert forall c :: c in bids' <==> c in multiset(bids');
    }
    RankingIsSorted(rules, job, bids);
    RankingIsSorted(rules, job, bids');
    forall x ensures x in a <==> x in b {
      if x in a {
        var i :| 0 <= i < |a| && a[i] == x;
        RankedInBoth(rules, job, bids, bids', ranked[i]);
      }
      if x in b {
        var i :| 0 <= i < |b| && b[i] == x;
        RankedInBoth(rules, job, bids', bids, ranked'[i]);
      }
    }
    SortedIsUnique(rules, a, b);
    AwardIgnoresSignatures(rules, job, ranked, ranked');
  }

  lemma AwardIgnoresSignatures(rules: Rules, job: Job, ranked: seq<SignedBid>, ranked': seq<SignedBid>)
    requires Unsigned(ranked) == Unsigned(ranked')
    ensures AwardOf(rules, job, ranked) == AwardOf(rules, job, ranked')
  {
    assert |ranked| == |ranked'|;
    if |ranked| > 0 {
      assert Unsigned(ranked)[0] == Unsigned(ranked')[0];
    }
    if |ranked| > 1 {
      assert Unsigned(ranked)[1] == Unsigned(ranked')[1];
    }
  }

  // ---------------------------------------------------------------- rejections

  // What is reported of a bid that is not ranked, without its signature.
  type Report = (Bid, Reason)

  function ReportOf(rules: Rules, job: Job, b: SignedBid): Report {
    (b.bid, if Exclusion(rules, job, b).Some? then Exclusion(rules, job, b).value else Superseded)
  }

  function Reports(rules: Rules, job: Job, bids: seq<SignedBid>): (reports: seq<Report>)
    ensures |reports| == |bids|
  {
    seq(|bids|, i requires 0 <= i < |bids| => ReportOf(rules, job, bids[i]))
  }

  function RejectionReports(rejected: seq<Rejection>): (reports: seq<Report>)
    ensures |reports| == |rejected|
  {
    seq(|rejected|, i requires 0 <= i < |rejected| => (rejected[i].bid.bid, rejected[i].reason))
  }

  ghost predicate WellReported(rules: Rules, job: Job, c: Collected) {
    && (forall i :: 0 <= i < |c.rejected| ==> Exclusion(rules, job, c.rejected[i].bid) == Some(c.rejected[i].reason))
    && (forall i :: 0 <= i < |c.superseded| ==> Eligible(rules, job, c.superseded[i]))
    && (forall i :: 0 <= i < |c.latest| ==> Eligible(rules, job, c.latest[i]))
  }

  lemma {:induction false} CollectReports(rules: Rules, job: Job, bids: seq<SignedBid>)
    ensures WellReported(rules, job, Collect(rules, job, bids))
    decreases |bids|
  {
    if |bids| > 0 {
      CollectReports(rules, job, bids[..|bids| - 1]);
    }
  }

  // Every rejection carries the reason of its bid.
  lemma RejectedAreReported(rules: Rules, job: Job, bids: seq<SignedBid>)
    ensures RejectionReports(Rejected(rules, job, bids)) == Reports(rules, job, Bids(Rejected(rules, job, bids)))
  {
    CollectReports(rules, job, bids);
  }

  lemma ReportsConcat(rules: Rules, job: Job, a: seq<SignedBid>, b: seq<SignedBid>)
    ensures Reports(rules, job, a + b) == Reports(rules, job, a) + Reports(rules, job, b)
  {
  }

  lemma {:induction false} ReportsOfPermutation(rules: Rules, job: Job, a: seq<SignedBid>, b: seq<SignedBid>)
    requires multiset(a) == multiset(b)
    ensures multiset(Reports(rules, job, a)) == multiset(Reports(rules, job, b))
    decreases |a|
  {
    assert |a| == |multiset(a)| == |multiset(b)| == |b|;
    if |a| > 0 {
      var x, front := a[|a| - 1], a[..|a| - 1];
      assert a == front + [x];
      assert x in multiset(b);
      var i :| 0 <= i < |b| && b[i] == x;
      var rest := b[..i] + b[i + 1..];
      assert b == b[..i] + [x] + b[i + 1..];
      assert multiset(rest) == multiset(b) - multiset{x};
      ReportsOfPermutation(rules, job, front, rest);
      ReportsConcat(rules, job, front, [x]);
      ReportsConcat(rules, job, b[..i], [x]);
      ReportsConcat(rules, job, b[..i] + [x], b[i + 1..]);
      ReportsConcat(rules, job, b[..i], b[i + 1..]);
    }
  }

  lemma ReportsSplit(rules: Rules, job: Job, bids: seq<SignedBid>)
    ensures multiset(Reports(rules, job, bids)) ==
            multiset(Reports(rules, job, Ranked(rules, job, bids))) +
            multiset(RejectionReports(Rejected(rules, job, bids)))
  {
    var ranked, rejected := Ranked(rules, job, bids), Bids(Rejected(rules, job, bids));
    EveryBidIsAccountedFor(rules, job, bids);
    RejectedAreReported(rules, job, bids);
    ReportsConcat(rules, job, ranked, rejected);
    assert multiset(ranked + rejected) == multiset(bids);
    ReportsOfPermutation(rules, job, ranked + rejected, bids);
  }

  // The rejections, too, are the same ones with the same reasons.
  lemma RejectionsArePermuted(rules: Rules, job: Job, bids: seq<SignedBid>, bids': seq<SignedBid>)
    requires multiset(bids) == multiset(bids') && NoCollision(rules, bids)
    ensures multiset(RejectionReports(Rejected(rules, job, bids))) ==
            multiset(RejectionReports(Rejected(rules, job, bids')))
  {
    RankedAreReportedAlike(rules, job, bids, bids');
    ReportsSplit(rules, job, bids);
    ReportsSplit(rules, job, bids');
    ReportsOfPermutation(rules, job, bids, bids');
    CommonCancels(multiset(Reports(rules, job, Ranked(rules, job, bids))),
                  multiset(RejectionReports(Rejected(rules, job, bids))),
                  multiset(RejectionReports(Rejected(rules, job, bids'))));
  }

  lemma RankedAreReportedAlike(rules: Rules, job: Job, bids: seq<SignedBid>, bids': seq<SignedBid>)
    requires multiset(bids) == multiset(bids') && NoCollision(rules, bids)
    ensures Reports(rules, job, Ranked(rules, job, bids)) == Reports(rules, job, Ranked(rules, job, bids'))
  {
    var ranked, ranked' := Ranked(rules, job, bids), Ranked(rules, job, bids');
    ArrivalOrderIsIrrelevant(rules, job, bids, bids');
    assert |ranked| == |Unsigned(ranked)| == |Unsigned(ranked')| == |ranked'|;
    forall i | 0 <= i < |ranked| ensures ReportOf(rules, job, ranked[i]) == ReportOf(rules, job, ranked'[i]) {
      assert Unsigned(ranked)[i] == Unsigned(ranked')[i];
      RankedReport(rules, job, bids, i);
      RankedReport(rules, job, bids', i);
    }
  }

  lemma RankedReport(rules: Rules, job: Job, bids: seq<SignedBid>, i: nat)
    requires i < |Ranked(rules, job, bids)|
    ensures var b := Ranked(rules, job, bids)[i]; ReportOf(rules, job, b) == (b.bid, Superseded)
  {
    var b := Ranked(rules, job, bids)[i];
    RankingIsSorted(rules, job, bids);
    assert IsNewest(rules, job, bids, b);
    MeetsExactlyWhen(rules, job, b);
  }

  lemma CommonCancels(common: multiset<Report>, rest: multiset<Report>, rest': multiset<Report>)
    requires common + rest == common + rest'
    ensures rest == rest'
  {
    assert rest == (common + rest) - common && rest' == (common + rest') - common;
  }
}
