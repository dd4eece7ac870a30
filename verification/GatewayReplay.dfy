// The books under audits of one job that do not overlap, and under ones that do:
// gateway/grid.py, `settle`, `_apply`, `reverify`, `_mark_reversed`, `ledger_totals`.

module GatewayReplay {
  import opened ByteStrings
  import opened GatewayDrift
  import opened GatewayModel
  import opened Sequences

  // ---------------------------------------------------------------- orderly books

  ghost predicate OneLiveRow(rows: seq<Row>) {
    forall i, j :: 0 <= i < j < |rows| && Live(rows[i]) && Live(rows[j]) ==>
      rows[i].settlement.job != rows[j].settlement.job
  }

  ghost predicate HasRow(rows: seq<Row>, job: JobId) {
    exists i :: 0 <= i < |rows| && rows[i].settlement.job == job
  }

  ghost predicate HasLiveRow(rows: seq<Row>, s: Settlement) {
    exists i :: 0 <= i < |rows| && Live(rows[i]) && rows[i].settlement == s
  }

  ghost predicate NoLiveRow(rows: seq<Row>, job: JobId) {
    forall i :: 0 <= i < |rows| && Live(rows[i]) ==> rows[i].settlement.job != job
  }

  predicate UnderAudit(g: Grid, job: JobId) {
    exists k :: 0 <= k < |g.audits| && g.audits[k].job == job
  }

  // A job has at most one live row: that of its record, or none while it is audited.
  ghost predicate Tidy(g: Grid) {
    && OneLiveRow(g.rows)
    && (forall i :: 0 <= i < |g.rows| ==> Sound(g.rows[i].settlement))
    && (forall job :: job in g.records ==>
          && g.records[job].job == job && HasRow(g.rows, job) && Sound(g.records[job])
          && (UnderAudit(g, job) || HasLiveRow(g.rows, g.records[job])))
    && (forall k :: 0 <= k < |g.audits| ==> HasRow(g.rows, g.audits[k].job) && NoLiveRow(g.rows, g.audits[k].job))
    && (forall k, l :: 0 <= k < l < |g.audits| ==> g.audits[k].job != g.audits[l].job)
  }

  // A completed job is new, and an audit begins only when none of the job is waiting.
  ghost predicate Orderly(g: Grid, e: Event) {
    match e
    case DoComplete(job, _, _, _) => !HasRow(g.rows, job)
    case DoBeginAudit(job) => !UnderAudit(g, job)
    case _ => true
  }

  ghost predicate OrderlyRun(share: real, events: seq<Event>) {
    |events| == 0 ||
    (OrderlyRun(share, events[..|events| - 1]) &&
     Orderly(Run(share, events[..|events| - 1]), events[|events| - 1]))
  }

  // ---------------------------------------------------------------- a ruling

  // A ruling moves at most the escrowed amount and at most the stake. Unless it is put
  // off, the escrow goes to exactly one of provider and requester.
  lemma RulingConserves(share: real, g: Grid, job: JobId, provider: PeerId, amount: Amount, ruling: Option<Verdict>)
    requires At(g.stakes, provider) >= 0.0
    ensures var (t, s) := Settle(share, g, job, provider, amount, ruling);
            && s.reward + s.treasury == s.slash <= amount
            && At(t.stakes, provider) == At(g.stakes, provider) - s.slash == s.remaining >= 0.0
            && (s.state.AwaitingVerification? ==> t == g && s.payout == s.refund == 0.0)
            && (!s.state.AwaitingVerification? ==> s.payout + s.refund == amount)
            && (s.payout > 0.0 ==> s.slash == 0.0)
            && (s.covered <==> s.slashed ==> s.slash == amount)
  {
    RulingIsSound(share, g, job, provider, amount, ruling);
    MoveBalance(g, Ruled(share, g, job, provider, amount, ruling), 1.0, OfStake(provider));
  }

  // ---------------------------------------------------------------- every event

  lemma NewRowIsLive(rows: seq<Row>, r: Row)
    requires OneLiveRow(rows) && NoLiveRow(rows, r.settlement.job)
    ensures OneLiveRow(rows + [r])
  {
  }

  lemma RowsStay(rows: seq<Row>, r: Row, job: JobId)
    ensures HasRow(rows, job) ==> HasRow(rows + [r], job)
    ensures HasRow(rows + [r], r.settlement.job)
  {
    if HasRow(rows, job) {
      var i :| 0 <= i < |rows| && rows[i].settlement.job == job;
      assert (rows + [r])[i].settlement.job == job;
    }
    assert (rows + [r])[|rows|] == r;
  }

  lemma LiveRowStays(rows: seq<Row>, r: Row, s: Settlement)
    ensures HasLiveRow(rows, s) ==> HasLiveRow(rows + [r], s)
    ensures Live(r) ==> HasLiveRow(rows + [r], r.settlement)
  {
    if HasLiveRow(rows, s) {
      var i :| 0 <= i < |rows| && Live(rows[i]) && rows[i].settlement == s;
      assert (rows + [r])[i] == rows[i];
    }
    assert (rows + [r])[|rows|] == r;
  }

  lemma AppendIsTidy(g: Grid, t: Grid, r: Row)
    requires Tidy(g) && Sound(r.settlement) && Live(r) && NoLiveRow(g.rows, r.settlement.job)
    requires !UnderAudit(t, r.settlement.job) && t.rows == g.rows + [r]
    requires forall job :: job in t.records && job != r.settlement.job ==>
               job in g.records && t.records[job] == g.records[job]
    requires r.settlement.job in t.records ==> t.records[r.settlement.job] == r.settlement
    requires forall job :: job != r.settlement.job ==> (UnderAudit(t, job) <==> UnderAudit(g, job))
    requires forall k :: 0 <= k < |t.audits| ==> t.audits[k] in g.audits
    requires forall k, l :: 0 <= k < l < |t.audits| ==> t.audits[k].job != t.audits[l].job
    ensures Tidy(t)
  {
    NewRowIsLive(g.rows, r);
    forall job | job in t.records
      ensures t.records[job].job == job && HasRow(t.rows, job) && Sound(t.records[job])
              && (UnderAudit(t, job) || HasLiveRow(t.rows, t.records[job]))
    {
      RowsStay(g.rows, r, job);
      LiveRowStays(g.rows, r, t.records[job]);
    }
    forall k | 0 <= k < |t.audits| ensures HasRow(t.rows, t.audits[k].job) && NoLiveRow(t.rows, t.audits[k].job) {
      AuditStays(g, t, r, k);
    }
  }

  lemma AuditStays(g: Grid, t: Grid, r: Row, k: nat)
    requires Tidy(g) && k < |t.audits| && t.audits[k] in g.audits && t.rows == g.rows + [r]
    requires t.audits[k].job != r.settlement.job
    ensures HasRow(t.rows, t.audits[k].job) && NoLiveRow(t.rows, t.audits[k].job)
  {
    var l :| 0 <= l < |g.audits| && g.audits[l] == t.audits[k];
    RowsStay(g.rows, r, g.audits[l].job);
  }

  lemma CompleteIsTidy(share: real, g: Grid, job: JobId, provider: PeerId, amount: Amount, ruling: Option<Verdict>)
    requires Tidy(g) && At(g.stakes, provider) >= 0.0 && !HasRow(g.rows, job)
    ensures Tidy(Complete(share, g, job, provider, amount, ruling))
  {
    var (m, s') := Settle(share, g, job, provider, amount, ruling);
    SettleMoves(share, g, job, provider, amount, ruling);
    AppendIsTidy(g, Complete(share, g, job, provider, amount, ruling), Row(s', false, false));
  }

  lemma NotAuditedTwice(g: Grid, k: nat, job: JobId)
    requires k < |g.audits| && forall i, l :: 0 <= i < l < |g.audits| ==> g.audits[i].job != g.audits[l].job
    ensures var rest := Skip(g.audits, k);
            (exists i :: 0 <= i < |rest| && rest[i].job == job) <==> UnderAudit(g, job) && job != g.audits[k].job
  {
    var rest := Skip(g.audits, k);
    if UnderAudit(g, job) && job != g.audits[k].job {
      var i :| 0 <= i < |g.audits| && g.audits[i].job == job;
      assert rest[if i < k then i else i - 1].job == job;
    }
    if i :| 0 <= i < |rest| && rest[i].job == job {
      assert g.audits[if i < k then i else i + 1].job == job;
    }
  }

  lemma FinishIsTidy(share: real, g: Grid, k: nat, ruling: Verdict)
    requires Tidy(g) && k < |g.audits| && At(g.stakes, g.audits[k].provider) >= 0.0
    ensures Tidy(FinishAudit(share, g, k, ruling))
  {
    var b := g.audits[k];
    var (m, s') := Settle(share, g, b.job, b.provider, b.amount, Some(ruling));
    SettleMoves(share, g, b.job, b.provider, b.amount, Some(ruling));
    var t := FinishAudit(share, g, k, ruling);
    forall job ensures UnderAudit(t, job) <==> UnderAudit(g, job) && job != b.job {
      NotAuditedTwice(g, k, job);
    }
    AppendIsTidy(g, t, Row(s', true, false));
  }

  lemma ReversedKeepsRows(rows: seq<Row>, job: JobId, other: JobId)
    requires HasRow(rows, other)
    ensures HasRow(Reversed(rows, job), other)
  {
    var i :| 0 <= i < |rows| && rows[i].settlement.job == other;
    assert Reversed(rows, job)[i].settlement.job == other;
  }

  lemma ReversedKeepsOthers(rows: seq<Row>, job: JobId, s: Settlement)
    requires HasLiveRow(rows, s) && s.job != job
    ensures HasLiveRow(Reversed(rows, job), s)
  {
    var i :| 0 <= i < |rows| && Live(rows[i]) && rows[i].settlement == s;
    assert Reversed(rows, job)[i] == rows[i];
  }

  lemma BeginKeepsRecords(g: Grid, t: Grid, job: JobId, other: JobId)
    requires Tidy(g) && job in g.records && other in g.records
    requires t.rows == Reversed(g.rows, job) && t.records == g.records && t.audits == g.audits + [g.records[job]]
    ensures HasRow(t.rows, other) && (UnderAudit(t, other) || HasLiveRow(t.rows, t.records[other]))
  {
    ReversedKeepsRows(g.rows, job, other);
    AuditsGrow(g.audits, g.records[job], other);
    if !UnderAudit(t, other) {
      ReversedKeepsOthers(g.rows, job, g.records[other]);
    }
  }

  lemma BeginKeepsAudits(g: Grid, t: Grid, job: JobId, k: nat)
    requires Tidy(g) && job in g.records && k < |g.audits| + 1
    requires t.rows == Reversed(g.rows, job) && t.audits == g.audits + [g.records[job]]
    ensures HasRow(t.rows, t.audits[k].job) && NoLiveRow(t.rows, t.audits[k].job)
  {
    ReversedKeepsRows(g.rows, job, t.audits[k].job);
    if k < |g.audits| {
      assert t.audits[k] == g.audits[k];
    }
  }

  lemma BeginIsTidy(g: Grid, t: Grid, job: JobId)
    requires Tidy(g) && job in g.records && !UnderAudit(g, job)
    requires t.rows == Reversed(g.rows, job) && t.records == g.records && t.audits == g.audits + [g.records[job]]
    ensures Tidy(t)
  {
    forall other | other in t.records
      ensures HasRow(t.rows, other) && (UnderAudit(t, other) || HasLiveRow(t.rows, t.records[other]))
    {
      BeginKeepsRecords(g, t, job, other);
    }
    forall k | 0 <= k < |t.audits| ensures HasRow(t.rows, t.audits[k].job) && NoLiveRow(t.rows, t.audits[k].job) {
      BeginKeepsAudits(g, t, job, k);
    }
    AuditsStayDistinct(g.audits, g.records[job]);
  }

  lemma AuditsStayDistinct(audits: seq<Settlement>, s: Settlement)
    requires forall k, l :: 0 <= k < l < |audits| ==> audits[k].job != audits[l].job
    requires forall k :: 0 <= k < |audits| ==> audits[k].job != s.job
    ensures forall k, l :: 0 <= k < l < |audits + [s]| ==> (audits + [s])[k].job != (audits + [s])[l].job
  {
  }

  lemma AuditsGrow(audits: seq<Settlement>, s: Settlement, job: JobId)
    ensures (exists k :: 0 <= k < |audits + [s]| && (audits + [s])[k].job == job) <==>
            (exists k :: 0 <= k < |audits| && audits[k].job == job) || job == s.job
  {
    if k :| 0 <= k < |audits| && audits[k].job == job {
      assert (audits + [s])[k].job == job;
    }
    assert (audits + [s])[|audits|] == s;
  }

  lemma EventIsTidy(share: real, g: Grid, e: Event)
    requires Solvent(g) && Tidy(g) && Orderly(g, e)
    ensures Tidy(Apply(share, g, e))
  {
    match e {
      case DoRefresh(profiles) =>
      case DoComplete(job, provider, amount, ruling) => CompleteIsTidy(share, g, job, provider, amount, ruling);
      case DoForget(job) =>
      case DoBeginAudit(job) =>
        if Accepted(g, job) {
          MoveKeeps(g, g.records[job], -1.0);
          BeginIsTidy(g, BeginAudit(g, job).0, job);
        }
      case DoFinishAudit(k, verdict) =>
        if k < |g.audits| {
          FinishIsTidy(share, g, k, verdict);
        }
    }
  }

  // The one live row of a job makes up its sum; without one the sum is nothing.
  lemma {:induction false} NoLiveSum(rows: seq<Row>, job: JobId, value: Settlement -> real)
    requires NoLiveRow(rows, job)
    ensures JobSum(rows, job, value) == 0.0
    decreases |rows|
  {
    if |rows| > 0 {
      NoLiveSum(rows[..|rows| - 1], job, value);
    }
  }

  lemma {:induction false} OneLiveSum(rows: seq<Row>, s: Settlement, value: Settlement -> real)
    requires OneLiveRow(rows) && HasLiveRow(rows, s)
    ensures JobSum(rows, s.job, value) == value(s)
    decreases |rows|
  {
    var front, last := rows[..|rows| - 1], rows[|rows| - 1];
    if Live(last) && last.settlement == s {
      forall i | 0 <= i < |front| && Live(front[i]) ensures front[i].settlement.job != s.job {
        assert front[i] == rows[i];
      }
      NoLiveSum(front, s.job, value);
    } else {
      var i :| 0 <= i < |rows| && Live(rows[i]) && rows[i].settlement == s;
      assert front[i] == rows[i];
      OneLiveSum(front, s, value);
    }
  }

  // On tidy books an audit that does not overlap meets the guard.
  lemma OrderlyMeetsGuard(g: Grid, job: JobId)
    requires Tidy(g) && job in g.records && !UnderAudit(g, job)
    ensures RowsMatchRecord(g, job)
  {
    forall b: Balance ensures Gap(g, job, b) == 0.0 {
      OneLiveSum(g.rows, g.records[job], Says(b));
    }
    MatchMeansNoGap(g, job);
  }

  lemma EventKeeps(share: real, g: Grid, e: Event)
    requires Solvent(g) && WellFormed(g) && Tidy(g) && Replayed(g) && Orderly(g, e)
    ensures Tidy(Apply(share, g, e)) && Replayed(Apply(share, g, e))
  {
    EventIsTidy(share, g, e);
    if e.DoBeginAudit? && Accepted(g, e.job) {
      OrderlyMeetsGuard(g, e.job);
      BeginReplaysExactlyWhen(g, e.job);
    } else {
      OthersKeepReplay(share, g, e);
    }
  }

  // After every run in which audits of one job do not overlap: at most one live row for
  // each job, no stake below zero, and every balance the replay of the live rows.
  lemma {:induction false} RunsReplay(share: real, events: seq<Event>)
    requires OrderlyRun(share, events)
    ensures Tidy(Run(share, events)) && Replayed(Run(share, events)) && Solvent(Run(share, events))
    decreases |events|
  {
    if |events| > 0 {
      var before := events[..|events| - 1];
      RunsReplay(share, before);
      RunIsWellFormed(share, before);
      EventKeeps(share, Run(share, before), events[|events| - 1]);
    } else {
      EmptyIsReplayed();
    }
  }

  // ---------------------------------------------------------------- totals

  lemma {:induction false} SlashesSplit(rows: seq<Row>)
    requires forall i :: 0 <= i < |rows| ==> Sound(rows[i].settlement)
    ensures LiveSum(rows, Slashes()) == LiveSum(rows, Rewards()) + LiveSum(rows, TreasuryParts())
    decreases |rows|
  {
    if |rows| > 0 {
      SlashesSplit(rows[..|rows| - 1]);
    }
  }

  lemma SlashesHeld(g: Grid)
    requires Tidy(g) && Replayed(g)
    ensures LiveSum(g.rows, Slashes()) == g.validatorEarnings + g.treasury
  {
    SlashesSplit(g.rows);
    assert Drift(g, OfValidators) == 0.0 && Drift(g, OfTreasury) == 0.0;
  }

  // What the totals call slashed is what validators and treasury hold together.
  lemma {:induction false} SlashedIsHeld(share: real, events: seq<Event>)
    requires OrderlyRun(share, events)
    ensures var g := Run(share, events); LiveSum(g.rows, Slashes()) == g.validatorEarnings + g.treasury
  {
    RunsReplay(share, events);
    SlashesHeld(Run(share, events));
  }

  // ---------------------------------------------------------------- overlapping audits

  // From tidy books, a second audit that begins while one of the job is waiting keeps the
  // replay exactly when the settlement it reverses again moved no value. That is one step:
  // what the two audits leave behind can still break the books later.
  lemma OverlapReplaysExactlyWhen(g: Grid, job: JobId)
    requires WellFormed(g) && Tidy(g) && Replayed(g) && UnderAudit(g, job) && Accepted(g, job)
    ensures Replayed(BeginAudit(g, job).0) <==> (g.records[job].slash == 0.0 && g.records[job].payout == 0.0)
  {
    UnderAuditGap(g, job);
    SaysNothing(g.records[job]);
    MatchMeansNoGap(g, job);
    BeginReplaysExactlyWhen(g, job);
  }

  lemma UnderAuditGap(g: Grid, job: JobId)
    requires Tidy(g) && job in g.records && UnderAudit(g, job)
    ensures forall b: Balance :: Gap(g, job, b) == -Says(b)(g.records[job])
  {
    var k :| 0 <= k < |g.audits| && g.audits[k].job == job;
    forall b: Balance ensures Gap(g, job, b) == -Says(b)(g.records[job]) {
      NoLiveSum(g.rows, job, Says(b));
    }
  }

  lemma SaysNothing(s: Settlement)
    requires Sound(s)
    ensures (forall b: Balance :: Says(b)(s) == 0.0) <==> (s.slash == 0.0 && s.payout == 0.0)
  {
    assert Says(OfStake(s.provider))(s) == s.slash && Says(OfEarnings(s.provider))(s) == s.payout;
  }

  // And when two audits of one job both end, the job has two live rows.
  lemma OverlapDoublesTheRow(share: real, g: Grid, k: nat, l: nat, first: Verdict, second: Verdict)
    returns (t: Grid, u: Grid)
    requires Solvent(g) && k < |g.audits| && l < |g.audits| - 1
    requires Skip(g.audits, k)[l].job == g.audits[k].job
    ensures t == Apply(share, g, DoFinishAudit(k, first)) && Solvent(t)
    ensures u == Apply(share, t, DoFinishAudit(l, second)) && !OneLiveRow(u.rows)
  {
    StakesStay(share, g, DoFinishAudit(k, first));
    t := Apply(share, g, DoFinishAudit(k, first));
    u := Apply(share, t, DoFinishAudit(l, second));
    FinishAppends(share, g, k, first);
    FinishAppends(share, t, l, second);
    var n := |g.rows|;
    assert u.rows[n] == t.rows[n];
    assert Live(u.rows[n]) && Live(u.rows[n + 1]);
  }

  lemma FinishAppends(share: real, g: Grid, k: nat, ruling: Verdict)
    requires k < |g.audits| && At(g.stakes, g.audits[k].provider) >= 0.0
    ensures var t := FinishAudit(share, g, k, ruling);
            && t.audits == Skip(g.audits, k) && |t.rows| == |g.rows| + 1 && t.rows[..|g.rows|] == g.rows
            && Live(t.rows[|g.rows|]) && t.rows[|g.rows|].settlement.job == g.audits[k].job
  {
    var b := g.audits[k];
    SettleMoves(share, g, b.job, b.provider, b.amount, Some(ruling));
  }
}
