// What each event of the gateway leaves in its books, row by row and balance by balance:
// gateway/grid.py, `refresh_nodes`, `_store`, `reverify`, `ledger`.

module GatewayBooks {
  import opened ByteStrings
  import opened GatewayModel
  import opened GatewayRulings
  import opened Rounding
  import opened Sequences

  // ---------------------------------------------------------------- node registry

  predicate FirstProfile(profiles: seq<Profile>, peer: PeerId, i: int) {
    && 0 <= i < |profiles| && profiles[i].peer == peer
    && forall j :: 0 <= j < i ==> profiles[j].peer != peer
  }

  predicate Listed(profiles: seq<Profile>, peer: PeerId) { exists i :: 0 <= i < |profiles| && profiles[i].peer == peer }

  // A peer in neither map gets the stake of its first profile, and every other is left alone.
  lemma {:induction false} SeededKeeps(balances: map<PeerId, real>, stakes: map<PeerId, real>,
                                       profiles: seq<Profile>, peer: PeerId)
    requires peer in balances || peer in stakes || !Listed(profiles, peer)
    ensures var seeded := Seeded(balances, stakes, profiles);
            (peer in seeded <==> peer in balances) && (peer in balances ==> seeded[peer] == balances[peer])
    decreases |profiles|
  {
    if |profiles| > 0 {
      var before := profiles[..|profiles| - 1];
      if Listed(before, peer) {
        var i :| 0 <= i < |before| && before[i].peer == peer;
        assert profiles[i].peer == peer;
      }
      SeededKeeps(balances, stakes, before, peer);
    }
  }

  lemma {:induction false} SeededFirst(balances: map<PeerId, real>, stakes: map<PeerId, real>,
                                       profiles: seq<Profile>, peer: PeerId, i: int)
    requires peer !in balances && peer !in stakes && FirstProfile(profiles, peer, i)
    ensures peer in Seeded(balances, stakes, profiles)
    ensures Seeded(balances, stakes, profiles)[peer] == profiles[i].stake
    decreases |profiles|
  {
    var before := profiles[..|profiles| - 1];
    if i < |before| {
      SeededFirst(balances, stakes, before, peer, i);
    } else {
      SeededKeeps(balances, stakes, before, peer);
    }
  }

  lemma {:induction false} FirstIsThere(profiles: seq<Profile>, peer: PeerId)
    requires Listed(profiles, peer)
    ensures exists i :: FirstProfile(profiles, peer, i)
    decreases |profiles|
  {
    var i :| 0 <= i < |profiles| && profiles[i].peer == peer;
    if !FirstProfile(profiles, peer, i) {
      var j :| 0 <= j < i && profiles[j].peer == peer;
      assert profiles[..i][j].peer == peer;
      FirstIsThere(profiles[..i], peer);
      var k :| FirstProfile(profiles[..i], peer, k);
      assert FirstProfile(profiles, peer, k);
    }
  }

  // The registry is what the last refresh listed. A peer that already had a stake keeps it,
  // and a new one gets that of its first profile.
  lemma RefreshRegisters(share: real, g: Grid, profiles: seq<Profile>, peer: PeerId)
    requires Solvent(g)
    ensures var t := Apply(share, g, DoRefresh(profiles));
            && (peer in t.nodes <==> Listed(profiles, peer))
            && (peer in t.stakes <==> peer in g.stakes || Listed(profiles, peer))
            && (peer in g.stakes ==> t.stakes[peer] == g.stakes[peer])
            && (forall i :: FirstProfile(profiles, peer, i) && peer !in g.stakes ==>
                              t.stakes[peer] == profiles[i].stake)
            && t == g.(nodes := t.nodes, stakes := t.stakes, opening := t.opening)
  {
    if peer in g.stakes || !Listed(profiles, peer) {
      SeededKeeps(g.stakes, g.stakes, profiles, peer);
    } else {
      FirstIsThere(profiles, peer);
    }
    forall i | FirstProfile(profiles, peer, i) && peer !in g.stakes
      ensures peer in Seeded(g.stakes, g.stakes, profiles)
      ensures Seeded(g.stakes, g.stakes, profiles)[peer] == profiles[i].stake
    {
      SeededFirst(g.stakes, g.stakes, profiles, peer, i);
    }
  }

  // ---------------------------------------------------------------- jobs and audits

  // A completed job has its record, and one more row that is neither an audit's nor reversed.
  lemma CompletionFiles(share: real, g: Grid, job: JobId, provider: PeerId, amount: Amount, ruling: Option<Verdict>)
    requires At(g.stakes, provider) >= 0.0
    ensures var t := Complete(share, g, job, provider, amount, ruling);
            && RulingMoves(share, g, t.(records := g.records, rows := g.rows), provider, amount, ruling)
            && |t.rows| == |g.rows| + 1 && t.rows[..|g.rows|] == g.rows
            && t.nodes == g.nodes && t.audits == g.audits && t.opening == g.opening
            && var row := t.rows[|g.rows|];
            && !row.audit && !row.reversed && RulingSays(share, g, row.settlement, job, provider, amount, ruling)
            && t.records == g.records[job := row.settlement]
  {
    SettleFollowsRuling(share, g, job, provider, amount, ruling);
  }

  // Why an audit does not begin.
  function AuditRefusal(g: Grid, job: JobId): Option<GridError> {
    if job !in g.records then Some(UnknownJob)
    else if g.records[job].provider !in g.nodes then Some(UnknownNode)
    else None
  }

  // An audit that begins takes back what the record says was moved, reverses every row of
  // the job and no other, and waits with that record; a refused one changes nothing.
  lemma AuditBegins(g: Grid, job: JobId, i: nat)
    requires i < |g.rows|
    ensures var (t, error) := BeginAudit(g, job);
            && error == AuditRefusal(g, job)
            && (error.Some? ==> t == g)
            && (error.None? ==>
                  var s := g.records[job];
                  && OnlyMoves(g.stakes, t.stakes, s.provider, if s.slashed then s.slash else 0.0)
                  && OnlyMoves(g.earnings, t.earnings, s.provider, 0.0 - s.payout)
                  && t.validatorEarnings == g.validatorEarnings - (if s.slashed then s.reward else 0.0)
                  && t.treasury == g.treasury - (if s.slashed then s.treasury else 0.0)
                  && t.audits == g.audits + [s] && t.records == g.records && t.nodes == g.nodes
                  && |t.rows| == |g.rows|
                  && t.rows[i] == g.rows[i].(reversed := g.rows[i].reversed || g.rows[i].settlement.job == job))
  {
    if AuditRefusal(g, job).None? {
      ReversalGivesBack(g, g.records[job]);
    }
  }

  // An audit that ends is settled anew and leaves the wait; a job that was forgotten in the
  // meantime gets its row and no record.
  lemma AuditEnds(share: real, g: Grid, k: nat, verdict: Verdict)
    requires k < |g.audits| && At(g.stakes, g.audits[k].provider) >= 0.0
    ensures var t, s := FinishAudit(share, g, k, verdict), g.audits[k];
            && RulingMoves(share, g, t.(records := g.records, rows := g.rows, audits := g.audits), s.provider, s.amount,
                           Some(verdict))
            && |t.rows| == |g.rows| + 1 && t.rows[..|g.rows|] == g.rows
            && t.audits == g.audits[..k] + g.audits[k + 1..] && t.nodes == g.nodes && t.opening == g.opening
            && var row := t.rows[|g.rows|];
            && row.audit && !row.reversed
            && RulingSays(share, g, row.settlement, s.job, s.provider, s.amount, Some(verdict))
            && t.records == (if s.job in g.records then g.records[s.job := row.settlement] else g.records)
  {
    var s := g.audits[k];
    SettleFollowsRuling(share, g, s.job, s.provider, s.amount, Some(verdict));
  }

  // A forgotten job has no record any more, and its rows stay.
  lemma ForgetDrops(share: real, g: Grid, job: JobId, other: JobId)
    requires Solvent(g)
    ensures var t := Apply(share, g, DoForget(job));
            && (other in t.records <==> other in g.records && other != job)
            && (other in t.records ==> t.records[other] == g.records[other])
            && t == g.(records := t.records)
  {
  }

  // ---------------------------------------------------------------- totals

  // One more row counts in every total unless it is reversed.
  lemma {:induction false} TotalsOfOneMore(rows: seq<Row>, row: Row)
    ensures var more, live := rows + [row], !row.reversed;
            && LiveCount(more) == LiveCount(rows) + (if live then 1 else 0)
            && LiveSum(more, Payouts()) == LiveSum(rows, Payouts()) + (if live then row.settlement.payout else 0.0)
            && LiveSum(more, Slashes()) == LiveSum(rows, Slashes()) + (if live then row.settlement.slash else 0.0)
            && LiveSum(more, Amounts()) == LiveSum(rows, Amounts()) + (if live then row.settlement.amount else 0.0)
    ensures LiveCount([]) == 0 && forall f :: LiveSum([], f) == 0.0
  {
    assert (rows + [row])[..|rows|] == rows;
  }
}
