// Which ruling slashes and which pays: gateway/grid.py, `settle`, `_apply`, `reverify`.

module GatewayRulings {
  import opened ByteStrings
  import opened GatewayModel
  import opened Sequences

  // ---------------------------------------------------------------- one settlement

  // The provider's balance moves by `delta`, and nobody else's.
  ghost predicate OnlyMoves(before: map<PeerId, real>, after: map<PeerId, real>, peer: PeerId, delta: real) {
    && (if peer in after then after[peer] else 0.0) == (if peer in before then before[peer] else 0.0) + delta
    && forall p :: p != peer ==> (p in after <==> p in before) && (p in before ==> after[p] == before[p])
  }

  // What a FAIL takes: the amount, or all the stake there is.
  function Taken(stakes: map<PeerId, real>, peer: PeerId, amount: real): real {
    var stake := if peer in stakes then stakes[peer] else 0.0;
    if stake - amount >= 0.0 then amount else stake
  }

  // What a ruling does to the books, from the balances alone.
  ghost predicate RulingMoves(share: real, g: Grid, t: Grid, provider: PeerId, amount: real, ruling: Option<Verdict>) {
    match ruling
    case Some(Error) => t == g
    case Some(Fail) =>
      var taken := Taken(g.stakes, provider, amount);
      && OnlyMoves(g.stakes, t.stakes, provider, -taken) && t.earnings == g.earnings
      && t.validatorEarnings == g.validatorEarnings + taken * share
      && t.treasury == g.treasury + (taken - taken * share)
    case _ =>
      && OnlyMoves(g.earnings, t.earnings, provider, amount) && t.stakes == g.stakes
      && t.validatorEarnings == g.validatorEarnings && t.treasury == g.treasury
  }

  // What the record of a ruling says.
  predicate RulingSays(share: real, g: Grid, s: Settlement, job: JobId, provider: PeerId, amount: real,
                       ruling: Option<Verdict>) {
    && s.job == job && s.provider == provider && s.amount == amount
    && match ruling
       case Some(Error) =>
         && s.state == AwaitingVerification && !s.slashed
         && s.payout == s.refund == s.slash == s.reward == s.treasury == 0.0
       case Some(Fail) =>
         var taken := Taken(g.stakes, provider, amount);
         && s.state == EscrowState.Slashed && s.slashed && s.payout == 0.0 && s.refund == amount && s.slash == taken
         && s.reward == taken * share && s.treasury == taken - taken * share && (s.covered <==> taken == amount)
       case _ =>
         s.state == Settled && !s.slashed && s.payout == amount && s.refund == s.slash == s.reward == s.treasury == 0.0
  }

  // A FAIL slashes the provider and pays it nothing, an ERROR moves nothing, and a pass or no
  // ruling at all pays the provider and leaves every stake; the record says the same.
  lemma SettleFollowsRuling(share: real, g: Grid, job: JobId, provider: PeerId, amount: Amount,
                            ruling: Option<Verdict>)
    requires At(g.stakes, provider) >= 0.0
    ensures var (t, s) := Settle(share, g, job, provider, amount, ruling);
            && RulingMoves(share, g, t, provider, amount, ruling)
            && RulingSays(share, g, s, job, provider, amount, ruling)
            && s.remaining == (if provider in t.stakes then t.stakes[provider] else 0.0)
            && t == g.(stakes := t.stakes, earnings := t.earnings, treasury := t.treasury,
                       validatorEarnings := t.validatorEarnings)
  {
    var s := Ruled(share, g, job, provider, amount, ruling);
    RuledSays(share, g, job, provider, amount, ruling);
    if s.slashed {
      assert Signed(1.0, s.slash) == s.slash && Signed(1.0, s.reward) == s.reward;
      assert Signed(1.0, s.treasury) == s.treasury;
    } else {
      assert Signed(1.0, s.payout) == s.payout;
    }
  }

  lemma RuledSays(share: real, g: Grid, job: JobId, provider: PeerId, amount: Amount, ruling: Option<Verdict>)
    requires At(g.stakes, provider) >= 0.0
    ensures RulingSays(share, g, Ruled(share, g, job, provider, amount, ruling), job, provider, amount, ruling)
  {
  }

  // A reversal gives back what the record says was moved.
  lemma ReversalGivesBack(g: Grid, s: Settlement)
    ensures var t := Move(g, s, -1.0);
            && OnlyMoves(g.stakes, t.stakes, s.provider, if s.slashed then s.slash else 0.0)
            && OnlyMoves(g.earnings, t.earnings, s.provider, 0.0 - s.payout)
            && t.validatorEarnings == g.validatorEarnings - (if s.slashed then s.reward else 0.0)
            && t.treasury == g.treasury - (if s.slashed then s.treasury else 0.0)
            && t == g.(stakes := t.stakes, earnings := t.earnings, treasury := t.treasury,
                       validatorEarnings := t.validatorEarnings)
  {
    assert Signed(-1.0, s.slash) == 0.0 - s.slash && Signed(-1.0, s.reward) == -s.reward;
    assert Signed(-1.0, s.treasury) == -s.treasury && Signed(-1.0, s.payout) == 0.0 - s.payout;
  }

  // ---------------------------------------------------------------- every row of a run

  // The event is a completion or an end of audit with that ruling, and the row is what the
  // ruling says of the stakes at that moment.
  predicate Rules(share: real, g: Grid, e: Event, row: Row) {
    var s := row.settlement;
    match e
    case DoComplete(job, provider, amount, ruling) =>
      !row.audit && RulingSays(share, g, s, job, provider, amount, ruling)
    case DoFinishAudit(k, verdict) =>
      && row.audit && k < |g.audits|
      && RulingSays(share, g, s, g.audits[k].job, g.audits[k].provider, g.audits[k].amount, Some(verdict))
    case _ => false
  }

  predicate RuledAt(share: real, events: seq<Event>, k: nat, row: Row) {
    k < |events| && Rules(share, Run(share, events[..k]), events[k], row)
  }

  // A row was there before the last event, reversed since or not, or that event rules it.
  lemma {:induction false} RowOrigin(share: real, g: Grid, e: Event, i: nat)
    requires Solvent(g) && i < |Apply(share, g, e).rows|
    ensures var row := Apply(share, g, e).rows[i];
            || (i < |g.rows| && row == g.rows[i].(reversed := row.reversed) && (g.rows[i].reversed ==> row.reversed))
            || (i == |g.rows| && !row.reversed && Rules(share, g, e, row))
  {
    match e {
      case DoComplete(job, provider, amount, ruling) =>
        SettleFollowsRuling(share, g, job, provider, amount, ruling);
      case DoFinishAudit(k, verdict) =>
        if k < |g.audits| {
          SettleFollowsRuling(share, g, g.audits[k].job, g.audits[k].provider, g.audits[k].amount, Some(verdict));
        }
      case _ =>
    }
  }

  // Every row of every run was written by a completion or the end of an audit, and says what
  // the ruling of that event says: so a slash comes from a FAIL and from nothing else, and a
  // payout from a pass or from no ruling.
  lemma {:induction false} RowsHaveRulings(share: real, events: seq<Event>, i: nat) returns (k: nat)
    requires i < |Run(share, events).rows|
    ensures RuledAt(share, events, k, Run(share, events).rows[i])
    decreases |events|
  {
    var before, e := events[..|events| - 1], events[|events| - 1];
    var g := Run(share, before);
    RowOrigin(share, g, e, i);
    if i < |g.rows| {
      k := RowsHaveRulings(share, before, i);
      assert before[..k] == events[..k];
    } else {
      k := |before|;
    }
  }

  predicate Settles(e: Event) { e.DoComplete? || e.DoFinishAudit? }

  function RulingOf(e: Event): Option<Verdict>
    requires Settles(e)
  {
    if e.DoComplete? then e.ruling else Some(e.verdict)
  }

  lemma SlashesAreFails(share: real, events: seq<Event>, i: nat) returns (k: nat)
    requires i < |Run(share, events).rows|
    ensures k < |events| && Settles(events[k])
    ensures var s, ruling := Run(share, events).rows[i].settlement, RulingOf(events[k]);
            && (s.slashed || s.slash != 0.0 || s.refund != 0.0 || s.reward != 0.0 || s.treasury != 0.0 ==>
                  ruling == Some(Fail))
            && (s.payout != 0.0 ==> ruling == None || ruling == Some(Pass))
            && (s.state == AwaitingVerification <==> ruling == Some(Error))
  {
    k := RowsHaveRulings(share, events, i);
  }
}
