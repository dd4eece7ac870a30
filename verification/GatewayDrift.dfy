// How far the balances are from a replay of the live rows, over every run whatever:
// gateway/grid.py, `settle`, `_apply`, `reverify`, `_mark_reversed`, `ledger_totals`.

module GatewayDrift {
  import opened ByteStrings
  import opened GatewayModel
  import opened Sequences

  // ---------------------------------------------------------------- what every run keeps

  predicate Live(r: Row) { !r.reversed }

  // A settlement moves either a payout or a slash that is split in two.
  predicate Sound(s: Settlement) {
    && (s.slashed ==> s.payout == 0.0 && s.reward + s.treasury == s.slash && (s.slash == 0.0 ==> s.reward == 0.0))
    && (!s.slashed ==> s.slash == 0.0 && s.reward == 0.0 && s.treasury == 0.0)
  }

  ghost predicate WellFormed(g: Grid) {
    && g.opening.Keys <= g.stakes.Keys
    && (forall i :: 0 <= i < |g.rows| ==> Sound(g.rows[i].settlement))
    && (forall job :: job in g.records ==> g.records[job].job == job && Sound(g.records[job]))
    && (forall k :: 0 <= k < |g.audits| ==> Sound(g.audits[k]))
  }

  // ---------------------------------------------------------------- balances and rows

  // What a settlement can move.
  datatype Balance = OfStake(peer: PeerId) | OfEarnings(peer: PeerId) | OfValidators | OfTreasury

  // How far a balance is from where it started: stakes go down, the others up.
  function Moved(g: Grid, b: Balance): real {
    match b
    case OfStake(p) => At(g.opening, p) - At(g.stakes, p)
    case OfEarnings(p) => At(g.earnings, p)
    case OfValidators => g.validatorEarnings
    case OfTreasury => g.treasury
  }

  // What a settlement says it moves.
  function Says(b: Balance): Settlement -> real {
    match b
    case OfStake(p) => SlashesOf(p)
    case OfEarnings(p) => PayoutsOf(p)
    case OfValidators => Rewards()
    case OfTreasury => TreasuryParts()
  }

  function Drift(g: Grid, b: Balance): real { Moved(g, b) - LiveSum(g.rows, Says(b)) }

  // Every balance is the sum of what the live rows say.
  ghost predicate Replayed(g: Grid) {
    forall b: Balance :: Drift(g, b) == 0.0
  }

  // The live rows of one job.
  function JobSum(rows: seq<Row>, job: JobId, value: Settlement -> real): real {
    if |rows| == 0 then 0.0
    else
      var last := rows[|rows| - 1];
      JobSum(rows[..|rows| - 1], job, value)
      + (if Live(last) && last.settlement.job == job then value(last.settlement) else 0.0)
  }

  // What an audit takes out of the rows beyond what it takes out of the balance.
  function Gap(g: Grid, job: JobId, b: Balance): real
    requires job in g.records
  {
    JobSum(g.rows, job, Says(b)) - Says(b)(g.records[job])
  }

  predicate Accepted(g: Grid, job: JobId) { BeginAudit(g, job).1.None? }

  function EventGap(g: Grid, e: Event, b: Balance): real {
    if e.DoBeginAudit? && Accepted(g, e.job) then Gap(g, e.job, b) else 0.0
  }

  // ---------------------------------------------------------------- sums over rows

  lemma {:induction false} LiveSumAppend(rows: seq<Row>, r: Row, value: Settlement -> real)
    ensures LiveSum(rows + [r], value) == LiveSum(rows, value) + (if r.reversed then 0.0 else value(r.settlement))
  {
    assert (rows + [r])[..|rows|] == rows;
  }

  lemma ReversedFront(rows: seq<Row>, job: JobId)
    requires |rows| > 0
    ensures Reversed(rows, job)[..|rows| - 1] == Reversed(rows[..|rows| - 1], job)
  {
  }

  // Marking a job reversed takes the sum of its live rows out of every total.
  lemma {:induction false} ReverseJob(rows: seq<Row>, job: JobId, value: Settlement -> real)
    ensures LiveSum(Reversed(rows, job), value) == LiveSum(rows, value) - JobSum(rows, job, value)
    decreases |rows|
  {
    if |rows| > 0 {
      ReverseJob(rows[..|rows| - 1], job, value);
      ReversedFront(rows, job);
    }
  }

  // ---------------------------------------------------------------- moving value

  lemma MoveBalance(g: Grid, s: Settlement, sign: real, b: Balance)
    requires Sound(s) && (sign == 1.0 || sign == -1.0)
    ensures Moved(Move(g, s, sign), b) == Moved(g, b) + sign * Says(b)(s)
  {
  }

  lemma MoveKeeps(g: Grid, s: Settlement, sign: real)
    ensures var t := Move(g, s, sign);
            && t == g.(stakes := t.stakes, earnings := t.earnings, validatorEarnings := t.validatorEarnings,
                       treasury := t.treasury)
            && t.stakes.Keys >= g.stakes.Keys
  {
  }

  lemma RulingIsSound(share: real, g: Grid, job: JobId, provider: PeerId, amount: Amount, ruling: Option<Verdict>)
    requires At(g.stakes, provider) >= 0.0
    ensures Sound(Ruled(share, g, job, provider, amount, ruling))
  {
  }

  // The parts of the state that settling leaves alone, and the settlement itself.
  lemma SettleMoves(share: real, g: Grid, job: JobId, provider: PeerId, amount: Amount, ruling: Option<Verdict>)
    requires At(g.stakes, provider) >= 0.0
    ensures var s := Ruled(share, g, job, provider, amount, ruling);
            var (m, s') := Settle(share, g, job, provider, amount, ruling);
            && m == Move(g, s, 1.0) && s' == s.(remaining := s'.remaining)
            && m.records == g.records && m.rows == g.rows && m.audits == g.audits && m.opening == g.opening
            && m.stakes.Keys >= g.stakes.Keys && m.nodes == g.nodes
            && Sound(s) && Sound(s') && s'.job == job
  {
    RulingIsSound(share, g, job, provider, amount, ruling);
    MoveKeeps(g, Ruled(share, g, job, provider, amount, ruling), 1.0);
  }

  // A settlement and its row move a balance and the rows by the same amount.
  lemma SettledDrift(g: Grid, t: Grid, s: Settlement, row: Row, b: Balance)
    requires Sound(s) && Live(row) && row.settlement == s.(remaining := row.settlement.remaining)
    requires t.rows == g.rows + [row]
    requires Moved(t, b) == Moved(Move(g, s, 1.0), b)
    ensures Drift(t, b) == Drift(g, b)
  {
    MoveBalance(g, s, 1.0, b);
    LiveSumAppend(g.rows, row, Says(b));
  }

  // ---------------------------------------------------------------- every event

  lemma CompleteDrift(share: real, g: Grid, job: JobId, provider: PeerId, amount: Amount, ruling: Option<Verdict>,
                      b: Balance)
    requires WellFormed(g) && At(g.stakes, provider) >= 0.0
    ensures var t := Complete(share, g, job, provider, amount, ruling); WellFormed(t) && Drift(t, b) == Drift(g, b)
  {
    var s := Ruled(share, g, job, provider, amount, ruling);
    var (m, s') := Settle(share, g, job, provider, amount, ruling);
    SettleMoves(share, g, job, provider, amount, ruling);
    SettledDrift(g, Complete(share, g, job, provider, amount, ruling), s, Row(s', false, false), b);
  }

  lemma FinishDrift(share: real, g: Grid, k: nat, ruling: Verdict, b: Balance)
    requires WellFormed(g) && k < |g.audits| && At(g.stakes, g.audits[k].provider) >= 0.0
    ensures var t := FinishAudit(share, g, k, ruling); WellFormed(t) && Drift(t, b) == Drift(g, b)
  {
    var a := g.audits[k];
    var s := Ruled(share, g, a.job, a.provider, a.amount, Some(ruling));
    var (m, s') := Settle(share, g, a.job, a.provider, a.amount, Some(ruling));
    SettleMoves(share, g, a.job, a.provider, a.amount, Some(ruling));
    SettledDrift(g, FinishAudit(share, g, k, ruling), s, Row(s', true, false), b);
  }

  lemma BeginDrift(g: Grid, job: JobId, b: Balance)
    requires WellFormed(g) && Accepted(g, job)
    ensures var t := BeginAudit(g, job).0; WellFormed(t) && Drift(t, b) == Drift(g, b) + Gap(g, job, b)
  {
    var s := g.records[job];
    MoveKeeps(g, s, -1.0);
    MoveBalance(g, s, -1.0, b);
    ReverseJob(g.rows, job, Says(b));
  }

  // A fresh peer starts with the same stake on both sides; a known one keeps its own.
  lemma {:induction false} SeededAlike(stakes: map<PeerId, real>, opening: map<PeerId, real>, profiles: seq<Profile>)
    requires opening.Keys <= stakes.Keys
    ensures var s, o := Seeded(stakes, stakes, profiles), Seeded(opening, stakes, profiles);
            && o.Keys <= s.Keys && stakes.Keys <= s.Keys
            && (forall p :: p in s && p !in stakes ==> p in o && o[p] == s[p])
            && (forall p :: p in stakes ==> s[p] == stakes[p] && At(o, p) == At(opening, p))
    decreases |profiles|
  {
    if |profiles| > 0 {
      SeededAlike(stakes, opening, profiles[..|profiles| - 1]);
    }
  }

  lemma RefreshDrift(g: Grid, profiles: seq<Profile>, b: Balance)
    requires WellFormed(g)
    ensures WellFormed(Refresh(g, profiles)) && Drift(Refresh(g, profiles), b) == Drift(g, b)
  {
    SeededAlike(g.stakes, g.opening, profiles);
  }

  // No event but an accepted beginning of an audit moves the balances away from the rows
  // or back to them, and that one does by its gap.
  lemma StepDrift(share: real, g: Grid, e: Event, b: Balance)
    requires Solvent(g) && WellFormed(g)
    ensures WellFormed(Apply(share, g, e))
    ensures Drift(Apply(share, g, e), b) == Drift(g, b) + EventGap(g, e, b)
  {
    match e {
      case DoRefresh(profiles) => RefreshDrift(g, profiles, b);
      case DoComplete(job, provider, amount, ruling) => CompleteDrift(share, g, job, provider, amount, ruling, b);
      case DoForget(job) =>
      case DoBeginAudit(job) =>
        if Accepted(g, job) {
          BeginDrift(g, job, b);
        }
      case DoFinishAudit(k, verdict) =>
        if k < |g.audits| {
          FinishDrift(share, g, k, verdict, b);
        }
    }
  }

  // ---------------------------------------------------------------- runs

  function RunGap(share: real, events: seq<Event>, b: Balance): real {
    if |events| == 0 then 0.0
    else
      var before := events[..|events| - 1];
      RunGap(share, before, b) + EventGap(Run(share, before), events[|events| - 1], b)
  }

  // After every run, orderly or not, a balance is off by the gaps of the audits begun.
  lemma {:induction false} RunDrift(share: real, events: seq<Event>, b: Balance)
    ensures WellFormed(Run(share, events)) && Drift(Run(share, events), b) == RunGap(share, events, b)
    decreases |events|
  {
    if |events| > 0 {
      var before := events[..|events| - 1];
      RunDrift(share, before, b);
      StepDrift(share, Run(share, before), events[|events| - 1], b);
    }
  }

  lemma {:induction false} RunIsWellFormed(share: real, events: seq<Event>)
    ensures WellFormed(Run(share, events))
  {
    RunDrift(share, events, OfTreasury);
  }

  // ---------------------------------------------------------------- the guard

  // The peers that the record of a job and its live rows name.
  function Parties(g: Grid, job: JobId): set<PeerId>
    requires job in g.records
  {
    {g.records[job].provider} +
    set r | r in g.rows && Live(r) && r.settlement.job == job :: r.settlement.provider
  }

  // The live rows of a job add up to its record: what an audit marks reversed is what it
  // moves back. It can be checked before the audit, from the rows.
  predicate RowsMatchRecord(g: Grid, job: JobId)
    requires job in g.records
  {
    && Gap(g, job, OfValidators) == 0.0 && Gap(g, job, OfTreasury) == 0.0
    && forall p :: p in Parties(g, job) ==> Gap(g, job, OfStake(p)) == 0.0 && Gap(g, job, OfEarnings(p)) == 0.0
  }

  lemma {:induction false} NoRowsOf(rows: seq<Row>, job: JobId, p: PeerId)
    requires forall r :: r in rows && Live(r) && r.settlement.job == job ==> r.settlement.provider != p
    ensures JobSum(rows, job, SlashesOf(p)) == 0.0 && JobSum(rows, job, PayoutsOf(p)) == 0.0
    decreases |rows|
  {
    if |rows| > 0 {
      var front := rows[..|rows| - 1];
      forall r | r in front && Live(r) && r.settlement.job == job ensures r.settlement.provider != p {
        assert r in rows;
      }
      NoRowsOf(front, job, p);
      assert rows[|rows| - 1] in rows;
    }
  }

  lemma MatchMeansNoGap(g: Grid, job: JobId)
    requires job in g.records
    ensures RowsMatchRecord(g, job) <==> forall b: Balance :: Gap(g, job, b) == 0.0
  {
    if RowsMatchRecord(g, job) {
      forall b: Balance ensures Gap(g, job, b) == 0.0 {
        if (b.OfStake? || b.OfEarnings?) && b.peer !in Parties(g, job) {
          NoRowsOf(g.rows, job, b.peer);
        }
      }
    }
  }

  // From any books that are a replay, tidy or not, the beginning of an audit keeps them one
  // exactly when the live rows of the job add up to its record.
  lemma BeginReplaysExactlyWhen(g: Grid, job: JobId)
    requires WellFormed(g) && Replayed(g) && Accepted(g, job)
    ensures Replayed(BeginAudit(g, job).0) <==> RowsMatchRecord(g, job)
  {
    var t := BeginAudit(g, job).0;
    MatchMeansNoGap(g, job);
    forall b: Balance ensures Drift(t, b) == Gap(g, job, b) {
      BeginDrift(g, job, b);
    }
    if RowsMatchRecord(g, job) {
      forall b: Balance ensures Drift(t, b) == 0.0 {
        assert Gap(g, job, b) == 0.0;
      }
    } else {
      var b: Balance :| Gap(g, job, b) != 0.0;
      assert Drift(t, b) != 0.0;
    }
  }

  // Nothing else breaks the books or heals them.
  lemma OthersKeepReplay(share: real, g: Grid, e: Event)
    requires Solvent(g) && WellFormed(g) && !(e.DoBeginAudit? && Accepted(g, e.job))
    ensures Replayed(Apply(share, g, e)) <==> Replayed(g)
  {
    forall b: Balance ensures Drift(Apply(share, g, e), b) == Drift(g, b) {
      StepDrift(share, g, e, b);
    }
    if Replayed(g) {
      forall b: Balance ensures Drift(Apply(share, g, e), b) == 0.0 {
        assert Drift(g, b) == 0.0;
      }
    } else {
      var b: Balance :| Drift(g, b) != 0.0;
      assert Drift(Apply(share, g, e), b) != 0.0;
    }
  }

  lemma EmptyIsReplayed()
    ensures Replayed(EMPTY)
  {
    forall b: Balance ensures Drift(EMPTY, b) == 0.0 {
    }
  }

  // After every prefix of the run the books are a replay.
  ghost predicate AlwaysReplayed(share: real, events: seq<Event>) {
    Replayed(Run(share, events)) && (|events| > 0 ==> AlwaysReplayed(share, events[..|events| - 1]))
  }

  // Every audit that the run begins finds the rows of its job adding up to its record.
  predicate AlwaysMatched(share: real, events: seq<Event>) {
    |events| == 0 ||
    var before, last := events[..|events| - 1], events[|events| - 1];
    && AlwaysMatched(share, before)
    && (last.DoBeginAudit? && Accepted(Run(share, before), last.job) ==> RowsMatchRecord(Run(share, before), last.job))
  }

  // The books are a replay throughout a run exactly when each audit that it begins meets
  // the guard; whatever overlaps, and whatever was forgotten.
  lemma {:induction false} ReplaysExactlyWhen(share: real, events: seq<Event>)
    ensures AlwaysReplayed(share, events) <==> AlwaysMatched(share, events)
    decreases |events|
  {
    if |events| == 0 {
      EmptyIsReplayed();
    } else {
      var before, last := events[..|events| - 1], events[|events| - 1];
      ReplaysExactlyWhen(share, before);
      RunIsWellFormed(share, before);
      var g := Run(share, before);
      if AlwaysReplayed(share, before) {
        assert Replayed(g);
        if last.DoBeginAudit? && Accepted(g, last.job) {
          BeginReplaysExactlyWhen(g, last.job);
        } else {
          OthersKeepReplay(share, g, last);
        }
      }
    }
  }

  // For each balance, the gaps of the audits that the run began cancel out.
  ghost predicate GapsCancel(share: real, events: seq<Event>) {
    forall b: Balance :: RunGap(share, events, b) == 0.0
  }

  // At the end of a run the books are a replay exactly when the gaps cancel out.
  lemma {:induction false} EndsReplayedExactlyWhen(share: real, events: seq<Event>)
    ensures Replayed(Run(share, events)) <==> GapsCancel(share, events)
  {
    if Replayed(Run(share, events)) {
      forall b: Balance ensures RunGap(share, events, b) == 0.0 {
        RunDrift(share, events, b);
        assert Drift(Run(share, events), b) == 0.0;
      }
    }
    if GapsCancel(share, events) {
      forall b: Balance ensures Drift(Run(share, events), b) == 0.0 {
        RunDrift(share, events, b);
      }
    }
  }
}
