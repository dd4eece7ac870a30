// The gateway's books as an object: gateway/grid.py, class `LocalGrid`.

module LocalGrid {
  import opened ByteStrings
  import opened GatewayDrift
  import opened GatewayModel
  import opened GatewayReplay
  import opened Rounding
  import opened Sequences

  datatype Totals = Totals(rows: nat, live: nat, reversed: nat, paid: real, slashed: real, escrowed: real)

  // A sum as it is shown: to six decimals.
  function Shown(x: real): real { Round(x * 1_000_000.0) as real / 1_000_000.0 }

  function ForgetAll(g: Grid, ids: seq<JobId>): Grid {
    if |ids| == 0 then g else Forget(ForgetAll(g, ids[..|ids| - 1]), ids[|ids| - 1])
  }

  function Members(ids: seq<JobId>): set<JobId> { set j | j in ids }

  // A shown sum is a whole number of millionths, and no other is nearer.
  lemma ShownIsNearest(x: real, n: int)
    ensures Shown(x) == n as real / 1_000_000.0 <==>
            && n as real - 0.5 <= x * 1_000_000.0 <= n as real + 0.5
            && (x * 1_000_000.0 == n as real - 0.5 || x * 1_000_000.0 == n as real + 0.5 ==> n % 2 == 0)
  {
    RoundExactlyWhen(x * 1_000_000.0, n);
  }

  // The records of these jobs are gone, and nothing else.
  lemma {:induction false} ForgetAllDrops(g: Grid, ids: seq<JobId>)
    ensures ForgetAll(g, ids) == g.(records := map j | j in g.records && j !in ids :: g.records[j])
  {
    if |ids| > 0 {
      var n := |ids| - 1;
      ForgetAllDrops(g, ids[..n]);
      assert ids == ids[..n] + [ids[n]];
    }
  }

  lemma MembersNext(ids: seq<JobId>, n: nat)
    requires n < |ids|
    ensures Members(ids[..n + 1]) == Members(ids[..n]) + {ids[n]}
  {
    assert ids[..n + 1] == ids[..n] + [ids[n]];
  }

  lemma {:induction false} FirstForgotten(g: Grid, job: JobId, all: seq<JobId>)
    ensures ForgetAll(g, [job] + all[..0]) == Forget(g, job) && Members(all[..0]) == {}
  {
    assert [job] + all[..0] == [job] && [job][..0] == [];
  }

  lemma {:induction false} ForgetNext(g: Grid, job: JobId, ids: seq<JobId>, n: nat)
    requires n < |ids|
    ensures ForgetAll(g, [job] + ids[..n + 1]) == Forget(ForgetAll(g, [job] + ids[..n]), ids[n])
  {
    assert ([job] + ids[..n + 1])[..n + 1] == [job] + ids[..n];
  }

  class LocalGrid {
    const share: real
    const maxJobs: nat

    var nodes: set<PeerId>
    var stakes: map<PeerId, real>
    var earnings: map<PeerId, real>
    var treasury: real
    var validatorEarnings: real
    var jobs: map<JobId, Settlement>
    var unfinished: set<JobId>
    var jobOrder: seq<JobId>
    var audits: seq<Settlement>
    var settlements: seq<Row>
    ghost var opening: map<PeerId, real>

    ghost function View(): Grid
      reads this
    {
      Grid(nodes, stakes, earnings, treasury, validatorEarnings, jobs, audits, settlements, opening)
    }

    constructor (share: real, maxJobs: nat)
      ensures this.share == share && this.maxJobs == maxJobs && View() == EMPTY
      ensures unfinished == {} && jobOrder == []
    {
      this.share, this.maxJobs := share, maxJobs;
      unfinished, jobOrder := {}, [];
      nodes, stakes, earnings, treasury, validatorEarnings := {}, map[], map[], 0.0, 0.0;
      jobs, audits, settlements, opening := map[], [], [], map[];
    }

    method RefreshNodes(profiles: seq<Profile>)
      modifies this
      ensures View() == Refresh(old(View()), profiles)
      ensures jobOrder == old(jobOrder) && unfinished == old(unfinished)
    {
      SeedStakes(profiles);
      nodes := set p | p in profiles :: p.peer;
    }

    // A peer that is seen for the first time gets the stake of its profile.
    method SeedStakes(profiles: seq<Profile>)
      modifies this`stakes, this`opening
      ensures stakes == Seeded(old(stakes), old(stakes), profiles)
      ensures opening == Seeded(old(opening), old(stakes), profiles)
    {
      for i := 0 to |profiles|
        invariant stakes == Seeded(old(stakes), old(stakes), profiles[..i]) && old(stakes).Keys <= stakes.Keys
        invariant opening == Seeded(old(opening), old(stakes), profiles[..i])
        invariant forall p :: p in stakes && p !in old(stakes) ==> p in opening
      {
        assert profiles[..i + 1][..i] == profiles[..i];
        var p := profiles[i];
        if p.peer !in stakes {
          if p.peer !in opening {
            opening := opening[p.peer := p.stake];
          }
          stakes := stakes[p.peer := p.stake];
        }
      }
      assert profiles[..|profiles|] == profiles;
    }

    // `settle`: the record, with the value moved.
    method Settle(job: JobId, provider: PeerId, amount: Amount, ruling: Option<Verdict>) returns (s: Settlement)
      requires Solvent(View())
      modifies this`stakes, this`earnings, this`treasury, this`validatorEarnings
      ensures (View(), s) == GatewayModel.Settle(share, old(View()), job, provider, amount, ruling)
    {
      var available := if provider in stakes then stakes[provider] else 0.0;
      s := Settlement(job, provider, amount, Settled, false, 0.0, 0.0, 0.0, 0.0, 0.0, true, available);
      if ruling == Some(Fail) {
        var slash := if available < amount then available else amount;
        s := s.(state := Slashed, slashed := true, slash := slash, reward := slash * share);
        s := s.(treasury := slash - s.reward, refund := amount, covered := slash >= amount);
      } else if ruling == Some(Error) {
        s := s.(state := AwaitingVerification);
      } else {
        s := s.(payout := amount);
      }
      assert s == Ruled(share, View(), job, provider, amount, ruling);
      MoveValue(s, 1.0);
      s := s.(remaining := if provider in stakes then stakes[provider] else 0.0);
    }

    // `_apply`
    method MoveValue(s: Settlement, sign: real)
      modifies this`stakes, this`earnings, this`treasury, this`validatorEarnings
      ensures View() == Move(old(View()), s, sign)
    {
      if s.slashed {
        stakes := stakes[s.provider := (if s.provider in stakes then stakes[s.provider] else 0.0)
                                       - Signed(sign, s.slash)];
        validatorEarnings := validatorEarnings + Signed(sign, s.reward);
        treasury := treasury + Signed(sign, s.treasury);
      }
      if s.payout != 0.0 {
        earnings := earnings[s.provider := (if s.provider in earnings then earnings[s.provider] else 0.0)
                                           + Signed(sign, s.payout)];
      }
    }

    // `_store`, at the beginning of `run_job`: the newest `maxJobs` jobs are remembered.
    method StoreJob(job: JobId)
      modifies this
      ensures var all := old(jobOrder) + [job];
              var n := if |all| > maxJobs then |all| - maxJobs else 0;
              && jobOrder == all[n..] && |jobOrder| <= maxJobs
              && View() == ForgetAll(old(View()), [job] + all[..n])
              && unfinished == old(unfinished) + {job} - Members(all[..n])
    {
      ghost var start, before := View(), unfinished;
      ForgetJob(job);
      unfinished := unfinished + {job};
      jobOrder := jobOrder + [job];
      ghost var all, n := jobOrder, 0;
      FirstForgotten(start, job, all);
      while |jobOrder| > maxJobs
        invariant 0 <= n <= |all| && jobOrder == all[n..] && (n > 0 ==> |all| - n >= maxJobs)
        invariant View() == ForgetAll(start, [job] + all[..n])
        invariant unfinished == before + {job} - Members(all[..n])
      {
        ForgetNext(start, job, all, n);
        MembersNext(all, n);
        ForgetOldest();
        n := n + 1;
      }
    }

    method ForgetOldest()
      requires jobOrder != []
      modifies this`jobs, this`unfinished, this`jobOrder
      ensures jobOrder == old(jobOrder)[1..] && unfinished == old(unfinished) - {old(jobOrder)[0]}
      ensures View() == Forget(old(View()), old(jobOrder)[0])
    {
      ForgetJob(jobOrder[0]);
      jobOrder := jobOrder[1..];
    }

    method ForgetJob(job: JobId)
      modifies this`jobs, this`unfinished
      ensures View() == Forget(old(View()), job) && unfinished == old(unfinished) - {job}
    {
      jobs := jobs - {job};
      unfinished := unfinished - {job};
    }

    // The last stage of `run_job`. A job that was dropped meanwhile gets its row but no record.
    method CompleteJob(job: JobId, provider: PeerId, amount: Amount, ruling: Option<Verdict>)
      requires Solvent(View())
      modifies this
      ensures var completed := Complete(share, old(View()), job, provider, amount, ruling);
              View() == if job in old(unfinished) || job in old(jobs) then completed else Forget(completed, job)
      ensures Solvent(View()) && unfinished == old(unfinished) - {job} && jobOrder == old(jobOrder)
    {
      StakesStay(share, View(), DoComplete(job, provider, amount, ruling));
      var s := Settle(job, provider, amount, ruling);
      settlements := settlements + [Row(s, false, false)];
      if job in unfinished || job in jobs {
        jobs := jobs[job := s];
        unfinished := unfinished - {job};
      } else {
        assert jobs[job := s] - {job} == jobs && unfinished - {job} == unfinished;
      }
    }

    // `reverify` up to the judge.
    method BeginAudit(job: JobId) returns (error: Option<GridError>)
      modifies this
      ensures var (g, e) := GatewayModel.BeginAudit(old(View()), job);
              View() == g && error == if e == Some(UnknownJob) && job in unfinished then Some(NotComplete) else e
      ensures unfinished == old(unfinished) && jobOrder == old(jobOrder)
    {
      if job !in jobs {
        return Some(if job in unfinished then NotComplete else UnknownJob);
      }
      var s := jobs[job];
      if s.provider !in nodes {
        return Some(UnknownNode);
      }
      MoveValue(s, -1.0);
      MarkReversed(job);
      audits := audits + [s];
      error := None;
    }

    // `_mark_reversed`
    method MarkReversed(job: JobId)
      modifies this`settlements
      ensures settlements == Reversed(old(settlements), job)
    {
      for i := 0 to |settlements|
        invariant |settlements| == |old(settlements)|
        invariant settlements[..i] == Reversed(old(settlements), job)[..i]
        invariant settlements[i..] == old(settlements)[i..]
      {
        var row := settlements[i];
        assert row == old(settlements)[i..][0];
        if row.settlement.job == job && !row.reversed {
          settlements := settlements[i := row.(reversed := true)];
        }
        assert settlements[i] == Reversed(old(settlements), job)[i];
        assert settlements[..i + 1] == settlements[..i] + [settlements[i]];
        assert settlements[i + 1..] == old(settlements)[i..][1..];
      }
    }

    // The rest of `reverify`.
    method FinishAudit(k: nat, verdict: Verdict)
      requires Solvent(View()) && k < |audits|
      modifies this
      ensures View() == GatewayModel.FinishAudit(share, old(View()), k, verdict) && Solvent(View())
      ensures unfinished == old(unfinished) && jobOrder == old(jobOrder)
    {
      StakesStay(share, View(), DoFinishAudit(k, verdict));
      var before := audits[k];
      var s := Settle(before.job, before.provider, before.amount, Some(verdict));
      if before.job in jobs {
        jobs := jobs[before.job := s];
      }
      settlements := settlements + [Row(s, true, false)];
      audits := Skip(audits, k);
    }

    method LedgerTotals() returns (t: Totals)
      ensures t.rows == |settlements| && t.live == LiveCount(settlements) && t.live + t.reversed == t.rows
      ensures t.paid == Shown(LiveSum(settlements, Payouts())) && t.slashed == Shown(LiveSum(settlements, Slashes()))
      ensures t.escrowed == Shown(LiveSum(settlements, Amounts()))
      ensures Tidy(View()) && Replayed(View()) ==> t.slashed == Shown(treasury + validatorEarnings)
    {
      var live, paid, slashed, escrowed := 0, 0.0, 0.0, 0.0;
      for i := 0 to |settlements|
        invariant live == LiveCount(settlements[..i]) <= i
        invariant paid == LiveSum(settlements[..i], Payouts())
        invariant slashed == LiveSum(settlements[..i], Slashes())
        invariant escrowed == LiveSum(settlements[..i], Amounts())
      {
        assert settlements[..i + 1][..i] == settlements[..i];
        var row := settlements[i];
        if !row.reversed {
          live := live + 1;
          paid, slashed, escrowed := paid + row.settlement.payout, slashed + row.settlement.slash,
            escrowed + row.settlement.amount;
        }
      }
      assert settlements[..|settlements|] == settlements;
      t := Totals(|settlements|, live, |settlements| - live, Shown(paid), Shown(slashed), Shown(escrowed));
      if Tidy(View()) && Replayed(View()) {
        SlashesHeld(View());
      }
    }
  }
}
