// Who can settle a job, when, and for how much: edgegrid/ledger.py, `release`, `cancel`,
// `submit_verdict`, `prove_data_mismatch`, `_confirm_fraud`, `_record`.

module LedgerAuthority {
  import opened ByteStrings
  import opened LedgerModel
  import opened LedgerGuards
  import opened LedgerSettlement
  import opened LedgerCollateral

  // ---------------------------------------------------------------- what a record takes

  // What a slash can reach: active stake and what is unbonding.
  function Reach(s: State, a: Account): nat {
    Entry(s.stake, a) + (if a in s.unbonding then s.unbonding[a].amount else 0)
  }

  // The slash is the escrowed amount or all there is, and the reporter's share is rounded down.
  predicate SlashFits(cfg: Config, s: State, r: Record)
    requires r.jobId in s.escrows
  {
    && r.slash <= s.escrows[r.jobId].amount && r.slash <= Reach(s, r.provider)
    && (r.slash == s.escrows[r.jobId].amount || r.slash == Reach(s, r.provider))
    && 0 <= r.slash * cfg.bps - r.reward * 10_000 < 10_000
  }

  // The call that a record needs, in the state it needs.
  predicate Authorised(cfg: Config, s: State, e: Event, r: Record) {
    && r.jobId in s.escrows
    && match r.resolution
       case Unresolved => false
       case WindowElapsed => e == DoRelease(r.jobId) && s.now >= r.deadline
       case AwardTimeout =>
         e == DoCancel(r.jobId, r.requester) && s.now >= s.escrows[r.jobId].openedAt + cfg.awardTimeout
       case DataMismatch =>
         && e.DoProveMismatch? && e.job == r.jobId && e.reporter == r.reporter && s.now <= r.deadline
         && SlashFits(cfg, s, r)
       case ValidatorVerdict =>
         && e.DoSubmitVerdict? && e.job == r.jobId && e.verdict.Fail? && e.validator == r.reporter
         && e.validator in s.validators && Active(cfg, s, e.validator) && s.now <= r.deadline
         && SlashFits(cfg, s, r) && r.verdict == Some(Fail) && r.score == e.score
  }

  // A call adds no record, or one that it is authorised to add.
  predicate AddsHonestly(cfg: Config, s: State, e: Event, outcome: Outcome) {
    var t := outcome.state;
    || t.records == s.records
    || (&& outcome.Accepted() && |t.records| == |s.records| + 1 && t.records[..|s.records|] == s.records
        && Authorised(cfg, s, e, t.records[|s.records|]))
  }

  // The record quotes the verdict entered on its job.
  predicate QuotesVerdict(s: State, r: Record) {
    r.jobId in s.verdicts ==>
      r.verdict == Some(s.verdicts[r.jobId].verdict) && r.score == s.verdicts[r.jobId].score
  }

  lemma FraudRecordIs(cfg: Config, s: State, job: JobId, reporter: Account, kind: Resolution)
    requires ValidConfig(cfg) && Settling(s) && job in s.commitments
    requires kind.DataMismatch? || kind.ValidatorVerdict?
    ensures var outcome := ConfirmFraud(cfg, s, job, reporter, kind);
            if outcome.Accepted() then
              && |outcome.state.records| == |s.records| + 1
              && outcome.state.records[..|s.records|] == s.records
              && var r := outcome.state.records[|s.records|];
                 && r.jobId == job && job in s.escrows && r.resolution == kind && r.reporter == reporter
                 && r.deadline == s.escrows[job].deadline && r.provider == s.commitments[job].provider
                 && SlashFits(cfg, s, r) && QuotesVerdict(s, r)
            else outcome.state == s
  {
    if ConfirmFraud(cfg, s, job, reporter, kind).Accepted() {
      var slashed := Min(s.escrows[job].amount, Collateral(s, s.commitments[job].provider));
      var reward := Reward(cfg, slashed);
      PunishCloses(cfg, s, job, reporter, kind, slashed, reward);
      PunishRecord(cfg, s, job, reporter, kind, slashed, reward);
      PunishQuotes(cfg, s, job, reporter, kind, slashed, reward);
    }
  }

  lemma PunishQuotes(cfg: Config, s: State, job: JobId, reporter: Account, kind: Resolution, slashed: nat, reward: nat)
    requires job in s.commitments && job in s.escrows && s.escrows[job].jobId == job
    requires reward <= slashed <= Collateral(s, s.commitments[job].provider)
    ensures var t := Punish(cfg, s, job, reporter, kind, slashed, reward);
            |t.records| > 0 && t.records[|t.records| - 1].jobId == job && QuotesVerdict(s, t.records[|t.records| - 1])
  {
    var s1 := Slash(Resolve(s, job, kind), s.commitments[job].provider, slashed);
    DistributeKeeps(s1, reporter, cfg.treasury, slashed, reward);
    CreditKeepsVerdicts(s1, reporter, reward);
    CreditKeepsVerdicts(Credit(s1, reporter, reward), cfg.treasury, slashed - reward);
  }

  lemma CreditKeepsVerdicts(s: State, account: Account, wei: nat)
    ensures Credit(s, account, wei).verdicts == s.verdicts
  {
  }

  lemma PunishRecord(cfg: Config, s: State, job: JobId, reporter: Account, kind: Resolution, slashed: nat, reward: nat)
    requires job in s.commitments && job in s.escrows
    requires reward <= slashed <= Collateral(s, s.commitments[job].provider)
    ensures var t := Punish(cfg, s, job, reporter, kind, slashed, reward);
            && |t.records| > 0
            && t.records[|t.records| - 1].reporter == reporter
            && t.records[|t.records| - 1].slash == slashed && t.records[|t.records| - 1].reward == reward
  {
  }

  lemma FailIsFraud(cfg: Config, s: State, e: Event, s': State)
    requires ValidConfig(cfg) && e.DoSubmitVerdict? && e.verdict.Fail?
    requires e.validator in s.validators && IsActive(cfg, s, e.validator) && ChallengeError(s, e.job).None?
    requires s' == s.(verdicts := s.verdicts[e.job := VerdictEntry(e.validator, e.verdict, e.score, e.reason)])
    ensures SubmitVerdict(cfg, s, e.job, e.validator, e.verdict, e.score, e.reason) ==
            ConfirmFraud(cfg, s', e.job, e.validator, ValidatorVerdict)
  {
  }

  lemma SameCollateral(cfg: Config, s: State, s': State, r: Record)
    requires s' == s.(verdicts := s'.verdicts) && r.jobId in s'.escrows && SlashFits(cfg, s', r)
    ensures SlashFits(cfg, s, r)
  {
  }

  lemma FailAdds(cfg: Config, s: State, e: Event)
    requires ValidConfig(cfg) && Settling(s) && e.DoSubmitVerdict? && e.verdict.Fail?
    requires e.validator in s.validators && IsActive(cfg, s, e.validator) && ChallengeError(s, e.job).None?
    ensures AddsHonestly(cfg, s, e, SubmitVerdict(cfg, s, e.job, e.validator, e.verdict, e.score, e.reason))
  {
    var s' := s.(verdicts := s.verdicts[e.job := VerdictEntry(e.validator, e.verdict, e.score, e.reason)]);
    SameJobsSettle(s, s');
    FraudRecordIs(cfg, s', e.job, e.validator, ValidatorVerdict);
    FailIsFraud(cfg, s, e, s');
    var t := ConfirmFraud(cfg, s', e.job, e.validator, ValidatorVerdict).state;
    if t.records != s.records {
      SameCollateral(cfg, s, s', t.records[|s.records|]);
      FailIsAuthorised(cfg, s, e, t.records[|s.records|]);
    }
  }

  lemma FailIsAuthorised(cfg: Config, s: State, e: Event, r: Record)
    requires e.DoSubmitVerdict? && e.verdict.Fail? && e.validator in s.validators && IsActive(cfg, s, e.validator)
    requires ChallengeError(s, e.job).None? && Settling(s)
    requires r.jobId == e.job && r.resolution.ValidatorVerdict? && r.reporter == e.validator
    requires r.jobId in s.escrows && r.deadline == s.escrows[r.jobId].deadline && SlashFits(cfg, s, r)
    requires r.verdict == Some(Fail) && r.score == e.score
    ensures Authorised(cfg, s, e, r)
  {
  }

  lemma VerdictAdds(cfg: Config, sha: Hash, s: State, e: Event)
    requires ValidConfig(cfg) && Settling(s) && e.DoSubmitVerdict?
    ensures AddsHonestly(cfg, s, e, Apply(cfg, sha, s, e))
  {
    if e.verdict.Fail? && e.validator in s.validators && IsActive(cfg, s, e.validator)
       && ChallengeError(s, e.job).None? {
      FailAdds(cfg, s, e);
    }
  }

  lemma ProofAdds(cfg: Config, sha: Hash, s: State, e: Event)
    requires ValidConfig(cfg) && Settling(s) && e.DoProveMismatch?
    ensures AddsHonestly(cfg, s, e, Apply(cfg, sha, s, e))
  {
    var outcome := ProveMismatch(cfg, sha, s, e.job, e.blob, e.reporter, e.proof);
    if outcome.state != s {
      assert e.job in s.commitments && outcome == ConfirmFraud(cfg, s, e.job, e.reporter, DataMismatch);
      FraudRecordIs(cfg, s, e.job, e.reporter, DataMismatch);
    }
  }

  lemma ClosingAdds(cfg: Config, sha: Hash, s: State, e: Event)
    requires ValidConfig(cfg) && Settling(s) && (e.DoRelease? || e.DoCancel?)
    ensures AddsHonestly(cfg, s, e, Apply(cfg, sha, s, e))
  {
    if Apply(cfg, sha, s, e).Accepted() {
      if e.DoRelease? {
        ReleaseCloses(s, e.job);
      } else {
        CancelCloses(cfg, s, e.job, e.requester);
      }
    }
  }

  lemma StepAdds(cfg: Config, sha: Hash, s: State, e: Event)
    requires ValidConfig(cfg) && Settling(s)
    ensures AddsHonestly(cfg, s, e, Apply(cfg, sha, s, e))
  {
    match e {
      case DoRelease(_) => ClosingAdds(cfg, sha, s, e);
      case DoCancel(_, _) => ClosingAdds(cfg, sha, s, e);
      case DoSubmitVerdict(_, _, _, _, _) => VerdictAdds(cfg, sha, s, e);
      case DoProveMismatch(_, _, _, _) => ProofAdds(cfg, sha, s, e);
      case DoOpenEscrow(_, _, _, _) => OpeningAddsNothing(cfg, sha, s, e);
      case DoRecordCommitment(_, _, _, _, _, _) => OpeningAddsNothing(cfg, sha, s, e);
      case _ => UnrelatedKeepsJobs(cfg, sha, s, e);
    }
  }

  lemma OpeningAddsNothing(cfg: Config, sha: Hash, s: State, e: Event)
    requires ValidConfig(cfg) && (e.DoOpenEscrow? || e.DoRecordCommitment?)
    ensures Apply(cfg, sha, s, e).state.records == s.records
  {
  }

  // ---------------------------------------------------------------- where the records come from

  // Call number `k` of a run is accepted and is what the record needs.
  predicate AuthorisedAt(cfg: Config, sha: Hash, start: int, events: seq<Event>, k: nat, r: Record)
    requires ValidConfig(cfg)
  {
    && k < |events|
    && var s := Run(cfg, sha, Initial(start), events[..k]);
       Apply(cfg, sha, s, events[k]).Accepted() && Authorised(cfg, s, events[k], r)
  }

  // A record was there before the last call, or the last call is what it needs.
  lemma {:induction false} LastCallAuthorises(cfg: Config, sha: Hash, start: int, before: seq<Event>, e: Event, i: nat)
    requires ValidConfig(cfg)
    requires i < |Run(cfg, sha, Initial(start), before + [e]).records|
    ensures var s, t := Run(cfg, sha, Initial(start), before), Run(cfg, sha, Initial(start), before + [e]);
            || (i < |s.records| && s.records[i] == t.records[i])
            || AuthorisedAt(cfg, sha, start, before + [e], |before|, t.records[i])
  {
    var s := Run(cfg, sha, Initial(start), before);
    RunAppend(cfg, sha, Initial(start), before, e);
    SettlementHolds(cfg, sha, start, before);
    StepAdds(cfg, sha, s, e);
    assert (before + [e])[..|before|] == before;
    RecordOrigin(cfg, s, e, Apply(cfg, sha, s, e), i);
  }

  lemma RecordOrigin(cfg: Config, s: State, e: Event, outcome: Outcome, i: nat)
    requires AddsHonestly(cfg, s, e, outcome) && i < |outcome.state.records|
    ensures || (i < |s.records| && s.records[i] == outcome.state.records[i])
            || (outcome.Accepted() && Authorised(cfg, s, e, outcome.state.records[i]))
  {
    if outcome.state.records != s.records && i < |s.records| {
      assert outcome.state.records[..|s.records|][i] == outcome.state.records[i];
    }
  }

  lemma AuthorityStands(cfg: Config, sha: Hash, start: int, events: seq<Event>, e: Event, k: nat, r: Record)
    requires ValidConfig(cfg) && AuthorisedAt(cfg, sha, start, events, k, r)
    ensures AuthorisedAt(cfg, sha, start, events + [e], k, r)
  {
    assert (events + [e])[..k] == events[..k];
  }

  // Every record of every run was written by an accepted call that was entitled to it: a
  // release after the deadline, a cancellation by the requester after the timeout, or,
  // no later than the deadline, a FAIL of an active validator or a proof of a mismatch,
  // which slash what there is up to the escrowed amount.
  lemma {:induction false} RecordsAreAuthorised(cfg: Config, sha: Hash, start: int, events: seq<Event>, i: nat)
    returns (k: nat)
    requires ValidConfig(cfg)
    requires i < |Run(cfg, sha, Initial(start), events).records|
    ensures AuthorisedAt(cfg, sha, start, events, k, Run(cfg, sha, Initial(start), events).records[i])
    decreases |events|
  {
    var before, e := events[..|events| - 1], events[|events| - 1];
    assert events == before + [e];
    var r := Run(cfg, sha, Initial(start), events).records[i];
    LastCallAuthorises(cfg, sha, start, before, e, i);
    if AuthorisedAt(cfg, sha, start, before + [e], |before|, r) {
      k := |before|;
    } else {
      k := RecordsAreAuthorised(cfg, sha, start, before, i);
      AuthorityStands(cfg, sha, start, before, e, k, r);
    }
  }

  // ---------------------------------------------------------------- where the jobs come from

  // The accepted call that put a job on the books, against a provider with stake.
  predicate Opens(cfg: Config, s: State, e: Event, job: JobId, t: State) {
    && job in t.escrows && Active(cfg, s, t.escrows[job].provider) && t.escrows[job].amount > 0
    && e == DoOpenEscrow(job, t.escrows[job].requester, t.escrows[job].provider, t.escrows[job].amount)
  }

  // The accepted call of the awarded provider that committed it.
  predicate CommitsTo(s: State, e: Event, job: JobId, t: State) {
    && job in s.escrows && s.escrows[job].state.Open? && job in t.commitments
    && var c := t.commitments[job];
       && e == DoRecordCommitment(job, s.escrows[job].provider, c.outputHash, c.blobRef, c.merkleRoot, c.leafIndex)
       && c.provider == s.escrows[job].provider && DigestText(c.outputHash)
       && (c.merkleRoot == "" || DigestText(c.merkleRoot)) && c.leafIndex >= 0
  }

  // No other call adds a job or a commitment.
  predicate AddsJobsHonestly(cfg: Config, s: State, e: Event, outcome: Outcome) {
    && (forall job :: job in outcome.state.escrows && job !in s.escrows ==>
          outcome.Accepted() && Opens(cfg, s, e, job, outcome.state))
    && (forall job :: job in outcome.state.commitments && job !in s.commitments ==>
          outcome.Accepted() && CommitsTo(s, e, job, outcome.state))
  }

  lemma PunishAddsNoJob(cfg: Config, s: State, job: JobId, reporter: Account, kind: Resolution,
                        slashed: nat, reward: nat)
    requires job in s.commitments && job in s.escrows
    requires reward <= slashed <= Collateral(s, s.commitments[job].provider)
    ensures var t := Punish(cfg, s, job, reporter, kind, slashed, reward);
            t.escrows.Keys == s.escrows.Keys && t.commitments.Keys == s.commitments.Keys
  {
    var s0 := Resolve(s, job, kind);
    var s1 := Slash(s0, s.commitments[job].provider, slashed);
    SlashKeepsJobs(s0, s.commitments[job].provider, slashed);
    DistributeKeepsJobs(s1, reporter, cfg.treasury, slashed, reward);
    CloseAddsNoJob(Distribute(s1, reporter, cfg.treasury, slashed, reward), job, Slashed);
  }

  lemma CloseAddsNoJob(s: State, job: JobId, state: EscrowState)
    requires job in s.escrows
    ensures Close(s, job, state).escrows.Keys == s.escrows.Keys && Close(s, job, state).commitments == s.commitments
  {
  }

  lemma FraudAddsNoJob(cfg: Config, s: State, job: JobId, reporter: Account, kind: Resolution)
    requires ValidConfig(cfg) && job in s.commitments
    ensures var t := ConfirmFraud(cfg, s, job, reporter, kind).state;
            t.escrows.Keys == s.escrows.Keys && t.commitments.Keys == s.commitments.Keys
  {
    if ConfirmFraud(cfg, s, job, reporter, kind).Accepted() {
      var slashed := Min(s.escrows[job].amount, Collateral(s, s.commitments[job].provider));
      PunishAddsNoJob(cfg, s, job, reporter, kind, slashed, Reward(cfg, slashed));
    }
  }

  lemma ChallengeAddsNoJob(cfg: Config, sha: Hash, s: State, e: Event)
    requires ValidConfig(cfg) && (e.DoSubmitVerdict? || e.DoProveMismatch?)
    ensures var t := Apply(cfg, sha, s, e).state;
            t.escrows.Keys == s.escrows.Keys && t.commitments.Keys == s.commitments.Keys
  {
    if e.job in s.commitments {
      if e.DoSubmitVerdict? {
        var s' := s.(verdicts := s.verdicts[e.job := VerdictEntry(e.validator, e.verdict, e.score, e.reason)]);
        FraudAddsNoJob(cfg, s', e.job, e.validator, ValidatorVerdict);
      } else {
        FraudAddsNoJob(cfg, s, e.job, e.reporter, DataMismatch);
      }
    }
  }

  lemma OpeningAddsEscrow(cfg: Config, sha: Hash, s: State, e: Event)
    requires ValidConfig(cfg) && e.DoOpenEscrow?
    ensures AddsJobsHonestly(cfg, s, e, Apply(cfg, sha, s, e))
  {
    ActiveExactlyWhen(cfg, s, e.provider);
  }

  lemma CommittingAddsCommitment(cfg: Config, sha: Hash, s: State, e: Event)
    requires ValidConfig(cfg) && e.DoRecordCommitment?
    ensures AddsJobsHonestly(cfg, s, e, Apply(cfg, sha, s, e))
  {
    DigestExactlyWhen(e.outputHash);
    DigestExactlyWhen(e.merkleRoot);
  }

  lemma OthersAddNoJob(cfg: Config, sha: Hash, s: State, e: Event)
    requires ValidConfig(cfg) && !e.DoOpenEscrow? && !e.DoRecordCommitment?
    ensures var t := Apply(cfg, sha, s, e).state;
            t.escrows.Keys == s.escrows.Keys && t.commitments.Keys == s.commitments.Keys
  {
    if e.DoSubmitVerdict? || e.DoProveMismatch? {
      ChallengeAddsNoJob(cfg, sha, s, e);
    } else if e.DoRelease? {
      ReleaseAddsNoJob(s, e.job);
    } else if e.DoCancel? {
      CancelAddsNoJob(cfg, s, e.job, e.requester);
    }
  }

  lemma ReleaseAddsNoJob(s: State, job: JobId)
    ensures var t := Release(s, job).state; t.escrows.Keys == s.escrows.Keys && t.commitments == s.commitments
  {
    if job in s.escrows {
      CloseAddsNoJob(s, job, Settled);
    }
  }

  lemma CancelAddsNoJob(cfg: Config, s: State, job: JobId, requester: Account)
    ensures var t := Cancel(cfg, s, job, requester).state;
            t.escrows.Keys == s.escrows.Keys && t.commitments == s.commitments
  {
    if job in s.escrows {
      CloseAddsNoJob(s, job, Refunded);
    }
  }

  lemma StepAddsJobs(cfg: Config, sha: Hash, s: State, e: Event)
    requires ValidConfig(cfg)
    ensures AddsJobsHonestly(cfg, s, e, Apply(cfg, sha, s, e))
  {
    if e.DoOpenEscrow? {
      OpeningAddsEscrow(cfg, sha, s, e);
    } else if e.DoRecordCommitment? {
      CommittingAddsCommitment(cfg, sha, s, e);
    } else {
      OthersAddNoJob(cfg, sha, s, e);
      SameKeysAddNothing(cfg, s, e, Apply(cfg, sha, s, e));
    }
  }

  lemma SameKeysAddNothing(cfg: Config, s: State, e: Event, outcome: Outcome)
    requires outcome.state.escrows.Keys == s.escrows.Keys && outcome.state.commitments.Keys == s.commitments.Keys
    ensures AddsJobsHonestly(cfg, s, e, outcome)
  {
    forall job | job in outcome.state.escrows.Keys ensures job in s.escrows {
    }
    forall job | job in outcome.state.commitments.Keys ensures job in s.commitments {
    }
  }

  predicate OpenedAt(cfg: Config, sha: Hash, start: int, events: seq<Event>, k: nat, job: JobId)
    requires ValidConfig(cfg)
  {
    && k < |events|
    && var s := Run(cfg, sha, Initial(start), events[..k]);
       var outcome := Apply(cfg, sha, s, events[k]);
       outcome.Accepted() && Opens(cfg, s, events[k], job, outcome.state)
  }

  predicate CommittedAt(cfg: Config, sha: Hash, start: int, events: seq<Event>, k: nat, job: JobId)
    requires ValidConfig(cfg)
  {
    && k < |events|
    && var s := Run(cfg, sha, Initial(start), events[..k]);
       var outcome := Apply(cfg, sha, s, events[k]);
       outcome.Accepted() && CommitsTo(s, events[k], job, outcome.state)
  }

  lemma OriginsStand(cfg: Config, sha: Hash, start: int, events: seq<Event>, e: Event, k: nat, job: JobId)
    requires ValidConfig(cfg)
    ensures OpenedAt(cfg, sha, start, events, k, job) ==> OpenedAt(cfg, sha, start, events + [e], k, job)
    ensures CommittedAt(cfg, sha, start, events, k, job) ==> CommittedAt(cfg, sha, start, events + [e], k, job)
  {
    if k < |events| {
      assert (events + [e])[..k] == events[..k];
    }
  }

  lemma {:induction false} LastCallOpens(cfg: Config, sha: Hash, start: int, before: seq<Event>, e: Event, job: JobId)
    requires ValidConfig(cfg)
    ensures var s, t := Run(cfg, sha, Initial(start), before), Run(cfg, sha, Initial(start), before + [e]);
            && (job in t.escrows ==> job in s.escrows || OpenedAt(cfg, sha, start, before + [e], |before|, job))
            && (job in t.commitments ==>
                  job in s.commitments || CommittedAt(cfg, sha, start, before + [e], |before|, job))
  {
    var s := Run(cfg, sha, Initial(start), before);
    RunAppend(cfg, sha, Initial(start), before, e);
    StepAddsJobs(cfg, sha, s, e);
    assert (before + [e])[..|before|] == before;
  }

  // Every escrow was opened, with its amount, by an accepted call against a provider that
  // was active then.
  lemma {:induction false} EscrowsWereOpened(cfg: Config, sha: Hash, start: int, events: seq<Event>, job: JobId)
    returns (k: nat)
    requires ValidConfig(cfg) && job in Run(cfg, sha, Initial(start), events).escrows
    ensures OpenedAt(cfg, sha, start, events, k, job)
    decreases |events|
  {
    var before, e := events[..|events| - 1], events[|events| - 1];
    assert events == before + [e];
    LastCallOpens(cfg, sha, start, before, e, job);
    if job in Run(cfg, sha, Initial(start), before).escrows {
      k := EscrowsWereOpened(cfg, sha, start, before, job);
      OriginsStand(cfg, sha, start, before, e, k, job);
    } else {
      k := |before|;
    }
  }

  // Every commitment was made by an accepted call of the awarded provider, on an escrow
  // that was open, with well-formed digests.
  lemma {:induction false} CommitmentsWereMade(cfg: Config, sha: Hash, start: int, events: seq<Event>, job: JobId)
    returns (k: nat)
    requires ValidConfig(cfg) && job in Run(cfg, sha, Initial(start), events).commitments
    ensures CommittedAt(cfg, sha, start, events, k, job)
    decreases |events|
  {
    var before, e := events[..|events| - 1], events[|events| - 1];
    assert events == before + [e];
    LastCallOpens(cfg, sha, start, before, e, job);
    if job in Run(cfg, sha, Initial(start), before).commitments {
      k := CommitmentsWereMade(cfg, sha, start, before, job);
      OriginsStand(cfg, sha, start, before, e, k, job);
    } else {
      k := |before|;
    }
  }
}
