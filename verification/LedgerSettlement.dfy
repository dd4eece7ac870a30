// Every job is settled once: edgegrid/ledger.py, `record_commitment`, `release`,
// `cancel`, `submit_verdict`, `prove_data_mismatch`, `_confirm_fraud`, `_record`.

module LedgerSettlement {
  import opened ByteStrings
  import opened LedgerGuards
  import opened LedgerModel
  import opened MerkleProof

  // ---------------------------------------------------------------- what every state keeps

  predicate Committed(state: EscrowState) { state.Awaiting? || state.Settled? || state.Slashed? }

  predicate CommitmentFits(c: Commitment, e: Escrow) {
    && c.jobId == e.jobId && c.provider == e.provider && c.deadline == e.deadline
    && (c.resolved <==> e.state.Slashed?)
    && (c.resolution.Unresolved? <==> !c.resolved)
  }

  // A commitment exists exactly for the escrows that are awaiting, settled or slashed,
  // and it is resolved exactly when the escrow is slashed. Nothing is settled early.
  ghost predicate Lifecycle(s: State) {
    && (forall job :: job in s.escrows ==> s.escrows[job].jobId == job)
    && (forall job :: job in s.commitments <==> job in s.escrows && Committed(s.escrows[job].state))
    && (forall job :: job in s.commitments ==> CommitmentFits(s.commitments[job], s.escrows[job]))
    && (forall job :: job in s.escrows && s.escrows[job].state.Settled? ==> s.escrows[job].deadline <= s.now)
  }

  // The one record of a closed escrow: the whole amount to one party, a slash only on
  // fraud, and the reason that belongs to the final state.
  predicate RecordFits(r: Record, e: Escrow) {
    && r.jobId == e.jobId && r.provider == e.provider && r.requester == e.requester
    && r.amount == e.amount && r.state == e.state && r.deadline == e.deadline
    && match e.state
       case Settled => r.payout == r.amount && r.refund == 0 && r.slash == 0 && r.resolution == WindowElapsed
       case Refunded => r.payout == 0 && r.refund == r.amount && r.slash == 0 && r.resolution == AwardTimeout
       case Slashed =>
         && r.payout == 0 && r.refund == r.amount && 0 <= r.slash <= r.amount
         && (r.fullyCovered <==> r.slash == r.amount)
         && 0 <= r.reward && 0 <= r.treasury && r.reward + r.treasury == r.slash
         && (r.resolution.DataMismatch? || r.resolution.ValidatorVerdict?)
       case _ => false
  }

  ghost predicate Recorded(records: seq<Record>, job: JobId) {
    exists i :: 0 <= i < |records| && records[i].jobId == job
  }

  ghost predicate OneRecordEach(s: State) {
    && (forall i :: 0 <= i < |s.records| ==>
          s.records[i].jobId in s.escrows && RecordFits(s.records[i], s.escrows[s.records[i].jobId]))
    && (forall job :: job in s.escrows && Closed(s.escrows[job].state) ==> Recorded(s.records, job))
    && (forall i, k :: 0 <= i < k < |s.records| ==> s.records[i].jobId != s.records[k].jobId)
  }

  // ---------------------------------------------------------------- what an operation may change

  predicate SameJobs(s: State, t: State) {
    s.escrows == t.escrows && s.commitments == t.commitments && s.records == t.records && s.now <= t.now
  }

  predicate NextState(a: EscrowState, b: EscrowState) {
    || a == b
    || (a.Open? && !b.Open?)
    || (a.Awaiting? && (b.Settled? || b.Slashed?))
  }

  // The deal of an escrow never changes, a closed escrow never changes at all, and
  // records are only ever appended.
  ghost predicate Progress(s: State, t: State) {
    && (forall job :: job in s.escrows ==>
          && job in t.escrows
          && t.escrows[job] == s.escrows[job].(state := t.escrows[job].state, deadline := t.escrows[job].deadline)
          && NextState(s.escrows[job].state, t.escrows[job].state)
          && (s.escrows[job].state == t.escrows[job].state ==> s.escrows[job] == t.escrows[job]))
    && (forall job :: job in s.commitments ==>
          && job in t.commitments
          && t.commitments[job] == s.commitments[job].(resolved := t.commitments[job].resolved,
                                                       resolution := t.commitments[job].resolution))
    && s.records <= t.records
  }

  lemma ProgressTransitive(s: State, t: State, u: State)
    requires Progress(s, t) && Progress(t, u)
    ensures Progress(s, u)
  {
  }

  // ---------------------------------------------------------------- closing an escrow

  predicate ClosesTo(s: State, t: State, job: JobId, r: Record) {
    && job in s.escrows
    && t.escrows == s.escrows[job := s.escrows[job].(state := r.state)]
    && t.records == s.records + [r]
    && RecordFits(r, t.escrows[job])
  }

  lemma ClosingKeepsRecords(s: State, t: State, job: JobId, r: Record)
    requires Lifecycle(s) && OneRecordEach(s)
    requires ClosesTo(s, t, job, r) && !Closed(s.escrows[job].state)
    ensures OneRecordEach(t)
  {
    forall i | 0 <= i < |t.records|
      ensures t.records[i].jobId in t.escrows && RecordFits(t.records[i], t.escrows[t.records[i].jobId])
    {
      if i < |s.records| {
        assert t.records[i] == s.records[i];
      }
    }
    forall j | j in t.escrows && Closed(t.escrows[j].state) ensures Recorded(t.records, j) {
      if j == job {
        assert t.records[|s.records|].jobId == job;
      } else {
        var i :| 0 <= i < |s.records| && s.records[i].jobId == j;
        assert t.records[i].jobId == j;
      }
    }
  }

  lemma CreditKeepsJobs(s: State, account: Account, wei: nat)
    ensures SameJobs(s, Credit(s, account, wei)) && Credit(s, account, wei).now == s.now
  {
  }

  lemma ReleaseCloses(s: State, job: JobId)
    requires Lifecycle(s) && Release(s, job).Accepted()
    ensures var t := Release(s, job).state;
            |t.records| > 0 && ClosesTo(s, t, job, t.records[|t.records| - 1]) && t.escrows[job].state.Settled?
            && t.commitments == s.commitments && t.now == s.now
  {
  }

  lemma CancelCloses(cfg: Config, s: State, job: JobId, requester: Account)
    requires Lifecycle(s) && Cancel(cfg, s, job, requester).Accepted()
    ensures var t := Cancel(cfg, s, job, requester).state;
            |t.records| > 0 && ClosesTo(s, t, job, t.records[|t.records| - 1]) && t.escrows[job].state.Refunded?
            && t.commitments == s.commitments && t.now == s.now
  {
  }

  lemma SlashKeepsJobs(s: State, provider: Account, slashed: nat)
    requires slashed <= Collateral(s, provider)
    ensures SameJobs(s, Slash(s, provider, slashed)) && Slash(s, provider, slashed).now == s.now
  {
  }

  lemma DistributeKeepsJobs(s: State, reporter: Account, treasury: Account, slashed: nat, reward: nat)
    requires reward <= slashed
    ensures var t := Distribute(s, reporter, treasury, slashed, reward); SameJobs(s, t) && t.now == s.now
  {
    CreditKeepsJobs(s, reporter, reward);
    CreditKeepsJobs(Credit(s, reporter, reward), treasury, slashed - reward);
  }

  lemma FraudRecord(s: State, job: JobId, slashed: nat, reward: nat, kind: Resolution, reporter: Account)
    requires job in s.escrows && s.escrows[job].jobId == job && reward <= slashed <= s.escrows[job].amount
    requires kind.DataMismatch? || kind.ValidatorVerdict?
    ensures var t := AddRecord(Close(s, job, Slashed), job, slashed, reward, kind, reporter);
            && |t.records| > 0 && ClosesTo(s, t, job, t.records[|t.records| - 1]) && t.escrows[job].state.Slashed?
            && t.records[|t.records| - 1].resolution == kind
            && t.records[|t.records| - 1].slash == slashed
            && t.commitments == s.commitments && t.now == s.now
  {
  }

  lemma PunishCloses(cfg: Config, s: State, job: JobId, reporter: Account, kind: Resolution, slashed: nat, reward: nat)
    requires Lifecycle(s) && job in s.commitments && s.escrows[job].state.Awaiting?
    requires kind.DataMismatch? || kind.ValidatorVerdict?
    requires reward <= slashed <= Collateral(s, s.commitments[job].provider) && slashed <= s.escrows[job].amount
    ensures var t := Punish(cfg, s, job, reporter, kind, slashed, reward);
            && |t.records| > 0 && ClosesTo(s, t, job, t.records[|t.records| - 1]) && t.escrows[job].state.Slashed?
            && t.records[|t.records| - 1].resolution == kind
            && t.records[|t.records| - 1].slash == slashed
            && t.commitments == s.commitments[job := s.commitments[job].(resolved := true, resolution := kind)]
            && t.now == s.now
  {
    var s0 := Resolve(s, job, kind);
    var s1 := Slash(s0, s.commitments[job].provider, slashed);
    var s2 := Distribute(s1, reporter, cfg.treasury, slashed, reward);
    SlashKeepsJobs(s0, s.commitments[job].provider, slashed);
    DistributeKeepsJobs(s1, reporter, cfg.treasury, slashed, reward);
    assert s2.escrows == s.escrows && s2.records == s.records && s2.commitments == s0.commitments;
    FraudRecord(s2, job, slashed, reward, kind, reporter);
  }

  // ---------------------------------------------------------------- every operation

  ghost predicate Settling(s: State) { Lifecycle(s) && OneRecordEach(s) }

  lemma SameJobsSettle(s: State, t: State)
    requires Settling(s) && SameJobs(s, t)
    ensures Settling(t) && Progress(s, t)
  {
  }

  lemma PunishSettles(cfg: Config, s: State, job: JobId, reporter: Account, kind: Resolution, slashed: nat, reward: nat)
    requires Settling(s) && job in s.commitments && s.escrows[job].state.Awaiting?
    requires kind.DataMismatch? || kind.ValidatorVerdict?
    requires reward <= slashed <= Collateral(s, s.commitments[job].provider) && slashed <= s.escrows[job].amount
    ensures var t := Punish(cfg, s, job, reporter, kind, slashed, reward);
            Settling(t) && Progress(s, t) && t.escrows[job].state.Slashed?
  {
    PunishCloses(cfg, s, job, reporter, kind, slashed, reward);
    var t := Punish(cfg, s, job, reporter, kind, slashed, reward);
    ClosingKeepsRecords(s, t, job, t.records[|t.records| - 1]);
    FraudSettles(s, t, job, kind);
  }

  lemma FraudSettles(s: State, t: State, job: JobId, kind: Resolution)
    requires Lifecycle(s) && job in s.commitments && s.escrows[job].state.Awaiting? && !kind.Unresolved?
    requires t.escrows == s.escrows[job := s.escrows[job].(state := Slashed)]
    requires s.records <= t.records && t.now == s.now
    requires t.commitments == s.commitments[job := s.commitments[job].(resolved := true, resolution := kind)]
    ensures Lifecycle(t) && Progress(s, t)
  {
  }

  lemma ConfirmFraudSettles(cfg: Config, s: State, job: JobId, reporter: Account, kind: Resolution)
    requires ValidConfig(cfg) && Settling(s) && job in s.commitments
    requires kind.DataMismatch? || kind.ValidatorVerdict?
    ensures var outcome := ConfirmFraud(cfg, s, job, reporter, kind);
            && Settling(outcome.state) && Progress(s, outcome.state)
            && (outcome.Accepted() <==> s.escrows[job].state.Awaiting?)
            && (outcome.Accepted() ==> outcome.state.escrows[job].state.Slashed?)
  {
    if s.escrows[job].state.Awaiting? {
      var slashed := Min(s.escrows[job].amount, Collateral(s, s.commitments[job].provider));
      PunishSettles(cfg, s, job, reporter, kind, slashed, Reward(cfg, slashed));
    }
  }

  // What an escrow that closes without a challenge leaves behind.
  lemma ClosingSettles(s: State, t: State, job: JobId)
    requires Settling(s) && |t.records| > 0 && ClosesTo(s, t, job, t.records[|t.records| - 1])
    requires t.commitments == s.commitments && t.now == s.now
    requires || (s.escrows[job].state.Awaiting? && t.escrows[job].state.Settled?)
             || (s.escrows[job].state.Open? && t.escrows[job].state.Refunded?)
    requires t.escrows[job].state.Settled? ==> t.escrows[job].deadline <= t.now
    ensures Settling(t) && Progress(s, t)
  {
    ClosingKeepsRecords(s, t, job, t.records[|t.records| - 1]);
    ClosingKeepsLifecycle(s, t, job, t.escrows[job]);
  }

  lemma ClosingKeepsLifecycle(s: State, t: State, job: JobId, e: Escrow)
    requires Lifecycle(s) && job in s.escrows && t.escrows == s.escrows[job := e] && s.records <= t.records
    requires e == s.escrows[job].(state := e.state) && t.commitments == s.commitments && t.now == s.now
    requires || (s.escrows[job].state.Awaiting? && e.state.Settled? && e.deadline <= t.now)
             || (s.escrows[job].state.Open? && e.state.Refunded?)
    ensures Lifecycle(t) && Progress(s, t)
  {
  }

  lemma ReleaseSettles(s: State, job: JobId)
    requires Settling(s)
    ensures Settling(Release(s, job).state) && Progress(s, Release(s, job).state)
  {
    if Release(s, job).Accepted() {
      ReleaseCloses(s, job);
      ClosingSettles(s, Release(s, job).state, job);
    } else {
      SameJobsSettle(s, s);
    }
  }

  lemma CancelSettles(cfg: Config, s: State, job: JobId, requester: Account)
    requires Settling(s)
    ensures Settling(Cancel(cfg, s, job, requester).state) && Progress(s, Cancel(cfg, s, job, requester).state)
  {
    if Cancel(cfg, s, job, requester).Accepted() {
      CancelCloses(cfg, s, job, requester);
      ClosingSettles(s, Cancel(cfg, s, job, requester).state, job);
    } else {
      SameJobsSettle(s, s);
    }
  }

  lemma HeldEntryKeepsRecords(s: State, t: State, job: JobId, e: Escrow)
    requires OneRecordEach(s) && t.records == s.records
    requires t.escrows == s.escrows[job := e] && !Closed(e.state)
    requires job in s.escrows ==> !Closed(s.escrows[job].state)
    ensures OneRecordEach(t)
  {
    forall i | 0 <= i < |t.records|
      ensures t.records[i].jobId in t.escrows && RecordFits(t.records[i], t.escrows[t.records[i].jobId])
    {
      assert s.records[i].jobId in s.escrows && RecordFits(s.records[i], s.escrows[s.records[i].jobId]);
    }
  }

  lemma OpeningSettles(cfg: Config, s: State, job: JobId, requester: Account, provider: Account, wei: nat)
    requires Settling(s)
    ensures Settling(OpenEscrow(cfg, s, job, requester, provider, wei).state)
    ensures Progress(s, OpenEscrow(cfg, s, job, requester, provider, wei).state)
  {
    var t := OpenEscrow(cfg, s, job, requester, provider, wei).state;
    if OpenEscrow(cfg, s, job, requester, provider, wei).Accepted() {
      HeldEntryKeepsRecords(s, t, job, t.escrows[job]);
      OpeningKeepsLifecycle(s, t, job, t.escrows[job]);
    }
  }

  lemma OpeningKeepsLifecycle(s: State, t: State, job: JobId, e: Escrow)
    requires Lifecycle(s) && job !in s.escrows && e.state.Open? && e.jobId == job
    requires t.escrows == s.escrows[job := e] && t.commitments == s.commitments
    requires t.records == s.records && t.now == s.now
    ensures Lifecycle(t) && Progress(s, t)
  {
  }

  lemma CommittingKeepsLifecycle(s: State, t: State, job: JobId, c: Commitment, e: Escrow)
    requires Lifecycle(s) && job in s.escrows && s.escrows[job].state.Open? && s.records <= t.records && t.now == s.now
    requires t.escrows == s.escrows[job := e] && t.commitments == s.commitments[job := c]
    requires e == s.escrows[job].(state := Awaiting, deadline := e.deadline) && CommitmentFits(c, e)
    ensures Lifecycle(t) && Progress(s, t)
  {
  }

  // What an accepted commitment changes.
  lemma CommitmentChanges(cfg: Config, s: State, job: JobId, provider: Account, outputHash: string,
                          blobRef: string, merkleRoot: string, leafIndex: int)
    requires Lifecycle(s)
    requires RecordCommitment(cfg, s, job, provider, outputHash, blobRef, merkleRoot, leafIndex).Accepted()
    ensures var t := RecordCommitment(cfg, s, job, provider, outputHash, blobRef, merkleRoot, leafIndex).state;
            && job in s.escrows && s.escrows[job].state.Open? && job in t.escrows && job in t.commitments
            && t.records == s.records && t.now == s.now
            && t.escrows == s.escrows[job := t.escrows[job]]
            && t.commitments == s.commitments[job := t.commitments[job]]
            && t.escrows[job] == s.escrows[job].(state := Awaiting, deadline := t.escrows[job].deadline)
            && CommitmentFits(t.commitments[job], t.escrows[job])
  {
  }

  lemma CommitmentSettles(cfg: Config, s: State, job: JobId, provider: Account, outputHash: string,
                          blobRef: string, merkleRoot: string, leafIndex: int)
    requires Settling(s)
    ensures Settling(RecordCommitment(cfg, s, job, provider, outputHash, blobRef, merkleRoot, leafIndex).state)
    ensures Progress(s, RecordCommitment(cfg, s, job, provider, outputHash, blobRef, merkleRoot, leafIndex).state)
  {
    var outcome := RecordCommitment(cfg, s, job, provider, outputHash, blobRef, merkleRoot, leafIndex);
    if outcome.Accepted() {
      CommitmentChanges(cfg, s, job, provider, outputHash, blobRef, merkleRoot, leafIndex);
      CommittingSettles(s, outcome.state, job);
    } else {
      SameJobsSettle(s, outcome.state);
    }
  }

  lemma CommittingSettles(s: State, t: State, job: JobId)
    requires Settling(s) && job in s.escrows && s.escrows[job].state.Open?
    requires job in t.escrows && job in t.commitments && t.records == s.records && t.now == s.now
    requires t.escrows == s.escrows[job := t.escrows[job]] && t.commitments == s.commitments[job := t.commitments[job]]
    requires t.escrows[job] == s.escrows[job].(state := Awaiting, deadline := t.escrows[job].deadline)
    requires CommitmentFits(t.commitments[job], t.escrows[job])
    ensures Settling(t) && Progress(s, t)
  {
    HeldEntryKeepsRecords(s, t, job, t.escrows[job]);
    CommittingKeepsLifecycle(s, t, job, t.commitments[job], t.escrows[job]);
  }

  lemma VerdictSettles(cfg: Config, s: State, e: Event)
    requires ValidConfig(cfg) && Settling(s) && e.DoSubmitVerdict?
    ensures var t := SubmitVerdict(cfg, s, e.job, e.validator, e.verdict, e.score, e.reason).state;
            Settling(t) && Progress(s, t)
  {
    var t := SubmitVerdict(cfg, s, e.job, e.validator, e.verdict, e.score, e.reason).state;
    var s' := s.(verdicts := s.verdicts[e.job := VerdictEntry(e.validator, e.verdict, e.score, e.reason)]);
    SameJobsSettle(s, s');
    if t == s || t == s' {
      SameJobsSettle(s, t);
    } else {
      ConfirmFraudSettles(cfg, s', e.job, e.validator, ValidatorVerdict);
      ProgressTransitive(s, s', t);
    }
  }

  // The operations that are not about a job.
  predicate Unrelated(e: Event) {
    match e
    case DoOpenEscrow(_, _, _, _) => false
    case DoRecordCommitment(_, _, _, _, _, _) => false
    case DoRelease(_) => false
    case DoCancel(_, _) => false
    case DoSubmitVerdict(_, _, _, _, _) => false
    case DoProveMismatch(_, _, _, _) => false
    case _ => true
  }

  lemma UnrelatedKeepsJobs(cfg: Config, sha: Hash, s: State, e: Event)
    requires ValidConfig(cfg) && Unrelated(e)
    ensures SameJobs(s, Apply(cfg, sha, s, e).state)
  {
  }

  lemma ProofSettles(cfg: Config, sha: Hash, s: State, e: Event)
    requires ValidConfig(cfg) && Settling(s) && e.DoProveMismatch?
    ensures var t := ProveMismatch(cfg, sha, s, e.job, e.blob, e.reporter, e.proof).state;
            Settling(t) && Progress(s, t)
  {
    var t := ProveMismatch(cfg, sha, s, e.job, e.blob, e.reporter, e.proof).state;
    if t == s {
      SameJobsSettle(s, s);
    } else {
      assert e.job in s.commitments && t == ConfirmFraud(cfg, s, e.job, e.reporter, DataMismatch).state;
      ConfirmFraudSettles(cfg, s, e.job, e.reporter, DataMismatch);
    }
  }

  lemma StepSettles(cfg: Config, sha: Hash, s: State, e: Event)
    requires ValidConfig(cfg) && Settling(s)
    ensures Settling(Apply(cfg, sha, s, e).state) && Progress(s, Apply(cfg, sha, s, e).state)
  {
    match e {
      case DoOpenEscrow(job, requester, provider, wei) => OpeningSettles(cfg, s, job, requester, provider, wei);
      case DoRecordCommitment(job, provider, outputHash, blobRef, merkleRoot, leafIndex) =>
        CommitmentSettles(cfg, s, job, provider, outputHash, blobRef, merkleRoot, leafIndex);
      case DoRelease(job) => ReleaseSettles(s, job);
      case DoCancel(job, requester) => CancelSettles(cfg, s, job, requester);
      case DoSubmitVerdict(_, _, _, _, _) => VerdictSettles(cfg, s, e);
      case DoProveMismatch(_, _, _, _) => ProofSettles(cfg, sha, s, e);
      case _ =>
        UnrelatedKeepsJobs(cfg, sha, s, e);
        SameJobsSettle(s, Apply(cfg, sha, s, e).state);
    }
  }

  // Over any run: every commitment belongs to an escrow that was committed, every
  // closed escrow has its one record, and nothing closed ever changes again.
  lemma {:induction false} RunsSettleOnce(cfg: Config, sha: Hash, s: State, events: seq<Event>)
    requires ValidConfig(cfg) && Settling(s)
    ensures Settling(Run(cfg, sha, s, events)) && Progress(s, Run(cfg, sha, s, events))
    decreases |events|
  {
    if events != [] {
      var before := events[..|events| - 1];
      RunsSettleOnce(cfg, sha, s, before);
      var middle := Run(cfg, sha, s, before);
      StepSettles(cfg, sha, middle, events[|events| - 1]);
      ProgressTransitive(s, middle, Run(cfg, sha, s, events));
    }
  }

  lemma {:induction false} SettlementHolds(cfg: Config, sha: Hash, start: int, events: seq<Event>)
    requires ValidConfig(cfg)
    ensures Settling(Run(cfg, sha, Initial(start), events))
  {
    RunsSettleOnce(cfg, sha, Initial(start), events);
  }

  // ---------------------------------------------------------------- only the first call pays

  // Everything but the verdict that a validator left behind.
  predicate SameMoney(s: State, t: State) {
    t == s.(verdicts := t.verdicts)
  }

  predicate Concerns(e: Event, job: JobId) {
    match e
    case DoOpenEscrow(j, _, _, _) => j == job
    case DoRecordCommitment(j, _, _, _, _, _) => j == job
    case DoRelease(j) => j == job
    case DoCancel(j, _) => j == job
    case DoSubmitVerdict(j, _, _, _, _) => j == job
    case DoProveMismatch(j, _, _, _) => j == job
    case _ => false
  }

  // No call about a closed job moves anything.
  lemma ClosedJobsAreFinal(cfg: Config, sha: Hash, s: State, job: JobId, e: Event)
    requires ValidConfig(cfg) && Lifecycle(s)
    requires job in s.escrows && Closed(s.escrows[job].state) && Concerns(e, job)
    ensures SameMoney(s, Apply(cfg, sha, s, e).state)
  {
  }

  predicate AtDeadline(s: State, job: JobId) {
    job in s.escrows && s.escrows[job].state.Awaiting? && s.now == s.escrows[job].deadline
  }

  // No call of `later` about the job moves anything, from the state `t` on.
  predicate QuietAbout(cfg: Config, sha: Hash, t: State, job: JobId, later: seq<Event>)
    requires ValidConfig(cfg)
  {
    |later| == 0 ||
    var before, last := later[..|later| - 1], later[|later| - 1];
    var s := Run(cfg, sha, t, before);
    QuietAbout(cfg, sha, t, job, before) && (Concerns(last, job) ==> SameMoney(s, Apply(cfg, sha, s, last).state))
  }

  lemma {:induction false} ClosedStaysQuiet(cfg: Config, sha: Hash, t: State, job: JobId, later: seq<Event>)
    requires ValidConfig(cfg) && Settling(t) && job in t.escrows && Closed(t.escrows[job].state)
    ensures QuietAbout(cfg, sha, t, job, later)
    ensures job in Run(cfg, sha, t, later).escrows && Run(cfg, sha, t, later).escrows[job] == t.escrows[job]
    decreases |later|
  {
    RunsSettleOnce(cfg, sha, t, later);
    if |later| > 0 {
      var before, last := later[..|later| - 1], later[|later| - 1];
      ClosedStaysQuiet(cfg, sha, t, job, before);
      RunsSettleOnce(cfg, sha, t, before);
      if Concerns(last, job) {
        ClosedJobsAreFinal(cfg, sha, Run(cfg, sha, t, before), job, last);
      }
    }
  }

  // At the deadline itself both guards are open: the provider could be paid and it could
  // be slashed. Whichever call runs first closes the job, and whatever is called after it,
  // no call about the job moves anything.
  lemma {:induction false} DeadlineReleaseFirst(cfg: Config, sha: Hash, s: State, job: JobId, later: seq<Event>)
    requires ValidConfig(cfg) && Settling(s) && AtDeadline(s, job)
    ensures var t := Release(s, job);
            && t.Accepted() && t.state.escrows[job].state.Settled?
            && QuietAbout(cfg, sha, t.state, job, later)
  {
    ReleaseSettles(s, job);
    ReleaseCloses(s, job);
    ClosedStaysQuiet(cfg, sha, Release(s, job).state, job, later);
  }

  lemma {:induction false} FraudQuiets(cfg: Config, sha: Hash, s: State, job: JobId, reporter: Account,
                                       kind: Resolution, later: seq<Event>)
    requires ValidConfig(cfg) && Settling(s) && job in s.commitments && s.escrows[job].state.Awaiting?
    requires kind.DataMismatch? || kind.ValidatorVerdict?
    ensures var t := ConfirmFraud(cfg, s, job, reporter, kind);
            && t.Accepted() && job in t.state.escrows && t.state.escrows[job].state.Slashed?
            && QuietAbout(cfg, sha, t.state, job, later)
  {
    ConfirmFraudSettles(cfg, s, job, reporter, kind);
    ClosedStaysQuiet(cfg, sha, ConfirmFraud(cfg, s, job, reporter, kind).state, job, later);
  }

  lemma {:induction false} DeadlineSlashFirst(cfg: Config, sha: Hash, s: State, job: JobId, validator: Account,
                                              score: int, reason: string, later: seq<Event>)
    requires ValidConfig(cfg) && Settling(s) && AtDeadline(s, job)
    requires validator in s.validators && IsActive(cfg, s, validator)
    ensures var t := SubmitVerdict(cfg, s, job, validator, Fail, score, reason);
            && t.Accepted() && job in t.state.escrows && t.state.escrows[job].state.Slashed?
            && QuietAbout(cfg, sha, t.state, job, later)
  {
    assert ChallengeError(s, job).None?;
    var s' := s.(verdicts := s.verdicts[job := VerdictEntry(validator, Fail, score, reason)]);
    SameJobsSettle(s, s');
    FraudQuiets(cfg, sha, s', job, validator, ValidatorVerdict, later);
  }

  // The same for a mismatch proven in that millisecond.
  lemma {:induction false} DeadlineProofFirst(cfg: Config, sha: Hash, s: State, job: JobId, blob: Bytes,
                                              reporter: Account, proof: seq<Step>, later: seq<Event>)
    requires ValidConfig(cfg) && Settling(s) && AtDeadline(s, job) && job in s.commitments
    requires s.commitments[job].merkleRoot != "" && Accepts(sha, blob, proof, s.commitments[job].merkleRoot)
    requires ToHex(sha(blob)) != s.commitments[job].outputHash
    ensures var t := ProveMismatch(cfg, sha, s, job, blob, reporter, Some(proof));
            && t.Accepted() && job in t.state.escrows && t.state.escrows[job].state.Slashed?
            && QuietAbout(cfg, sha, t.state, job, later)
  {
    assert ChallengeError(s, job).None?;
    FraudQuiets(cfg, sha, s, job, reporter, DataMismatch, later);
  }

  // ---------------------------------------------------------------- rejected calls

  // A rejected call leaves the ledger as it was, but for one case: a FAIL verdict in
  // the deadline millisecond on a job already released. It is written down before the
  // escrow is looked at, and stays although the call raises; so it changes the ledger
  // exactly when the entry that is there already is another one.
  lemma RejectionsMoveNothing(cfg: Config, sha: Hash, s: State, e: Event)
    requires ValidConfig(cfg) && Lifecycle(s) && !Apply(cfg, sha, s, e).Accepted()
    ensures SameMoney(s, Apply(cfg, sha, s, e).state)
    ensures Apply(cfg, sha, s, e).state != s <==> e.DoSubmitVerdict? && LateVerdict(cfg, s, e) && !Entered(s, e)
    ensures e.DoSubmitVerdict? && LateVerdict(cfg, s, e) ==> Apply(cfg, sha, s, e).error == Some(WrongState)
                                                             && Entered(Apply(cfg, sha, s, e).state, e)
                                                             && s.now == s.escrows[e.job].deadline
  {
    if e.DoSubmitVerdict? {
      RejectedVerdict(cfg, s, e);
    } else {
      RejectedCallReturns(cfg, sha, s, e);
    }
  }

  lemma RejectedCallReturns(cfg: Config, sha: Hash, s: State, e: Event)
    requires ValidConfig(cfg) && !e.DoSubmitVerdict? && !Apply(cfg, sha, s, e).Accepted()
    ensures Apply(cfg, sha, s, e).state == s
  {
  }

  lemma RejectedVerdict(cfg: Config, s: State, e: Event)
    requires ValidConfig(cfg) && Lifecycle(s) && e.DoSubmitVerdict?
    requires !SubmitVerdict(cfg, s, e.job, e.validator, e.verdict, e.score, e.reason).Accepted()
    ensures var outcome := SubmitVerdict(cfg, s, e.job, e.validator, e.verdict, e.score, e.reason);
            && SameMoney(s, outcome.state) && (outcome.state != s <==> LateVerdict(cfg, s, e) && !Entered(s, e))
            && (LateVerdict(cfg, s, e) ==>
                  outcome.error == Some(WrongState) && Entered(outcome.state, e)
                  && s.now == s.escrows[e.job].deadline)
  {
    var entry := VerdictEntry(e.validator, e.verdict, e.score, e.reason);
    if LateVerdict(cfg, s, e) && Entered(s, e) {
      assert s.verdicts[e.job := entry] == s.verdicts;
    }
  }

  // A FAIL on a job that is released and still challengeable.
  predicate LateVerdict(cfg: Config, s: State, e: Event)
    requires e.DoSubmitVerdict?
  {
    && e.verdict.Fail? && e.validator in s.validators && Active(cfg, s, e.validator)
    && e.job in s.commitments && !s.commitments[e.job].resolved && s.now <= s.commitments[e.job].deadline
    && e.job in s.escrows && s.escrows[e.job].state.Settled?
  }

  predicate Entered(s: State, e: Event)
    requires e.DoSubmitVerdict?
  {
    e.job in s.verdicts && s.verdicts[e.job] == VerdictEntry(e.validator, e.verdict, e.score, e.reason)
  }
}
