// Value is neither created nor destroyed: the integer identities of
// `Ledger.check_invariants` (edgegrid/ledger.py) hold after every run.

module LedgerConservation {
  import opened ByteStrings
  import opened MerkleProof
  import opened Totals
  import opened LedgerModel

  // ---------------------------------------------------------------- the identities

  function Wei(x: nat): int { x }
  function UnbondingWei(u: Unbonding): int { u.amount }
  function HeldWei(e: Escrow): int { if Closed(e.state) then 0 else e.amount }
  function ClosedWei(e: Escrow): int { if Closed(e.state) then e.amount else 0 }

  ghost predicate BooksMatch(s: State) {
    && Total<Account, nat>(s.stake, Wei) == s.acct.stakeActive
    && Total(s.unbonding, UnbondingWei) == s.acct.stakeUnbonding
    && Total<Account, nat>(s.withdrawable, Wei) == s.acct.withdrawable
    && Total(s.escrows, HeldWei) == s.acct.escrowHeld
    && Total(s.escrows, ClosedWei) == s.acct.providerPayout + s.acct.requesterRefund
  }

  predicate ValueConserved(a: Accounting) {
    && a.deposited == a.stakeActive + a.stakeUnbonding + a.escrowHeld + a.withdrawable + a.withdrawn
    && a.slashed == a.validatorReward + a.treasury
  }

  predicate RecordBalanced(r: Record) {
    && r.payout + r.refund == r.amount
    && r.reward + r.treasury == r.slash
  }

  predicate RecordsBalanced(records: seq<Record>) {
    forall i :: 0 <= i < |records| ==> RecordBalanced(records[i])
  }

  // The integer checks (1) to (4) of `check_invariants`.
  ghost predicate Conserved(s: State) {
    BooksMatch(s) && ValueConserved(s.acct) && RecordsBalanced(s.records)
  }

  // ---------------------------------------------------------------- pieces of an operation

  lemma CreditBooks(s: State, account: Account, wei: nat)
    ensures BooksMatch(s) ==> BooksMatch(Credit(s, account, wei))
    ensures Credit(s, account, wei) == s.(withdrawable := Credit(s, account, wei).withdrawable,
                                          acct := s.acct.(withdrawable := s.acct.withdrawable + wei))
  {
    if wei > 0 {
      TotalUpdate<Account, nat>(s.withdrawable, account, CreditOf(s, account) + wei, Wei);
    }
  }

  lemma SlashBooks(s: State, provider: Account, slashed: nat)
    requires slashed <= Collateral(s, provider) && BooksMatch(s)
    ensures BooksMatch(Slash(s, provider, slashed))
    ensures var a := Slash(s, provider, slashed).acct;
            && a == s.acct.(stakeActive := a.stakeActive, stakeUnbonding := a.stakeUnbonding)
            && a.stakeActive + a.stakeUnbonding == s.acct.stakeActive + s.acct.stakeUnbonding - slashed
  {
    var fromActive := Min(slashed, StakeOf(s, provider));
    SlashStakes(s, provider, slashed, fromActive);
    SlashUnbonding(s, provider, slashed, fromActive);
  }

  lemma SlashStakes(s: State, provider: Account, slashed: nat, fromActive: nat)
    requires slashed <= Collateral(s, provider) && fromActive == Min(slashed, StakeOf(s, provider))
    ensures Total(Slash(s, provider, slashed).stake, Wei) == Total(s.stake, Wei) - fromActive
  {
    TotalUpdate<Account, nat>(s.stake, provider, StakeOf(s, provider) - fromActive, Wei);
  }

  lemma SlashUnbonding(s: State, provider: Account, slashed: nat, fromActive: nat)
    requires slashed <= Collateral(s, provider) && fromActive == Min(slashed, StakeOf(s, provider))
    ensures Total(Slash(s, provider, slashed).unbonding, UnbondingWei) ==
            Total(s.unbonding, UnbondingWei) - (slashed - fromActive)
  {
    var u := UnbondingOf(s, provider);
    TotalUpdate(s.unbonding, provider, Unbonding(u.amount - (slashed - fromActive), u.ready), UnbondingWei);
  }

  lemma DistributeBooks(s: State, reporter: Account, treasury: Account, slashed: nat, reward: nat)
    requires reward <= slashed && BooksMatch(s)
    ensures BooksMatch(Distribute(s, reporter, treasury, slashed, reward))
    ensures Distribute(s, reporter, treasury, slashed, reward).acct ==
            s.acct.(withdrawable := s.acct.withdrawable + slashed,
                    validatorReward := s.acct.validatorReward + reward,
                    treasury := s.acct.treasury + (slashed - reward), slashed := s.acct.slashed + slashed)
  {
    CreditBooks(s, reporter, reward);
    CreditBooks(Credit(s, reporter, reward), treasury, slashed - reward);
  }

  lemma LetGoBooks(s: State, job: JobId, state: EscrowState)
    requires job in s.escrows && !Closed(s.escrows[job].state) && Closed(state) && BooksMatch(s)
    ensures BooksMatch(LetGo(s, job, state))
  {
    var e := s.escrows[job].(state := state);
    TotalUpdate(s.escrows, job, e, HeldWei);
    TotalUpdate(s.escrows, job, e, ClosedWei);
  }

  lemma CloseBooks(s: State, job: JobId, state: EscrowState)
    requires job in s.escrows && !Closed(s.escrows[job].state) && Closed(state) && BooksMatch(s)
    ensures BooksMatch(Close(s, job, state))
    ensures var a := Close(s, job, state).acct;
            var amount := s.escrows[job].amount;
            a == s.acct.(escrowHeld := s.acct.escrowHeld - amount, withdrawable := s.acct.withdrawable + amount,
                         providerPayout := a.providerPayout, requesterRefund := a.requesterRefund)
  {
    var e := s.escrows[job];
    LetGoBooks(s, job, state);
    CreditBooks(LetGo(s, job, state), if state.Settled? then e.provider else e.requester, e.amount);
  }

  // ---------------------------------------------------------------- every operation

  lemma StakeConserves(cfg: Config, s: State, node: Account, wei: nat)
    requires Conserved(s)
    ensures Conserved(Stake(cfg, s, node, wei).state)
  {
    TotalUpdate<Account, nat>(s.stake, node, StakeOf(s, node) + wei, Wei);
  }

  lemma RequestUnstakeConserves(cfg: Config, s: State, node: Account, wei: nat)
    requires Conserved(s)
    ensures Conserved(RequestUnstake(cfg, s, node, wei).state)
  {
    if wei <= StakeOf(s, node) {
      TotalUpdate<Account, nat>(s.stake, node, StakeOf(s, node) - wei, Wei);
      var u := Unbonding(UnbondingOf(s, node).amount + wei, s.now + cfg.unbondingPeriod);
      TotalUpdate(s.unbonding, node, u, UnbondingWei);
    }
  }

  lemma PayoutConserves(s: State, account: Account)
    requires Conserved(s)
    ensures Conserved(ClaimUnstake(s, account).state)
    ensures Conserved(Withdraw(s, account).state)
  {
    TotalUpdate<Account, nat>(s.withdrawable, account, 0, Wei);
    var u := UnbondingOf(s, account);
    if u.amount > 0 && s.now >= u.ready {
      var s' := s.(unbonding := s.unbonding[account := Unbonding(0, 0)],
                   acct := s.acct.(stakeUnbonding := s.acct.stakeUnbonding - u.amount));
      TotalUpdate(s.unbonding, account, Unbonding(0, 0), UnbondingWei);
      CreditBooks(s', account, u.amount);
    }
  }

  lemma OpenEscrowConserves(cfg: Config, s: State, job: JobId, requester: Account, provider: Account, wei: nat)
    requires Conserved(s)
    ensures Conserved(OpenEscrow(cfg, s, job, requester, provider, wei).state)
  {
    var e := Escrow(job, requester, provider, wei, s.now, Open, 0);
    TotalUpdate(s.escrows, job, e, HeldWei);
    TotalUpdate(s.escrows, job, e, ClosedWei);
  }

  lemma CommitmentConserves(cfg: Config, s: State, job: JobId, provider: Account, outputHash: string,
                            blobRef: string, merkleRoot: string, leafIndex: int)
    requires Conserved(s)
    ensures Conserved(RecordCommitment(cfg, s, job, provider, outputHash, blobRef, merkleRoot, leafIndex).state)
  {
    if job in s.escrows && s.escrows[job].state.Open? {
      var e := s.escrows[job].(state := Awaiting, deadline := s.now + cfg.window);
      TotalUpdate(s.escrows, job, e, HeldWei);
      TotalUpdate(s.escrows, job, e, ClosedWei);
    }
  }

  lemma ReleaseConserves(s: State, job: JobId)
    requires Conserved(s)
    ensures Conserved(Release(s, job).state)
  {
    if Release(s, job).Accepted() {
      CloseBooks(s, job, Settled);
    }
  }

  lemma CancelConserves(cfg: Config, s: State, job: JobId, requester: Account)
    requires Conserved(s)
    ensures Conserved(Cancel(cfg, s, job, requester).state)
  {
    if Cancel(cfg, s, job, requester).Accepted() {
      CloseBooks(s, job, Refunded);
    }
  }

  lemma PunishConserves(cfg: Config, s: State, job: JobId, reporter: Account, kind: Resolution,
                        slashed: nat, reward: nat)
    requires job in s.commitments && job in s.escrows && s.escrows[job].state.Awaiting?
    requires reward <= slashed <= Collateral(s, s.commitments[job].provider)
    requires Conserved(s)
    ensures Conserved(Punish(cfg, s, job, reporter, kind, slashed, reward))
  {
    var s0 := Resolve(s, job, kind);
    var s1 := Slash(s0, s.commitments[job].provider, slashed);
    var s2 := Distribute(s1, reporter, cfg.treasury, slashed, reward);
    SlashBooks(s0, s.commitments[job].provider, slashed);
    DistributeBooks(s1, reporter, cfg.treasury, slashed, reward);
    assert s2 == s.(commitments := s2.commitments, stake := s2.stake, unbonding := s2.unbonding,
                    withdrawable := s2.withdrawable, acct := s2.acct);
    CloseBooks(s2, job, Slashed);
    CloseAddRecord(s2, job, slashed, reward, kind, reporter);
  }

  lemma CloseAddRecord(s: State, job: JobId, slashed: nat, reward: nat, kind: Resolution, reporter: Account)
    requires job in s.escrows && RecordsBalanced(s.records) && BooksMatch(Close(s, job, Slashed))
    ensures var s' := AddRecord(Close(s, job, Slashed), job, slashed, reward, kind, reporter);
            BooksMatch(s') && RecordsBalanced(s'.records) && s'.acct == Close(s, job, Slashed).acct
  {
  }

  lemma ConfirmFraudConserves(cfg: Config, s: State, job: JobId, reporter: Account, kind: Resolution)
    requires ValidConfig(cfg) && job in s.commitments && Conserved(s)
    ensures Conserved(ConfirmFraud(cfg, s, job, reporter, kind).state)
  {
    if job in s.escrows && s.escrows[job].state.Awaiting? {
      var slashed := Min(s.escrows[job].amount, Collateral(s, s.commitments[job].provider));
      PunishConserves(cfg, s, job, reporter, kind, slashed, Reward(cfg, slashed));
    }
  }

  lemma VerdictConserves(cfg: Config, s: State, job: JobId, validator: Account, verdict: Verdict, score: int,
                         reason: string)
    requires ValidConfig(cfg) && Conserved(s)
    ensures Conserved(SubmitVerdict(cfg, s, job, validator, verdict, score, reason).state)
  {
    if job in s.commitments {
      var s' := s.(verdicts := s.verdicts[job := VerdictEntry(validator, verdict, score, reason)]);
      ConfirmFraudConserves(cfg, s', job, validator, ValidatorVerdict);
    }
  }

  lemma ProofConserves(cfg: Config, sha: Hash, s: State, job: JobId, blob: Bytes, reporter: Account,
                       proof: Option<seq<Step>>)
    requires ValidConfig(cfg) && Conserved(s)
    ensures Conserved(ProveMismatch(cfg, sha, s, job, blob, reporter, proof).state)
  {
    if job in s.commitments {
      ConfirmFraudConserves(cfg, s, job, reporter, DataMismatch);
    }
  }

  lemma StepConserves(cfg: Config, sha: Hash, s: State, e: Event)
    requires ValidConfig(cfg) && Conserved(s)
    ensures Conserved(Apply(cfg, sha, s, e).state)
  {
    match e {
      case DoStake(node, wei) => StakeConserves(cfg, s, node, wei);
      case DoRequestUnstake(node, wei) => RequestUnstakeConserves(cfg, s, node, wei);
      case DoClaimUnstake(node) => PayoutConserves(s, node);
      case DoWithdraw(account) => PayoutConserves(s, account);
      case DoOpenEscrow(job, requester, provider, wei) => OpenEscrowConserves(cfg, s, job, requester, provider, wei);
      case DoRecordCommitment(job, provider, outputHash, blobRef, merkleRoot, leafIndex) =>
        CommitmentConserves(cfg, s, job, provider, outputHash, blobRef, merkleRoot, leafIndex);
      case DoRelease(job) => ReleaseConserves(s, job);
      case DoCancel(job, requester) => CancelConserves(cfg, s, job, requester);
      case DoSubmitVerdict(job, validator, verdict, score, reason) =>
        VerdictConserves(cfg, s, job, validator, verdict, score, reason);
      case DoProveMismatch(job, blob, reporter, proof) => ProofConserves(cfg, sha, s, job, blob, reporter, proof);
      case DoRegisterValidator(_) =>
      case Tick(_) =>
    }
  }

  // Whatever is called, in whatever order, by whatever accounts, `check_invariants`
  // finds its integer identities to hold.
  lemma {:induction false} RunsConserve(cfg: Config, sha: Hash, s: State, events: seq<Event>)
    requires ValidConfig(cfg) && Conserved(s)
    ensures Conserved(Run(cfg, sha, s, events))
    decreases |events|
  {
    if events != [] {
      var before := events[..|events| - 1];
      RunsConserve(cfg, sha, s, before);
      StepConserves(cfg, sha, Run(cfg, sha, s, before), events[|events| - 1]);
    }
  }

  lemma {:induction false} ConservationHolds(cfg: Config, sha: Hash, start: int, events: seq<Event>)
    requires ValidConfig(cfg)
    ensures Conserved(Run(cfg, sha, Initial(start), events))
  {
    RunsConserve(cfg, sha, Initial(start), events);
  }
}
