// Whose money is whose: edgegrid/ledger.py, `stake`, `claim_unstake`, `withdraw`,
// `_credit`, `_confirm_fraud`, `release`, `cancel`.

module LedgerAccounts {
  import opened ByteStrings
  import opened LedgerModel
  import opened LedgerSettlement
  import opened LedgerCollateral

  // ---------------------------------------------------------------- what an account is owed

  // An account may be several of provider, requester, reporter and treasury at once.
  function OwedBy(r: Record, treasury: Account, a: Account): int {
    (if a == r.provider then r.payout else 0) + (if a == r.requester then r.refund else 0)
    + (if a == r.reporter then r.reward else 0) + (if a == treasury then r.treasury else 0)
  }

  function Owed(records: seq<Record>, treasury: Account, a: Account): int {
    if |records| == 0 then 0
    else Owed(records[..|records| - 1], treasury, a) + OwedBy(records[|records| - 1], treasury, a)
  }

  lemma {:induction false} OwedAppend(records: seq<Record>, r: Record, treasury: Account, a: Account)
    ensures Owed(records + [r], treasury, a) == Owed(records, treasury, a) + OwedBy(r, treasury, a)
  {
    assert (records + [r])[..|records|] == records;
  }

  // What an account put in, took back from unbonding, and withdrew.
  datatype Flow = Flow(staked: int, claimed: int, withdrawn: int)

  function StepFlow(cfg: Config, sha: Hash, s: State, e: Event, a: Account): Flow
    requires ValidConfig(cfg)
  {
    if !Apply(cfg, sha, s, e).Accepted() then Flow(0, 0, 0)
    else
      match e
      case DoStake(node, wei) => Flow(if node == a then wei else 0, 0, 0)
      case DoClaimUnstake(node) => Flow(0, if node == a then UnbondingOf(s, a).amount else 0, 0)
      case DoWithdraw(account) => Flow(0, 0, if account == a then CreditOf(s, a) else 0)
      case _ => Flow(0, 0, 0)
  }

  function RunFlow(cfg: Config, sha: Hash, s: State, events: seq<Event>, a: Account): Flow
    requires ValidConfig(cfg)
  {
    if |events| == 0 then Flow(0, 0, 0)
    else
      var before := events[..|events| - 1];
      var f := RunFlow(cfg, sha, s, before, a);
      var g := StepFlow(cfg, sha, Run(cfg, sha, s, before), events[|events| - 1], a);
      Flow(f.staked + g.staked, f.claimed + g.claimed, f.withdrawn + g.withdrawn)
  }

  // From `s` to `t`, the collateral and the credit of an account change by what the flow
  // and the new records say, and by nothing else.
  predicate Moves(treasury: Account, s: State, t: State, f: Flow, a: Account) {
    && Collateral(t, a) - Collateral(s, a) ==
         f.staked - f.claimed - (SlashedFrom(t.records, a) - SlashedFrom(s.records, a))
    && CreditOf(t, a) - CreditOf(s, a) ==
         f.claimed - f.withdrawn + (Owed(t.records, treasury, a) - Owed(s.records, treasury, a))
  }

  // ---------------------------------------------------------------- pieces of an operation

  lemma CreditAdds(s: State, account: Account, wei: nat, a: Account)
    ensures CreditOf(Credit(s, account, wei), a) == CreditOf(s, a) + (if a == account then wei else 0)
  {
  }

  lemma CreditMoves(s: State, account: Account, wei: nat, a: Account)
    ensures var t := Credit(s, account, wei);
            && CreditOf(t, a) == CreditOf(s, a) + (if a == account then wei else 0)
            && Collateral(t, a) == Collateral(s, a) && StakeOf(t, a) == StakeOf(s, a) && t.records == s.records
  {
  }

  lemma DistributeCredits(s: State, reporter: Account, treasury: Account, slashed: nat, reward: nat, a: Account)
    requires reward <= slashed
    ensures CreditOf(Distribute(s, reporter, treasury, slashed, reward), a) ==
            CreditOf(s, a) + (if a == reporter then reward else 0) + (if a == treasury then slashed - reward else 0)
  {
    CreditAdds(s, reporter, reward, a);
    CreditAdds(Credit(s, reporter, reward), treasury, slashed - reward, a);
  }

  lemma DistributeMoves(s: State, reporter: Account, treasury: Account, slashed: nat, reward: nat, a: Account)
    requires reward <= slashed
    ensures var t := Distribute(s, reporter, treasury, slashed, reward);
            && CreditOf(t, a) == CreditOf(s, a) + (if a == reporter then reward else 0)
                                 + (if a == treasury then slashed - reward else 0)
            && Collateral(t, a) == Collateral(s, a) && StakeOf(t, a) == StakeOf(s, a)
            && t.records == s.records && t.escrows == s.escrows
  {
    DistributeCredits(s, reporter, treasury, slashed, reward, a);
    DistributeKeeps(s, reporter, treasury, slashed, reward);
  }

  lemma SlashMoves(s: State, provider: Account, slashed: nat, a: Account)
    requires slashed <= Collateral(s, provider)
    ensures var t := Slash(s, provider, slashed);
            && Collateral(t, a) == Collateral(s, a) - (if a == provider then slashed else 0)
            && (slashed == 0 || a != provider ==> StakeOf(t, a) == StakeOf(s, a))
            && CreditOf(t, a) == CreditOf(s, a) && t.records == s.records && t.escrows == s.escrows
  {
  }

  // What closing an escrow does to an account.
  lemma ClosePays(s: State, job: JobId, state: EscrowState, a: Account)
    requires job in s.escrows
    ensures var t, e := Close(s, job, state), s.escrows[job];
            && Collateral(t, a) == Collateral(s, a) && StakeOf(t, a) == StakeOf(s, a) && t.records == s.records
            && CreditOf(t, a) == CreditOf(s, a)
                                 + (if a == (if state.Settled? then e.provider else e.requester) then e.amount else 0)
            && job in t.escrows && t.escrows[job] == e.(state := state)
  {
    var e := s.escrows[job];
    CreditMoves(LetGo(s, job, state), if state.Settled? then e.provider else e.requester, e.amount, a);
  }

  // What the record of a closed escrow says an account is owed.
  lemma {:induction false} RecordOwes(s: State, job: JobId, slash: nat, reward: nat, kind: Resolution,
                                      reporter: Account, treasury: Account, a: Account)
    requires job in s.escrows && reward <= slash
    ensures var t, e := AddRecord(s, job, slash, reward, kind, reporter), s.escrows[job];
            && Collateral(t, a) == Collateral(s, a) && CreditOf(t, a) == CreditOf(s, a)
            && StakeOf(t, a) == StakeOf(s, a)
            && SlashedFrom(t.records, a) == SlashedFrom(s.records, a) + (if a == e.provider then slash else 0)
            && Owed(t.records, treasury, a) == Owed(s.records, treasury, a)
                 + (if a == (if e.state.Settled? then e.provider else e.requester) then e.amount else 0)
                 + (if a == reporter then reward else 0) + (if a == treasury then slash - reward else 0)
  {
    var r := AddRecord(s, job, slash, reward, kind, reporter).records[|s.records|];
    OwedAppend(s.records, r, treasury, a);
    SlashedFromAppend(s.records, r, a);
  }

  // Closing an escrow pays its one beneficiary, and the record says so.
  lemma {:induction false} CloseMoves(s: State, job: JobId, state: EscrowState, slash: nat, reward: nat,
                                      kind: Resolution, reporter: Account, treasury: Account, a: Account)
    requires job in s.escrows && Closed(state) && reward <= slash
    ensures var t := AddRecord(Close(s, job, state), job, slash, reward, kind, reporter);
            && Collateral(t, a) == Collateral(s, a) && StakeOf(t, a) == StakeOf(s, a)
            && SlashedFrom(t.records, a) == SlashedFrom(s.records, a)
                                            + (if a == s.escrows[job].provider then slash else 0)
            && CreditOf(t, a) + (if a == reporter then reward else 0) + (if a == treasury then slash - reward else 0) ==
               CreditOf(s, a) + (Owed(t.records, treasury, a) - Owed(s.records, treasury, a))
  {
    ClosePays(s, job, state, a);
    RecordOwes(Close(s, job, state), job, slash, reward, kind, reporter, treasury, a);
  }

  // Distribution, closing and the record: the credit side and the collateral side.
  lemma {:induction false} PayingMoves(s: State, job: JobId, reporter: Account, treasury: Account, kind: Resolution,
                                       slashed: nat, reward: nat, a: Account)
    requires job in s.escrows && reward <= slashed
    ensures var t := AddRecord(Close(Distribute(s, reporter, treasury, slashed, reward), job, Slashed),
                               job, slashed, reward, kind, reporter);
            && Collateral(t, a) == Collateral(s, a)
            && SlashedFrom(t.records, a) == SlashedFrom(s.records, a)
                                            + (if a == s.escrows[job].provider then slashed else 0)
            && CreditOf(t, a) == CreditOf(s, a) + (Owed(t.records, treasury, a) - Owed(s.records, treasury, a))
  {
    DistributeMoves(s, reporter, treasury, slashed, reward, a);
    CloseMoves(Distribute(s, reporter, treasury, slashed, reward), job, Slashed, slashed, reward, kind, reporter,
               treasury, a);
  }

  lemma PunishMoves(cfg: Config, s: State, job: JobId, reporter: Account, kind: Resolution, slashed: nat, reward: nat,
                    a: Account)
    requires job in s.commitments && job in s.escrows && s.commitments[job].provider == s.escrows[job].provider
    requires reward <= slashed <= Collateral(s, s.commitments[job].provider)
    ensures Moves(cfg.treasury, s, Punish(cfg, s, job, reporter, kind, slashed, reward), Flow(0, 0, 0), a)
  {
    var provider := s.commitments[job].provider;
    var s0 := Resolve(s, job, kind);
    var s1 := Slash(s0, provider, slashed);
    ResolveMoves(s, job, kind, a);
    SlashMoves(s0, provider, slashed, a);
    PayingMoves(s1, job, reporter, cfg.treasury, kind, slashed, reward, a);
    TwoStepsMove(cfg.treasury, s, s1, Punish(cfg, s, job, reporter, kind, slashed, reward),
                 if a == provider then slashed else 0, a);
  }

  lemma ResolveMoves(s: State, job: JobId, kind: Resolution, a: Account)
    requires job in s.commitments
    ensures var t := Resolve(s, job, kind);
            && Collateral(t, a) == Collateral(s, a) && CreditOf(t, a) == CreditOf(s, a)
            && StakeOf(t, a) == StakeOf(s, a)
            && t.records == s.records && t.escrows == s.escrows
  {
  }

  lemma {:induction false} TwoStepsMove(treasury: Account, s: State, s1: State, t: State, slashed: int, a: Account)
    requires s1.records == s.records && CreditOf(s1, a) == CreditOf(s, a)
    requires Collateral(s1, a) == Collateral(s, a) - slashed && Collateral(t, a) == Collateral(s1, a)
    requires SlashedFrom(t.records, a) == SlashedFrom(s1.records, a) + slashed
    requires CreditOf(t, a) == CreditOf(s1, a) + (Owed(t.records, treasury, a) - Owed(s1.records, treasury, a))
    ensures Moves(treasury, s, t, Flow(0, 0, 0), a)
  {
  }

  // ---------------------------------------------------------------- every operation

  lemma FraudMoves(cfg: Config, s: State, job: JobId, reporter: Account, kind: Resolution, a: Account)
    requires ValidConfig(cfg) && job in s.commitments && SameProviders(s)
    ensures Moves(cfg.treasury, s, ConfirmFraud(cfg, s, job, reporter, kind).state, Flow(0, 0, 0), a)
  {
    if ConfirmFraud(cfg, s, job, reporter, kind).Accepted() {
      var slashed := Min(s.escrows[job].amount, Collateral(s, s.commitments[job].provider));
      PunishMoves(cfg, s, job, reporter, kind, slashed, Reward(cfg, slashed), a);
    }
  }

  lemma VerdictMoves(cfg: Config, sha: Hash, s: State, e: Event, a: Account)
    requires ValidConfig(cfg) && SameProviders(s) && e.DoSubmitVerdict?
    ensures Moves(cfg.treasury, s, Apply(cfg, sha, s, e).state, Flow(0, 0, 0), a)
  {
    var outcome := SubmitVerdict(cfg, s, e.job, e.validator, e.verdict, e.score, e.reason);
    var s' := s.(verdicts := s.verdicts[e.job := VerdictEntry(e.validator, e.verdict, e.score, e.reason)]);
    if outcome.state != s && outcome.state != s' {
      assert outcome == ConfirmFraud(cfg, s', e.job, e.validator, ValidatorVerdict);
      FraudMoves(cfg, s', e.job, e.validator, ValidatorVerdict, a);
    }
  }

  lemma ProofMoves(cfg: Config, sha: Hash, s: State, e: Event, a: Account)
    requires ValidConfig(cfg) && SameProviders(s) && e.DoProveMismatch?
    ensures Moves(cfg.treasury, s, Apply(cfg, sha, s, e).state, Flow(0, 0, 0), a)
  {
    var outcome := ProveMismatch(cfg, sha, s, e.job, e.blob, e.reporter, e.proof);
    if outcome.state != s {
      assert outcome == ConfirmFraud(cfg, s, e.job, e.reporter, DataMismatch);
      FraudMoves(cfg, s, e.job, e.reporter, DataMismatch, a);
    }
  }

  lemma {:induction false} ReleaseMoves(treasury: Account, s: State, job: JobId, a: Account)
    ensures Moves(treasury, s, Release(s, job).state, Flow(0, 0, 0), a)
    ensures StakeOf(Release(s, job).state, a) == StakeOf(s, a)
    ensures SlashedFrom(Release(s, job).state.records, a) == SlashedFrom(s.records, a)
  {
    if Release(s, job).Accepted() {
      CloseMoves(s, job, Settled, 0, 0, WindowElapsed, "", treasury, a);
    }
  }

  lemma {:induction false} CancelMoves(cfg: Config, s: State, job: JobId, requester: Account, a: Account)
    ensures Moves(cfg.treasury, s, Cancel(cfg, s, job, requester).state, Flow(0, 0, 0), a)
    ensures StakeOf(Cancel(cfg, s, job, requester).state, a) == StakeOf(s, a)
    ensures SlashedFrom(Cancel(cfg, s, job, requester).state.records, a) == SlashedFrom(s.records, a)
  {
    if Cancel(cfg, s, job, requester).Accepted() {
      CloseMoves(s, job, Refunded, 0, 0, AwardTimeout, requester, cfg.treasury, a);
    }
  }

  lemma ClaimMoves(cfg: Config, sha: Hash, s: State, e: Event, a: Account)
    requires ValidConfig(cfg) && e.DoClaimUnstake?
    ensures Moves(cfg.treasury, s, Apply(cfg, sha, s, e).state, StepFlow(cfg, sha, s, e, a), a)
  {
    var u := UnbondingOf(s, e.node);
    if ClaimUnstake(s, e.node).Accepted() {
      var s' := s.(unbonding := s.unbonding[e.node := Unbonding(0, 0)],
                   acct := s.acct.(stakeUnbonding := s.acct.stakeUnbonding - u.amount));
      CreditMoves(s', e.node, u.amount, a);
    }
  }

  lemma StakeMoves(cfg: Config, s: State, node: Account, wei: nat, a: Account)
    ensures var t := Stake(cfg, s, node, wei);
            Moves(cfg.treasury, s, t.state, Flow(if t.Accepted() && node == a then wei else 0, 0, 0), a)
  {
    var t := Stake(cfg, s, node, wei);
    assert CreditOf(t.state, a) == CreditOf(s, a) && UnbondingOf(t.state, a) == UnbondingOf(s, a);
    assert StakeOf(t.state, a) == StakeOf(s, a) + if t.Accepted() && node == a then wei else 0;
  }

  lemma RequestMoves(cfg: Config, s: State, node: Account, wei: nat, a: Account)
    ensures Moves(cfg.treasury, s, RequestUnstake(cfg, s, node, wei).state, Flow(0, 0, 0), a)
  {
  }

  lemma WithdrawMoves(treasury: Account, s: State, account: Account, a: Account)
    ensures var t := Withdraw(s, account);
            Moves(treasury, s, t.state, Flow(0, 0, if t.Accepted() && account == a then CreditOf(s, a) else 0), a)
  {
  }

  // Calls that move no account's money: escrow is paid in from outside.
  predicate MovesNothing(e: Event) {
    e.DoOpenEscrow? || e.DoRecordCommitment? || e.DoRegisterValidator? || e.Tick?
  }

  predicate SameAccounts(s: State, t: State) {
    t.stake == s.stake && t.unbonding == s.unbonding && t.withdrawable == s.withdrawable && t.records == s.records
  }

  lemma OthersKeepAccounts(cfg: Config, sha: Hash, s: State, e: Event)
    requires ValidConfig(cfg) && MovesNothing(e)
    ensures SameAccounts(s, Apply(cfg, sha, s, e).state)
  {
  }

  lemma NothingMoves(treasury: Account, s: State, t: State, a: Account)
    requires SameAccounts(s, t)
    ensures Moves(treasury, s, t, Flow(0, 0, 0), a)
  {
  }

  lemma OtherMoves(cfg: Config, sha: Hash, s: State, e: Event, a: Account)
    requires ValidConfig(cfg) && MovesNothing(e)
    ensures Moves(cfg.treasury, s, Apply(cfg, sha, s, e).state, Flow(0, 0, 0), a)
  {
    OthersKeepAccounts(cfg, sha, s, e);
    NothingMoves(cfg.treasury, s, Apply(cfg, sha, s, e).state, a);
  }

  lemma StepMoves(cfg: Config, sha: Hash, s: State, e: Event, a: Account)
    requires ValidConfig(cfg) && Settling(s)
    ensures Moves(cfg.treasury, s, Apply(cfg, sha, s, e).state, StepFlow(cfg, sha, s, e, a), a)
  {
    SettlingNamesProviders(s);
    match e {
      case DoClaimUnstake(_) => ClaimMoves(cfg, sha, s, e, a);
      case DoRelease(job) => ReleaseMoves(cfg.treasury, s, job, a);
      case DoCancel(job, requester) => CancelMoves(cfg, s, job, requester, a);
      case DoSubmitVerdict(_, _, _, _, _) => VerdictMoves(cfg, sha, s, e, a);
      case DoProveMismatch(_, _, _, _) => ProofMoves(cfg, sha, s, e, a);
      case DoStake(node, wei) => StakeMoves(cfg, s, node, wei, a);
      case DoRequestUnstake(node, wei) => RequestMoves(cfg, s, node, wei, a);
      case DoWithdraw(account) => WithdrawMoves(cfg.treasury, s, account, a);
      case _ => OtherMoves(cfg, sha, s, e, a);
    }
  }

  lemma {:induction false} RunMoves(cfg: Config, sha: Hash, s: State, events: seq<Event>, a: Account)
    requires ValidConfig(cfg) && Settling(s)
    ensures Moves(cfg.treasury, s, Run(cfg, sha, s, events), RunFlow(cfg, sha, s, events, a), a)
    decreases |events|
  {
    if |events| > 0 {
      var before := events[..|events| - 1];
      RunMoves(cfg, sha, s, before, a);
      RunsSettleOnce(cfg, sha, s, before);
      StepMoves(cfg, sha, Run(cfg, sha, s, before), events[|events| - 1], a);
    }
  }

  // In every reachable state and for every account: its collateral is what it staked less
  // what it claimed back and what the records slashed from it, and its credit is what it
  // claimed back and what the records owe it, less what it withdrew.
  lemma {:induction false} AccountsReplay(cfg: Config, sha: Hash, start: int, events: seq<Event>, a: Account)
    requires ValidConfig(cfg)
    ensures var t, f := Run(cfg, sha, Initial(start), events), RunFlow(cfg, sha, Initial(start), events, a);
            && Collateral(t, a) == f.staked - f.claimed - SlashedFrom(t.records, a)
            && CreditOf(t, a) == f.claimed - f.withdrawn + Owed(t.records, cfg.treasury, a)
  {
    RunMoves(cfg, sha, Initial(start), events, a);
  }

  // ---------------------------------------------------------------- the minimum stake

  // An account that was never slashed has no stake or at least the minimum.
  predicate StakeIsWhole(cfg: Config, s: State, a: Account) {
    SlashedFrom(s.records, a) == 0 ==> StakeOf(s, a) == 0 || StakeOf(s, a) >= cfg.minStake
  }

  lemma {:induction false} FraudKeepsWhole(cfg: Config, s: State, job: JobId, reporter: Account, kind: Resolution,
                                           a: Account)
    requires ValidConfig(cfg) && job in s.commitments && SameProviders(s)
    requires StakeIsWhole(cfg, s, a) && SlashedFrom(s.records, a) >= 0
    ensures var t := ConfirmFraud(cfg, s, job, reporter, kind).state;
            StakeIsWhole(cfg, t, a) && SlashedFrom(t.records, a) >= 0
  {
    if ConfirmFraud(cfg, s, job, reporter, kind).Accepted() {
      var slashed := Min(s.escrows[job].amount, Collateral(s, s.commitments[job].provider));
      PunishKeepsWhole(cfg, s, job, reporter, kind, slashed, Reward(cfg, slashed), a);
    }
  }

  lemma {:induction false} PunishKeepsWhole(cfg: Config, s: State, job: JobId, reporter: Account, kind: Resolution,
                                            slashed: nat, reward: nat, a: Account)
    requires job in s.commitments && job in s.escrows && s.commitments[job].provider == s.escrows[job].provider
    requires reward <= slashed <= Collateral(s, s.commitments[job].provider)
    requires StakeIsWhole(cfg, s, a) && SlashedFrom(s.records, a) >= 0
    ensures var t := Punish(cfg, s, job, reporter, kind, slashed, reward);
            StakeIsWhole(cfg, t, a) && SlashedFrom(t.records, a) >= 0
  {
    var s0 := Resolve(s, job, kind);
    var s1 := Slash(s0, s.commitments[job].provider, slashed);
    var s2 := Distribute(s1, reporter, cfg.treasury, slashed, reward);
    SlashMoves(s0, s.commitments[job].provider, slashed, a);
    DistributeMoves(s1, reporter, cfg.treasury, slashed, reward, a);
    CloseMoves(s2, job, Slashed, slashed, reward, kind, reporter, cfg.treasury, a);
  }

  lemma {:induction false} VerdictKeepsWhole(cfg: Config, sha: Hash, s: State, e: Event, a: Account)
    requires ValidConfig(cfg) && SameProviders(s) && e.DoSubmitVerdict?
    requires StakeIsWhole(cfg, s, a) && SlashedFrom(s.records, a) >= 0
    ensures var t := Apply(cfg, sha, s, e).state; StakeIsWhole(cfg, t, a) && SlashedFrom(t.records, a) >= 0
  {
    if e.job in s.commitments {
      var s' := s.(verdicts := s.verdicts[e.job := VerdictEntry(e.validator, e.verdict, e.score, e.reason)]);
      FraudKeepsWhole(cfg, s', e.job, e.validator, ValidatorVerdict, a);
    }
  }

  lemma {:induction false} ProofKeepsWhole(cfg: Config, sha: Hash, s: State, e: Event, a: Account)
    requires ValidConfig(cfg) && SameProviders(s) && e.DoProveMismatch?
    requires StakeIsWhole(cfg, s, a) && SlashedFrom(s.records, a) >= 0
    ensures var t := Apply(cfg, sha, s, e).state; StakeIsWhole(cfg, t, a) && SlashedFrom(t.records, a) >= 0
  {
    var outcome := ProveMismatch(cfg, sha, s, e.job, e.blob, e.reporter, e.proof);
    if outcome.state != s {
      assert outcome == ConfirmFraud(cfg, s, e.job, e.reporter, DataMismatch);
      FraudKeepsWhole(cfg, s, e.job, e.reporter, DataMismatch, a);
    }
  }

  lemma StakeKeepsWhole(cfg: Config, s: State, node: Account, wei: nat, a: Account)
    requires StakeIsWhole(cfg, s, a)
    ensures var t := Stake(cfg, s, node, wei).state; StakeIsWhole(cfg, t, a) && t.records == s.records
  {
  }

  lemma RequestKeepsWhole(cfg: Config, s: State, node: Account, wei: nat, a: Account)
    requires StakeIsWhole(cfg, s, a)
    ensures var t := RequestUnstake(cfg, s, node, wei).state; StakeIsWhole(cfg, t, a) && t.records == s.records
  {
  }

  lemma ClaimKeepsStakes(s: State, node: Account)
    ensures var t := ClaimUnstake(s, node).state; t.stake == s.stake && t.records == s.records
  {
  }

  lemma {:induction false} StepKeepsWhole(cfg: Config, sha: Hash, s: State, e: Event, a: Account)
    requires ValidConfig(cfg) && SameProviders(s)
    requires StakeIsWhole(cfg, s, a) && SlashedFrom(s.records, a) >= 0
    ensures var t := Apply(cfg, sha, s, e).state; StakeIsWhole(cfg, t, a) && SlashedFrom(t.records, a) >= 0
  {
    match e {
      case DoRelease(job) => ReleaseMoves(cfg.treasury, s, job, a);
      case DoCancel(job, requester) => CancelMoves(cfg, s, job, requester, a);
      case DoSubmitVerdict(_, _, _, _, _) => VerdictKeepsWhole(cfg, sha, s, e, a);
      case DoProveMismatch(_, _, _, _) => ProofKeepsWhole(cfg, sha, s, e, a);
      case DoStake(node, wei) => StakeKeepsWhole(cfg, s, node, wei, a);
      case DoRequestUnstake(node, wei) => RequestKeepsWhole(cfg, s, node, wei, a);
      case DoClaimUnstake(node) => ClaimKeepsStakes(s, node);
      case DoWithdraw(account) =>
      case _ => OthersKeepAccounts(cfg, sha, s, e);
    }
  }

  // Nobody but a slash leaves a stake below the minimum.
  lemma {:induction false} StakesAreWhole(cfg: Config, sha: Hash, start: int, events: seq<Event>, a: Account)
    requires ValidConfig(cfg)
    ensures var t := Run(cfg, sha, Initial(start), events); StakeIsWhole(cfg, t, a) && SlashedFrom(t.records, a) >= 0
    decreases |events|
  {
    if |events| > 0 {
      var before := events[..|events| - 1];
      StakesAreWhole(cfg, sha, start, before, a);
      SettlementHolds(cfg, sha, start, before);
      SettlingNamesProviders(Run(cfg, sha, Initial(start), before));
      StepKeepsWhole(cfg, sha, Run(cfg, sha, Initial(start), before), events[|events| - 1], a);
    }
  }
}
