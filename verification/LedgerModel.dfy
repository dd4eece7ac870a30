// The settlement ledger: edgegrid/ledger.py, class `Ledger`, in wei.
//
// Every operation is a function from a state to the state after the call and the
// error it raised, if any, with the checks in the order of the code. `Ledger.dfy`
// holds the class that works on fields.

module LedgerModel {
  import opened ByteStrings
  import opened MerkleProof
  import opened Rounding

  type Account = string
  type JobId = string

  // ---------------------------------------------------------------- entities

  datatype EscrowState = Open | Awaiting | Settled | Slashed | Refunded

  datatype Escrow = Escrow(
    jobId: JobId, requester: Account, provider: Account, amount: nat, openedAt: int,
    state: EscrowState, deadline: int)

  datatype Resolution = Unresolved | WindowElapsed | AwardTimeout | DataMismatch | ValidatorVerdict

  datatype Commitment = Commitment(
    jobId: JobId, provider: Account, outputHash: string, blobRef: string, merkleRoot: string,
    leafIndex: int, recorded: int, deadline: int, resolved: bool, resolution: Resolution)

  datatype Unbonding = Unbonding(amount: nat, ready: int)

  datatype Verdict = Pass | Fail | Error

  datatype VerdictEntry = VerdictEntry(validator: Account, verdict: Verdict, score: int, reason: string)

  datatype Accounting = Accounting(
    deposited: int, withdrawn: int, escrowHeld: int, providerPayout: int, requesterRefund: int,
    validatorReward: int, treasury: int, slashed: int, stakeActive: int, stakeUnbonding: int,
    withdrawable: int)

  datatype Record = Record(
    jobId: JobId, provider: Account, requester: Account, amount: int, state: EscrowState,
    payout: int, refund: int, slash: int, reward: int, treasury: int, fullyCovered: bool,
    remainingStake: int, deadline: int, created: int, resolution: Resolution, reporter: Account,
    verdict: Option<Verdict>, score: int)

  // Durations in milliseconds may be anything the caller configures; the share of the
  // validator is in basis points.
  datatype Config = Config(
    minStake: nat, window: int, awardTimeout: int, unbondingPeriod: int, bps: nat, treasury: Account)

  predicate ValidConfig(cfg: Config) { cfg.bps <= 10_000 }

  function ToWei(amount: real): Option<nat> {
    var wei := Round(amount * 1_000_000_000_000_000_000.0);
    if wei < 0 then None else Some(wei)
  }

  function Milliseconds(seconds: real): int { Truncate(seconds * 1000.0) }

  // The configuration that the arguments of the constructor make; `None` where it raises.
  function Configured(minStake: real, windowS: real, awardTimeoutS: real, unbondingS: real, share: real,
                      treasury: Account): (cfg: Option<Config>)
    ensures cfg.Some? <==> 0.0 <= share <= 1.0 && ToWei(minStake).Some?
    ensures cfg.Some? ==> ValidConfig(cfg.value)
    ensures cfg.Some? && unbondingS <= windowS ==> cfg.value.unbondingPeriod <= cfg.value.window
  {
    if !(0.0 <= share <= 1.0) || ToWei(minStake).None? then None
    else
      Some(Config(ToWei(minStake).value, Milliseconds(windowS), Milliseconds(awardTimeoutS), Milliseconds(unbondingS),
                  Round(share * 10_000.0), treasury))
  }

  datatype State = State(
    now: int,
    stake: map<Account, nat>,
    unbonding: map<Account, Unbonding>,
    withdrawable: map<Account, nat>,
    escrows: map<JobId, Escrow>,
    commitments: map<JobId, Commitment>,
    verdicts: map<JobId, VerdictEntry>,
    validators: set<Account>,
    records: seq<Record>,
    acct: Accounting)

  const NO_ACCOUNTING := Accounting(0, 0, 0, 0, 0, 0, 0, 0, 0, 0, 0)

  function Initial(now: int): State {
    State(now, map[], map[], map[], map[], map[], map[], {}, [], NO_ACCOUNTING)
  }

  datatype LedgerError =
    | ZeroAmount | BelowMinimumStake | InsufficientStake | UnbondingNotReady | NothingToWithdraw
    | EscrowExists | NoEscrow | WrongState | ChallengeWindowOpen | ChallengeWindowClosed
    | AwardWindowOpen | ProviderNotActive | NotRequester | NotAwardedProvider | CommitmentExists
    | NoCommitment | AlreadyResolved | NotValidator | MissingInclusionProof | BadInclusionProof
    | NoMismatch | BadDigest | NegativeLeafIndex

  datatype Outcome = Outcome(state: State, error: Option<LedgerError>) {
    predicate Accepted() { error.None? }
  }

  function Reject(s: State, e: LedgerError): Outcome { Outcome(s, Some(e)) }

  function Accept(s: State): Outcome { Outcome(s, None) }

  // ---------------------------------------------------------------- reading

  function StakeOf(s: State, node: Account): nat {
    if node in s.stake then s.stake[node] else 0
  }

  function UnbondingOf(s: State, node: Account): Unbonding {
    if node in s.unbonding then s.unbonding[node] else Unbonding(0, 0)
  }

  function CreditOf(s: State, account: Account): nat {
    if account in s.withdrawable then s.withdrawable[account] else 0
  }

  // What a slash can still reach.
  function Collateral(s: State, node: Account): nat {
    StakeOf(s, node) + UnbondingOf(s, node).amount
  }

  predicate IsActive(cfg: Config, s: State, node: Account) {
    StakeOf(s, node) > 0 && StakeOf(s, node) >= cfg.minStake
  }

  predicate Closed(state: EscrowState) { state.Settled? || state.Slashed? || state.Refunded? }

  function StripPrefix(value: string): string {
    if |value| >= 2 && value[..2] == "0x" then value[2..] else value
  }

  predicate IsDigest(value: string) {
    |StripPrefix(value)| == 64 && FromHex(StripPrefix(value)).Some?
  }

  // ---------------------------------------------------------------- staking

  function Stake(cfg: Config, s: State, node: Account, wei: nat): Outcome {
    if wei == 0 then Reject(s, ZeroAmount)
    else if StakeOf(s, node) + wei < cfg.minStake then Reject(s, BelowMinimumStake)
    else
      Accept(s.(stake := s.stake[node := StakeOf(s, node) + wei],
                acct := s.acct.(deposited := s.acct.deposited + wei, stakeActive := s.acct.stakeActive + wei)))
  }

  function RequestUnstake(cfg: Config, s: State, node: Account, wei: nat): Outcome {
    if wei == 0 then Reject(s, ZeroAmount)
    else if wei > StakeOf(s, node) then Reject(s, InsufficientStake)
    else
      var remaining := StakeOf(s, node) - wei;
      if remaining != 0 && remaining < cfg.minStake then Reject(s, BelowMinimumStake)
      else
        var u := Unbonding(UnbondingOf(s, node).amount + wei, s.now + cfg.unbondingPeriod);
        Accept(s.(stake := s.stake[node := remaining],
                  unbonding := s.unbonding[node := u],
                  acct := s.acct.(stakeActive := s.acct.stakeActive - wei,
                                  stakeUnbonding := s.acct.stakeUnbonding + wei)))
  }

  function ClaimUnstake(s: State, node: Account): Outcome {
    var u := UnbondingOf(s, node);
    if u.amount == 0 then Reject(s, NothingToWithdraw)
    else if s.now < u.ready then Reject(s, UnbondingNotReady)
    else
      var s' := s.(unbonding := s.unbonding[node := Unbonding(0, 0)],
                   acct := s.acct.(stakeUnbonding := s.acct.stakeUnbonding - u.amount));
      Accept(Credit(s', node, u.amount))
  }

  function Withdraw(s: State, account: Account): Outcome {
    var amount := CreditOf(s, account);
    if amount == 0 then Reject(s, NothingToWithdraw)
    else
      Accept(s.(withdrawable := s.withdrawable[account := 0],
                acct := s.acct.(withdrawable := s.acct.withdrawable - amount,
                                withdrawn := s.acct.withdrawn + amount)))
  }

  function Credit(s: State, account: Account, wei: nat): State {
    if wei == 0 then s
    else
      s.(withdrawable := s.withdrawable[account := CreditOf(s, account) + wei],
         acct := s.acct.(withdrawable := s.acct.withdrawable + wei))
  }

  // ---------------------------------------------------------------- escrow

  function OpenEscrow(cfg: Config, s: State, job: JobId, requester: Account, provider: Account, wei: nat): Outcome {
    if wei == 0 then Reject(s, ZeroAmount)
    else if job in s.escrows then Reject(s, EscrowExists)
    else if !IsActive(cfg, s, provider) then Reject(s, ProviderNotActive)
    else
      Accept(s.(escrows := s.escrows[job := Escrow(job, requester, provider, wei, s.now, Open, 0)],
                acct := s.acct.(deposited := s.acct.deposited + wei, escrowHeld := s.acct.escrowHeld + wei)))
  }

  function RecordCommitment(cfg: Config, s: State, job: JobId, provider: Account, outputHash: string,
                            blobRef: string, merkleRoot: string, leafIndex: int): Outcome {
    if !IsDigest(outputHash) then Reject(s, BadDigest)
    else if merkleRoot != "" && !IsDigest(merkleRoot) then Reject(s, BadDigest)
    else if leafIndex < 0 then Reject(s, NegativeLeafIndex)
    else if job !in s.escrows then Reject(s, NoEscrow)
    else if job in s.commitments then Reject(s, CommitmentExists)
    else if !s.escrows[job].state.Open? then Reject(s, WrongState)
    else if provider != s.escrows[job].provider then Reject(s, NotAwardedProvider)
    else
      var deadline := s.now + cfg.window;
      var c := Commitment(job, provider, outputHash, blobRef, merkleRoot, leafIndex, s.now, deadline, false,
                          Unresolved);
      Accept(s.(commitments := s.commitments[job := c],
                escrows := s.escrows[job := s.escrows[job].(state := Awaiting, deadline := deadline)]))
  }

  function PayoutOf(e: Escrow, state: EscrowState): nat { if state.Settled? then e.amount else 0 }
  function RefundOf(e: Escrow, state: EscrowState): nat { if state.Settled? then 0 else e.amount }

  // An escrow leaves the held states for `state`.
  function LetGo(s: State, job: JobId, state: EscrowState): State
    requires job in s.escrows
  {
    var e := s.escrows[job];
    s.(escrows := s.escrows[job := e.(state := state)],
       acct := s.acct.(escrowHeld := s.acct.escrowHeld - e.amount,
                       providerPayout := s.acct.providerPayout + PayoutOf(e, state),
                       requesterRefund := s.acct.requesterRefund + RefundOf(e, state)))
  }

  // The whole amount goes to the provider if the job is settled, else to the requester.
  function Close(s: State, job: JobId, state: EscrowState): State
    requires job in s.escrows
  {
    var e := s.escrows[job];
    Credit(LetGo(s, job, state), if state.Settled? then e.provider else e.requester, e.amount)
  }

  function AddRecord(s: State, job: JobId, slash: nat, reward: nat, resolution: Resolution, reporter: Account): State
    requires job in s.escrows
  {
    var e := s.escrows[job];
    s.(records := s.records + [Record(
         job, e.provider, e.requester, e.amount, e.state,
         if e.state.Settled? then e.amount else 0, if e.state.Settled? then 0 else e.amount,
         slash, reward, slash - reward, e.state.Slashed? ==> slash == e.amount,
         StakeOf(s, e.provider), e.deadline, s.now, resolution, reporter,
         if e.jobId in s.verdicts then Some(s.verdicts[e.jobId].verdict) else None,
         if e.jobId in s.verdicts then s.verdicts[e.jobId].score else 0)])
  }

  function Release(s: State, job: JobId): Outcome {
    if job !in s.escrows then Reject(s, NoEscrow)
    else if !s.escrows[job].state.Awaiting? then Reject(s, WrongState)
    else if s.now < s.escrows[job].deadline then Reject(s, ChallengeWindowOpen)
    else Accept(AddRecord(Close(s, job, Settled), job, 0, 0, WindowElapsed, ""))
  }

  function Cancel(cfg: Config, s: State, job: JobId, requester: Account): Outcome {
    if job !in s.escrows then Reject(s, NoEscrow)
    else if !s.escrows[job].state.Open? then Reject(s, WrongState)
    else if requester != s.escrows[job].requester then Reject(s, NotRequester)
    else if s.now < s.escrows[job].openedAt + cfg.awardTimeout then Reject(s, AwardWindowOpen)
    else Accept(AddRecord(Close(s, job, Refunded), job, 0, 0, AwardTimeout, requester))
  }

  // ---------------------------------------------------------------- challenges

  function ChallengeError(s: State, job: JobId): Option<LedgerError> {
    if job !in s.commitments then Some(NoCommitment)
    else if s.commitments[job].resolved then Some(AlreadyResolved)
    else if s.now > s.commitments[job].deadline then Some(ChallengeWindowClosed)
    else None
  }

  function SubmitVerdict(cfg: Config, s: State, job: JobId, validator: Account, verdict: Verdict,
                         score: int, reason: string): Outcome
    requires ValidConfig(cfg)
  {
    if validator !in s.validators then Reject(s, NotValidator)
    else if !IsActive(cfg, s, validator) then Reject(s, ProviderNotActive)
    else if ChallengeError(s, job).Some? then Outcome(s, ChallengeError(s, job))
    else
      var s' := s.(verdicts := s.verdicts[job := VerdictEntry(validator, verdict, score, reason)]);
      if verdict.Fail? then ConfirmFraud(cfg, s', job, validator, ValidatorVerdict) else Accept(s')
  }

  function ProveMismatch(cfg: Config, sha: Hash, s: State, job: JobId, blob: Bytes, reporter: Account,
                         proof: Option<seq<Step>>): Outcome
    requires ValidConfig(cfg)
  {
    if ChallengeError(s, job).Some? then Outcome(s, ChallengeError(s, job))
    else
      var c := s.commitments[job];
      if c.merkleRoot == "" then Reject(s, MissingInclusionProof)
      else if proof.None? then Reject(s, MissingInclusionProof)
      else if !Accepts(sha, blob, proof.value, c.merkleRoot) then Reject(s, BadInclusionProof)
      else if ToHex(sha(blob)) == c.outputHash then Reject(s, NoMismatch)
      else ConfirmFraud(cfg, s, job, reporter, DataMismatch)
  }

  function Min(a: nat, b: nat): nat { if a <= b then a else b }

  // Active stake pays first, then what is unbonding.
  function Slash(s: State, provider: Account, slashed: nat): State
    requires slashed <= Collateral(s, provider)
  {
    var u := UnbondingOf(s, provider);
    var fromActive := Min(slashed, StakeOf(s, provider));
    var fromUnbonding := slashed - fromActive;
    s.(stake := if fromActive == 0 then s.stake else s.stake[provider := StakeOf(s, provider) - fromActive],
       unbonding := s.unbonding[provider := Unbonding(u.amount - fromUnbonding, u.ready)],
       acct := s.acct.(stakeActive := s.acct.stakeActive - fromActive,
                       stakeUnbonding := s.acct.stakeUnbonding - fromUnbonding))
  }

  function Reward(cfg: Config, slashed: nat): (reward: nat)
    requires ValidConfig(cfg)
    ensures reward <= slashed
  {
    ShareBound(slashed, cfg.bps);
    slashed * cfg.bps / 10_000
  }

  lemma ShareBound(amount: nat, bps: nat)
    requires bps <= 10_000
    ensures 0 <= amount * bps / 10_000 <= amount
  {
    assert amount * bps <= amount * 10_000;
  }

  function Distribute(s: State, reporter: Account, treasury: Account, slashed: nat, reward: nat): State
    requires reward <= slashed
  {
    var s' := Credit(Credit(s, reporter, reward), treasury, slashed - reward);
    s'.(acct := s'.acct.(validatorReward := s'.acct.validatorReward + reward,
                         treasury := s'.acct.treasury + (slashed - reward),
                         slashed := s'.acct.slashed + slashed))
  }

  function Resolve(s: State, job: JobId, kind: Resolution): State
    requires job in s.commitments
  {
    s.(commitments := s.commitments[job := s.commitments[job].(resolved := true, resolution := kind)])
  }

  // The slash of `slashed` wei from the provider, `reward` of it for the reporter, and
  // the return of the escrow to the requester.
  function Punish(cfg: Config, s: State, job: JobId, reporter: Account, kind: Resolution,
                  slashed: nat, reward: nat): State
    requires job in s.commitments && job in s.escrows
    requires reward <= slashed <= Collateral(s, s.commitments[job].provider)
  {
    var s1 := Slash(Resolve(s, job, kind), s.commitments[job].provider, slashed);
    var s2 := Close(Distribute(s1, reporter, cfg.treasury, slashed, reward), job, Slashed);
    AddRecord(s2, job, slashed, reward, kind, reporter)
  }

  function ConfirmFraud(cfg: Config, s: State, job: JobId, reporter: Account, kind: Resolution): Outcome
    requires ValidConfig(cfg) && job in s.commitments
  {
    if job !in s.escrows then Reject(s, NoEscrow)
    else if !s.escrows[job].state.Awaiting? then Reject(s, WrongState)
    else
      var slashed := Min(s.escrows[job].amount, Collateral(s, s.commitments[job].provider));
      Accept(Punish(cfg, s, job, reporter, kind, slashed, Reward(cfg, slashed)))
  }

  // ---------------------------------------------------------------- runs

  datatype Event =
    | DoStake(node: Account, wei: nat)
    | DoRequestUnstake(node: Account, wei: nat)
    | DoClaimUnstake(node: Account)
    | DoWithdraw(account: Account)
    | DoOpenEscrow(job: JobId, requester: Account, provider: Account, wei: nat)
    | DoRecordCommitment(job: JobId, provider: Account, outputHash: string, blobRef: string,
                         merkleRoot: string, leafIndex: int)
    | DoRelease(job: JobId)
    | DoCancel(job: JobId, requester: Account)
    | DoRegisterValidator(validator: Account)
    | DoSubmitVerdict(job: JobId, validator: Account, verdict: Verdict, score: int, reason: string)
    | DoProveMismatch(job: JobId, blob: Bytes, reporter: Account, proof: Option<seq<Step>>)
    | Tick(ms: nat)

  function Apply(cfg: Config, sha: Hash, s: State, e: Event): Outcome
    requires ValidConfig(cfg)
  {
    match e
    case DoStake(node, wei) => Stake(cfg, s, node, wei)
    case DoRequestUnstake(node, wei) => RequestUnstake(cfg, s, node, wei)
    case DoClaimUnstake(node) => ClaimUnstake(s, node)
    case DoWithdraw(account) => Withdraw(s, account)
    case DoOpenEscrow(job, requester, provider, wei) => OpenEscrow(cfg, s, job, requester, provider, wei)
    case DoRecordCommitment(job, provider, outputHash, blobRef, merkleRoot, leafIndex) =>
      RecordCommitment(cfg, s, job, provider, outputHash, blobRef, merkleRoot, leafIndex)
    case DoRelease(job) => Release(s, job)
    case DoCancel(job, requester) => Cancel(cfg, s, job, requester)
    case DoRegisterValidator(validator) => Accept(s.(validators := s.validators + {validator}))
    case DoSubmitVerdict(job, validator, verdict, score, reason) =>
      SubmitVerdict(cfg, s, job, validator, verdict, score, reason)
    case DoProveMismatch(job, blob, reporter, proof) => ProveMismatch(cfg, sha, s, job, blob, reporter, proof)
    case Tick(ms) => Accept(s.(now := s.now + ms))
  }

  // The state after a run; a rejected call is part of the run.
  function Run(cfg: Config, sha: Hash, s: State, events: seq<Event>): State
    requires ValidConfig(cfg)
  {
    if events == [] then s
    else Apply(cfg, sha, Run(cfg, sha, s, events[..|events| - 1]), events[|events| - 1]).state
  }
}
