// What each call of the ledger checks, and in which order: edgegrid/ledger.py, the guards of
// the public operations, in terms of the entries of the maps alone.

module LedgerGuards {
  import opened ByteStrings
  import opened LedgerModel
  import opened MerkleProof
  import opened Rounding

  // ---------------------------------------------------------------- configuration

  // `n` is the whole number nearest to `x`, the even one of two.
  predicate Nearest(x: real, n: int) {
    && n as real - 0.5 <= x <= n as real + 0.5
    && (x == n as real - 0.5 || x == n as real + 0.5 ==> n % 2 == 0)
  }

  // `n` is `x` without its fraction.
  predicate Truncated(x: real, n: int) {
    if x >= 0.0 then n as real <= x < n as real + 1.0 else n as real - 1.0 < x <= n as real
  }

  // A ledger is configured with these wei, milliseconds and basis points, and no others.
  lemma ConfiguredExactlyWhen(minStake: real, windowS: real, awardTimeoutS: real, unbondingS: real, share: real,
                              treasury: Account, cfg: Config)
    ensures Configured(minStake, windowS, awardTimeoutS, unbondingS, share, treasury) == Some(cfg) <==>
            && 0.0 <= share <= 1.0
            && Nearest(minStake * 1_000_000_000_000_000_000.0, cfg.minStake)
            && Truncated(windowS * 1000.0, cfg.window)
            && Truncated(awardTimeoutS * 1000.0, cfg.awardTimeout)
            && Truncated(unbondingS * 1000.0, cfg.unbondingPeriod)
            && Nearest(share * 10_000.0, cfg.bps)
            && treasury == cfg.treasury
  {
    RoundExactlyWhen(minStake * 1_000_000_000_000_000_000.0, cfg.minStake);
    RoundExactlyWhen(share * 10_000.0, cfg.bps);
  }

  // ---------------------------------------------------------------- entries

  function Entry(m: map<Account, nat>, a: Account): nat { if a in m then m[a] else 0 }

  // With stake, and no less than the minimum.
  predicate Active(cfg: Config, s: State, a: Account) {
    a in s.stake && s.stake[a] > 0 && s.stake[a] >= cfg.minStake
  }

  // 64 characters, after one `0x` if it begins with that, which `bytes.fromhex` reads.
  predicate DigestText(text: string) {
    if |text| >= 2 && text[0] == '0' && text[1] == 'x'
    then |text| == 66 && FromHex(text[2..]).Some?
    else |text| == 64 && FromHex(text).Some?
  }

  // ---------------------------------------------------------------- refusals

  function ChallengeRefusal(s: State, job: JobId): Option<LedgerError> {
    if job !in s.commitments then Some(NoCommitment)
    else if s.commitments[job].resolved then Some(AlreadyResolved)
    else if s.now > s.commitments[job].deadline then Some(ChallengeWindowClosed)
    else None
  }

  // The escrow of the call is missing, or not in the state that the call needs.
  function EscrowRefusal(s: State, job: JobId, needed: EscrowState): Option<LedgerError> {
    if job !in s.escrows then Some(NoEscrow)
    else if s.escrows[job].state != needed then Some(WrongState)
    else None
  }

  function Refusal(cfg: Config, sha: Hash, s: State, e: Event): Option<LedgerError> {
    match e
    case DoStake(node, wei) =>
      if wei == 0 then Some(ZeroAmount)
      else if Entry(s.stake, node) + wei < cfg.minStake then Some(BelowMinimumStake)
      else None
    case DoRequestUnstake(node, wei) =>
      if wei == 0 then Some(ZeroAmount)
      else if Entry(s.stake, node) < wei then Some(InsufficientStake)
      else if wei < Entry(s.stake, node) < wei + cfg.minStake then Some(BelowMinimumStake)
      else None
    case DoClaimUnstake(node) =>
      if node !in s.unbonding || s.unbonding[node].amount == 0 then Some(NothingToWithdraw)
      else if s.now < s.unbonding[node].ready then Some(UnbondingNotReady)
      else None
    case DoWithdraw(account) => if Entry(s.withdrawable, account) == 0 then Some(NothingToWithdraw) else None
    case DoOpenEscrow(job, _, provider, wei) =>
      if wei == 0 then Some(ZeroAmount)
      else if job in s.escrows then Some(EscrowExists)
      else if !Active(cfg, s, provider) then Some(ProviderNotActive)
      else None
    case DoRecordCommitment(job, provider, outputHash, _, merkleRoot, leafIndex) =>
      if !DigestText(outputHash) || !(merkleRoot == "" || DigestText(merkleRoot)) then Some(BadDigest)
      else if leafIndex < 0 then Some(NegativeLeafIndex)
      else if job !in s.escrows then Some(NoEscrow)
      else if job in s.commitments then Some(CommitmentExists)
      else if s.escrows[job].state != Open then Some(WrongState)
      else if s.escrows[job].provider != provider then Some(NotAwardedProvider)
      else None
    case DoRelease(job) =>
      if EscrowRefusal(s, job, Awaiting).Some? then EscrowRefusal(s, job, Awaiting)
      else if s.now < s.escrows[job].deadline then Some(ChallengeWindowOpen)
      else None
    case DoCancel(job, requester) =>
      if EscrowRefusal(s, job, Open).Some? then EscrowRefusal(s, job, Open)
      else if s.escrows[job].requester != requester then Some(NotRequester)
      else if s.now - s.escrows[job].openedAt < cfg.awardTimeout then Some(AwardWindowOpen)
      else None
    case DoRegisterValidator(_) => None
    case DoSubmitVerdict(job, validator, verdict, _, _) =>
      if validator !in s.validators then Some(NotValidator)
      else if !Active(cfg, s, validator) then Some(ProviderNotActive)
      else if ChallengeRefusal(s, job).Some? then ChallengeRefusal(s, job)
      else if verdict == Fail then EscrowRefusal(s, job, Awaiting)
      else None
    case DoProveMismatch(job, blob, _, proof) =>
      if ChallengeRefusal(s, job).Some? then ChallengeRefusal(s, job)
      else if s.commitments[job].merkleRoot == "" || proof.None? then Some(MissingInclusionProof)
      else if !Accepts(sha, blob, proof.value, s.commitments[job].merkleRoot) then Some(BadInclusionProof)
      else if ToHex(sha(blob)) == s.commitments[job].outputHash then Some(NoMismatch)
      else EscrowRefusal(s, job, Awaiting)
    case Tick(_) => None
  }

  // ---------------------------------------------------------------- calls are refused exactly so

  lemma DigestExactlyWhen(text: string)
    ensures IsDigest(text) <==> DigestText(text)
  {
    if |text| >= 2 {
      assert text[..2] == "0x" <==> text[0] == '0' && text[1] == 'x';
    }
  }

  lemma ActiveExactlyWhen(cfg: Config, s: State, a: Account)
    ensures IsActive(cfg, s, a) <==> Active(cfg, s, a)
  {
  }

  // In every state every call raises what its guards say, and is accepted when none fires.
  lemma CallsFollowGuards(cfg: Config, sha: Hash, s: State, e: Event)
    requires ValidConfig(cfg)
    ensures Apply(cfg, sha, s, e).error == Refusal(cfg, sha, s, e)
  {
    match e {
      case DoOpenEscrow(_, _, provider, _) => ActiveExactlyWhen(cfg, s, provider);
      case DoRecordCommitment(_, _, outputHash, _, merkleRoot, _) =>
        DigestExactlyWhen(outputHash);
        DigestExactlyWhen(merkleRoot);
      case DoSubmitVerdict(_, validator, _, _, _) => ActiveExactlyWhen(cfg, s, validator);
      case _ =>
    }
  }

  // Money is put up for a job, and a verdict heard, only of who has the minimum at stake.
  lemma OpensExactlyWhen(cfg: Config, s: State, job: JobId, requester: Account, provider: Account, wei: nat)
    ensures OpenEscrow(cfg, s, job, requester, provider, wei).Accepted() <==>
            && wei > 0 && job !in s.escrows
            && provider in s.stake && s.stake[provider] > 0 && s.stake[provider] >= cfg.minStake
  {
    ActiveExactlyWhen(cfg, s, provider);
  }

  lemma VerdictExactlyWhen(cfg: Config, s: State, job: JobId, validator: Account, verdict: Verdict, score: int,
                           reason: string)
    requires ValidConfig(cfg)
    ensures SubmitVerdict(cfg, s, job, validator, verdict, score, reason).Accepted() <==>
            && validator in s.validators
            && validator in s.stake && s.stake[validator] > 0 && s.stake[validator] >= cfg.minStake
            && job in s.commitments && !s.commitments[job].resolved && s.now <= s.commitments[job].deadline
            && (verdict == Fail ==> job in s.escrows && s.escrows[job].state == Awaiting)
  {
    ActiveExactlyWhen(cfg, s, validator);
  }
}
