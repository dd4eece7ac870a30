// The ledger as an object: edgegrid/ledger.py, classes `ManualClock` and `Ledger`.
//
// The methods work on the fields one at a time, in the order of the code, and each is
// proved to do what the function of the same name in `LedgerModel` says.

module Ledger {
  import opened ByteStrings
  import opened MerkleProof
  import opened Totals
  import opened LedgerModel
  import opened LedgerConservation

  class ManualClock {
    var t: int

    constructor (start: int)
      ensures t == start
    {
      t := start;
    }

    // Whole milliseconds; the fraction is lost, and a negative step turns the clock back.
    method Advance(seconds: real) returns (now: int)
      modifies this
      ensures now == t
      ensures seconds >= 0.0 ==> (t - old(t)) as real <= seconds * 1000.0 < (t - old(t)) as real + 1.0
      ensures seconds < 0.0 ==> (t - old(t)) as real - 1.0 < seconds * 1000.0 <= (t - old(t)) as real
    {
      t := t + Milliseconds(seconds);
      now := t;
    }
  }

  method Sum<K, V>(m: map<K, V>, f: V -> int) returns (total: int)
    ensures total == Total(m, f)
  {
    total := 0;
    var rest := m;
    while rest != map[]
      invariant total + Total(rest, f) == Total(m, f)
      decreases |rest|
    {
      var k :| k in rest;
      TotalRemove(rest, k, f);
      total := total + f(rest[k]);
      rest := rest - {k};
    }
  }

  class Ledger {
    const cfg: Config
    const sha: Hash
    const clock: ManualClock

    var stakeWei: map<Account, nat>
    var unbonding: map<Account, Unbonding>
    var withdrawableWei: map<Account, nat>
    var escrows: map<JobId, Escrow>
    var commitments: map<JobId, Commitment>
    var verdicts: map<JobId, VerdictEntry>
    var validators: set<Account>
    var records: seq<Record>
    var acct: Accounting

    function View(): State
      reads this, clock
    {
      State(clock.t, stakeWei, unbonding, withdrawableWei, escrows, commitments, verdicts, validators, records, acct)
    }

    constructor (cfg: Config, sha: Hash, clock: ManualClock)
      ensures this.cfg == cfg && this.sha == sha && this.clock == clock
      ensures View() == Initial(clock.t)
    {
      this.cfg, this.sha, this.clock := cfg, sha, clock;
      stakeWei, unbonding, withdrawableWei := map[], map[], map[];
      escrows, commitments, verdicts := map[], map[], map[];
      validators, records, acct := {}, [], NO_ACCOUNTING;
    }

    // -------------------------------------------------------------- staking

    method Stake(node: Account, wei: nat) returns (error: Option<LedgerError>)
      modifies this
      ensures Outcome(View(), error) == LedgerModel.Stake(cfg, old(View()), node, wei)
    {
      if wei == 0 {
        return Some(ZeroAmount);
      }
      var current := if node in stakeWei then stakeWei[node] else 0;
      if current + wei < cfg.minStake {
        return Some(BelowMinimumStake);
      }
      stakeWei := stakeWei[node := current + wei];
      acct := acct.(deposited := acct.deposited + wei);
      acct := acct.(stakeActive := acct.stakeActive + wei);
      error := None;
    }

    method RequestUnstake(node: Account, wei: nat) returns (error: Option<LedgerError>)
      modifies this
      ensures Outcome(View(), error) == LedgerModel.RequestUnstake(cfg, old(View()), node, wei)
    {
      var current := if node in stakeWei then stakeWei[node] else 0;
      if wei == 0 {
        return Some(ZeroAmount);
      }
      if wei > current {
        return Some(InsufficientStake);
      }
      var remaining := current - wei;
      if remaining != 0 && remaining < cfg.minStake {
        return Some(BelowMinimumStake);
      }
      stakeWei := stakeWei[node := remaining];
      acct := acct.(stakeActive := acct.stakeActive - wei);
      var u := if node in unbonding then unbonding[node] else Unbonding(0, 0);
      unbonding := unbonding[node := Unbonding(u.amount + wei, clock.t + cfg.unbondingPeriod)];
      acct := acct.(stakeUnbonding := acct.stakeUnbonding + wei);
      error := None;
    }

    method ClaimUnstake(node: Account) returns (error: Option<LedgerError>)
      modifies this
      ensures Outcome(View(), error) == LedgerModel.ClaimUnstake(old(View()), node)
    {
      if node !in unbonding || unbonding[node].amount == 0 {
        return Some(NothingToWithdraw);
      }
      if clock.t < unbonding[node].ready {
        return Some(UnbondingNotReady);
      }
      var amount := unbonding[node].amount;
      unbonding := unbonding[node := Unbonding(0, 0)];
      acct := acct.(stakeUnbonding := acct.stakeUnbonding - amount);
      Credit(node, amount);
      error := None;
    }

    method Withdraw(account: Account) returns (error: Option<LedgerError>)
      modifies this
      ensures Outcome(View(), error) == LedgerModel.Withdraw(old(View()), account)
    {
      var amount := if account in withdrawableWei then withdrawableWei[account] else 0;
      if amount == 0 {
        return Some(NothingToWithdraw);
      }
      withdrawableWei := withdrawableWei[account := 0];
      acct := acct.(withdrawable := acct.withdrawable - amount);
      acct := acct.(withdrawn := acct.withdrawn + amount);
      error := None;
    }

    method Credit(account: Account, wei: nat)
      modifies this
      ensures View() == LedgerModel.Credit(old(View()), account, wei)
    {
      if wei == 0 {
        return;
      }
      var balance := if account in withdrawableWei then withdrawableWei[account] else 0;
      withdrawableWei := withdrawableWei[account := balance + wei];
      acct := acct.(withdrawable := acct.withdrawable + wei);
    }

    // -------------------------------------------------------------- escrow

    method OpenEscrow(job: JobId, requester: Account, provider: Account, wei: nat) returns (error: Option<LedgerError>)
      modifies this
      ensures Outcome(View(), error) == LedgerModel.OpenEscrow(cfg, old(View()), job, requester, provider, wei)
    {
      if wei == 0 {
        return Some(ZeroAmount);
      }
      if job in escrows {
        return Some(EscrowExists);
      }
      if !IsActive(cfg, View(), provider) {
        return Some(ProviderNotActive);
      }
      escrows := escrows[job := Escrow(job, requester, provider, wei, clock.t, Open, 0)];
      acct := acct.(deposited := acct.deposited + wei);
      acct := acct.(escrowHeld := acct.escrowHeld + wei);
      error := None;
    }

    method RecordCommitment(job: JobId, provider: Account, outputHash: string, blobRef: string,
                            merkleRoot: string, leafIndex: int) returns (error: Option<LedgerError>)
      modifies this
      ensures Outcome(View(), error) ==
              LedgerModel.RecordCommitment(cfg, old(View()), job, provider, outputHash, blobRef, merkleRoot, leafIndex)
    {
      if !IsDigest(outputHash) || (merkleRoot != "" && !IsDigest(merkleRoot)) {
        return Some(BadDigest);
      }
      if leafIndex < 0 {
        return Some(NegativeLeafIndex);
      }
      if job !in escrows {
        return Some(NoEscrow);
      }
      if job in commitments {
        return Some(CommitmentExists);
      }
      if !escrows[job].state.Open? {
        return Some(WrongState);
      }
      if provider != escrows[job].provider {
        return Some(NotAwardedProvider);
      }
      var deadline := clock.t + cfg.window;
      commitments := commitments[job := Commitment(job, provider, outputHash, blobRef, merkleRoot, leafIndex,
                                                   clock.t, deadline, false, Unresolved)];
      escrows := escrows[job := escrows[job].(state := Awaiting)];
      escrows := escrows[job := escrows[job].(deadline := deadline)];
      assert escrows == old(escrows)[job := old(escrows[job]).(state := Awaiting, deadline := deadline)];
      error := None;
    }

    method Release(job: JobId) returns (error: Option<LedgerError>)
      modifies this
      ensures Outcome(View(), error) == LedgerModel.Release(old(View()), job)
    {
      if job !in escrows {
        return Some(NoEscrow);
      }
      var e := escrows[job];
      if !e.state.Awaiting? {
        return Some(WrongState);
      }
      if clock.t < e.deadline {
        return Some(ChallengeWindowOpen);
      }
      escrows := escrows[job := e.(state := Settled)];
      acct := acct.(escrowHeld := acct.escrowHeld - e.amount);
      acct := acct.(providerPayout := acct.providerPayout + e.amount);
      Credit(e.provider, e.amount);
      AppendRecord(job, 0, 0, WindowElapsed, "");
      error := None;
    }

    method Cancel(job: JobId, requester: Account) returns (error: Option<LedgerError>)
      modifies this
      ensures Outcome(View(), error) == LedgerModel.Cancel(cfg, old(View()), job, requester)
    {
      if job !in escrows {
        return Some(NoEscrow);
      }
      var e := escrows[job];
      if !e.state.Open? {
        return Some(WrongState);
      }
      if requester != e.requester {
        return Some(NotRequester);
      }
      if clock.t < e.openedAt + cfg.awardTimeout {
        return Some(AwardWindowOpen);
      }
      escrows := escrows[job := e.(state := Refunded)];
      acct := acct.(escrowHeld := acct.escrowHeld - e.amount);
      acct := acct.(requesterRefund := acct.requesterRefund + e.amount);
      assert View() == LetGo(old(View()), job, Refunded);
      Credit(e.requester, e.amount);
      AppendRecord(job, 0, 0, AwardTimeout, requester);
      error := None;
    }

    method AppendRecord(job: JobId, slash: nat, reward: nat, resolution: Resolution, reporter: Account)
      requires job in escrows
      modifies this
      ensures View() == AddRecord(old(View()), job, slash, reward, resolution, reporter)
    {
      var e := escrows[job];
      var paid := e.state.Settled?;
      var remaining := if e.provider in stakeWei then stakeWei[e.provider] else 0;
      records := records + [Record(
                   job, e.provider, e.requester, e.amount, e.state, if paid then e.amount else 0,
                   if paid then 0 else e.amount, slash, reward, slash - reward,
                   e.state.Slashed? ==> slash == e.amount, remaining, e.deadline, clock.t, resolution, reporter,
                   if e.jobId in verdicts then Some(verdicts[e.jobId].verdict) else None,
                   if e.jobId in verdicts then verdicts[e.jobId].score else 0)];
    }

    // -------------------------------------------------------------- verification

    method RegisterValidator(validator: Account)
      modifies this
      ensures View() == old(View()).(validators := old(validators) + {validator})
    {
      validators := validators + {validator};
    }

    method SubmitVerdict(job: JobId, validator: Account, verdict: Verdict, score: int, reason: string)
      returns (error: Option<LedgerError>)
      requires ValidConfig(cfg)
      modifies this
      ensures Outcome(View(), error) ==
              LedgerModel.SubmitVerdict(cfg, old(View()), job, validator, verdict, score, reason)
    {
      if validator !in validators {
        return Some(NotValidator);
      }
      if !IsActive(cfg, View(), validator) {
        return Some(ProviderNotActive);
      }
      error := ChallengeError(View(), job);
      if error.Some? {
        return;
      }
      verdicts := verdicts[job := VerdictEntry(validator, verdict, score, reason)];
      if verdict.Fail? {
        error := ConfirmFraud(job, validator, ValidatorVerdict);
      }
    }

    method ProveMismatch(job: JobId, blob: Bytes, reporter: Account, proof: Option<seq<Step>>)
      returns (error: Option<LedgerError>)
      requires ValidConfig(cfg)
      modifies this
      ensures Outcome(View(), error) == LedgerModel.ProveMismatch(cfg, sha, old(View()), job, blob, reporter, proof)
    {
      error := ChallengeError(View(), job);
      if error.Some? {
        return;
      }
      var c := commitments[job];
      if c.merkleRoot == "" || proof.None? {
        return Some(MissingInclusionProof);
      }
      var included := VerifyProof(sha, blob, proof.value, c.merkleRoot);
      if !included {
        return Some(BadInclusionProof);
      }
      if ToHex(sha(blob)) == c.outputHash {
        return Some(NoMismatch);
      }
      error := ConfirmFraud(job, reporter, DataMismatch);
    }

    method ConfirmFraud(job: JobId, reporter: Account, kind: Resolution) returns (error: Option<LedgerError>)
      requires ValidConfig(cfg) && job in commitments
      modifies this
      ensures Outcome(View(), error) == LedgerModel.ConfirmFraud(cfg, old(View()), job, reporter, kind)
    {
      if job !in escrows {
        return Some(NoEscrow);
      }
      var e := escrows[job];
      if !e.state.Awaiting? {
        return Some(WrongState);
      }
      var provider := commitments[job].provider;
      var available := Collateral(View(), provider);
      var slashed := if e.amount <= available then e.amount else available;
      PunishProvider(job, reporter, kind, slashed, Reward(cfg, slashed));
      error := None;
    }

    method PunishProvider(job: JobId, reporter: Account, kind: Resolution, slashed: nat, reward: nat)
      requires job in commitments && job in escrows
      requires reward <= slashed <= Collateral(View(), commitments[job].provider)
      modifies this
      ensures View() == Punish(cfg, old(View()), job, reporter, kind, slashed, reward)
    {
      var provider := commitments[job].provider;
      commitments := commitments[job := commitments[job].(resolved := true, resolution := kind)];
      TakeCollateral(provider, slashed);
      PayOut(reporter, slashed, reward);
      Refund(job);
      AppendRecord(job, slashed, reward, kind, reporter);
    }

    method Refund(job: JobId)
      requires job in escrows
      modifies this
      ensures View() == Close(old(View()), job, Slashed)
    {
      var e := escrows[job];
      escrows := escrows[job := e.(state := Slashed)];
      acct := acct.(escrowHeld := acct.escrowHeld - e.amount);
      acct := acct.(requesterRefund := acct.requesterRefund + e.amount);
      Credit(e.requester, e.amount);
    }

    method TakeCollateral(provider: Account, slashed: nat)
      requires slashed <= Collateral(View(), provider)
      modifies this
      ensures View() == Slash(old(View()), provider, slashed)
    {
      var active := if provider in stakeWei then stakeWei[provider] else 0;
      var u := if provider in unbonding then unbonding[provider] else Unbonding(0, 0);
      unbonding := unbonding[provider := u];
      var fromActive := if slashed <= active then slashed else active;
      if fromActive > 0 {
        stakeWei := stakeWei[provider := active - fromActive];
        acct := acct.(stakeActive := acct.stakeActive - fromActive);
      }
      var fromUnbonding := slashed - fromActive;
      if fromUnbonding > 0 {
        unbonding := unbonding[provider := Unbonding(u.amount - fromUnbonding, u.ready)];
        acct := acct.(stakeUnbonding := acct.stakeUnbonding - fromUnbonding);
      }
      assert unbonding == old(unbonding)[provider := Unbonding(u.amount - fromUnbonding, u.ready)];
      assert acct == old(acct).(stakeActive := old(acct.stakeActive) - fromActive,
                                stakeUnbonding := old(acct.stakeUnbonding) - fromUnbonding);
    }

    method PayOut(reporter: Account, slashed: nat, reward: nat)
      requires reward <= slashed
      modifies this
      ensures View() == Distribute(old(View()), reporter, cfg.treasury, slashed, reward)
    {
      if slashed > 0 {
        Credit(reporter, reward);
        Credit(cfg.treasury, slashed - reward);
        acct := acct.(validatorReward := acct.validatorReward + reward);
        acct := acct.(treasury := acct.treasury + (slashed - reward));
        acct := acct.(slashed := acct.slashed + slashed);
      }
    }

    // -------------------------------------------------------------- invariants

    // The problems that `check_invariants` finds among its integer identities. It finds
    // none exactly when value is conserved, so on a ledger that only these methods have
    // touched it never raises on them.
    method CheckInvariants() returns (problems: seq<string>)
      ensures problems == [] <==> Conserved(View())
    {
      var stakeSum := Sum<Account, nat>(stakeWei, Wei);
      var unbondSum := Sum(unbonding, UnbondingWei);
      var creditedSum := Sum<Account, nat>(withdrawableWei, Wei);
      var escrowSum := Sum(escrows, HeldWei);
      var closed := Sum(escrows, ClosedWei);

      problems := [];
      if stakeSum != acct.stakeActive {
        problems := problems + ["stake ledger vs accounting"];
      }
      if unbondSum != acct.stakeUnbonding {
        problems := problems + ["unbonding ledger vs accounting"];
      }
      if creditedSum != acct.withdrawable {
        problems := problems + ["credited ledger vs accounting"];
      }
      if escrowSum != acct.escrowHeld {
        problems := problems + ["escrow ledger vs accounting"];
      }
      if acct.deposited != stakeSum + unbondSum + escrowSum + creditedSum + acct.withdrawn {
        problems := problems + ["value conservation"];
      }
      if closed != acct.providerPayout + acct.requesterRefund {
        problems := problems + ["escrow outflow"];
      }
      if acct.slashed != acct.validatorReward + acct.treasury {
        problems := problems + ["slash split"];
      }
      ghost var books := problems == [];
      for i := 0 to |records|
        invariant problems == [] <==> books && forall k :: 0 <= k < i ==> RecordBalanced(records[k])
      {
        if records[i].payout + records[i].refund != records[i].amount {
          problems := problems + ["escrow paid"];
        }
        if records[i].reward + records[i].treasury != records[i].slash {
          problems := problems + ["record split"];
        }
      }
    }
  }
}
