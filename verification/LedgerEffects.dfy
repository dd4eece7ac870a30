// What each accepted call of the ledger leaves at every account and every job:
// edgegrid/ledger.py, the effects of the public operations, entry by entry.

module LedgerEffects {
  import opened ByteStrings
  import opened LedgerGuards
  import opened LedgerModel
  import opened MerkleProof
  import opened Rounding

  // ---------------------------------------------------------------- challenges that slash

  datatype Charge = NoCharge | Charge(job: JobId, reporter: Account, kind: Resolution)

  // Only a FAIL and a proof of a mismatch slash.
  function ChargeOf(e: Event): Charge {
    match e
    case DoSubmitVerdict(job, validator, Fail, _, _) => Charge(job, validator, ValidatorVerdict)
    case DoProveMismatch(job, _, reporter, _) => Charge(job, reporter, DataMismatch)
    case _ => NoCharge
  }

  predicate Charged(s: State, job: JobId) { job in s.commitments && job in s.escrows }

  // The job that the call is about is known.
  predicate Concerns(s: State, e: Event) {
    && (ChargeOf(e).Charge? ==> Charged(s, ChargeOf(e).job))
    && (e.DoRelease? || e.DoCancel? || e.DoRecordCommitment? ==> e.job in s.escrows)
  }

  function Waiting(s: State, a: Account): (u: (int, int)) {
    if a in s.unbonding then (s.unbonding[a].amount, s.unbonding[a].ready) else (0, 0)
  }

  // The amount of the escrow, or all that the provider has left.
  function Loss(s: State, job: JobId): (wei: int)
    requires Charged(s, job)
  {
    var held := Entry(s.stake, s.commitments[job].provider) + Waiting(s, s.commitments[job].provider).0;
    if s.escrows[job].amount <= held then s.escrows[job].amount else held
  }

  function Bounty(cfg: Config, s: State, job: JobId): (wei: int)
    requires Charged(s, job)
  {
    Loss(s, job) * cfg.bps / 10_000
  }

  // ---------------------------------------------------------------- accounts

  // Active stake pays first.
  function StakeAfter(s: State, e: Event, a: Account): int
    requires Concerns(s, e)
  {
    var was := Entry(s.stake, a);
    match ChargeOf(e)
    case Charge(job, _, _) =>
      if s.commitments[job].provider != a then was
      else if Loss(s, job) <= was then was - Loss(s, job)
      else 0
    case NoCharge =>
      match e
      case DoStake(node, wei) => if node == a then was + wei else was
      case DoRequestUnstake(node, wei) => if node == a then was - wei else was
      case _ => was
  }

  // What is unbonding, and when it is ready; a slash never moves that moment.
  function WaitingAfter(cfg: Config, s: State, e: Event, a: Account): (int, int)
    requires Concerns(s, e)
  {
    var was := Waiting(s, a);
    match ChargeOf(e)
    case Charge(job, _, _) =>
      if s.commitments[job].provider == a && Loss(s, job) > Entry(s.stake, a)
      then (was.0 + Entry(s.stake, a) - Loss(s, job), was.1)
      else was
    case NoCharge =>
      match e
      case DoRequestUnstake(node, wei) => if node == a then (was.0 + wei, s.now + cfg.unbondingPeriod) else was
      case DoClaimUnstake(node) => if node == a then (0, 0) else was
      case _ => was
  }

  function CreditAfter(cfg: Config, s: State, e: Event, a: Account): int
    requires Concerns(s, e)
  {
    var was := Entry(s.withdrawable, a);
    match ChargeOf(e)
    case Charge(job, reporter, _) =>
      was + (if reporter == a then Bounty(cfg, s, job) else 0)
      + (if cfg.treasury == a then Loss(s, job) - Bounty(cfg, s, job) else 0)
      + (if s.escrows[job].requester == a then s.escrows[job].amount else 0)
    case NoCharge =>
      match e
      case DoClaimUnstake(node) => if node == a then was + Waiting(s, a).0 else was
      case DoWithdraw(account) => if account == a then 0 else was
      case DoRelease(job) => if s.escrows[job].provider == a then was + s.escrows[job].amount else was
      case DoCancel(job, _) => if s.escrows[job].requester == a then was + s.escrows[job].amount else was
      case _ => was
  }

  // ---------------------------------------------------------------- jobs

  function EscrowAfter(cfg: Config, s: State, e: Event, job: JobId): Option<Escrow>
    requires Concerns(s, e)
  {
    var was := if job in s.escrows then Some(s.escrows[job]) else None;
    match ChargeOf(e)
    case Charge(j, _, _) => if j == job then Some(s.escrows[j].(state := Slashed)) else was
    case NoCharge =>
      match e
      case DoOpenEscrow(j, requester, provider, wei) =>
        if j == job then Some(Escrow(job, requester, provider, wei, s.now, Open, 0)) else was
      case DoRecordCommitment(j, _, _, _, _, _) =>
        if j == job then Some(s.escrows[j].(state := Awaiting, deadline := s.now + cfg.window)) else was
      case DoRelease(j) => if j == job then Some(s.escrows[j].(state := Settled)) else was
      case DoCancel(j, _) => if j == job then Some(s.escrows[j].(state := Refunded)) else was
      case _ => was
  }

  function CommitmentAfter(cfg: Config, s: State, e: Event, job: JobId): Option<Commitment>
    requires Concerns(s, e)
  {
    var was := if job in s.commitments then Some(s.commitments[job]) else None;
    match ChargeOf(e)
    case Charge(j, _, kind) =>
      if j == job then Some(s.commitments[j].(resolved := true, resolution := kind)) else was
    case NoCharge =>
      match e
      case DoRecordCommitment(j, provider, outputHash, blobRef, merkleRoot, leafIndex) =>
        if j == job
        then Some(Commitment(job, provider, outputHash, blobRef, merkleRoot, leafIndex, s.now, s.now + cfg.window,
                             false, Unresolved))
        else was
      case _ => was
  }

  // The last verdict heard on a job stands, whatever it was.
  function VerdictAfter(s: State, e: Event, job: JobId): Option<VerdictEntry> {
    if e.DoSubmitVerdict? && e.job == job then Some(VerdictEntry(e.validator, e.verdict, e.score, e.reason))
    else if job in s.verdicts then Some(s.verdicts[job])
    else None
  }

  function HeardVerdict(s: State, job: JobId): Option<Verdict> {
    if job in s.verdicts then Some(s.verdicts[job].verdict) else None
  }

  function HeardScore(s: State, job: JobId): int { if job in s.verdicts then s.verdicts[job].score else 0 }

  // The record that a call leading to `t` appends, if it closes a job.
  function RecordAdded(cfg: Config, s: State, t: State, e: Event): seq<Record>
    requires Concerns(s, e)
  {
    match ChargeOf(e)
    case Charge(job, reporter, kind) =>
      var o := s.escrows[job];
      [Record(job, o.provider, o.requester, o.amount, Slashed, 0, o.amount,
              Loss(s, job), Bounty(cfg, s, job), Loss(s, job) - Bounty(cfg, s, job), Loss(s, job) == o.amount,
              Entry(t.stake, o.provider), o.deadline, s.now, kind, reporter,
              HeardVerdict(t, o.jobId), HeardScore(t, o.jobId))]
    case NoCharge =>
      match e
      case DoRelease(job) =>
        var o := s.escrows[job];
        [Record(job, o.provider, o.requester, o.amount, Settled, o.amount, 0, 0, 0, 0, true,
                Entry(s.stake, o.provider), o.deadline, s.now, WindowElapsed, "",
                HeardVerdict(s, o.jobId), HeardScore(s, o.jobId))]
      case DoCancel(job, requester) =>
        var o := s.escrows[job];
        [Record(job, o.provider, o.requester, o.amount, Refunded, 0, o.amount, 0, 0, 0, true,
                Entry(s.stake, o.provider), o.deadline, s.now, AwardTimeout, requester,
                HeardVerdict(s, o.jobId), HeardScore(s, o.jobId))]
      case _ => []
  }

  // ---------------------------------------------------------------- accounting

  // The totals of the call, each by what it moves.
  function AcctAfter(cfg: Config, s: State, e: Event): Accounting
    requires Concerns(s, e)
  {
    var A := s.acct;
    match ChargeOf(e)
    case Charge(job, _, _) =>
      var p := s.commitments[job].provider;
      var active := Entry(s.stake, p) - StakeAfter(s, e, p);
      A.(stakeActive := A.stakeActive - active,
         stakeUnbonding := A.stakeUnbonding - (Loss(s, job) - active),
         slashed := A.slashed + Loss(s, job),
         validatorReward := A.validatorReward + Bounty(cfg, s, job),
         treasury := A.treasury + Loss(s, job) - Bounty(cfg, s, job),
         escrowHeld := A.escrowHeld - s.escrows[job].amount,
         requesterRefund := A.requesterRefund + s.escrows[job].amount,
         withdrawable := A.withdrawable + Loss(s, job) + s.escrows[job].amount)
    case NoCharge =>
      match e
      case DoStake(_, wei) => A.(deposited := A.deposited + wei, stakeActive := A.stakeActive + wei)
      case DoRequestUnstake(_, wei) =>
        A.(stakeActive := A.stakeActive - wei, stakeUnbonding := A.stakeUnbonding + wei)
      case DoClaimUnstake(node) =>
        A.(stakeUnbonding := A.stakeUnbonding - Waiting(s, node).0,
           withdrawable := A.withdrawable + Waiting(s, node).0)
      case DoWithdraw(account) =>
        A.(withdrawable := A.withdrawable - Entry(s.withdrawable, account),
           withdrawn := A.withdrawn + Entry(s.withdrawable, account))
      case DoOpenEscrow(_, _, _, wei) => A.(deposited := A.deposited + wei, escrowHeld := A.escrowHeld + wei)
      case DoRelease(job) =>
        A.(escrowHeld := A.escrowHeld - s.escrows[job].amount,
           providerPayout := A.providerPayout + s.escrows[job].amount,
           withdrawable := A.withdrawable + s.escrows[job].amount)
      case DoCancel(job, _) =>
        A.(escrowHeld := A.escrowHeld - s.escrows[job].amount,
           requesterRefund := A.requesterRefund + s.escrows[job].amount,
           withdrawable := A.withdrawable + s.escrows[job].amount)
      case _ => A
  }

  // ---------------------------------------------------------------- pieces of an operation

  function Credited(m: map<Account, nat>, a: Account, wei: nat): map<Account, nat> {
    if wei == 0 then m else m[a := Entry(m, a) + wei]
  }

  // What one account has at stake, and what is unbonding for it, after a slash.
  predicate Takes(s: State, t: State, p: Account, slashed: int, a: Account) {
    var was := Entry(s.stake, a);
    && Entry(t.stake, a) == (if a != p then was else if slashed <= was then was - slashed else 0)
    && Waiting(t, a) == if a == p && slashed > was then (Waiting(s, a).0 + was - slashed, Waiting(s, a).1)
                        else Waiting(s, a)
  }

  // Everything but the accounts that a slash takes from, the credit and the accounting.
  predicate SameJobs(s: State, t: State) {
    && t.now == s.now && t.verdicts == s.verdicts && t.validators == s.validators && t.records == s.records
    && t.commitments == s.commitments && t.escrows == s.escrows
  }

  predicate SameStakes(s: State, t: State) { t.stake == s.stake && t.unbonding == s.unbonding }

  lemma SlashTakes(s: State, p: Account, slashed: nat, a: Account)
    requires slashed <= Collateral(s, p)
    ensures var t := Slash(s, p, slashed);
            && Takes(s, t, p, slashed, a) && SameJobs(s, t) && t.withdrawable == s.withdrawable
  {
  }

  lemma CreditIs(s: State, account: Account, wei: nat)
    ensures var t := Credit(s, account, wei);
            && SameJobs(s, t) && SameStakes(s, t) && t.withdrawable == Credited(s.withdrawable, account, wei)
            && t.acct == s.acct.(withdrawable := s.acct.withdrawable + wei)
  {
  }

  lemma DistributeIs(s: State, reporter: Account, treasury: Account, slashed: nat, reward: nat)
    requires reward <= slashed
    ensures var t := Distribute(s, reporter, treasury, slashed, reward);
            && SameJobs(s, t) && SameStakes(s, t)
            && t.withdrawable == Credited(Credited(s.withdrawable, reporter, reward), treasury, slashed - reward)
            && t.acct == s.acct.(withdrawable := s.acct.withdrawable + slashed,
                                 validatorReward := s.acct.validatorReward + reward,
                                 treasury := s.acct.treasury + (slashed - reward),
                                 slashed := s.acct.slashed + slashed)
  {
    CreditIs(s, reporter, reward);
    CreditIs(Credit(s, reporter, reward), treasury, slashed - reward);
  }

  // An escrow closes in favour of one account.
  lemma CloseIs(s: State, job: JobId, state: EscrowState)
    requires job in s.escrows
    ensures var t, o := Close(s, job, state), s.escrows[job];
            && SameStakes(s, t) && SameJobs(s, t.(escrows := s.escrows))
            && t.escrows == s.escrows[job := o.(state := state)]
            && t.withdrawable ==
                 Credited(s.withdrawable, if state == Settled then o.provider else o.requester, o.amount)
            && t.acct == s.acct.(escrowHeld := s.acct.escrowHeld - o.amount,
                                 providerPayout := s.acct.providerPayout + (if state == Settled then o.amount else 0),
                                 requesterRefund := s.acct.requesterRefund + (if state == Settled then 0 else o.amount),
                                 withdrawable := s.acct.withdrawable + o.amount)
  {
    var o := s.escrows[job];
    CreditIs(LetGo(s, job, state), if state == Settled then o.provider else o.requester, o.amount);
  }

  lemma RecordIs(s: State, job: JobId, slash: nat, reward: nat, kind: Resolution, reporter: Account)
    requires job in s.escrows
    ensures var t, o := AddRecord(s, job, slash, reward, kind, reporter), s.escrows[job];
            && t == s.(records := t.records)
            && t.records == s.records + [Record(
                 job, o.provider, o.requester, o.amount, o.state,
                 if o.state == Settled then o.amount else 0, if o.state == Settled then 0 else o.amount,
                 slash, reward, slash - reward, o.state == Slashed ==> slash == o.amount,
                 Entry(s.stake, o.provider), o.deadline, s.now, kind, reporter,
                 HeardVerdict(s, o.jobId), HeardScore(s, o.jobId))]
  {
  }

  // ---------------------------------------------------------------- a slash

  predicate FraudHolds(s: State, job: JobId) { Charged(s, job) && s.escrows[job].state == Awaiting }

  // What a slash of `wei` from the committed provider leaves; `u` is the state it starts from.
  predicate PunishedJobs(u: State, job: JobId, kind: Resolution, t: State)
    requires Charged(u, job)
  {
    && t.now == u.now && t.verdicts == u.verdicts && t.validators == u.validators
    && t.commitments == u.commitments[job := u.commitments[job].(resolved := true, resolution := kind)]
    && t.escrows == u.escrows[job := u.escrows[job].(state := Slashed)]
  }

  predicate PunishedCredit(cfg: Config, u: State, job: JobId, reporter: Account, wei: nat, reward: nat, t: State)
    requires Charged(u, job) && reward <= wei
  {
    t.withdrawable ==
      Credited(Credited(Credited(u.withdrawable, reporter, reward), cfg.treasury, wei - reward),
               u.escrows[job].requester, u.escrows[job].amount)
  }

  predicate PunishedRecord(u: State, job: JobId, reporter: Account, kind: Resolution, wei: nat, reward: nat, t: State)
    requires Charged(u, job)
  {
    var o := u.escrows[job];
    t.records == u.records + [Record(
      job, o.provider, o.requester, o.amount, Slashed, 0, o.amount, wei, reward, wei - reward, wei == o.amount,
      Entry(t.stake, o.provider), o.deadline, u.now, kind, reporter,
      HeardVerdict(t, o.jobId), HeardScore(t, o.jobId))]
  }

  predicate PunishedAccounting(u: State, job: JobId, wei: nat, reward: nat, t: State)
    requires Charged(u, job)
  {
    var p, o := u.commitments[job].provider, u.escrows[job];
    var active := if wei <= Entry(u.stake, p) then wei else Entry(u.stake, p);
    t.acct == u.acct.(stakeActive := u.acct.stakeActive - active,
                      stakeUnbonding := u.acct.stakeUnbonding - (wei - active),
                      slashed := u.acct.slashed + wei,
                      validatorReward := u.acct.validatorReward + reward,
                      treasury := u.acct.treasury + wei - reward,
                      escrowHeld := u.acct.escrowHeld - o.amount,
                      requesterRefund := u.acct.requesterRefund + o.amount,
                      withdrawable := u.acct.withdrawable + wei + o.amount)
  }

  // The state in which the slash is split and the escrow still open.
  function Slashing(cfg: Config, u: State, job: JobId, reporter: Account, kind: Resolution, wei: nat,
                    reward: nat): State
    requires Charged(u, job) && reward <= wei <= Collateral(u, u.commitments[job].provider)
  {
    Distribute(Slash(Resolve(u, job, kind), u.commitments[job].provider, wei), reporter, cfg.treasury, wei, reward)
  }

  lemma SlashingIs(cfg: Config, u: State, job: JobId, reporter: Account, kind: Resolution, wei: nat, reward: nat,
                   a: Account)
    requires Charged(u, job) && reward <= wei <= Collateral(u, u.commitments[job].provider)
    ensures var v := Slashing(cfg, u, job, reporter, kind, wei, reward);
            && SameJobs(Resolve(u, job, kind), v) && Takes(u, v, u.commitments[job].provider, wei, a)
            && v.withdrawable == Credited(Credited(u.withdrawable, reporter, reward), cfg.treasury, wei - reward)
  {
    var p := u.commitments[job].provider;
    var s0 := Resolve(u, job, kind);
    SlashTakes(s0, p, wei, a);
    DistributeIs(Slash(s0, p, wei), reporter, cfg.treasury, wei, reward);
  }

  lemma PunishIs(cfg: Config, u: State, job: JobId, reporter: Account, kind: Resolution, wei: nat, reward: nat,
                 a: Account)
    requires FraudHolds(u, job)
    requires reward <= wei <= Collateral(u, u.commitments[job].provider)
    ensures var t := Punish(cfg, u, job, reporter, kind, wei, reward);
            && PunishedJobs(u, job, kind, t) && Takes(u, t, u.commitments[job].provider, wei, a)
            && PunishedCredit(cfg, u, job, reporter, wei, reward, t)
            && PunishedRecord(u, job, reporter, kind, wei, reward, t)
  {
    SlashingIs(cfg, u, job, reporter, kind, wei, reward, a);
    var v := Slashing(cfg, u, job, reporter, kind, wei, reward);
    assert Punish(cfg, u, job, reporter, kind, wei, reward) ==
           AddRecord(Close(v, job, Slashed), job, wei, reward, kind, reporter);
    CloseIs(v, job, Slashed);
    RecordIs(Close(v, job, Slashed), job, wei, reward, kind, reporter);
  }

  lemma SlashAccounting(s: State, p: Account, wei: nat)
    requires wei <= Collateral(s, p)
    ensures var active := if wei <= Entry(s.stake, p) then wei else Entry(s.stake, p);
            Slash(s, p, wei).acct == s.acct.(stakeActive := s.acct.stakeActive - active,
                                             stakeUnbonding := s.acct.stakeUnbonding - (wei - active))
  {
  }

  lemma SlashingAccounts(cfg: Config, u: State, job: JobId, reporter: Account, kind: Resolution, wei: nat, reward: nat)
    requires Charged(u, job) && reward <= wei <= Collateral(u, u.commitments[job].provider)
    ensures var v, p := Slashing(cfg, u, job, reporter, kind, wei, reward), u.commitments[job].provider;
            var active := if wei <= Entry(u.stake, p) then wei else Entry(u.stake, p);
            && v.escrows == u.escrows
            && v.acct == u.acct.(stakeActive := u.acct.stakeActive - active,
                                 stakeUnbonding := u.acct.stakeUnbonding - (wei - active),
                                 slashed := u.acct.slashed + wei,
                                 validatorReward := u.acct.validatorReward + reward,
                                 treasury := u.acct.treasury + (wei - reward),
                                 withdrawable := u.acct.withdrawable + wei)
  {
    var p := u.commitments[job].provider;
    var s0 := Resolve(u, job, kind);
    SlashAccounting(s0, p, wei);
    DistributeIs(Slash(s0, p, wei), reporter, cfg.treasury, wei, reward);
  }

  lemma PunishAccounts(cfg: Config, u: State, job: JobId, reporter: Account, kind: Resolution, wei: nat, reward: nat)
    requires FraudHolds(u, job)
    requires reward <= wei <= Collateral(u, u.commitments[job].provider)
    ensures PunishedAccounting(u, job, wei, reward, Punish(cfg, u, job, reporter, kind, wei, reward))
  {
    SlashingAccounts(cfg, u, job, reporter, kind, wei, reward);
    var v := Slashing(cfg, u, job, reporter, kind, wei, reward);
    CloseIs(v, job, Slashed);
    assert Punish(cfg, u, job, reporter, kind, wei, reward).acct == Close(v, job, Slashed).acct;
  }

  // ---------------------------------------------------------------- calls leave exactly so

  // The entries of one account and of one job.
  predicate AccountFollows(cfg: Config, s: State, e: Event, t: State, a: Account)
    requires Concerns(s, e)
  {
    && Entry(t.stake, a) == StakeAfter(s, e, a)
    && Waiting(t, a) == WaitingAfter(cfg, s, e, a)
    && Entry(t.withdrawable, a) == CreditAfter(cfg, s, e, a)
  }

  function EscrowAt(s: State, job: JobId): Option<Escrow> {
    if job in s.escrows then Some(s.escrows[job]) else None
  }

  function CommitmentAt(s: State, job: JobId): Option<Commitment> {
    if job in s.commitments then Some(s.commitments[job]) else None
  }

  function VerdictAt(s: State, job: JobId): Option<VerdictEntry> {
    if job in s.verdicts then Some(s.verdicts[job]) else None
  }

  predicate JobFollows(cfg: Config, s: State, e: Event, t: State, job: JobId)
    requires Concerns(s, e)
  {
    && EscrowAt(t, job) == EscrowAfter(cfg, s, e, job)
    && CommitmentAt(t, job) == CommitmentAfter(cfg, s, e, job)
    && VerdictAt(t, job) == VerdictAfter(s, e, job)
  }

  // What belongs to no account and no job.
  predicate BooksFollow(cfg: Config, s: State, e: Event, t: State)
    requires Concerns(s, e)
  {
    && t.records == s.records + RecordAdded(cfg, s, t, e)
    && t.acct == AcctAfter(cfg, s, e)
    && t.now == s.now + (if e.Tick? then e.ms else 0)
    && t.validators == s.validators + (if e.DoRegisterValidator? then {e.validator} else {})
  }

  predicate Follows(cfg: Config, s: State, e: Event, t: State, a: Account, job: JobId)
    requires Concerns(s, e)
  {
    AccountFollows(cfg, s, e, t, a) && JobFollows(cfg, s, e, t, job) && BooksFollow(cfg, s, e, t)
  }

  // A confirmed fraud, on a state `u` that may already hold the verdict.
  predicate Confirming(cfg: Config, s: State, e: Event, u: State) {
    && ValidConfig(cfg) && ChargeOf(e).Charge? && FraudHolds(s, ChargeOf(e).job)
    && u == s.(verdicts := u.verdicts)
  }

  lemma ConfirmIsPunish(cfg: Config, s: State, e: Event, u: State)
    requires Confirming(cfg, s, e, u)
    ensures var c, wei, bounty := ChargeOf(e), Loss(s, ChargeOf(e).job), Bounty(cfg, s, ChargeOf(e).job);
            && 0 <= bounty <= wei <= Collateral(u, u.commitments[c.job].provider)
            && ConfirmFraud(cfg, u, c.job, c.reporter, c.kind) ==
                 Accept(Punish(cfg, u, c.job, c.reporter, c.kind, wei, bounty))
  {
    var c := ChargeOf(e);
    var wei := Min(u.escrows[c.job].amount, Collateral(u, u.commitments[c.job].provider));
    assert wei == Loss(s, c.job);
    assert Reward(cfg, wei) == Bounty(cfg, s, c.job);
  }

  // The three accounts that are paid may be one and the same.
  lemma ThreeCredits(m: map<Account, nat>, a1: Account, w1: nat, a2: Account, w2: nat, a3: Account, w3: nat, a: Account)
    ensures Entry(Credited(Credited(Credited(m, a1, w1), a2, w2), a3, w3), a) ==
            Entry(m, a) + (if a1 == a then w1 else 0) + (if a2 == a then w2 else 0) + (if a3 == a then w3 else 0)
  {
    var m1 := Credited(m, a1, w1);
    var m2 := Credited(m1, a2, w2);
    assert Entry(m1, a) == Entry(m, a) + if a1 == a then w1 else 0;
    assert Entry(m2, a) == Entry(m1, a) + if a2 == a then w2 else 0;
  }

  // The same effects, told of the state `s` and the call `e`.
  lemma PunishedStakeFollows(cfg: Config, s: State, e: Event, u: State, t: State, a: Account)
    requires Confirming(cfg, s, e, u)
    requires Takes(u, t, u.commitments[ChargeOf(e).job].provider, Loss(s, ChargeOf(e).job), a)
    ensures Entry(t.stake, a) == StakeAfter(s, e, a) && Waiting(t, a) == WaitingAfter(cfg, s, e, a)
  {
  }

  lemma PunishedCreditFollows(cfg: Config, s: State, e: Event, u: State, t: State, a: Account)
    requires Confirming(cfg, s, e, u)
    requires var c, wei, bounty := ChargeOf(e), Loss(s, ChargeOf(e).job), Bounty(cfg, s, ChargeOf(e).job);
             0 <= bounty <= wei && PunishedCredit(cfg, u, c.job, c.reporter, wei, bounty, t)
    ensures Entry(t.withdrawable, a) == CreditAfter(cfg, s, e, a)
  {
    var c, wei, bounty := ChargeOf(e), Loss(s, ChargeOf(e).job), Bounty(cfg, s, ChargeOf(e).job);
    var o := s.escrows[c.job];
    ThreeCredits(s.withdrawable, c.reporter, bounty, cfg.treasury, wei - bounty, o.requester, o.amount, a);
  }

  lemma PunishedJobFollows(cfg: Config, s: State, e: Event, u: State, t: State, job: JobId)
    requires Confirming(cfg, s, e, u) && VerdictAt(u, job) == VerdictAfter(s, e, job)
    requires PunishedJobs(u, ChargeOf(e).job, ChargeOf(e).kind, t)
    ensures JobFollows(cfg, s, e, t, job)
  {
  }

  lemma PunishedBooksFollow(cfg: Config, s: State, e: Event, u: State, t: State)
    requires Confirming(cfg, s, e, u)
    requires var c, wei, bounty := ChargeOf(e), Loss(s, ChargeOf(e).job), Bounty(cfg, s, ChargeOf(e).job);
             && 0 <= bounty <= wei && PunishedJobs(u, c.job, c.kind, t)
             && PunishedRecord(u, c.job, c.reporter, c.kind, wei, bounty, t)
             && PunishedAccounting(u, c.job, wei, bounty, t)
    ensures BooksFollow(cfg, s, e, t)
  {
    var c := ChargeOf(e);
    var p := u.commitments[c.job].provider;
    var active := if Loss(s, c.job) <= Entry(u.stake, p) then Loss(s, c.job) else Entry(u.stake, p);
    assert Entry(s.stake, p) - StakeAfter(s, e, p) == active;
    assert t.acct == AcctAfter(cfg, s, e);
    assert t.records == s.records + RecordAdded(cfg, s, t, e);
  }

  lemma ChargeFollows(cfg: Config, s: State, e: Event, u: State, a: Account, job: JobId)
    requires Confirming(cfg, s, e, u) && VerdictAt(u, job) == VerdictAfter(s, e, job)
    ensures var c := ChargeOf(e);
            Follows(cfg, s, e, ConfirmFraud(cfg, u, c.job, c.reporter, c.kind).state, a, job)
  {
    var c, wei, bounty := ChargeOf(e), Loss(s, ChargeOf(e).job), Bounty(cfg, s, ChargeOf(e).job);
    ConfirmIsPunish(cfg, s, e, u);
    var t := Punish(cfg, u, c.job, c.reporter, c.kind, wei, bounty);
    PunishIs(cfg, u, c.job, c.reporter, c.kind, wei, bounty, a);
    PunishAccounts(cfg, u, c.job, c.reporter, c.kind, wei, bounty);
    PunishedStakeFollows(cfg, s, e, u, t, a);
    PunishedCreditFollows(cfg, s, e, u, t, a);
    PunishedBooksFollow(cfg, s, e, u, t);
    PunishedJobFollows(cfg, s, e, u, t, job);
  }

  lemma ReleaseFollows(cfg: Config, sha: Hash, s: State, e: Event, a: Account, job: JobId)
    requires ValidConfig(cfg) && e.DoRelease? && Apply(cfg, sha, s, e).Accepted()
    ensures Concerns(s, e) && Follows(cfg, s, e, Apply(cfg, sha, s, e).state, a, job)
  {
    CloseIs(s, e.job, Settled);
    RecordIs(Close(s, e.job, Settled), e.job, 0, 0, WindowElapsed, "");
  }

  lemma CancelFollows(cfg: Config, sha: Hash, s: State, e: Event, a: Account, job: JobId)
    requires ValidConfig(cfg) && e.DoCancel? && Apply(cfg, sha, s, e).Accepted()
    ensures Concerns(s, e) && Follows(cfg, s, e, Apply(cfg, sha, s, e).state, a, job)
  {
    CloseIs(s, e.job, Refunded);
    RecordIs(Close(s, e.job, Refunded), e.job, 0, 0, AwardTimeout, e.requester);
  }

  lemma VerdictFollows(cfg: Config, sha: Hash, s: State, e: Event, a: Account, job: JobId)
    requires ValidConfig(cfg) && e.DoSubmitVerdict? && Apply(cfg, sha, s, e).Accepted()
    ensures Concerns(s, e) && Follows(cfg, s, e, Apply(cfg, sha, s, e).state, a, job)
  {
    var u := s.(verdicts := s.verdicts[e.job := VerdictEntry(e.validator, e.verdict, e.score, e.reason)]);
    if e.verdict == Fail {
      ChargeFollows(cfg, s, e, u, a, job);
    }
  }

  lemma ProofFollows(cfg: Config, sha: Hash, s: State, e: Event, a: Account, job: JobId)
    requires ValidConfig(cfg) && e.DoProveMismatch? && Apply(cfg, sha, s, e).Accepted()
    ensures Concerns(s, e) && Follows(cfg, s, e, Apply(cfg, sha, s, e).state, a, job)
  {
    ChargeFollows(cfg, s, e, s, a, job);
  }

  lemma ClaimFollows(cfg: Config, sha: Hash, s: State, e: Event, a: Account, job: JobId)
    requires ValidConfig(cfg) && e.DoClaimUnstake? && Apply(cfg, sha, s, e).Accepted()
    ensures Concerns(s, e) && Follows(cfg, s, e, Apply(cfg, sha, s, e).state, a, job)
  {
    var amount := UnbondingOf(s, e.node).amount;
    var u := s.(unbonding := s.unbonding[e.node := Unbonding(0, 0)],
                acct := s.acct.(stakeUnbonding := s.acct.stakeUnbonding - amount));
    CreditIs(u, e.node, amount);
  }

  lemma StakingFollows(cfg: Config, sha: Hash, s: State, e: Event, a: Account, job: JobId)
    requires ValidConfig(cfg) && Apply(cfg, sha, s, e).Accepted()
    requires e.DoStake? || e.DoRequestUnstake? || e.DoWithdraw?
    ensures Concerns(s, e) && Follows(cfg, s, e, Apply(cfg, sha, s, e).state, a, job)
  {
  }

  lemma OpeningFollows(cfg: Config, sha: Hash, s: State, e: Event, a: Account, job: JobId)
    requires ValidConfig(cfg) && Apply(cfg, sha, s, e).Accepted()
    requires e.DoOpenEscrow? || e.DoRegisterValidator? || e.Tick?
    ensures Concerns(s, e) && Follows(cfg, s, e, Apply(cfg, sha, s, e).state, a, job)
  {
  }

  lemma CommittingFollows(cfg: Config, sha: Hash, s: State, e: Event, a: Account, job: JobId)
    requires ValidConfig(cfg) && e.DoRecordCommitment? && Apply(cfg, sha, s, e).Accepted()
    ensures Concerns(s, e) && Follows(cfg, s, e, Apply(cfg, sha, s, e).state, a, job)
  {
  }

  // Every accepted call, in every state, at every account and every job.
  lemma CallsFollowEffects(cfg: Config, sha: Hash, s: State, e: Event, a: Account, job: JobId)
    requires ValidConfig(cfg) && Apply(cfg, sha, s, e).Accepted()
    ensures Concerns(s, e) && Follows(cfg, s, e, Apply(cfg, sha, s, e).state, a, job)
  {
    if e.DoSubmitVerdict? {
      VerdictFollows(cfg, sha, s, e, a, job);
    } else if e.DoProveMismatch? {
      ProofFollows(cfg, sha, s, e, a, job);
    } else if e.DoRelease? {
      ReleaseFollows(cfg, sha, s, e, a, job);
    } else if e.DoCancel? {
      CancelFollows(cfg, sha, s, e, a, job);
    } else if e.DoClaimUnstake? {
      ClaimFollows(cfg, sha, s, e, a, job);
    } else if e.DoRecordCommitment? {
      CommittingFollows(cfg, sha, s, e, a, job);
    } else if e.DoOpenEscrow? || e.DoRegisterValidator? || e.Tick? {
      OpeningFollows(cfg, sha, s, e, a, job);
    } else {
      StakingFollows(cfg, sha, s, e, a, job);
    }
  }

  // ---------------------------------------------------------------- the allow-list of a run

  lemma RegistrationsOnly(cfg: Config, sha: Hash, s: State, e: Event)
    requires ValidConfig(cfg)
    ensures Apply(cfg, sha, s, e).state.validators ==
            s.validators + (if e.DoRegisterValidator? then {e.validator} else {})
  {
    if Apply(cfg, sha, s, e).Accepted() {
      CallsFollowEffects(cfg, sha, s, e, "", "");
    }
  }

  // A validator of a reachable state is one that some call of the run registered.
  lemma {:induction false} ValidatorsWereRegistered(cfg: Config, sha: Hash, start: int, events: seq<Event>, a: Account)
    requires ValidConfig(cfg)
    ensures a in Run(cfg, sha, Initial(start), events).validators <==> DoRegisterValidator(a) in events
    decreases |events|
  {
    if |events| > 0 {
      var n := |events| - 1;
      assert events == events[..n] + [events[n]];
      ValidatorsWereRegistered(cfg, sha, start, events[..n], a);
      RegistrationsOnly(cfg, sha, Run(cfg, sha, Initial(start), events[..n]), events[n]);
    }
  }
}
