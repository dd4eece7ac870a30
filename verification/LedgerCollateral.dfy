// Collateral stays within reach while a job can be challenged: edgegrid/ledger.py,
// `request_unstake`, `claim_unstake`, `record_commitment`, `_challengeable`,
// `_confirm_fraud`.

module LedgerCollateral {
  import opened ByteStrings
  import opened LedgerModel
  import opened LedgerSettlement

  // ---------------------------------------------------------------- what was slashed

  // Everything the records say was slashed from a provider.
  function SlashedFrom(records: seq<Record>, provider: Account): int {
    if records == [] then 0
    else
      var last := records[|records| - 1];
      SlashedFrom(records[..|records| - 1], provider) + (if last.provider == provider then last.slash else 0)
  }

  lemma {:induction false} SlashedFromAppend(records: seq<Record>, r: Record, provider: Account)
    ensures SlashedFrom(records + [r], provider) ==
            SlashedFrom(records, provider) + (if r.provider == provider then r.slash else 0)
  {
    assert (records + [r])[..|records|] == records;
  }

  // ---------------------------------------------------------------- the invariant

  // What cannot leave before `deadline`: active stake, and what is unbonding when it is
  // locked at least that long.
  function Locked(s: State, provider: Account, deadline: int): int {
    var u := UnbondingOf(s, provider);
    StakeOf(s, provider) + (if u.ready >= deadline then u.amount else 0)
  }

  // Locked collateral plus what has been slashed never falls below `floor`.
  predicate Covers(s: State, provider: Account, deadline: int, floor: int) {
    Locked(s, provider, deadline) + SlashedFrom(s.records, provider) >= floor
  }

  lemma CreditKeeps(s: State, account: Account, wei: nat)
    ensures var t := Credit(s, account, wei);
            t.stake == s.stake && t.unbonding == s.unbonding && t.records == s.records && t.escrows == s.escrows
  {
  }

  lemma DistributeKeeps(s: State, reporter: Account, treasury: Account, slashed: nat, reward: nat)
    requires reward <= slashed
    ensures var t := Distribute(s, reporter, treasury, slashed, reward);
            t.stake == s.stake && t.unbonding == s.unbonding && t.records == s.records && t.escrows == s.escrows
  {
    CreditKeeps(s, reporter, reward);
    CreditKeeps(Credit(s, reporter, reward), treasury, slashed - reward);
  }

  lemma SlashCovers(s: State, slashee: Account, slashed: nat, provider: Account, deadline: int)
    requires slashed <= Collateral(s, slashee)
    ensures Locked(Slash(s, slashee, slashed), provider, deadline) >=
            Locked(s, provider, deadline) - (if slashee == provider then slashed else 0)
    ensures Slash(s, slashee, slashed).records == s.records && Slash(s, slashee, slashed).escrows == s.escrows
  {
  }

  lemma {:induction false} CloseCovers(s: State, job: JobId, state: EscrowState, slash: nat, reward: nat,
                                       resolution: Resolution, reporter: Account, provider: Account, deadline: int)
    requires job in s.escrows
    ensures var t := AddRecord(Close(s, job, state), job, slash, reward, resolution, reporter);
            && Locked(t, provider, deadline) == Locked(s, provider, deadline)
            && SlashedFrom(t.records, provider) ==
               SlashedFrom(s.records, provider) + (if s.escrows[job].provider == provider then slash else 0)
  {
    var t := Close(s, job, state);
    CloseKeeps(s, job, state);
    RecordCovers(t, job, slash, reward, resolution, reporter, provider);
  }

  lemma CloseKeeps(s: State, job: JobId, state: EscrowState)
    requires job in s.escrows
    ensures var t := Close(s, job, state);
            && t.stake == s.stake && t.unbonding == s.unbonding && t.records == s.records
            && job in t.escrows && t.escrows[job].provider == s.escrows[job].provider
  {
  }

  lemma {:induction false} RecordCovers(t: State, job: JobId, slash: nat, reward: nat, resolution: Resolution,
                                        reporter: Account, provider: Account)
    requires job in t.escrows
    ensures var u := AddRecord(t, job, slash, reward, resolution, reporter);
            && u.stake == t.stake && u.unbonding == t.unbonding
            && SlashedFrom(u.records, provider) ==
               SlashedFrom(t.records, provider) + (if t.escrows[job].provider == provider then slash else 0)
  {
    SlashedFromAppend(t.records, AddRecord(t, job, slash, reward, resolution, reporter).records[|t.records|], provider);
  }

  lemma PunishCovers(cfg: Config, s: State, job: JobId, reporter: Account, kind: Resolution,
                     slashed: nat, reward: nat, provider: Account, deadline: int, floor: int)
    requires job in s.commitments && job in s.escrows && s.commitments[job].provider == s.escrows[job].provider
    requires reward <= slashed <= Collateral(s, s.commitments[job].provider)
    requires Covers(s, provider, deadline, floor)
    ensures Covers(Punish(cfg, s, job, reporter, kind, slashed, reward), provider, deadline, floor)
  {
    var s0 := Resolve(s, job, kind);
    var slashee := s.commitments[job].provider;
    var s1 := Slash(s0, slashee, slashed);
    var s2 := Distribute(s1, reporter, cfg.treasury, slashed, reward);
    SlashCovers(s0, slashee, slashed, provider, deadline);
    DistributeKeeps(s1, reporter, cfg.treasury, slashed, reward);
    CloseCovers(s2, job, Slashed, slashed, reward, kind, reporter, provider, deadline);
  }

  // The provider named in a commitment is the one of the escrow.
  ghost predicate SameProviders(s: State) {
    forall job :: job in s.commitments && job in s.escrows ==>
      s.commitments[job].provider == s.escrows[job].provider
  }

  // ---------------------------------------------------------------- staking

  // A request made after the commitment locks everything that is unbonding until at
  // least the deadline; a claim only takes what the deadline does not lock.
  lemma UnstakingCovers(cfg: Config, s: State, node: Account, wei: nat, provider: Account, deadline: int, floor: int)
    requires deadline <= s.now + cfg.unbondingPeriod
    requires Covers(s, provider, deadline, floor)
    ensures Covers(Stake(cfg, s, node, wei).state, provider, deadline, floor)
    ensures Covers(RequestUnstake(cfg, s, node, wei).state, provider, deadline, floor)
  {
  }

  lemma ClaimCovers(s: State, node: Account, provider: Account, deadline: int, floor: int)
    requires s.now < deadline
    requires Covers(s, provider, deadline, floor)
    ensures Covers(ClaimUnstake(s, node).state, provider, deadline, floor)
  {
    var u := UnbondingOf(s, node);
    if ClaimUnstake(s, node).Accepted() {
      var s' := s.(unbonding := s.unbonding[node := Unbonding(0, 0)],
                   acct := s.acct.(stakeUnbonding := s.acct.stakeUnbonding - u.amount));
      CreditKeeps(s', node, u.amount);
    }
  }

  lemma ClosingCovers(cfg: Config, s: State, job: JobId, requester: Account, provider: Account, deadline: int,
                      floor: int)
    requires Covers(s, provider, deadline, floor)
    ensures Covers(Release(s, job).state, provider, deadline, floor)
    ensures Covers(Cancel(cfg, s, job, requester).state, provider, deadline, floor)
  {
    if job in s.escrows {
      CloseCovers(s, job, Settled, 0, 0, WindowElapsed, "", provider, deadline);
      CloseCovers(s, job, Refunded, 0, 0, AwardTimeout, requester, provider, deadline);
    }
  }

  lemma FraudCovers(cfg: Config, s: State, job: JobId, reporter: Account, kind: Resolution,
                    provider: Account, deadline: int, floor: int)
    requires ValidConfig(cfg) && job in s.commitments && SameProviders(s)
    requires Covers(s, provider, deadline, floor)
    ensures Covers(ConfirmFraud(cfg, s, job, reporter, kind).state, provider, deadline, floor)
  {
    if ConfirmFraud(cfg, s, job, reporter, kind).Accepted() {
      var slashed := Min(s.escrows[job].amount, Collateral(s, s.commitments[job].provider));
      PunishCovers(cfg, s, job, reporter, kind, slashed, Reward(cfg, slashed), provider, deadline, floor);
    }
  }

  // ---------------------------------------------------------------- every operation

  lemma VerdictCovers(cfg: Config, s: State, e: Event, provider: Account, deadline: int, floor: int)
    requires ValidConfig(cfg) && SameProviders(s) && e.DoSubmitVerdict?
    requires Covers(s, provider, deadline, floor)
    ensures var t := SubmitVerdict(cfg, s, e.job, e.validator, e.verdict, e.score, e.reason).state;
            Covers(t, provider, deadline, floor)
  {
    var s' := s.(verdicts := s.verdicts[e.job := VerdictEntry(e.validator, e.verdict, e.score, e.reason)]);
    VerdictOutcomes(cfg, s, e);
    if e.job in s.commitments {
      FraudCovers(cfg, s', e.job, e.validator, ValidatorVerdict, provider, deadline, floor);
    }
  }

  // A verdict is refused, or entered, or entered and acted upon.
  lemma VerdictOutcomes(cfg: Config, s: State, e: Event)
    requires ValidConfig(cfg) && e.DoSubmitVerdict?
    ensures var outcome := SubmitVerdict(cfg, s, e.job, e.validator, e.verdict, e.score, e.reason);
            var s' := s.(verdicts := s.verdicts[e.job := VerdictEntry(e.validator, e.verdict, e.score, e.reason)]);
            || outcome.state == s || outcome.state == s'
            || (e.job in s.commitments && outcome == ConfirmFraud(cfg, s', e.job, e.validator, ValidatorVerdict))
  {
  }

  lemma ProofCovers(cfg: Config, sha: Hash, s: State, e: Event, provider: Account, deadline: int, floor: int)
    requires ValidConfig(cfg) && SameProviders(s) && e.DoProveMismatch?
    requires Covers(s, provider, deadline, floor)
    ensures Covers(ProveMismatch(cfg, sha, s, e.job, e.blob, e.reporter, e.proof).state, provider, deadline, floor)
  {
    if e.job in s.commitments {
      FraudCovers(cfg, s, e.job, e.reporter, DataMismatch, provider, deadline, floor);
    }
  }

  lemma StepCovers(cfg: Config, sha: Hash, s: State, e: Event, provider: Account, deadline: int, floor: int)
    requires ValidConfig(cfg) && SameProviders(s)
    requires s.now < deadline <= s.now + cfg.unbondingPeriod
    requires Covers(s, provider, deadline, floor)
    ensures Covers(Apply(cfg, sha, s, e).state, provider, deadline, floor)
  {
    match e {
      case DoStake(node, wei) => UnstakingCovers(cfg, s, node, wei, provider, deadline, floor);
      case DoRequestUnstake(node, wei) => UnstakingCovers(cfg, s, node, wei, provider, deadline, floor);
      case DoClaimUnstake(node) => ClaimCovers(s, node, provider, deadline, floor);
      case DoRelease(job) => ClosingCovers(cfg, s, job, "", provider, deadline, floor);
      case DoCancel(job, requester) => ClosingCovers(cfg, s, job, requester, provider, deadline, floor);
      case DoSubmitVerdict(_, _, _, _, _) => VerdictCovers(cfg, s, e, provider, deadline, floor);
      case DoProveMismatch(_, _, _, _) => ProofCovers(cfg, sha, s, e, provider, deadline, floor);
      case DoWithdraw(_) =>
      case DoOpenEscrow(_, _, _, _) =>
      case DoRecordCommitment(_, _, _, _, _, _) =>
      case DoRegisterValidator(_) =>
      case Tick(_) =>
    }
  }

  lemma SettlingNamesProviders(s: State)
    requires Settling(s)
    ensures SameProviders(s)
  {
  }

  lemma {:induction false} TimeMovesForward(cfg: Config, sha: Hash, s: State, events: seq<Event>)
    requires ValidConfig(cfg)
    ensures s.now <= Run(cfg, sha, s, events).now
    decreases |events|
  {
    if events != [] {
      var before := events[..|events| - 1];
      TimeMovesForward(cfg, sha, s, before);
      StepMovesForward(cfg, sha, Run(cfg, sha, s, before), events[|events| - 1]);
    }
  }

  lemma StepMovesForward(cfg: Config, sha: Hash, s: State, e: Event)
    requires ValidConfig(cfg)
    ensures s.now <= Apply(cfg, sha, s, e).state.now
  {
    match e {
      case DoSubmitVerdict(job, validator, verdict, score, reason) =>
        if job in s.commitments && ChallengeError(s, job).None? {
          var s' := s.(verdicts := s.verdicts[job := VerdictEntry(validator, verdict, score, reason)]);
          FraudKeepsTime(cfg, s', job, validator, ValidatorVerdict);
        }
      case DoProveMismatch(job, blob, reporter, proof) =>
        if job in s.commitments {
          FraudKeepsTime(cfg, s, job, reporter, DataMismatch);
        }
      case DoRelease(job) => ClosingKeepsTime(cfg, s, job, "");
      case DoCancel(job, requester) => ClosingKeepsTime(cfg, s, job, requester);
      case _ =>
    }
  }

  lemma ClosingKeepsTime(cfg: Config, s: State, job: JobId, requester: Account)
    ensures Release(s, job).state.now == s.now && Cancel(cfg, s, job, requester).state.now == s.now
  {
  }

  lemma FraudKeepsTime(cfg: Config, s: State, job: JobId, reporter: Account, kind: Resolution)
    requires ValidConfig(cfg) && job in s.commitments
    ensures ConfirmFraud(cfg, s, job, reporter, kind).state.now == s.now
  {
  }

  lemma {:induction false} RunCovers(cfg: Config, sha: Hash, s: State, events: seq<Event>,
                                     provider: Account, deadline: int, floor: int)
    requires ValidConfig(cfg) && Settling(s)
    requires deadline <= s.now + cfg.unbondingPeriod
    requires Run(cfg, sha, s, events).now < deadline
    requires Covers(s, provider, deadline, floor)
    ensures Covers(Run(cfg, sha, s, events), provider, deadline, floor)
    decreases |events|
  {
    if events != [] {
      var before := events[..|events| - 1];
      var middle := Run(cfg, sha, s, before);
      StepMovesForward(cfg, sha, middle, events[|events| - 1]);
      TimeMovesForward(cfg, sha, s, before);
      RunCovers(cfg, sha, s, before, provider, deadline, floor);
      RunsSettleOnce(cfg, sha, s, before);
      SettlingNamesProviders(middle);
      StepCovers(cfg, sha, middle, events[|events| - 1], provider, deadline, floor);
    }
  }

  // ---------------------------------------------------------------- the guarantee

  // In the state `t`, after a commitment accepted in `s`: the provider's collateral is
  // at least its active stake at commitment, less what was slashed from it since.
  predicate Collateralised(s: State, provider: Account, t: State) {
    Collateral(t, provider) >=
      StakeOf(s, provider) - (SlashedFrom(t.records, provider) - SlashedFrom(s.records, provider))
  }

  // The state in which a commitment event is accepted, and the state it leads to.
  predicate Commits(cfg: Config, sha: Hash, s: State, commit: Event)
    requires ValidConfig(cfg)
  {
    commit.DoRecordCommitment? && Apply(cfg, sha, s, commit).Accepted()
  }

  // Any interleaving of calls by anyone after the commitment. The instant `until` is
  // the last one covered: the unbonding period has to reach past it.
  lemma {:induction false} CollateralUntil(cfg: Config, sha: Hash, s: State, commit: Event, rest: seq<Event>,
                                           until: int)
    requires ValidConfig(cfg) && Settling(s) && Commits(cfg, sha, s, commit)
    requires Run(cfg, sha, Apply(cfg, sha, s, commit).state, rest).now <= until < s.now + cfg.unbondingPeriod
    ensures Collateralised(s, commit.provider, Run(cfg, sha, Apply(cfg, sha, s, commit).state, rest))
  {
    var s0 := Apply(cfg, sha, s, commit).state;
    var floor := StakeOf(s, commit.provider) + SlashedFrom(s.records, commit.provider);
    StepSettles(cfg, sha, s, commit);
    CommitCovers(cfg, sha, s, commit, until + 1, floor);
    RunCovers(cfg, sha, s0, rest, commit.provider, until + 1, floor);
    CoversCollateral(s, commit.provider, Run(cfg, sha, s0, rest), until + 1, floor);
  }

  // Whatever the deadline, active stake is locked collateral at the commitment.
  lemma CommitCovers(cfg: Config, sha: Hash, s: State, commit: Event, deadline: int, floor: int)
    requires ValidConfig(cfg) && Commits(cfg, sha, s, commit)
    requires floor == StakeOf(s, commit.provider) + SlashedFrom(s.records, commit.provider)
    ensures var s0 := Apply(cfg, sha, s, commit).state;
            s0.now == s.now && Covers(s0, commit.provider, deadline, floor)
  {
    CommitKeepsAccounts(cfg, s, commit.job, commit.provider, commit.outputHash, commit.blobRef, commit.merkleRoot,
                        commit.leafIndex);
  }

  lemma CommitKeepsAccounts(cfg: Config, s: State, job: JobId, provider: Account, outputHash: string,
                            blobRef: string, merkleRoot: string, leafIndex: int)
    ensures var t := RecordCommitment(cfg, s, job, provider, outputHash, blobRef, merkleRoot, leafIndex).state;
            t.now == s.now && t.stake == s.stake && t.unbonding == s.unbonding && t.records == s.records
  {
  }

  lemma {:induction false} CoversCollateral(s: State, provider: Account, t: State, deadline: int, floor: int)
    requires Covers(t, provider, deadline, floor)
    requires floor == StakeOf(s, provider) + SlashedFrom(s.records, provider)
    ensures Collateralised(s, provider, t)
  {
  }

  // With an unbonding period at least as long as the challenge window, nothing can be
  // taken out of reach strictly before the deadline.
  lemma {:induction false} CollateralCannotEscape(cfg: Config, sha: Hash, s: State, commit: Event, rest: seq<Event>)
    requires ValidConfig(cfg) && Settling(s) && Commits(cfg, sha, s, commit)
    requires cfg.unbondingPeriod >= cfg.window
    requires var s0 := Apply(cfg, sha, s, commit).state;
             Run(cfg, sha, s0, rest).now < s0.commitments[commit.job].deadline
    ensures Collateralised(s, commit.provider, Run(cfg, sha, Apply(cfg, sha, s, commit).state, rest))
  {
    CollateralUntil(cfg, sha, s, commit, rest, s.now + cfg.window - 1);
  }

  // ---------------------------------------------------------------- exactly when

  // A reachable moment at which the commitment can still be challenged although its
  // provider's collateral has left.
  ghost predicate Escape(cfg: Config, sha: Hash, start: int, before: seq<Event>, commit: Event, rest: seq<Event>)
    requires ValidConfig(cfg)
  {
    var s := Run(cfg, sha, Initial(start), before);
    && Commits(cfg, sha, s, commit)
    && var t := Run(cfg, sha, Apply(cfg, sha, s, commit).state, rest);
       ChallengeError(t, commit.job).None? && !Collateralised(s, commit.provider, t)
  }

  lemma {:induction false} DeadlineIsKept(cfg: Config, sha: Hash, s: State, commit: Event, rest: seq<Event>)
    requires ValidConfig(cfg) && Settling(s) && Commits(cfg, sha, s, commit)
    ensures var t := Run(cfg, sha, Apply(cfg, sha, s, commit).state, rest);
            && commit.job in t.commitments && t.commitments[commit.job].deadline == s.now + cfg.window
            && s.now <= t.now
  {
    var s0 := Apply(cfg, sha, s, commit).state;
    assert s0.commitments[commit.job].deadline == s.now + cfg.window;
    StepSettles(cfg, sha, s, commit);
    RunsSettleOnce(cfg, sha, s0, rest);
    TimeMovesForward(cfg, sha, s0, rest);
  }

  lemma NoEscape(cfg: Config, sha: Hash, start: int, before: seq<Event>, commit: Event, rest: seq<Event>)
    requires ValidConfig(cfg) && (cfg.unbondingPeriod > cfg.window || cfg.window < 0)
    ensures !Escape(cfg, sha, start, before, commit, rest)
  {
    var s := Run(cfg, sha, Initial(start), before);
    if Commits(cfg, sha, s, commit) {
      SettlementHolds(cfg, sha, start, before);
      DeadlineIsKept(cfg, sha, s, commit, rest);
      var t := Run(cfg, sha, Apply(cfg, sha, s, commit).state, rest);
      if t.now <= s.now + cfg.window {
        CollateralUntil(cfg, sha, s, commit, rest, s.now + cfg.window);
      }
    }
  }

  lemma {:induction false} HexIsDigest(d: Digest)
    ensures IsDigest(ToHex(d)) && StripPrefix(ToHex(d)) == ToHex(d)
  {
    FromHexInvertsToHex(d);
    HexDigitInverts(d[0] as int % 16);
    assert ToHex(d)[1] == HexDigit(d[0] as int % 16);
    assert HexValue('x').None?;
    assert |ToHex(d)| >= 2 && ToHex(d)[..2][1] == ToHex(d)[1];
  }

  lemma {:induction false} RunAppend(cfg: Config, sha: Hash, s: State, events: seq<Event>, e: Event)
    requires ValidConfig(cfg)
    ensures Run(cfg, sha, s, events + [e]) == Apply(cfg, sha, Run(cfg, sha, s, events), e).state
  {
    assert (events + [e])[..|events|] == events;
  }

  lemma {:induction false} RunConcat(cfg: Config, sha: Hash, s: State, a: seq<Event>, b: seq<Event>)
    requires ValidConfig(cfg)
    ensures Run(cfg, sha, s, a + b) == Run(cfg, sha, Run(cfg, sha, s, a), b)
    decreases |b|
  {
    if b == [] {
      assert a + b == a;
    } else {
      RunConcat(cfg, sha, s, a, b[..|b| - 1]);
      assert (a + b)[..|a + b| - 1] == a + b[..|b| - 1];
    }
  }

  // The amount that makes a provider active.
  function ActiveStake(cfg: Config): nat { if cfg.minStake == 0 then 1 else cfg.minStake }

  lemma EscapeSetUp(cfg: Config, sha: Hash, start: int) returns (before: seq<Event>)
    requires ValidConfig(cfg)
    ensures var s := Run(cfg, sha, Initial(start), before);
            && s.now == start && s.stake == map["p" := ActiveStake(cfg)] && s.unbonding == map[] && s.records == []
            && s.escrows == map["j" := Escrow("j", "r", "p", 1, start, Open, 0)] && s.commitments == map[]
            && s.verdicts == map[]
  {
    var stake, open := DoStake("p", ActiveStake(cfg)), DoOpenEscrow("j", "r", "p", 1);
    before := [] + [stake] + [open];
    RunAppend(cfg, sha, Initial(start), [], stake);
    RunAppend(cfg, sha, Initial(start), [] + [stake], open);
  }

  lemma EscapeUnstake(cfg: Config, sha: Hash, s: State) returns (rest: seq<Event>)
    requires ValidConfig(cfg) && cfg.unbondingPeriod <= cfg.window && 0 <= cfg.window
    requires s.stake == map["p" := ActiveStake(cfg)] && s.unbonding == map[]
    ensures var t := Run(cfg, sha, s, rest);
            && Collateral(t, "p") == 0 && t.records == s.records && t.commitments == s.commitments
            && t.now <= s.now + cfg.window
  {
    var request, claim := DoRequestUnstake("p", ActiveStake(cfg)), DoClaimUnstake("p");
    var tick := Tick(if cfg.unbondingPeriod < 0 then 0 else cfg.unbondingPeriod);
    rest := [] + [request] + [tick] + [claim];
    RunAppend(cfg, sha, s, [], request);
    RunAppend(cfg, sha, s, [] + [request], tick);
    RunAppend(cfg, sha, s, [] + [request] + [tick], claim);
    var ready := Run(cfg, sha, s, [] + [request] + [tick]);
    assert StakeOf(ready, "p") == 0 && ready.now >= UnbondingOf(ready, "p").ready;
  }

  lemma EscapeCommit(cfg: Config, sha: Hash, s: State, hash: string)
    requires ValidConfig(cfg) && IsDigest(hash)
    requires s.escrows == map["j" := Escrow("j", "r", "p", 1, s.now, Open, 0)] && s.commitments == map[]
    ensures var commit := DoRecordCommitment("j", "p", hash, "", "", 0);
            && Commits(cfg, sha, s, commit)
            && var t := Apply(cfg, sha, s, commit).state;
               && t == s.(escrows := t.escrows, commitments := t.commitments)
               && "j" in t.commitments && !t.commitments["j"].resolved
               && t.commitments["j"].deadline == s.now + cfg.window
  {
  }

  // Unstake everything in the millisecond of the commitment, claim it as soon as it is
  // ready: by the deadline at the latest, while the challenge is still open.
  lemma EscapeRun(cfg: Config, sha: Hash, start: int, hash: string)
    returns (before: seq<Event>, commit: Event, rest: seq<Event>)
    requires ValidConfig(cfg) && cfg.unbondingPeriod <= cfg.window && 0 <= cfg.window && IsDigest(hash)
    ensures Escape(cfg, sha, start, before, commit, rest)
  {
    before := EscapeSetUp(cfg, sha, start);
    var s := Run(cfg, sha, Initial(start), before);
    commit := DoRecordCommitment("j", "p", hash, "", "", 0);
    EscapeCommit(cfg, sha, s, hash);
    rest := EscapeUnstake(cfg, sha, Apply(cfg, sha, s, commit).state);
    assert StakeOf(s, "p") == ActiveStake(cfg) > 0;
  }

  // Collateral stays within reach of every possible challenge exactly when the
  // unbonding period is strictly longer than the window. With equal periods, which is
  // the default, the deadline millisecond is open on both sides.
  lemma EscapesExactlyWhen(cfg: Config, sha: Hash)
    requires ValidConfig(cfg)
    ensures (exists start, before, commit, rest :: Escape(cfg, sha, start, before, commit, rest))
            <==> cfg.unbondingPeriod <= cfg.window && 0 <= cfg.window
  {
    if cfg.unbondingPeriod <= cfg.window && 0 <= cfg.window {
      HexIsDigest(sha([]));
      var before, commit, rest := EscapeRun(cfg, sha, 0, ToHex(sha([])));
    } else {
      forall start, before, commit, rest ensures !Escape(cfg, sha, start, before, commit, rest) {
        NoEscape(cfg, sha, start, before, commit, rest);
      }
    }
  }

  // So it can under the defaults of the constructor, where both are the same constant.
  lemma EqualPeriodsEscape(minStake: real, windowS: real, awardTimeoutS: real, share: real, treasury: Account,
                           sha: Hash)
    requires 0.0 <= windowS
    ensures var cfg := Configured(minStake, windowS, awardTimeoutS, windowS, share, treasury);
            cfg.Some? ==> exists start, before, commit, rest :: Escape(cfg.value, sha, start, before, commit, rest)
  {
    var cfg := Configured(minStake, windowS, awardTimeoutS, windowS, share, treasury);
    if cfg.Some? {
      EscapesExactlyWhen(cfg.value, sha);
    }
  }
}
