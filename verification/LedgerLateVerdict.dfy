// The one rejected call that changes the ledger can happen: edgegrid/ledger.py,
// `submit_verdict`, `_confirm_fraud`.

module LedgerLateVerdict {
  import opened ByteStrings
  import opened LedgerAuthority
  import opened LedgerCollateral
  import opened LedgerModel
  import opened LedgerSettlement

  // A run after which a FAIL is rejected and leaves its entry behind.
  predicate EndsLate(cfg: Config, sha: Hash, start: int, events: seq<Event>, e: Event)
    requires ValidConfig(cfg)
  {
    var s := Run(cfg, sha, Initial(start), events);
    && e.DoSubmitVerdict? && LateVerdict(cfg, s, e) && !Entered(s, e)
    && !Apply(cfg, sha, s, e).Accepted() && Apply(cfg, sha, s, e).state != s
  }

  // ---------------------------------------------------------------- a run that ends late

  lemma {:induction false} ValidatorJoins(cfg: Config, sha: Hash, s: State)
    requires ValidConfig(cfg) && s.stake == map["p" := ActiveStake(cfg)]
    ensures var t := Run(cfg, sha, s, [] + [DoStake("v", ActiveStake(cfg))] + [DoRegisterValidator("v")]);
            && "v" in t.validators && IsActive(cfg, t, "v") && t.escrows == s.escrows
            && t.commitments == s.commitments && t.now == s.now && t.verdicts == s.verdicts
  {
    var stake := DoStake("v", ActiveStake(cfg));
    RunAppend(cfg, sha, s, [], stake);
    RunAppend(cfg, sha, s, [] + [stake], DoRegisterValidator("v"));
    ValidatorStakes(cfg, s);
  }

  lemma ValidatorStakes(cfg: Config, s: State)
    requires s.stake == map["p" := ActiveStake(cfg)]
    ensures var t := Stake(cfg, s, "v", ActiveStake(cfg)).state;
            IsActive(cfg, t, "v") && t == s.(stake := t.stake, acct := t.acct)
  {
  }

  lemma {:induction false} CommitWaitRelease(cfg: Config, sha: Hash, s: State, hash: string)
    requires ValidConfig(cfg) && 0 <= cfg.window && IsDigest(hash)
    requires s.escrows == map["j" := Escrow("j", "r", "p", 1, s.now, Open, 0)] && s.commitments == map[]
    ensures var events := [] + [DoRecordCommitment("j", "p", hash, "", "", 0)] + [Tick(cfg.window)] + [DoRelease("j")];
            var t := Run(cfg, sha, s, events);
            && t.validators == s.validators && t.stake == s.stake && t.verdicts == s.verdicts
            && ChallengeError(t, "j").None? && "j" in t.escrows && t.escrows["j"].state.Settled?
  {
    var commit, tick := DoRecordCommitment("j", "p", hash, "", "", 0), Tick(cfg.window);
    ThreeCalls(cfg, sha, s, commit, tick, DoRelease("j"));
    CommitWaits(cfg, sha, s, hash);
    ReleasesAtDeadline(Apply(cfg, sha, Apply(cfg, sha, s, commit).state, tick).state, "j");
  }

  lemma {:induction false} ThreeCalls(cfg: Config, sha: Hash, s: State, a: Event, b: Event, c: Event)
    requires ValidConfig(cfg)
    ensures var s1 := Apply(cfg, sha, s, a).state; var s2 := Apply(cfg, sha, s1, b).state;
            Run(cfg, sha, s, [] + [a] + [b] + [c]) == Apply(cfg, sha, s2, c).state
  {
    RunAppend(cfg, sha, s, [], a);
    RunAppend(cfg, sha, s, [] + [a], b);
    RunAppend(cfg, sha, s, [] + [a] + [b], c);
  }

  lemma CommitWaits(cfg: Config, sha: Hash, s: State, hash: string)
    requires ValidConfig(cfg) && 0 <= cfg.window && IsDigest(hash)
    requires s.escrows == map["j" := Escrow("j", "r", "p", 1, s.now, Open, 0)] && s.commitments == map[]
    ensures var c := Apply(cfg, sha, s, DoRecordCommitment("j", "p", hash, "", "", 0)).state;
            var t := Apply(cfg, sha, c, Tick(cfg.window)).state;
            && t.validators == s.validators && t.stake == s.stake && t.verdicts == s.verdicts
            && "j" in t.escrows && t.escrows["j"].state.Awaiting? && t.escrows["j"].deadline == t.now
            && "j" in t.commitments && !t.commitments["j"].resolved && t.commitments["j"].deadline == t.now
  {
    EscapeCommit(cfg, sha, s, hash);
    var c := Apply(cfg, sha, s, DoRecordCommitment("j", "p", hash, "", "", 0)).state;
    assert c.escrows["j"].state.Awaiting? && c.escrows["j"].deadline == s.now + cfg.window;
  }

  lemma ReleasesAtDeadline(s: State, job: JobId)
    requires job in s.escrows && s.escrows[job].state.Awaiting? && s.escrows[job].deadline == s.now
    requires job in s.commitments && !s.commitments[job].resolved && s.commitments[job].deadline == s.now
    ensures var t := Release(s, job).state;
            && t.validators == s.validators && t.stake == s.stake && t.verdicts == s.verdicts
            && ChallengeError(t, job).None? && job in t.escrows && t.escrows[job].state.Settled?
  {
  }

  // Stake, open, register, commit, wait for the deadline, release; then the FAIL.
  lemma LateRun(cfg: Config, sha: Hash, start: int, hash: string) returns (events: seq<Event>, e: Event)
    requires ValidConfig(cfg) && 0 <= cfg.window && IsDigest(hash)
    ensures EndsLate(cfg, sha, start, events, e)
  {
    var first := EscapeSetUp(cfg, sha, start);
    var join := [] + [DoStake("v", ActiveStake(cfg))] + [DoRegisterValidator("v")];
    var close := [] + [DoRecordCommitment("j", "p", hash, "", "", 0)] + [Tick(cfg.window)] + [DoRelease("j")];
    events, e := first + join + close, DoSubmitVerdict("j", "v", Fail, 0, "");
    var s := Run(cfg, sha, Initial(start), first);
    var t := Run(cfg, sha, s, join);
    ValidatorJoins(cfg, sha, s);
    CommitWaitRelease(cfg, sha, t, hash);
    RunConcat(cfg, sha, Initial(start), first, join);
    RunConcat(cfg, sha, Initial(start), first + join, close);
    StillActive(cfg, t, Run(cfg, sha, t, close), "v");
    NothingEntered(cfg, sha, start, events, e);
  }

  lemma StillActive(cfg: Config, s: State, t: State, node: Account)
    requires IsActive(cfg, s, node) && t.stake == s.stake
    ensures IsActive(cfg, t, node)
  {
  }

  lemma {:induction false} NothingEntered(cfg: Config, sha: Hash, start: int, events: seq<Event>, e: Event)
    requires ValidConfig(cfg) && e.DoSubmitVerdict?
    requires var s := Run(cfg, sha, Initial(start), events); LateVerdict(cfg, s, e) && !Entered(s, e)
    ensures EndsLate(cfg, sha, start, events, e)
  {
    var s := Run(cfg, sha, Initial(start), events);
    SettlementHolds(cfg, sha, start, events);
    RejectionsMoveNothing(cfg, sha, s, e);
  }

  // ---------------------------------------------------------------- exactly when

  // A deadline lies a window after the commitment, so with a negative window no job that is
  // released is still challengeable.
  lemma NeverLate(cfg: Config, sha: Hash, start: int, events: seq<Event>, e: Event)
    requires ValidConfig(cfg) && cfg.window < 0
    ensures !EndsLate(cfg, sha, start, events, e)
  {
    var t := Run(cfg, sha, Initial(start), events);
    if e.DoSubmitVerdict? && e.job in t.commitments {
      var k := CommitmentsWereMade(cfg, sha, start, events, e.job);
      var s := Run(cfg, sha, Initial(start), events[..k]);
      SettlementHolds(cfg, sha, start, events[..k]);
      DeadlineIsKept(cfg, sha, s, events[k], events[k + 1..]);
      RunSplit(cfg, sha, start, events, k);
    }
  }

  lemma {:induction false} RunSplit(cfg: Config, sha: Hash, start: int, events: seq<Event>, k: nat)
    requires ValidConfig(cfg) && k < |events|
    ensures var s := Run(cfg, sha, Initial(start), events[..k]);
            Run(cfg, sha, Initial(start), events) == Run(cfg, sha, Apply(cfg, sha, s, events[k]).state, events[k + 1..])
  {
    RunAppend(cfg, sha, Initial(start), events[..k], events[k]);
    RunConcat(cfg, sha, Initial(start), events[..k] + [events[k]], events[k + 1..]);
    assert events[..k] + [events[k]] + events[k + 1..] == events;
  }

  // A rejected call can change the ledger exactly when the challenge window is not negative.
  lemma LateExactlyWhen(cfg: Config, sha: Hash)
    requires ValidConfig(cfg)
    ensures (exists start, events, e :: EndsLate(cfg, sha, start, events, e)) <==> 0 <= cfg.window
  {
    if 0 <= cfg.window {
      HexIsDigest(sha([]));
      var events, e := LateRun(cfg, sha, 0, ToHex(sha([])));
    } else {
      forall start, events, e ensures !EndsLate(cfg, sha, start, events, e) {
        NeverLate(cfg, sha, start, events, e);
      }
    }
  }
}
