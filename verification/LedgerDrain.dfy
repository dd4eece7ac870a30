// Nothing is ever locked in: from every reachable state the ledger can be emptied.
// edgegrid/ledger.py, `request_unstake`, `claim_unstake`, `withdraw`, `release`, `cancel`.

module LedgerDrain {
  import opened ByteStrings
  import opened Totals
  import opened LedgerModel
  import opened LedgerConservation
  import opened LedgerCollateral

  // ---------------------------------------------------------------- what is still inside

  function Held(s: State): set<JobId> { set job | job in s.escrows && !Closed(s.escrows[job].state) }
  function Staked(s: State): set<Account> { set node | node in s.stake && s.stake[node] > 0 }
  function Unbonded(s: State): set<Account> { set node | node in s.unbonding && s.unbonding[node].amount > 0 }
  function Credited(s: State): set<Account> { set a | a in s.withdrawable && s.withdrawable[a] > 0 }

  predicate Drained(s: State) {
    Held(s) == {} && Staked(s) == {} && Unbonded(s) == {} && Credited(s) == {}
  }

  // Only the calls that pay out, each of them accepted.
  predicate PaysOut(e: Event) {
    e.DoRequestUnstake? || e.DoClaimUnstake? || e.DoWithdraw? || e.DoRelease? || e.DoCancel? || e.Tick?
  }

  predicate Smooth(cfg: Config, sha: Hash, s: State, events: seq<Event>)
    requires ValidConfig(cfg)
  {
    events == [] ||
    var before := events[..|events| - 1];
    var last := events[|events| - 1];
    Smooth(cfg, sha, s, before) && PaysOut(last) && Apply(cfg, sha, Run(cfg, sha, s, before), last).Accepted()
  }

  lemma {:induction false} SmoothAppend(cfg: Config, sha: Hash, s: State, events: seq<Event>, e: Event)
    requires ValidConfig(cfg) && Smooth(cfg, sha, s, events)
    requires PaysOut(e) && Apply(cfg, sha, Run(cfg, sha, s, events), e).Accepted()
    ensures Smooth(cfg, sha, s, events + [e])
  {
    assert (events + [e])[..|events|] == events;
  }

  lemma {:induction false} SmoothFront(cfg: Config, sha: Hash, s: State, events: seq<Event>, e: Event)
    requires ValidConfig(cfg) && Smooth(cfg, sha, s, events + [e])
    ensures Smooth(cfg, sha, s, events) && PaysOut(e) && Apply(cfg, sha, Run(cfg, sha, s, events), e).Accepted()
  {
    assert (events + [e])[..|events|] == events;
  }

  lemma LastOf(first: seq<Event>, second: seq<Event>)
    requires |second| > 0
    ensures second == second[..|second| - 1] + [second[|second| - 1]]
    ensures first + second == first + second[..|second| - 1] + [second[|second| - 1]]
  {
  }

  lemma {:induction false} SmoothThen(cfg: Config, sha: Hash, s: State, first: seq<Event>, second: seq<Event>)
    requires ValidConfig(cfg)
    requires Smooth(cfg, sha, s, first) && Smooth(cfg, sha, Run(cfg, sha, s, first), second)
    ensures Smooth(cfg, sha, s, first + second)
    ensures Run(cfg, sha, s, first + second) == Run(cfg, sha, Run(cfg, sha, s, first), second)
    decreases |second|
  {
    if |second| == 0 {
      assert first + second == first;
    } else {
      var before, last := second[..|second| - 1], second[|second| - 1];
      LastOf(first, second);
      SmoothFront(cfg, sha, Run(cfg, sha, s, first), before, last);
      SmoothThen(cfg, sha, s, first, before);
      SmoothAppend(cfg, sha, s, first + before, last);
      RunAppend(cfg, sha, s, first + before, last);
      RunAppend(cfg, sha, Run(cfg, sha, s, first), before, last);
    }
  }

  lemma SmoothPair(cfg: Config, sha: Hash, s: State, wait: nat, e: Event) returns (events: seq<Event>)
    requires ValidConfig(cfg) && PaysOut(e)
    requires Apply(cfg, sha, s.(now := s.now + wait), e).Accepted()
    ensures Smooth(cfg, sha, s, events)
    ensures Run(cfg, sha, s, events) == Apply(cfg, sha, s.(now := s.now + wait), e).state
  {
    events := [] + [Tick(wait)] + [e];
    RunAppend(cfg, sha, s, [], Tick(wait));
    RunAppend(cfg, sha, s, [] + [Tick(wait)], e);
    assert events[..1] == [] + [Tick(wait)] && ([] + [Tick(wait)])[..0] == [];
  }

  // ---------------------------------------------------------------- one thing less

  function WaitUntil(s: State, t: int): nat { if t > s.now then t - s.now else 0 }

  // Fewer jobs are held, or as many and fewer accounts are staked, and so on.
  predicate Emptier(t: State, s: State) {
    || Held(t) < Held(s)
    || (Held(t) == Held(s) && Staked(t) < Staked(s))
    || (Held(t) == Held(s) && Staked(t) == Staked(s) && Unbonded(t) < Unbonded(s))
    || (Held(t) == Held(s) && Staked(t) == Staked(s) && Unbonded(t) == Unbonded(s) && Credited(t) < Credited(s))
  }

  lemma DrainPair(cfg: Config, sha: Hash, s: State, wait: nat, e: Event) returns (events: seq<Event>)
    requires ValidConfig(cfg) && PaysOut(e)
    requires var outcome := Apply(cfg, sha, s.(now := s.now + wait), e); outcome.Accepted() && Emptier(outcome.state, s)
    ensures Smooth(cfg, sha, s, events) && Emptier(Run(cfg, sha, s, events), s)
  {
    events := SmoothPair(cfg, sha, s, wait, e);
  }

  lemma ReleaseOne(cfg: Config, sha: Hash, s: State, job: JobId) returns (events: seq<Event>)
    requires ValidConfig(cfg) && job in Held(s) && !s.escrows[job].state.Open?
    ensures Smooth(cfg, sha, s, events) && Emptier(Run(cfg, sha, s, events), s)
  {
    var wait, e := WaitUntil(s, s.escrows[job].deadline), DoRelease(job);
    assert Held(Apply(cfg, sha, s.(now := s.now + wait), e).state) == Held(s) - {job};
    events := DrainPair(cfg, sha, s, wait, e);
  }

  lemma CancelOne(cfg: Config, sha: Hash, s: State, job: JobId) returns (events: seq<Event>)
    requires ValidConfig(cfg) && job in Held(s) && s.escrows[job].state.Open?
    ensures Smooth(cfg, sha, s, events) && Emptier(Run(cfg, sha, s, events), s)
  {
    var escrow := s.escrows[job];
    var wait, e := WaitUntil(s, escrow.openedAt + cfg.awardTimeout), DoCancel(job, escrow.requester);
    assert Held(Apply(cfg, sha, s.(now := s.now + wait), e).state) == Held(s) - {job};
    events := DrainPair(cfg, sha, s, wait, e);
  }

  lemma UnstakeOne(cfg: Config, sha: Hash, s: State, node: Account) returns (events: seq<Event>)
    requires ValidConfig(cfg) && node in Staked(s)
    ensures Smooth(cfg, sha, s, events) && Emptier(Run(cfg, sha, s, events), s)
  {
    var e := DoRequestUnstake(node, s.stake[node]);
    var t := Apply(cfg, sha, s.(now := s.now + 0), e).state;
    assert Staked(t) == Staked(s) - {node} && Held(t) == Held(s);
    events := DrainPair(cfg, sha, s, 0, e);
  }

  lemma ClaimOne(cfg: Config, sha: Hash, s: State, node: Account) returns (events: seq<Event>)
    requires ValidConfig(cfg) && node in Unbonded(s)
    ensures Smooth(cfg, sha, s, events) && Emptier(Run(cfg, sha, s, events), s)
  {
    var wait, e := WaitUntil(s, s.unbonding[node].ready), DoClaimUnstake(node);
    var t := Apply(cfg, sha, s.(now := s.now + wait), e).state;
    assert Unbonded(t) == Unbonded(s) - {node} && Held(t) == Held(s) && Staked(t) == Staked(s);
    events := DrainPair(cfg, sha, s, wait, e);
  }

  lemma WithdrawOne(cfg: Config, sha: Hash, s: State, account: Account) returns (events: seq<Event>)
    requires ValidConfig(cfg) && account in Credited(s)
    ensures Smooth(cfg, sha, s, events) && Emptier(Run(cfg, sha, s, events), s)
  {
    var e := DoWithdraw(account);
    var t := Apply(cfg, sha, s.(now := s.now + 0), e).state;
    assert Credited(t) == Credited(s) - {account};
    assert Held(t) == Held(s) && Staked(t) == Staked(s) && Unbonded(t) == Unbonded(s);
    events := DrainPair(cfg, sha, s, 0, e);
  }

  lemma DrainStep(cfg: Config, sha: Hash, s: State) returns (events: seq<Event>)
    requires ValidConfig(cfg) && !Drained(s)
    ensures Smooth(cfg, sha, s, events) && Emptier(Run(cfg, sha, s, events), s)
  {
    if job :| job in Held(s) {
      if s.escrows[job].state.Open? {
        events := CancelOne(cfg, sha, s, job);
      } else {
        events := ReleaseOne(cfg, sha, s, job);
      }
    } else if node :| node in Staked(s) {
      events := UnstakeOne(cfg, sha, s, node);
    } else if node :| node in Unbonded(s) {
      events := ClaimOne(cfg, sha, s, node);
    } else {
      var account :| account in Credited(s);
      events := WithdrawOne(cfg, sha, s, account);
    }
  }

  lemma {:induction false} DrainRun(cfg: Config, sha: Hash, s: State) returns (events: seq<Event>)
    requires ValidConfig(cfg)
    ensures Smooth(cfg, sha, s, events) && Drained(Run(cfg, sha, s, events))
    decreases Held(s), Staked(s), Unbonded(s), Credited(s)
  {
    if Drained(s) {
      events := [];
    } else {
      var first := DrainStep(cfg, sha, s);
      var rest := DrainRun(cfg, sha, Run(cfg, sha, s, first));
      SmoothThen(cfg, sha, s, first, rest);
      events := first + rest;
    }
  }

  lemma DrainedMeansWithdrawn(s: State)
    requires Conserved(s) && Drained(s)
    ensures s.acct.withdrawn == s.acct.deposited
    ensures s.acct.escrowHeld == s.acct.stakeActive == s.acct.stakeUnbonding == s.acct.withdrawable == 0
  {
    forall node | node in s.stake ensures Wei(s.stake[node]) == 0 {
      assert node !in Staked(s);
    }
    forall node | node in s.unbonding ensures UnbondingWei(s.unbonding[node]) == 0 {
      assert node !in Unbonded(s);
    }
    forall a | a in s.withdrawable ensures Wei(s.withdrawable[a]) == 0 {
      assert a !in Credited(s);
    }
    forall job | job in s.escrows ensures HeldWei(s.escrows[job]) == 0 {
      assert job !in Held(s);
    }
    TotalZero<Account, nat>(s.stake, Wei);
    TotalZero(s.unbonding, UnbondingWei);
    TotalZero<Account, nat>(s.withdrawable, Wei);
    TotalZero(s.escrows, HeldWei);
  }

  // From whatever state a run has led to, a finite run of accepted payouts and waiting
  // leads to one in which every wei deposited has been withdrawn.
  lemma Drainability(cfg: Config, sha: Hash, start: int, events: seq<Event>) returns (rest: seq<Event>)
    requires ValidConfig(cfg)
    ensures var s := Run(cfg, sha, Initial(start), events);
            var t := Run(cfg, sha, s, rest);
            && Smooth(cfg, sha, s, rest) && Drained(t)
            && t.acct.withdrawn == t.acct.deposited && t.acct.deposited == s.acct.deposited
  {
    var s := Run(cfg, sha, Initial(start), events);
    rest := DrainRun(cfg, sha, s);
    ConservationHolds(cfg, sha, start, events);
    RunsConserve(cfg, sha, s, rest);
    DrainedMeansWithdrawn(Run(cfg, sha, s, rest));
    PayoutsDepositNothing(cfg, sha, s, rest);
  }

  lemma {:induction false} PayoutsDepositNothing(cfg: Config, sha: Hash, s: State, events: seq<Event>)
    requires ValidConfig(cfg) && Smooth(cfg, sha, s, events)
    ensures Run(cfg, sha, s, events).acct.deposited == s.acct.deposited
    decreases |events|
  {
    if events != [] {
      PayoutsDepositNothing(cfg, sha, s, events[..|events| - 1]);
    }
  }
}
