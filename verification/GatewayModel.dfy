// The gateway's settlement with audits: gateway/grid.py, class `LocalGrid`.
//
// Amounts are real numbers. An audit gives up control while the judge is asked, so it is
// two steps here, and other calls can run between them.

module GatewayModel {
  import opened ByteStrings
  import opened Sequences

  type PeerId = string
  type JobId = string

  type Amount = x: real | 0.0 <= x witness 0.0

  // ---------------------------------------------------------------- entities

  datatype Verdict = Pass | Fail | Error

  datatype EscrowState = Settled | Slashed | AwaitingVerification

  datatype Settlement = Settlement(
    job: JobId, provider: PeerId, amount: Amount, state: EscrowState, slashed: bool, slash: Amount, reward: real,
    treasury: real, payout: Amount, refund: Amount, covered: bool, remaining: real)

  // A row of the ledger. Rows are never deleted; a reversed one no longer counts.
  datatype Row = Row(settlement: Settlement, audit: bool, reversed: bool)

  // `records` holds the settlement of every completed job that is still remembered and
  // `audits` the settlements superseded by audits that wait for the judge. `opening` is
  // not in the code: it remembers what each stake started with.
  datatype Grid = Grid(
    nodes: set<PeerId>, stakes: map<PeerId, real>, earnings: map<PeerId, real>, treasury: real,
    validatorEarnings: real, records: map<JobId, Settlement>, audits: seq<Settlement>, rows: seq<Row>,
    opening: map<PeerId, real>)

  datatype GridError = UnknownJob | NotComplete | UnknownNode

  function At(balances: map<PeerId, real>, peer: PeerId): real {
    if peer in balances then balances[peer] else 0.0
  }

  const EMPTY := Grid({}, map[], map[], 0.0, 0.0, map[], [], [], map[])

  // ---------------------------------------------------------------- node registry

  datatype Profile = Profile(peer: PeerId, stake: Amount)

  // `setdefault`: a peer keeps the stake it has.
  function Seeded(balances: map<PeerId, real>, stakes: map<PeerId, real>, profiles: seq<Profile>): map<PeerId, real> {
    if |profiles| == 0 then balances
    else
      var last := profiles[|profiles| - 1];
      var seeded := Seeded(balances, stakes, profiles[..|profiles| - 1]);
      if last.peer in stakes || last.peer in seeded then seeded else seeded[last.peer := last.stake]
  }

  function Refresh(g: Grid, profiles: seq<Profile>): Grid {
    g.(nodes := set p | p in profiles :: p.peer,
       stakes := Seeded(g.stakes, g.stakes, profiles),
       opening := Seeded(g.opening, g.stakes, profiles))
  }

  // ---------------------------------------------------------------- settlement

  // What a ruling does with the escrowed amount; no ruling counts as a pass.
  function Ruled(share: real, g: Grid, job: JobId, provider: PeerId, amount: Amount, ruling: Option<Verdict>)
    : Settlement
    requires At(g.stakes, provider) >= 0.0
  {
    var available := At(g.stakes, provider);
    match ruling
    case Some(Fail) =>
      var slash := if available < amount then available else amount;
      Settlement(job, provider, amount, Slashed, true, slash, slash * share, slash - slash * share, 0.0, amount,
                 slash >= amount, available)
    case Some(Error) =>
      Settlement(job, provider, amount, AwaitingVerification, false, 0.0, 0.0, 0.0, 0.0, 0.0, true, available)
    case _ => Settlement(job, provider, amount, Settled, false, 0.0, 0.0, 0.0, amount, 0.0, true, available)
  }

  function Signed(sign: real, value: real): real { sign * value }

  // The value that a settlement moves, or moves back when `sign` is -1.
  function Move(g: Grid, s: Settlement, sign: real): Grid {
    var g' :=
      if s.slashed
      then g.(stakes := g.stakes[s.provider := At(g.stakes, s.provider) - Signed(sign, s.slash)],
              validatorEarnings := g.validatorEarnings + Signed(sign, s.reward),
              treasury := g.treasury + Signed(sign, s.treasury))
      else g;
    if s.payout != 0.0
    then g'.(earnings := g'.earnings[s.provider := At(g'.earnings, s.provider) + Signed(sign, s.payout)])
    else g'
  }

  // Settling: the value moves, and what is left of the stake is noted.
  function Settle(share: real, g: Grid, job: JobId, provider: PeerId, amount: Amount, ruling: Option<Verdict>)
    : (Grid, Settlement)
    requires At(g.stakes, provider) >= 0.0
  {
    var s := Ruled(share, g, job, provider, amount, ruling);
    var g' := Move(g, s, 1.0);
    (g', s.(remaining := At(g'.stakes, provider)))
  }

  // The end of a job: it settles and its record and row are written.
  function Complete(share: real, g: Grid, job: JobId, provider: PeerId, amount: Amount, ruling: Option<Verdict>): Grid
    requires At(g.stakes, provider) >= 0.0
  {
    var (g', s) := Settle(share, g, job, provider, amount, ruling);
    g'.(records := g'.records[job := s], rows := g'.rows + [Row(s, false, false)])
  }

  // Old jobs drop out of memory; their rows stay.
  function Forget(g: Grid, job: JobId): Grid { g.(records := g.records - {job}) }

  // ---------------------------------------------------------------- audits

  function Reversed(rows: seq<Row>, job: JobId): (reversed: seq<Row>)
    ensures |reversed| == |rows|
  {
    seq(|rows|, i requires 0 <= i < |rows| =>
      if rows[i].settlement.job == job then rows[i].(reversed := true) else rows[i])
  }

  // `reverify` up to the call of the judge.
  function BeginAudit(g: Grid, job: JobId): (Grid, Option<GridError>) {
    if job !in g.records then (g, Some(UnknownJob))
    else if g.records[job].provider !in g.nodes then (g, Some(UnknownNode))
    else
      var s := g.records[job];
      var g' := Move(g, s, -1.0);
      (g'.(rows := Reversed(g.rows, job), audits := g.audits + [s]), None)
  }

  // The rest of `reverify`, for the audit that is number `k` among those that wait. A
  // job that was dropped in the meantime gets its row but no record.
  function FinishAudit(share: real, g: Grid, k: nat, ruling: Verdict): Grid
    requires k < |g.audits| && At(g.stakes, g.audits[k].provider) >= 0.0
  {
    var old' := g.audits[k];
    var (g', s) := Settle(share, g, old'.job, old'.provider, old'.amount, Some(ruling));
    g'.(records := if old'.job in g'.records then g'.records[old'.job := s] else g'.records,
        rows := g'.rows + [Row(s, true, false)],
        audits := Skip(g'.audits, k))
  }

  // ---------------------------------------------------------------- totals

  function LiveSum(rows: seq<Row>, value: Settlement -> real): real {
    if |rows| == 0 then 0.0
    else
      var last := rows[|rows| - 1];
      LiveSum(rows[..|rows| - 1], value) + (if last.reversed then 0.0 else value(last.settlement))
  }

  function Slashes(): Settlement -> real { (s: Settlement) => s.slash }
  function Payouts(): Settlement -> real { (s: Settlement) => s.payout }
  function Amounts(): Settlement -> real { (s: Settlement) => s.amount }
  function Rewards(): Settlement -> real { (s: Settlement) => s.reward }
  function TreasuryParts(): Settlement -> real { (s: Settlement) => s.treasury }

  function SlashesOf(peer: PeerId): Settlement -> real {
    (s: Settlement) => if s.provider == peer then s.slash else 0.0
  }

  function PayoutsOf(peer: PeerId): Settlement -> real {
    (s: Settlement) => if s.provider == peer then s.payout else 0.0
  }

  function LiveCount(rows: seq<Row>): (n: nat)
    ensures n <= |rows|
  {
    if |rows| == 0 then 0 else LiveCount(rows[..|rows| - 1]) + (if rows[|rows| - 1].reversed then 0 else 1)
  }

  // ---------------------------------------------------------------- runs

  datatype Event =
    | DoRefresh(profiles: seq<Profile>)
    | DoComplete(job: JobId, provider: PeerId, amount: Amount, ruling: Option<Verdict>)
    | DoForget(job: JobId)
    | DoBeginAudit(job: JobId)
    | DoFinishAudit(k: nat, verdict: Verdict)

  // Stakes never go negative, whatever runs; see `StakesStay` for the proof.
  predicate Solvent(g: Grid) { forall p :: p in g.stakes ==> g.stakes[p] >= 0.0 }

  // An event that refers to no waiting audit is no event.
  function Apply(share: real, g: Grid, e: Event): Grid
    requires Solvent(g)
  {
    match e
    case DoRefresh(profiles) => Refresh(g, profiles)
    case DoComplete(job, provider, amount, ruling) => Complete(share, g, job, provider, amount, ruling)
    case DoForget(job) => Forget(g, job)
    case DoBeginAudit(job) => BeginAudit(g, job).0
    case DoFinishAudit(k, verdict) => if k < |g.audits| then FinishAudit(share, g, k, verdict) else g
  }

  lemma {:induction false} SeededStays(balances: map<PeerId, real>, stakes: map<PeerId, real>, profiles: seq<Profile>)
    requires forall p :: p in balances ==> balances[p] >= 0.0
    ensures forall p :: p in Seeded(balances, stakes, profiles) ==> Seeded(balances, stakes, profiles)[p] >= 0.0
    decreases |profiles|
  {
    if |profiles| > 0 {
      SeededStays(balances, stakes, profiles[..|profiles| - 1]);
    }
  }

  // A slash takes no more than there is, and a reversal only gives back.
  lemma StakesStay(share: real, g: Grid, e: Event)
    requires Solvent(g)
    ensures Solvent(Apply(share, g, e))
  {
    if e.DoRefresh? {
      SeededStays(g.stakes, g.stakes, e.profiles);
    }
  }

  function Run(share: real, events: seq<Event>): (g: Grid)
    ensures Solvent(g)
  {
    if |events| == 0 then EMPTY
    else
      var before := Run(share, events[..|events| - 1]);
      StakesStay(share, before, events[|events| - 1]);
      Apply(share, before, events[|events| - 1])
  }
}
