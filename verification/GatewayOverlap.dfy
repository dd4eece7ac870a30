// Two runs in which two audits of one job overlap: gateway/grid.py, `reverify`.

module GatewayOverlap {
  import opened ByteStrings
  import opened GatewayDrift
  import opened GatewayModel
  import opened GatewayReplay
  import opened Sequences

  // ---------------------------------------------------------------- one node, one job

  const PAID: Settlement := Settlement("j", "p", 1.0, Settled, false, 0.0, 0.0, 0.0, 1.0, 0.0, true, 1.0)
  const HELD: Settlement :=
    Settlement("j", "p", 1.0, AwaitingVerification, false, 0.0, 0.0, 0.0, 0.0, 0.0, true, 1.0)

  function Books(earned: map<PeerId, real>, record: Settlement, audits: seq<Settlement>, rows: seq<Row>): Grid {
    Grid({"p"}, map["p" := 1.0], earned, 0.0, 0.0, map["j" := record], audits, rows, map["p" := 1.0])
  }

  // The job completes with the given ruling, two audits of it overlap and both end in a
  // pass, and then a third one begins.
  function Overlap(ruling: Option<Verdict>): seq<Event> {
    [DoRefresh([Profile("p", 1.0)]), DoComplete("j", "p", 1.0, ruling)]
    + [DoBeginAudit("j")] + [DoBeginAudit("j")] + [DoFinishAudit(0, Pass)] + [DoFinishAudit(0, Pass)]
    + [DoBeginAudit("j")]
  }

  // ---------------------------------------------------------------- steps

  lemma {:induction false} RunAppend(share: real, events: seq<Event>, e: Event)
    ensures Run(share, events + [e]) == Apply(share, Run(share, events), e)
  {
    assert (events + [e])[..|events|] == events;
  }

  lemma {:induction false} Refreshed(share: real)
    ensures Run(share, [DoRefresh([Profile("p", 1.0)])]) ==
            EMPTY.(nodes := {"p"}, stakes := map["p" := 1.0], opening := map["p" := 1.0])
  {
    var profiles := [Profile("p", 1.0)];
    RunAppend(share, [], DoRefresh(profiles));
    assert profiles[..0] == [] && Seeded(map[], map[], []) == map[];
    assert Seeded(map[], map[], profiles) == map["p" := 1.0];
    assert (set p | p in profiles :: p.peer) == {"p"};
  }

  lemma {:induction false} Completed(share: real, ruling: Option<Verdict>)
    requires ruling == Some(Error) || ruling == Some(Pass)
    ensures var s := if ruling == Some(Pass) then PAID else HELD;
            Run(share, Overlap(ruling)[..2]) ==
            Books(if ruling == Some(Pass) then map["p" := 1.0] else map[], s, [], [Row(s, false, false)])
  {
    var refresh, complete := DoRefresh([Profile("p", 1.0)]), DoComplete("j", "p", 1.0, ruling);
    assert Overlap(ruling)[..2] == [refresh] + [complete];
    Refreshed(share);
    RunAppend(share, [refresh], complete);
  }

  lemma Begun(share: real, earned: map<PeerId, real>, s: Settlement, audits: seq<Settlement>, rows: seq<Row>)
    requires s == PAID || s == HELD
    ensures Solvent(Books(earned, s, audits, rows))
    ensures Apply(share, Books(earned, s, audits, rows), DoBeginAudit("j")) ==
            Books(if s == PAID then earned["p" := At(earned, "p") - 1.0] else earned, s, audits + [s],
                  Reversed(rows, "j"))
  {
  }

  lemma Finished(share: real, earned: map<PeerId, real>, s: Settlement, a: Settlement, audits: seq<Settlement>,
                 rows: seq<Row>)
    requires a == PAID || a == HELD
    ensures Solvent(Books(earned, s, [a] + audits, rows))
    ensures Apply(share, Books(earned, s, [a] + audits, rows), DoFinishAudit(0, Pass)) ==
            Books(earned["p" := At(earned, "p") + 1.0], PAID, audits, rows + [Row(PAID, true, false)])
  {
    assert Skip([a] + audits, 0) == audits;
  }

  // ---------------------------------------------------------------- where the run leads

  lemma Prefixes(ruling: Option<Verdict>)
    ensures var events := Overlap(ruling);
            && events[..3] == events[..2] + [DoBeginAudit("j")] && events[..4] == events[..3] + [DoBeginAudit("j")]
            && events[..5] == events[..4] + [DoFinishAudit(0, Pass)]
            && events[..6] == events[..5] + [DoFinishAudit(0, Pass)]
            && events == events[..6] + [DoBeginAudit("j")]
  {
  }

  function AfterFour(s: Settlement, earned: map<PeerId, real>): Grid {
    Books(earned, s, [s] + [s], Reversed(Reversed([Row(s, false, false)], "j"), "j"))
  }

  function Twice(rows: seq<Row>): seq<Row> { rows + [Row(PAID, true, false)] + [Row(PAID, true, false)] }

  lemma {:induction false} FirstFour(share: real, ruling: Option<Verdict>)
    requires ruling == Some(Error) || ruling == Some(Pass)
    ensures Run(share, Overlap(ruling)[..4]) ==
            if ruling == Some(Pass) then AfterFour(PAID, map["p" := -1.0]) else AfterFour(HELD, map[])
  {
    var s := if ruling == Some(Pass) then PAID else HELD;
    var earned: map<PeerId, real> := if ruling == Some(Pass) then map["p" := 1.0] else map[];
    var less: map<PeerId, real> := if ruling == Some(Pass) then map["p" := 0.0] else map[];
    var rows := [Row(s, false, false)];
    Prefixes(ruling);
    Completed(share, ruling);
    RunAppend(share, Overlap(ruling)[..2], DoBeginAudit("j"));
    RunAppend(share, Overlap(ruling)[..3], DoBeginAudit("j"));
    Begun(share, earned, s, [], rows);
    assert earned["p" := At(earned, "p") - 1.0] == map["p" := At(earned, "p") - 1.0];
    Begun(share, less, s, [] + [s], Reversed(rows, "j"));
    assert [] + [s] + [s] == [s] + [s];
  }

  // Both audits end: the provider has been paid once by each.
  lemma {:induction false} FirstSix(share: real, ruling: Option<Verdict>)
    requires ruling == Some(Error) || ruling == Some(Pass)
    ensures var s := if ruling == Some(Pass) then PAID else HELD;
            Run(share, Overlap(ruling)[..6]) ==
            Books(map["p" := if ruling == Some(Pass) then 1.0 else 2.0], PAID, [],
                  Twice(Reversed(Reversed([Row(s, false, false)], "j"), "j")))
  {
    var s := if ruling == Some(Pass) then PAID else HELD;
    var earned: map<PeerId, real> := if ruling == Some(Pass) then map["p" := -1.0] else map[];
    var more: map<PeerId, real> := if ruling == Some(Pass) then map["p" := 0.0] else map["p" := 1.0];
    var rows := Reversed(Reversed([Row(s, false, false)], "j"), "j");
    Prefixes(ruling);
    FirstFour(share, ruling);
    RunAppend(share, Overlap(ruling)[..4], DoFinishAudit(0, Pass));
    RunAppend(share, Overlap(ruling)[..5], DoFinishAudit(0, Pass));
    Finished(share, earned, s, s, [s], rows);
    assert earned["p" := At(earned, "p") + 1.0] == more;
    assert [s] == [s] + [];
    Finished(share, more, PAID, s, [], rows + [Row(PAID, true, false)]);
    assert more["p" := At(more, "p") + 1.0] == map["p" := At(more, "p") + 1.0];
  }

  lemma {:induction false} LastBegin(share: real, ruling: Option<Verdict>)
    requires ruling == Some(Error) || ruling == Some(Pass)
    ensures var s := if ruling == Some(Pass) then PAID else HELD;
            Run(share, Overlap(ruling)) ==
            Books(map["p" := if ruling == Some(Pass) then 0.0 else 1.0], PAID, [PAID],
                  Reversed(Twice(Reversed(Reversed([Row(s, false, false)], "j"), "j")), "j"))
  {
    var s := if ruling == Some(Pass) then PAID else HELD;
    var earned: map<PeerId, real> := map["p" := if ruling == Some(Pass) then 1.0 else 2.0];
    Prefixes(ruling);
    FirstSix(share, ruling);
    RunAppend(share, Overlap(ruling)[..6], DoBeginAudit("j"));
    Begun(share, earned, PAID, [], Twice(Reversed(Reversed([Row(s, false, false)], "j"), "j")));
    assert [] + [PAID] == [PAID];
    assert earned["p" := At(earned, "p") - 1.0] == map["p" := At(earned, "p") - 1.0];
  }

  // ---------------------------------------------------------------- sums of its rows

  lemma {:induction false} AllReversed(rows: seq<Row>, value: Settlement -> real)
    requires forall i :: 0 <= i < |rows| ==> rows[i].reversed
    ensures LiveSum(rows, value) == 0.0
    decreases |rows|
  {
    if |rows| > 0 {
      AllReversed(rows[..|rows| - 1], value);
    }
  }

  lemma TwiceSum(rows: seq<Row>, value: Settlement -> real)
    requires forall i :: 0 <= i < |rows| ==> rows[i].reversed
    ensures LiveSum(Twice(rows), value) == 2.0 * value(PAID)
  {
    AllReversed(rows, value);
    LiveSumAppend(rows, Row(PAID, true, false), value);
    LiveSumAppend(rows + [Row(PAID, true, false)], Row(PAID, true, false), value);
  }

  lemma {:induction false} BooksDrift(earned: map<PeerId, real>, s: Settlement, audits: seq<Settlement>, rows: seq<Row>,
                                      b: Balance)
    requires earned.Keys <= {"p"}
    ensures Drift(Books(earned, s, audits, rows), b) ==
            (if b == OfEarnings("p") then At(earned, "p") else 0.0) - LiveSum(rows, Says(b))
    ensures Says(b)(PAID) == (if b == OfEarnings("p") then 1.0 else 0.0)
  {
  }

  lemma ReversedDrift(earned: map<PeerId, real>, s: Settlement, audits: seq<Settlement>, rows: seq<Row>, b: Balance)
    requires earned.Keys <= {"p"} && forall i :: 0 <= i < |rows| ==> rows[i].reversed
    ensures Drift(Books(earned, s, audits, rows), b) == if b == OfEarnings("p") then At(earned, "p") else 0.0
  {
    BooksDrift(earned, s, audits, rows, b);
    AllReversed(rows, Says(b));
  }

  // ---------------------------------------------------------------- what it shows

  // A settlement that moved nothing is reversed twice, which breaks nothing; both audits
  // pay; and then an audit on its own, which overlaps with none, breaks the books.
  lemma {:induction false} HarmlessOverlapBreaksLater(share: real)
    ensures var events := Overlap(Some(Error));
            && Replayed(Run(share, events[..4])) && Replayed(Run(share, events[..6]))
            && events[6] == DoBeginAudit("j") && !UnderAudit(Run(share, events[..6]), "j")
            && !Replayed(Run(share, events))
  {
    StartsHarmless(share);
    BreaksAtLast(share);
    FirstSix(share, Some(Error));
  }

  lemma {:induction false} StartsHarmless(share: real)
    ensures var events := Overlap(Some(Error)); Replayed(Run(share, events[..4])) && Replayed(Run(share, events[..6]))
  {
    var events := Overlap(Some(Error));
    var rows := Reversed(Reversed([Row(HELD, false, false)], "j"), "j");
    FirstFour(share, Some(Error));
    forall b: Balance ensures Drift(Run(share, events[..4]), b) == 0.0 {
      ReversedDrift(map[], HELD, [HELD] + [HELD], rows, b);
    }
    PaidTwice(share);
  }

  lemma {:induction false} PaidTwice(share: real)
    ensures Replayed(Run(share, Overlap(Some(Error))[..6]))
  {
    var rows := Reversed(Reversed([Row(HELD, false, false)], "j"), "j");
    FirstSix(share, Some(Error));
    forall b: Balance ensures Drift(Run(share, Overlap(Some(Error))[..6]), b) == 0.0 {
      BooksDrift(map["p" := 2.0], PAID, [], Twice(rows), b);
      TwiceSum(rows, Says(b));
    }
  }

  lemma {:induction false} BreaksAtLast(share: real)
    ensures !Replayed(Run(share, Overlap(Some(Error))))
  {
    var all := Reversed(Twice(Reversed(Reversed([Row(HELD, false, false)], "j"), "j")), "j");
    LastBegin(share, Some(Error));
    ReversedDrift(map["p" := 1.0], PAID, [PAID], all, OfEarnings("p"));
    assert Drift(Run(share, Overlap(Some(Error))), OfEarnings("p")) == 1.0;
  }

  // A payout is reversed twice, which breaks the books; and the same later audit puts them
  // right again.
  lemma {:induction false} BrokenBooksCanHeal(share: real)
    ensures var events := Overlap(Some(Pass));
            && !Replayed(Run(share, events[..4])) && !Replayed(Run(share, events[..6]))
            && Replayed(Run(share, events)) && Tidy(Run(share, events))
  {
    StaysBroken(share);
    HealsAtLast(share);
    EndsTidy(share);
  }

  lemma {:induction false} StaysBroken(share: real)
    ensures var events := Overlap(Some(Pass)); !Replayed(Run(share, events[..4])) && !Replayed(Run(share, events[..6]))
  {
    var events := Overlap(Some(Pass));
    var rows := Reversed(Reversed([Row(PAID, false, false)], "j"), "j");
    var b := OfEarnings("p");
    FirstFour(share, Some(Pass));
    FirstSix(share, Some(Pass));
    ReversedDrift(map["p" := -1.0], PAID, [PAID] + [PAID], rows, b);
    assert Drift(Run(share, events[..4]), b) == -1.0;
    BooksDrift(map["p" := 1.0], PAID, [], Twice(rows), b);
    TwiceSum(rows, Says(b));
    assert Drift(Run(share, events[..6]), b) == -1.0;
  }

  lemma {:induction false} HealsAtLast(share: real)
    ensures Replayed(Run(share, Overlap(Some(Pass))))
  {
    var all := Reversed(Twice(Reversed(Reversed([Row(PAID, false, false)], "j"), "j")), "j");
    LastBegin(share, Some(Pass));
    forall b: Balance ensures Drift(Run(share, Overlap(Some(Pass))), b) == 0.0 {
      ReversedDrift(map["p" := 0.0], PAID, [PAID], all, b);
    }
  }

  lemma {:induction false} EndsTidy(share: real)
    ensures Tidy(Run(share, Overlap(Some(Pass))))
  {
    var rows := Twice(Reversed(Reversed([Row(PAID, false, false)], "j"), "j"));
    LastBegin(share, Some(Pass));
    assert forall i :: 0 <= i < |rows| ==> rows[i].settlement == PAID;
    OneAuditIsTidy(map["p" := 0.0], Reversed(rows, "j"));
  }

  lemma OneAuditIsTidy(earned: map<PeerId, real>, rows: seq<Row>)
    requires |rows| > 0 && forall i :: 0 <= i < |rows| ==> rows[i].reversed && rows[i].settlement == PAID
    ensures Tidy(Books(earned, PAID, [PAID], rows))
  {
    assert rows[0].settlement.job == "j";
    assert [PAID][0].job == "j";
  }
}
