// A run in which a blob takes the id of a sealed one: edgegrid/da.py, `submit_blob`.

module BlobClash {
  import opened BlobFate
  import opened BlobHistory
  import opened BlobStore
  import opened ByteStrings
  import opened MerkleTree

  // ---------------------------------------------------------------- batches of one blob's copies

  function Copies(d: Bytes, ns: Bytes, n: nat): seq<Event> {
    if n == 0 then [] else Copies(d, ns, n - 1) + [DoSubmit(d, ns)]
  }

  function Batch(d: Bytes, ns: Bytes, n: nat): seq<Event> { Copies(d, ns, n) + [DoSeal] }

  // A batch of twelve, and then `m` batches of one.
  function Batches(d: Bytes, ns: Bytes, m: nat): seq<Event> {
    if m == 0 then Batch(d, ns, 12) else Batches(d, ns, m - 1) + Batch(d, ns, 1)
  }

  // Ten blocks and the first blob of the eleventh.
  function BeforeClash(d: Bytes, ns: Bytes): seq<Event> { Batches(d, ns, 9) + [DoSubmit(d, ns)] }

  lemma {:induction false} CopiesOneSource(d: Bytes, ns: Bytes, n: nat)
    ensures OneSource(Copies(d, ns, n), ns, {d}) && |Copies(d, ns, n)| == n
    decreases n
  {
    if n > 0 {
      CopiesOneSource(d, ns, n - 1);
    }
  }

  lemma {:induction false} BatchesOneSource(d: Bytes, ns: Bytes, m: nat)
    ensures OneSource(Batches(d, ns, m), ns, {d}) && |Batches(d, ns, m)| == 13 + 2 * m
    decreases m
  {
    if m == 0 {
      CopiesOneSource(d, ns, 12);
    } else {
      BatchesOneSource(d, ns, m - 1);
      CopiesOneSource(d, ns, 1);
    }
  }

  // ---------------------------------------------------------------- what they leave

  lemma {:induction false} RunAppend(env: Env, events: seq<Event>, e: Event)
    ensures Run(env, EMPTY, events + [e]) == Apply(env, Run(env, EMPTY, events), e)
  {
    assert (events + [e])[..|events|] == events;
  }

  // `t` is `s` with `n` copies pending under their ids.
  predicate Pends(env: Env, d: Bytes, ns: Bytes, s: Store, t: Store, n: nat) {
    && t.blocks == s.blocks && t.height == s.height && |t.pending| == n
    && forall i :: 0 <= i < n ==> t.pending[i].id == OwnId(env, ns, d, i, s.height + 1)
  }

  lemma OneMorePends(env: Env, d: Bytes, ns: Bytes, s: Store, t: Store, n: nat)
    requires Pends(env, d, ns, s, t, n)
    ensures Pends(env, d, ns, s, Submit(env, t, d, ns), n + 1)
  {
    assert NewBlob(env, t, d, ns).id == OwnId(env, ns, d, n, s.height + 1);
  }

  lemma {:induction false} CopiesPend(env: Env, events: seq<Event>, d: Bytes, ns: Bytes, n: nat)
    requires |Run(env, EMPTY, events).pending| == 0
    ensures Pends(env, d, ns, Run(env, EMPTY, events), Run(env, EMPTY, events + Copies(d, ns, n)), n)
    decreases n
  {
    if n == 0 {
      assert events + [] == events;
    } else {
      CopiesPend(env, events, d, ns, n - 1);
      CopiesGrow(events, d, ns, n);
      RunAppend(env, events + Copies(d, ns, n - 1), DoSubmit(d, ns));
      OneMorePends(env, d, ns, Run(env, EMPTY, events), Run(env, EMPTY, events + Copies(d, ns, n - 1)), n - 1);
    }
  }

  lemma CopiesGrow(events: seq<Event>, d: Bytes, ns: Bytes, n: nat)
    requires n > 0
    ensures events + Copies(d, ns, n) == events + Copies(d, ns, n - 1) + [DoSubmit(d, ns)]
  {
  }

  // `t` is `s` with a block of `n` copies on top.
  predicate OneOnTop(env: Env, d: Bytes, ns: Bytes, s: Store, t: Store, n: nat) {
    && |t.pending| == 0 && t.height == s.height + 1 && t.height in t.blocks
    && t.blocks == s.blocks[t.height := t.blocks[t.height]] && |t.blocks[t.height].ids| == n
    && forall i :: 0 <= i < n ==> t.blocks[t.height].ids[i] == OwnId(env, ns, d, i, t.height)
  }

  lemma SealedOnTop(env: Env, d: Bytes, ns: Bytes, s: Store, t: Store, n: nat)
    requires Pends(env, d, ns, s, t, n) && n > 0
    ensures OneOnTop(env, d, ns, s, Seal(env, t), n)
  {
    SealSeals(env, t);
    assert PendingIds(t) == NewBlock(env, t).ids;
  }

  lemma {:induction false} BatchSeals(env: Env, events: seq<Event>, d: Bytes, ns: Bytes, n: nat)
    requires |Run(env, EMPTY, events).pending| == 0 && n > 0
    ensures OneOnTop(env, d, ns, Run(env, EMPTY, events), Run(env, EMPTY, events + Batch(d, ns, n)), n)
  {
    CopiesPend(env, events, d, ns, n);
    assert events + Batch(d, ns, n) == events + Copies(d, ns, n) + [DoSeal];
    RunAppend(env, events + Copies(d, ns, n), DoSeal);
    SealedOnTop(env, d, ns, Run(env, EMPTY, events), Run(env, EMPTY, events + Copies(d, ns, n)), n);
  }

  // Block 1 holds twelve copies, and `m` blocks have followed.
  predicate Stacked(env: Env, d: Bytes, ns: Bytes, s: Store, m: nat) {
    && |s.pending| == 0 && s.height == m + 1 && 1 in s.blocks && |s.blocks[1].ids| == 12
    && s.blocks[1].ids[11] == OwnId(env, ns, d, 11, 1)
  }

  lemma StackGrows(env: Env, d: Bytes, ns: Bytes, s: Store, t: Store, m: nat)
    requires Stacked(env, d, ns, s, m) && OneOnTop(env, d, ns, s, t, 1)
    ensures Stacked(env, d, ns, t, m + 1)
  {
  }

  lemma {:induction false} BatchesSeal(env: Env, d: Bytes, ns: Bytes, m: nat)
    ensures Stacked(env, d, ns, Run(env, EMPTY, Batches(d, ns, m)), m)
    decreases m
  {
    if m == 0 {
      FirstBatch(env, d, ns);
    } else {
      BatchesSeal(env, d, ns, m - 1);
      BatchSeals(env, Batches(d, ns, m - 1), d, ns, 1);
      StackGrows(env, d, ns, Run(env, EMPTY, Batches(d, ns, m - 1)), Run(env, EMPTY, Batches(d, ns, m)), m - 1);
    }
  }

  lemma {:induction false} FirstBatch(env: Env, d: Bytes, ns: Bytes)
    ensures Stacked(env, d, ns, Run(env, EMPTY, Batches(d, ns, 0)), 0)
  {
    assert [] + Batch(d, ns, 12) == Batch(d, ns, 12);
    BatchSeals(env, [], d, ns, 12);
  }

  // ---------------------------------------------------------------- the clash

  lemma PlaceIsTaken(env: Env, d: Bytes, ns: Bytes)
    ensures OwnId(env, ns, d, 1, 11) == OwnId(env, ns, d, 11, 1)
  {
    IdInputsRunTogether(ns, ToHex(env.sha(d)));
  }

  // Whatever the hash function: after this run a block holds a blob whose id the next copy
  // of it takes, and then the blob does not verify.
  lemma {:induction false} ClashIsReachable(env: Env, d: Bytes, ns: Bytes)
    ensures var s := Run(env, EMPTY, BeforeClash(d, ns));
            && 1 in s.blocks && |s.blocks[1].ids| == 12
            && NewBlob(env, s, d, ns).id == s.blocks[1].ids[11] == OwnId(env, ns, d, 11, 1)
            && VerifyBlob(env, Submit(env, s, d, ns), s.blocks[1].ids[11], ToHex(env.sha(d))) == Some(false)
  {
    BatchesSeal(env, d, ns, 9);
    RunAppend(env, Batches(d, ns, 9), DoSubmit(d, ns));
    PlaceIsTaken(env, d, ns);
    StandingIsHome(env, BeforeClash(d, ns), "");
    NotWhilePending(env, Run(env, EMPTY, BeforeClash(d, ns)), d, ns);
  }

  lemma NotWhilePending(env: Env, s: Store, d: Bytes, ns: Bytes)
    requires s.height + 1 !in s.blocks
    ensures VerifyBlob(env, Submit(env, s, d, ns), NewBlob(env, s, d, ns).id, ToHex(env.sha(d))) == Some(false)
  {
  }

  lemma FirstPlacesDiffer(env: Env, d: Bytes, ns: Bytes, h: nat)
    requires CollisionFree(env, ns, {d}, 40) && h <= 40
    ensures OwnId(env, ns, d, 0, h) != OwnId(env, ns, d, 11, 1)
  {
    SameIdExactlyWhen(env, ns, {d}, 40, d, 0, h, d, 11, 1);
    assert Decimal(11) == "1" + "1" && PlaceText(11, 1)[0] == '1';
    assert PlaceText(0, h)[0] == '0';
  }

  lemma {:induction false} FirstBatchStands(env: Env, d: Bytes, ns: Bytes)
    ensures Standing(env, Batch(d, ns, 12), OwnId(env, ns, d, 11, 1))
  {
    var copies := Copies(d, ns, 12);
    var t := Run(env, EMPTY, copies);
    CopiesPend(env, [], d, ns, 12);
    assert [] + copies == copies;
    assert (copies + [DoSeal])[..|copies|] == copies;
    assert PendingIds(t)[11] == OwnId(env, ns, d, 11, 1);
  }

  lemma {:induction false} StandsAfter(env: Env, d: Bytes, ns: Bytes, m: nat)
    requires CollisionFree(env, ns, {d}, 40) && m <= 9
    ensures Standing(env, Batches(d, ns, m), OwnId(env, ns, d, 11, 1))
    decreases m
  {
    if m == 0 {
      FirstBatchStands(env, d, ns);
    } else {
      StandsAfter(env, d, ns, m - 1);
      StandsNext(env, d, ns, m - 1, Batches(d, ns, m - 1));
    }
  }

  lemma {:induction false} StandsNext(env: Env, d: Bytes, ns: Bytes, m: nat, events: seq<Event>)
    requires CollisionFree(env, ns, {d}, 40) && m < 9 && events == Batches(d, ns, m)
    requires Standing(env, events, OwnId(env, ns, d, 11, 1))
    ensures Standing(env, events + Batch(d, ns, 1), OwnId(env, ns, d, 11, 1))
  {
    BatchesSeal(env, d, ns, m);
    StandsThroughBatch(env, events, d, ns, OwnId(env, ns, d, 11, 1));
  }

  lemma {:induction false} StandsThroughBatch(env: Env, events: seq<Event>, d: Bytes, ns: Bytes, id: string)
    requires CollisionFree(env, ns, {d}, 40) && id == OwnId(env, ns, d, 11, 1) && Standing(env, events, id)
    requires |Run(env, EMPTY, events).pending| == 0 && Run(env, EMPTY, events).height < 40
    ensures Standing(env, events + Batch(d, ns, 1), id)
  {
    FirstPlacesDiffer(env, d, ns, Run(env, EMPTY, events).height + 1);
    BatchOfOne(events, d, ns);
  }

  lemma BatchOfOne(events: seq<Event>, d: Bytes, ns: Bytes)
    ensures var one := events + [DoSubmit(d, ns)];
            && events + Batch(d, ns, 1) == one + [DoSeal]
            && one[..|events|] == events && (one + [DoSeal])[..|one|] == one
  {
    assert Copies(d, ns, 1) == Copies(d, ns, 0) + [DoSubmit(d, ns)] == [DoSubmit(d, ns)];
  }

  // What the store is after the run, and after the events that may follow it.
  ghost predicate BeforeTaken(env: Env, d: Bytes, ns: Bytes, s: Store, batches: map<nat, seq<Bytes>>) {
    && CollisionFree(env, ns, {d}, 40) && AllStored(env, {d}) && History(env, ns, {d}, 40, s, batches)
    && |s.pending| < 40 && s.height < 30 && 1 in s.blocks && |s.blocks[1].ids| == 12
    && NewBlob(env, s, d, ns).id == s.blocks[1].ids[11] == OwnId(env, ns, d, 11, 1)
    && AtHome(s, OwnId(env, ns, d, 11, 1))
  }

  lemma {:induction false} RunBeforeTaken(env: Env, d: Bytes, ns: Bytes)
    requires CollisionFree(env, ns, {d}, 40) && env.stored(d) == d
    ensures BeforeTaken(env, d, ns, Run(env, EMPTY, BeforeClash(d, ns)), BatchesOf(env, BeforeClash(d, ns)))
  {
    var before := BeforeClash(d, ns);
    ClashIsReachable(env, d, ns);
    BatchesOneSource(d, ns, 9);
    BatchesSeal(env, d, ns, 9);
    RunAppend(env, Batches(d, ns, 9), DoSubmit(d, ns));
    RunHistory(env, ns, {d}, 40, before);
    StandsBefore(env, d, ns);
    StandingIsHome(env, before, OwnId(env, ns, d, 11, 1));
  }

  // The sealed blob verifies, does not once its id is taken, does again after the seal, and
  // does not if the store is reopened before it.
  lemma {:induction false} ClashTakesDown(env: Env, d: Bytes, ns: Bytes)
    requires CollisionFree(env, ns, {d}, 40) && env.stored(d) == d
    ensures var s := Run(env, EMPTY, BeforeClash(d, ns));
            var t, id, hash := Submit(env, s, d, ns), OwnId(env, ns, d, 11, 1), ToHex(env.sha(d));
            && VerifyBlob(env, s, id, hash) == Some(true)
            && VerifyBlob(env, t, id, hash) == Some(false)
            && VerifyBlob(env, Seal(env, t), id, hash) == Some(true)
            && VerifyBlob(env, Reopen(t.files, t.chain), id, hash) == Some(false)
  {
    var s, batches := Run(env, EMPTY, BeforeClash(d, ns)), BatchesOf(env, BeforeClash(d, ns));
    RunBeforeTaken(env, d, ns);
    TakenFirst(env, d, ns, s, batches);
    TakenSealed(env, d, ns, s, batches);
    TakenReopened(env, d, ns, s, batches);
  }

  lemma TakenFirst(env: Env, d: Bytes, ns: Bytes, s: Store, batches: map<nat, seq<Bytes>>)
    requires BeforeTaken(env, d, ns, s, batches)
    ensures VerifyBlob(env, s, OwnId(env, ns, d, 11, 1), ToHex(env.sha(d))) == Some(true)
  {
    BlockOneHolds(env, d, ns, s, batches);
    VerifiesAtHome(env, ns, {d}, 40, s, batches, 1, 11);
  }

  lemma TakenFile(env: Env, d: Bytes, ns: Bytes, s: Store, batches: map<nat, seq<Bytes>>)
    requires BeforeTaken(env, d, ns, s, batches)
    ensures var t, id := Submit(env, s, d, ns), OwnId(env, ns, d, 11, 1);
            id in t.files && t.files[id].height == s.height + 1 && t.blocks == s.blocks && s.height + 1 !in s.blocks
  {
  }

  lemma TakenReopened(env: Env, d: Bytes, ns: Bytes, s: Store, batches: map<nat, seq<Bytes>>)
    requires BeforeTaken(env, d, ns, s, batches)
    ensures var t, id, hash := Submit(env, s, d, ns), OwnId(env, ns, d, 11, 1), ToHex(env.sha(d));
            && VerifyBlob(env, t, id, hash) == Some(false)
            && VerifyBlob(env, Reopen(t.files, t.chain), id, hash) == Some(false)
  {
    TakenFile(env, d, ns, s, batches);
  }

  lemma TakenPends(env: Env, d: Bytes, ns: Bytes, s: Store, batches: map<nat, seq<Bytes>>)
    requires BeforeTaken(env, d, ns, s, batches)
    ensures OwnId(env, ns, d, 11, 1) in PendingIds(Submit(env, s, d, ns))
  {
    assert PendingIds(Submit(env, s, d, ns))[|s.pending|] == OwnId(env, ns, d, 11, 1);
  }

  lemma TakenSealed(env: Env, d: Bytes, ns: Bytes, s: Store, batches: map<nat, seq<Bytes>>)
    requires BeforeTaken(env, d, ns, s, batches)
    ensures VerifyBlob(env, Seal(env, Submit(env, s, d, ns)), OwnId(env, ns, d, 11, 1), ToHex(env.sha(d))) == Some(true)
  {
    var t := Submit(env, s, d, ns);
    SubmitHistory(env, ns, {d}, 40, s, batches, d);
    TakenPends(env, d, ns, s, batches);
    SealHistory(env, ns, {d}, 40, t, batches);
    SealMoves(env, t, OwnId(env, ns, d, 11, 1));
    SealKeepsFirst(env, t);
    SealedVerifies(env, d, ns, Seal(env, t), batches[t.height + 1 := PendingData(t)]);
  }

  lemma SealedVerifies(env: Env, d: Bytes, ns: Bytes, u: Store, batches: map<nat, seq<Bytes>>)
    requires CollisionFree(env, ns, {d}, 40) && History(env, ns, {d}, 40, u, batches)
    requires 1 in u.blocks && |u.blocks[1].ids| == 12 && u.blocks[1].ids[11] == OwnId(env, ns, d, 11, 1)
    requires AtHome(u, OwnId(env, ns, d, 11, 1))
    ensures VerifyBlob(env, u, OwnId(env, ns, d, 11, 1), ToHex(env.sha(d))) == Some(true)
  {
    BlockOneHolds(env, d, ns, u, batches);
    VerifiesAtHome(env, ns, {d}, 40, u, batches, 1, 11);
  }

  lemma BlockOneHolds(env: Env, d: Bytes, ns: Bytes, s: Store, batches: map<nat, seq<Bytes>>)
    requires History(env, ns, {d}, 40, s, batches) && 1 in s.blocks && |s.blocks[1].ids| == 12
    ensures 1 in batches && |batches[1]| == 12 && batches[1][11] == d
  {
    assert BlockHolds(env, ns, {d}, 40, s.files.Keys, s.blocks[1], batches[1], 1);
  }

  lemma {:induction false} StandsBefore(env: Env, d: Bytes, ns: Bytes)
    requires CollisionFree(env, ns, {d}, 40)
    ensures Standing(env, BeforeClash(d, ns), OwnId(env, ns, d, 11, 1))
  {
    StandsAfter(env, d, ns, 9);
    BatchesSeal(env, d, ns, 9);
    FirstPlacesDiffer(env, d, ns, 11);
    var sealed := Batches(d, ns, 9);
    assert BeforeClash(d, ns)[..|sealed|] == sealed;
  }

  lemma SealKeepsFirst(env: Env, t: Store)
    requires 1 in t.blocks && t.height + 1 !in t.blocks
    ensures 1 in Seal(env, t).blocks && Seal(env, t).blocks[1] == t.blocks[1]
  {
  }
}
