// Which sealed blobs verify after a run in which ids may clash: edgegrid/da.py,
// `submit_blob`, `seal_block`, `_load`, `verify_blob`.

module BlobFate {
  import opened BlobHistory
  import opened BlobStore
  import opened ByteStrings
  import opened MerkleProof
  import opened MerkleTree

  // ---------------------------------------------------------------- one event

  // A submission takes a blob from its place exactly when it takes its id.
  lemma SubmitMoves(env: Env, s: Store, data: Bytes, ns: Bytes, id: string)
    requires s.height + 1 !in s.blocks
    ensures AtHome(Submit(env, s, data, ns), id) <==> NewBlob(env, s, data, ns).id != id && AtHome(s, id)
  {
  }

  // A seal puts every pending blob in its place, and moves no other.
  lemma SealMoves(env: Env, s: Store, id: string)
    requires s.height + 1 !in s.blocks && forall i :: 0 <= i < |s.pending| ==> s.pending[i].id in s.files
    ensures AtHome(Seal(env, s), id) <==> AtHome(s, id) || (|s.pending| > 0 && id in PendingIds(s))
  {
    if |s.pending| > 0 {
      PlacedKeys(s.files, PendingIds(s), s.height + 1);
      SealSeals(env, s);
      if id in s.files {
        var i := PlacedAt(s.files, PendingIds(s), s.height + 1, id);
        SealedPlace(s, Seal(env, s), NewBlock(env, s), id, i);
      }
    }
  }

  lemma SealedPlace(s: Store, t: Store, block: Block, id: string, i: nat)
    requires Seals(s, t, block) && block.ids == PendingIds(s) && s.height + 1 !in s.blocks
    requires id in s.files && id in t.files
    requires id !in PendingIds(s) ==> t.files[id] == s.files[id]
    requires id in PendingIds(s) ==> i < |PendingIds(s)| && PendingIds(s)[i] == id
                                     && t.files[id] == s.files[id].(height := s.height + 1, index := i)
    ensures AtHome(t, id) <==> AtHome(s, id) || id in PendingIds(s)
  {
  }

  lemma ReopenMoves(s: Store, id: string)
    requires s.blocks == LoadBlocks(s.chain)
    ensures AtHome(Reopen(s.files, s.chain), id) <==> AtHome(s, id)
  {
  }

  // ---------------------------------------------------------------- whole runs

  // Whether the last submission under an id has been sealed.
  predicate Standing(env: Env, events: seq<Event>, id: string) {
    |events| > 0 &&
    var before := events[..|events| - 1];
    var s := Run(env, EMPTY, before);
    match events[|events| - 1]
    case DoSubmit(data, ns) => NewBlob(env, s, data, ns).id != id && Standing(env, before, id)
    case DoSeal => Standing(env, before, id) || (|s.pending| > 0 && id in PendingIds(s))
    case DoReopen => Standing(env, before, id)
  }

  ghost predicate Regular(s: Store) {
    && Logged(s) && forall i :: 0 <= i < |s.pending| ==> s.pending[i].id in s.files
  }

  lemma StepIsRegular(env: Env, s: Store, e: Event)
    requires Regular(s)
    ensures Regular(Apply(env, s, e))
  {
    if e.DoSeal? {
      SealLogged(env, s);
    }
  }

  // In any run at all, a blob is at its place exactly when its id stands.
  lemma {:induction false} StandingIsHome(env: Env, events: seq<Event>, id: string)
    ensures Regular(Run(env, EMPTY, events))
    ensures Standing(env, events, id) <==> AtHome(Run(env, EMPTY, events), id)
    decreases |events|
  {
    if |events| > 0 {
      var before, last := events[..|events| - 1], events[|events| - 1];
      var s := Run(env, EMPTY, before);
      StandingIsHome(env, before, id);
      StepIsRegular(env, s, last);
      match last {
        case DoSubmit(data, ns) => SubmitMoves(env, s, data, ns, id);
        case DoSeal => SealMoves(env, s, id);
        case DoReopen => ReopenMoves(s, id);
      }
    }
  }

  // After every run, and so at every prefix of one, whatever clashes in it: a sealed blob
  // verifies against its own hash exactly when the last submission under its id has been
  // sealed, up to a collision of two strings that are climbed from.
  lemma {:induction false} VerifiesExactlyWhen(env: Env, ns: Bytes, used: set<Bytes>, limit: nat, events: seq<Event>,
                                               h: nat, k: nat)
    requires CollisionFree(env, ns, used, limit) && AllStored(env, used) && OneSource(events, ns, used)
    requires |events| < limit
    requires var s := Run(env, EMPTY, events); h in s.blocks && k < |s.blocks[h].ids|
    ensures var s, batches := Run(env, EMPTY, events), BatchesOf(env, events);
            && h in batches && k < |batches[h]|
            && var id := s.blocks[h].ids[k];
               var ok := VerifyBlob(env, s, id, ToHex(env.sha(batches[h][k]))) == Some(true);
               && id in s.files
               && (Standing(env, events, id) ==> ok)
               && (ok ==> Standing(env, events, id) || Misleads(env, s, batches, id))
  {
    var s, batches := Run(env, EMPTY, events), BatchesOf(env, events);
    RunHistory(env, ns, used, limit, events);
    VerifiesAtHome(env, ns, used, limit, s, batches, h, k);
    StandingIsHome(env, events, s.blocks[h].ids[k]);
  }

  // The proof at the place of a file is accepted for other data than those of the leaf.
  ghost predicate Misleads(env: Env, s: Store, batches: map<nat, seq<Bytes>>, id: string) {
    && id in s.files && s.files[id].height in batches && s.files[id].index < |batches[s.files[id].height]|
    && ClimbCollision(env, batches[s.files[id].height], s.files[id].index, s.files[id].data)
  }

  lemma VerifiesAtHome(env: Env, ns: Bytes, used: set<Bytes>, limit: nat, s: Store, batches: map<nat, seq<Bytes>>,
                       h: nat, k: nat)
    requires CollisionFree(env, ns, used, limit) && History(env, ns, used, limit, s, batches)
    requires h in s.blocks && k < |s.blocks[h].ids|
    ensures h in batches && k < |batches[h]|
    ensures var id := s.blocks[h].ids[k];
            var ok := VerifyBlob(env, s, id, ToHex(env.sha(batches[h][k]))) == Some(true);
            && id in s.files && s.files[id].data == batches[h][k]
            && (AtHome(s, id) ==> ok) && (ok ==> AtHome(s, id) || Misleads(env, s, batches, id))
  {
    var id := s.blocks[h].ids[k];
    assert BlockHolds(env, ns, used, limit, s.files.Keys, s.blocks[h], batches[h], h);
    SameIdSameData(env, ns, used, limit, id, s.files[id], batches[h][k], k, h);
    AnswersByPlace(env, ns, used, limit, s, batches, id);
  }

  // One step: after a submission a blob that stood verifies exactly when the new id is not
  // its own; and where the new id is that of some blob of a block, the data are the same.
  lemma SubmitVerifiesExactlyWhen(env: Env, ns: Bytes, used: set<Bytes>, limit: nat, s: Store,
                                  batches: map<nat, seq<Bytes>>, data: Bytes, h: nat, k: nat)
    requires CollisionFree(env, ns, used, limit) && AllStored(env, used) && History(env, ns, used, limit, s, batches)
    requires data in used && |s.pending| < limit && h in s.blocks && k < |s.blocks[h].ids|
    requires AtHome(s, s.blocks[h].ids[k])
    ensures h in batches && k < |batches[h]|
    ensures var t, id := Submit(env, s, data, ns), s.blocks[h].ids[k];
            && (VerifyBlob(env, t, id, ToHex(env.sha(batches[h][k]))) == Some(true)
                <==> NewBlob(env, s, data, ns).id != id)
            && (NewBlob(env, s, data, ns).id == id <==>
                data == batches[h][k] && PlaceText(|s.pending|, s.height + 1) == PlaceText(k, h))
  {
    var t, id := Submit(env, s, data, ns), s.blocks[h].ids[k];
    SubmitHistory(env, ns, used, limit, s, batches, data);
    SubmitMoves(env, s, data, ns, id);
    VerifiesAtHome(env, ns, used, limit, t, batches, h, k);
    TakesIdExactlyWhen(env, ns, used, limit, s, batches, data, h, k);
    if NewBlob(env, s, data, ns).id == id {
      AnswersByPlace(env, ns, used, limit, t, batches, id);
      assert t.files[id].height == s.height + 1;
    }
  }

  lemma TakesIdExactlyWhen(env: Env, ns: Bytes, used: set<Bytes>, limit: nat, s: Store,
                           batches: map<nat, seq<Bytes>>, data: Bytes, h: nat, k: nat)
    requires CollisionFree(env, ns, used, limit) && History(env, ns, used, limit, s, batches)
    requires data in used && |s.pending| <= limit && h in s.blocks && k < |s.blocks[h].ids|
    ensures k < |batches[h]|
    ensures NewBlob(env, s, data, ns).id == s.blocks[h].ids[k] <==>
            data == batches[h][k] && PlaceText(|s.pending|, s.height + 1) == PlaceText(k, h)
  {
    BlockNames(env, ns, used, limit, s, batches, h, k);
    TakesNamed(env, ns, used, limit, s, data, batches[h][k], k, h, s.blocks[h].ids[k]);
  }

  lemma TakesNamed(env: Env, ns: Bytes, used: set<Bytes>, limit: nat, s: Store, data: Bytes,
                   d: Bytes, k: nat, h: nat, id: string)
    requires CollisionFree(env, ns, used, limit) && data in used && d in used
    requires |s.pending| <= limit && s.height < limit && k <= limit && h <= limit && id == OwnId(env, ns, d, k, h)
    ensures NewBlob(env, s, data, ns).id == id <==>
            data == d && PlaceText(|s.pending|, s.height + 1) == PlaceText(k, h)
  {
    NewBlobsId(env, s, data, ns);
    SameIdExactlyWhen(env, ns, used, limit, data, |s.pending|, s.height + 1, d, k, h);
  }

  lemma NewBlobsId(env: Env, s: Store, data: Bytes, ns: Bytes)
    ensures NewBlob(env, s, data, ns).id == OwnId(env, ns, data, |s.pending|, s.height + 1)
  {
  }

  lemma BlockNames(env: Env, ns: Bytes, used: set<Bytes>, limit: nat, s: Store, batches: map<nat, seq<Bytes>>,
                   h: nat, k: nat)
    requires History(env, ns, used, limit, s, batches) && h in s.blocks && k < |s.blocks[h].ids|
    ensures h in batches && k < |batches[h]| && k <= limit && h <= limit && s.height < limit
    ensures batches[h][k] in used && s.blocks[h].ids[k] == OwnId(env, ns, batches[h][k], k, h)
  {
    assert BlockHolds(env, ns, used, limit, s.files.Keys, s.blocks[h], batches[h], h);
  }

  // ---------------------------------------------------------------- what is never lost, and what is

  predicate Takes(env: Env, events: seq<Event>, e: Event, id: string) {
    e.DoSubmit? && NewBlob(env, Run(env, EMPTY, events), e.data, e.namespace).id == id
  }

  // Some submission of `rest`, which follows `events`, takes the id.
  predicate TakenIn(env: Env, events: seq<Event>, rest: seq<Event>, id: string) {
    |rest| > 0 &&
    var front := rest[..|rest| - 1];
    TakenIn(env, events, front, id) || Takes(env, events + front, rest[|rest| - 1], id)
  }

  predicate StandsThroughout(env: Env, events: seq<Event>, rest: seq<Event>, id: string) {
    && Standing(env, events + rest, id)
    && (|rest| > 0 ==> StandsThroughout(env, events, rest[..|rest| - 1], id))
  }

  lemma OneMoreEvent(events: seq<Event>, rest: seq<Event>)
    requires |rest| > 0
    ensures var all := events + rest;
            |all| > 0 && all[..|all| - 1] == events + rest[..|rest| - 1] && all[|all| - 1] == rest[|rest| - 1]
  {
  }

  // What the last event does to an id that does not wait to be sealed.
  lemma {:induction false} StandingNext(env: Env, all: seq<Event>, id: string)
    requires |all| > 0
    ensures var before, last := all[..|all| - 1], all[|all| - 1];
            && (Takes(env, before, last, id) ==> !Standing(env, all, id))
            && (!Takes(env, before, last, id) && Standing(env, before, id) ==> Standing(env, all, id))
            && (!Standing(env, before, id) && id !in PendingIds(Run(env, EMPTY, before)) ==> !Standing(env, all, id))
  {
  }

  // A blob that stands does so at every later prefix exactly when its id is never taken.
  lemma {:induction false} StandsThroughoutExactlyWhen(env: Env, events: seq<Event>, rest: seq<Event>, id: string)
    requires Standing(env, events, id)
    ensures StandsThroughout(env, events, rest, id) <==> !TakenIn(env, events, rest, id)
    decreases |rest|
  {
    if |rest| == 0 {
      assert events + rest == events;
    } else {
      StandsThroughoutExactlyWhen(env, events, rest[..|rest| - 1], id);
      OneMoreEvent(events, rest);
      StandingNext(env, events + rest, id);
    }
  }

  // A taken blob comes back with the next seal, unless the store is reopened first: then it
  // is lost until its bytes are submitted again at a place of its id.
  lemma {:induction false} TakenComesBack(env: Env, events: seq<Event>, data: Bytes, ns: Bytes)
    ensures var id := NewBlob(env, Run(env, EMPTY, events), data, ns).id;
            var taken := events + [DoSubmit(data, ns)];
            && !Standing(env, taken, id)
            && Standing(env, taken + [DoSeal], id)
            && !Standing(env, taken + [DoReopen], id)
  {
    var taken := events + [DoSubmit(data, ns)];
    assert taken[..|events|] == events;
    assert (taken + [DoSeal])[..|taken|] == taken && (taken + [DoReopen])[..|taken|] == taken;
    var s, t := Run(env, EMPTY, events), Run(env, EMPTY, taken);
    assert PendingIds(t)[|s.pending|] == NewBlob(env, s, data, ns).id;
  }

  lemma {:induction false} LostStaysLost(env: Env, events: seq<Event>, rest: seq<Event>, id: string)
    requires !Standing(env, events, id) && id !in PendingIds(Run(env, EMPTY, events))
    requires !TakenIn(env, events, rest, id)
    ensures !Standing(env, events + rest, id) && id !in PendingIds(Run(env, EMPTY, events + rest))
    decreases |rest|
  {
    if |rest| == 0 {
      assert events + rest == events;
    } else {
      LostStaysLost(env, events, rest[..|rest| - 1], id);
      OneMoreEvent(events, rest);
      LostNext(env, events + rest, id);
    }
  }

  lemma {:induction false} LostNext(env: Env, all: seq<Event>, id: string)
    requires |all| > 0
    requires var before := all[..|all| - 1];
             && !Standing(env, before, id) && id !in PendingIds(Run(env, EMPTY, before))
             && !Takes(env, before, all[|all| - 1], id)
    ensures !Standing(env, all, id) && id !in PendingIds(Run(env, EMPTY, all))
  {
    StandingNext(env, all, id);
    PendingNext(env, all[..|all| - 1], all[|all| - 1], id);
    LastStep(env, all);
  }

  lemma {:induction false} PendingNext(env: Env, events: seq<Event>, e: Event, id: string)
    requires id !in PendingIds(Run(env, EMPTY, events))
    requires !Takes(env, events, e, id)
    ensures id !in PendingIds(Apply(env, Run(env, EMPTY, events), e))
  {
    var s := Run(env, EMPTY, events);
    if e.DoSubmit? {
      assert PendingIds(Submit(env, s, e.data, e.namespace)) ==
             PendingIds(s) + [NewBlob(env, s, e.data, e.namespace).id];
    }
  }
}
