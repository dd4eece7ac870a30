// The cache is a recency list within a byte budget: edgegrid/weights.py, `fetch`,
// `_evict_for`, `evict`, `clear`.

module CacheRefinement {
  import opened CacheModel
  import opened Sequences

  // ---------------------------------------------------------------- listings and shelves

  lemma KeyedRemove(entries: map<Cid, Entry>, cid: Cid)
    requires Keyed(entries)
    ensures Keyed(entries - {cid})
  {
  }

  lemma {:induction false} WithoutAbsent(shelf: Shelf, cid: Cid)
    requires forall i :: 0 <= i < |shelf| ==> shelf[i].cid != cid
    ensures Without(shelf, cid) == shelf && Only(shelf, cid) == []
    decreases |shelf|
  {
    if |shelf| > 0 {
      WithoutAbsent(shelf[1..], cid);
    }
  }

  lemma {:induction false} WithoutAt(shelf: Shelf, k: nat)
    requires k < |shelf| && forall i :: 0 <= i < |shelf| && i != k ==> shelf[i].cid != shelf[k].cid
    ensures Without(shelf, shelf[k].cid) == shelf[..k] + shelf[k + 1..]
    ensures Only(shelf, shelf[k].cid) == [shelf[k]]
    decreases |shelf|
  {
    if k == 0 {
      WithoutAbsent(shelf[1..], shelf[0].cid);
    } else {
      WithoutAt(shelf[1..], k - 1);
      assert shelf[..k] + shelf[k + 1..] == [shelf[0]] + (shelf[1..][..k - 1] + shelf[1..][k..]);
    }
  }

  lemma PositionOf(entries: map<Cid, Entry>, order: seq<Entry>, cid: Cid) returns (k: nat)
    requires Keyed(entries) && Listing(entries, order) && cid in entries
    ensures k < |order| && order[k] == entries[cid] && order[k].cid == cid
    ensures forall i :: 0 <= i < |order| && i != k ==> order[i].cid != cid
  {
    assert entries[cid] in order;
    k :| 0 <= k < |order| && order[k] == entries[cid];
    forall i | 0 <= i < |order| && i != k ensures order[i].cid != cid {
      assert order[i] in order && order[i].lastUsed != order[k].lastUsed;
    }
  }

  lemma AbsentFrom(entries: map<Cid, Entry>, order: seq<Entry>, cid: Cid)
    requires Listing(entries, order) && cid !in entries
    ensures forall i :: 0 <= i < |order| ==> order[i].cid != cid
  {
    forall i | 0 <= i < |order| ensures order[i].cid != cid {
      assert order[i] in order;
    }
  }

  lemma SkipItems(order: seq<Entry>, k: nat)
    requires k < |order| && forall i :: 0 <= i < |order| && i != k ==> order[i].cid != order[k].cid
    ensures Items(Skip(order, k)) == Without(Items(order), order[k].cid)
    ensures Only(Items(order), order[k].cid) == [Item(order[k].cid, order[k].bytes)]
  {
    WithoutAt(Items(order), k);
    assert Items(Skip(order, k)) == Items(order)[..k] + Items(order)[k + 1..];
  }

  // Removing a row from the map removes its item from the shelf, and nothing else.
  lemma {:induction false} RemoveRefines(entries: map<Cid, Entry>, cid: Cid)
    requires Keyed(entries)
    ensures Items(ByUse(entries - {cid})) == Without(Items(ByUse(entries)), cid)
    ensures Only(Items(ByUse(entries)), cid) == if cid in entries then [Item(cid, entries[cid].bytes)] else []
  {
    var order := ByUse(entries);
    ByUseLists(entries);
    if cid in entries {
      var k := PositionOf(entries, order, cid);
      ListingRemove(entries, order, k);
      KeyedRemove(entries, cid);
      ListingIsByUse(entries - {cid}, Skip(order, k));
      SkipItems(order, k);
    } else {
      assert entries - {cid} == entries;
      AbsentFrom(entries, order, cid);
      WithoutAbsent(Items(order), cid);
    }
  }

  lemma KeyedWrite(entries: map<Cid, Entry>, e: Entry)
    requires Keyed(entries) && forall c :: c in entries ==> entries[c].lastUsed < e.lastUsed
    ensures Keyed(entries[e.cid := e])
  {
  }

  lemma AppendIsByUse(others: map<Cid, Entry>, e: Entry)
    requires Keyed(others) && e.cid !in others && Keyed(others[e.cid := e])
    requires forall c :: c in others ==> others[c].lastUsed < e.lastUsed
    ensures ByUse(others[e.cid := e]) == ByUse(others) + [e]
  {
    ByUseLists(others);
    ListingAppend(others, ByUse(others), e);
    ListingIsByUse(others[e.cid := e], ByUse(others) + [e]);
  }

  lemma WriteIsAppend(entries: map<Cid, Entry>, e: Entry)
    requires Keyed(entries)
    requires forall c :: c in entries ==> entries[c].lastUsed < e.lastUsed
    ensures ByUse(entries[e.cid := e]) == ByUse(entries - {e.cid}) + [e]
  {
    var others := entries - {e.cid};
    KeyedRemove(entries, e.cid);
    KeyedWrite(entries, e);
    assert others[e.cid := e] == entries[e.cid := e];
    AppendIsByUse(others, e);
  }

  lemma ItemsAppend(order: seq<Entry>, e: Entry)
    ensures Items(order + [e]) == Items(order) + [Item(e.cid, e.bytes)]
  {
  }

  // Writing a row with a later stamp than all others puts its item at the recent end.
  lemma WriteRefines(entries: map<Cid, Entry>, e: Entry)
    requires Keyed(entries)
    requires forall c :: c in entries ==> entries[c].lastUsed < e.lastUsed
    ensures Keyed(entries[e.cid := e])
    ensures Items(ByUse(entries[e.cid := e])) == Without(Items(ByUse(entries)), e.cid) + [Item(e.cid, e.bytes)]
  {
    WriteIsAppend(entries, e);
    RemoveRefines(entries, e.cid);
    ItemsAppend(ByUse(entries - {e.cid}), e);
    KeyedWrite(entries, e);
  }

  // ---------------------------------------------------------------- eviction

  lemma {:induction false} ItemBytes(order: seq<Entry>)
    ensures ShelfBytes(Items(order)) == BytesOf(order)
    decreases |order|
  {
    if |order| > 0 {
      ItemBytes(order[1..]);
      assert Items(order)[1..] == Items(order[1..]);
    }
  }

  // What is left after the loop: the order without its first `n` rows.
  ghost predicate Evicted(dir: Dir, keep: Cid, order: seq<Entry>, room: Dir, n: nat) {
    && n <= |order|
    && Listing(room.entries - {keep}, order[n..]) && Keyed(room.entries)
    && room.entries.Keys <= dir.entries.Keys
    && (forall c :: c in room.entries ==> room.entries[c] == dir.entries[c])
    && (keep in dir.entries ==> keep in room.entries)
    && (forall c :: c in room.entries && c in dir.blobs ==> c in room.blobs)
    && room.life == dir.life.(evictions := room.life.evictions, bytesEvicted := room.life.bytesEvicted)
    && room.life.evictions == dir.life.evictions + n
    && room.life.bytesEvicted + BytesOf(order[n..]) == dir.life.bytesEvicted + BytesOf(order)
  }

  lemma FirstIsListed(entries: map<Cid, Entry>, order: seq<Entry>)
    requires Listing(entries, order) && |order| > 0
    ensures order[0].cid in entries
  {
    assert order[0] in order;
  }

  lemma RemoveBoth(entries: map<Cid, Entry>, c: Cid, d: Cid)
    ensures entries - {c} - {d} == entries - {d} - {c}
  {
  }

  lemma DropFirst(entries: map<Cid, Entry>, keep: Cid, order: seq<Entry>)
    requires Keyed(entries) && Listing(entries - {keep}, order) && |order| > 0
    ensures order[0].cid in entries && order[0].cid != keep
    ensures Listing(entries - {order[0].cid} - {keep}, order[1..])
  {
    FirstIsListed(entries - {keep}, order);
    KeyedRemove(entries, keep);
    ListingRemove(entries - {keep}, order, 0);
    assert Skip(order, 0) == order[1..];
    RemoveBoth(entries, keep, order[0].cid);
  }

  lemma DropEvicts(dir: Dir, keep: Cid, order: seq<Entry>)
    requires Keyed(dir.entries) && Listing(dir.entries - {keep}, order) && |order| > 0
    ensures var next := DropRow(dir, order[0].cid, order[0].bytes);
            && Keyed(next.entries) && Listing(next.entries - {keep}, order[1..])
            && order[0].cid in dir.entries && order[0].cid != keep
  {
    DropFirst(dir.entries, keep, order);
    KeyedRemove(dir.entries, order[0].cid);
  }

  lemma {:induction false} CutStep(order: seq<Entry>, incoming: nat, budget: nat)
    ensures Cut(Items(order), budget - incoming) ==
            if |order| == 0 || BytesOf(order) + incoming <= budget then 0
            else 1 + Cut(Items(order[1..]), budget - incoming)
  {
    ItemBytes(order);
    if |order| > 0 {
      assert Items(order)[1..] == Items(order[1..]);
    }
  }

  // The rows that the loop evicts are the first `n` of the order, for the `n` that the
  // shelf's cut names; the other rows stay, and so do their blobs.
  lemma {:induction false} EvictionIsCut(dir: Dir, keep: Cid, order: seq<Entry>, incoming: nat, budget: nat)
    requires Keyed(dir.entries) && Listing(dir.entries - {keep}, order)
    ensures var (room, n, used) := EvictLoop(dir, order, BytesOf(order), incoming, budget);
            && n == Cut(Items(order), budget - incoming) && Evicted(dir, keep, order, room, n)
            && used == BytesOf(order[n..])
    decreases |order|
  {
    LoopUnfolds(dir, order, incoming, budget);
    if |order| == 0 || BytesOf(order) + incoming <= budget {
      CutStep(order, incoming, budget);
      assert order[0..] == order;
    } else {
      var next := DropRow(dir, order[0].cid, order[0].bytes);
      DropEvicts(dir, keep, order);
      EvictionIsCut(next, keep, order[1..], incoming, budget);
      var (room, n, used) := EvictLoop(next, order[1..], BytesOf(order[1..]), incoming, budget);
      OneMore(dir, keep, order, incoming, budget, room, n);
    }
  }

  lemma {:induction false} LoopUnfolds(dir: Dir, order: seq<Entry>, incoming: nat, budget: nat)
    ensures EvictLoop(dir, order, BytesOf(order), incoming, budget) ==
            if |order| == 0 || BytesOf(order) + incoming <= budget then (dir, 0, BytesOf(order))
            else
              var next := EvictLoop(DropRow(dir, order[0].cid, order[0].bytes), order[1..], BytesOf(order[1..]),
                                    incoming, budget);
              (next.0, next.1 + 1, next.2)
  {
  }

  lemma {:induction false} OneMore(dir: Dir, keep: Cid, order: seq<Entry>, incoming: nat, budget: nat, room: Dir,
                                   n: nat)
    requires |order| > 0 && order[0].cid != keep && BytesOf(order) + incoming > budget
    requires Evicted(DropRow(dir, order[0].cid, order[0].bytes), keep, order[1..], room, n)
    requires n == Cut(Items(order[1..]), budget - incoming)
    ensures Evicted(dir, keep, order, room, n + 1) && order[1..][n..] == order[n + 1..]
    ensures n + 1 == Cut(Items(order), budget - incoming)
  {
    CutStep(order, incoming, budget);
    assert order[1..][n..] == order[n + 1..];
  }

  // ---------------------------------------------------------------- what every state keeps

  ghost predicate RowsHaveBlobs(dir: Dir) { dir.entries.Keys <= dir.blobs }

  ghost predicate StampedBefore(dir: Dir, now: int) {
    forall c :: c in dir.entries ==> dir.entries[c].lastUsed < now
  }

  // Rows sit under their own cid with distinct stamps, their bytes fit the budget, and
  // no byte is resident or evicted that was not downloaded.
  ghost predicate CacheInvariant(dir: Dir, budget: nat) {
    && Keyed(dir.entries)
    && ShelfBytes(Abstract(dir)) <= budget
    && ShelfBytes(Abstract(dir)) + dir.life.bytesEvicted <= dir.life.bytesDownloaded
  }

  // ---------------------------------------------------------------- shelves shrink

  lemma {:induction false} ShelfBytesAppend(a: Shelf, b: Shelf)
    ensures ShelfBytes(a + b) == ShelfBytes(a) + ShelfBytes(b)
    decreases |a|
  {
    if |a| == 0 {
      assert a + b == b;
    } else {
      ShelfBytesAppend(a[1..], b);
      assert (a + b)[1..] == a[1..] + b;
    }
  }

  lemma {:induction false} ShelfBytesSplit(shelf: Shelf, cid: Cid)
    ensures ShelfBytes(Without(shelf, cid)) + ShelfBytes(Only(shelf, cid)) == ShelfBytes(shelf)
    decreases |shelf|
  {
    if |shelf| > 0 {
      ShelfBytesSplit(shelf[1..], cid);
    }
  }

  lemma {:induction false} TouchKeepsBytes(shelf: Shelf, cid: Cid)
    ensures ShelfBytes(Touch(shelf, cid)) == ShelfBytes(shelf)
  {
    ShelfBytesAppend(Without(shelf, cid), Only(shelf, cid));
    ShelfBytesSplit(shelf, cid);
  }

  lemma PutFits(shelf: Shelf, budget: nat, cid: Cid, bytes: nat)
    requires bytes <= budget
    ensures ShelfBytes(Put(shelf, budget, cid, bytes)) <= budget
  {
    var others := Without(shelf, cid);
    CutFits(others, budget, bytes);
    ShelfBytesAppend(others[Cut(others, budget - bytes)..], [Item(cid, bytes)]);
    OneItemBytes(cid, bytes);
  }

  // ---------------------------------------------------------------- refinement

  // A hit moves the item to the recent end; a miss changes nothing but that a row
  // whose blob is gone disappears.
  lemma {:induction false} LookupRefines(dir: Dir, cid: Cid, modelId: string, now: int, budget: nat)
    requires CacheInvariant(dir, budget) && StampedBefore(dir, now)
    ensures var (dir', hit) := Lookup(dir, cid, modelId, now);
            && CacheInvariant(dir', budget)
            && (RowsHaveBlobs(dir) ==> RowsHaveBlobs(dir'))
            && (hit <==> cid in dir.entries && cid in dir.blobs)
            && Abstract(dir') == if hit then Touch(Abstract(dir), cid)
                                 else if cid in dir.entries then Without(Abstract(dir), cid)
                                 else Abstract(dir)
  {
    var (dir', hit) := Lookup(dir, cid, modelId, now);
    if cid in dir.entries {
      RemoveRefines(dir.entries, cid);
      ShelfBytesSplit(Abstract(dir), cid);
      KeyedRemove(dir.entries, cid);
      if hit {
        WriteRefines(dir.entries, dir'.entries[cid]);
        TouchKeepsBytes(Abstract(dir), cid);
      }
    }
  }

  lemma {:induction false} OthersOnShelf(dir: Dir, cid: Cid)
    requires Keyed(dir.entries)
    ensures Listing(dir.entries - {cid}, Candidates(dir, cid))
    ensures Items(Candidates(dir, cid)) == Without(Abstract(dir), cid)
    ensures BytesOf(Candidates(dir, cid)) == ShelfBytes(Without(Abstract(dir), cid))
  {
    KeyedRemove(dir.entries, cid);
    ByUseLists(dir.entries - {cid});
    RemoveRefines(dir.entries, cid);
    ItemBytes(Candidates(dir, cid));
  }

  lemma {:induction false} ListedOnShelf(dir: Dir, cid: Cid, order: seq<Entry>)
    requires Keyed(dir.entries) && Listing(dir.entries - {cid}, order)
    ensures Without(Abstract(dir), cid) == Items(order) && ShelfBytes(Items(order)) == BytesOf(order)
  {
    KeyedRemove(dir.entries, cid);
    ListingIsByUse(dir.entries - {cid}, order);
    RemoveRefines(dir.entries, cid);
    ItemBytes(order);
  }

  // What eviction leaves, on the shelf.
  lemma {:induction false} EvictionRefines(dir: Dir, budget: nat, cid: Cid, bytes: nat)
    requires Keyed(dir.entries)
    ensures var order := Candidates(dir, cid);
            var (room, n, used) := EvictLoop(dir, order, BytesOf(order), bytes, budget);
            var others := Without(Abstract(dir), cid);
            && Evicted(dir, cid, order, room, n)
            && |order| == |others| && n == Cut(others, budget - bytes)
            && Without(Abstract(room), cid) == others[n..]
            && used == BytesOf(order[n..]) == ShelfBytes(others[n..]) && BytesOf(order) == ShelfBytes(others)
  {
    var order := Candidates(dir, cid);
    OthersOnShelf(dir, cid);
    EvictionIsCut(dir, cid, order, bytes, budget);
    var (room, n, used) := EvictLoop(dir, order, BytesOf(order), bytes, budget);
    ListedOnShelf(room, cid, order[n..]);
    ItemsFrom(order, n);
  }

  lemma ItemsFrom(order: seq<Entry>, n: nat)
    requires n <= |order|
    ensures Items(order)[n..] == Items(order[n..])
  {
  }

  lemma InsertPuts(dir: Dir, budget: nat, cid: Cid, bytes: nat, isDir: bool, modelId: string, now: int)
    requires Keyed(dir.entries) && StampedBefore(dir, now)
    ensures var dir' := Insert(dir, budget, cid, bytes, isDir, modelId, now);
            Keyed(dir'.entries) && Abstract(dir') == Put(Abstract(dir), budget, cid, bytes)
  {
    var order := Candidates(dir, cid);
    EvictionRefines(dir, budget, cid, bytes);
    var (room, n, used) := EvictLoop(dir, order, BytesOf(order), bytes, budget);
    WriteRefines(room.entries, Entry(cid, bytes, isDir, now, now, 0, modelId));
  }

  lemma {:induction false} InsertLife(dir: Dir, budget: nat, cid: Cid, bytes: nat, isDir: bool, modelId: string,
                                      now: int)
    requires Keyed(dir.entries)
    ensures var life := Insert(dir, budget, cid, bytes, isDir, modelId, now).life;
            var others := Without(Abstract(dir), cid);
            && life.bytesDownloaded == dir.life.bytesDownloaded + bytes
            && life.bytesEvicted + ShelfBytes(others[Cut(others, budget - bytes)..]) ==
               dir.life.bytesEvicted + ShelfBytes(others)
  {
    EvictionRefines(dir, budget, cid, bytes);
  }

  // Bytes resident and evicted after an insert, against bytes downloaded.
  lemma InsertCounts(dir: Dir, budget: nat, cid: Cid, bytes: nat, isDir: bool, modelId: string, now: int)
    requires CacheInvariant(dir, budget)
    ensures var dir' := Insert(dir, budget, cid, bytes, isDir, modelId, now);
            ShelfBytes(Put(Abstract(dir), budget, cid, bytes)) + dir'.life.bytesEvicted <= dir'.life.bytesDownloaded
  {
    var others := Without(Abstract(dir), cid);
    InsertLife(dir, budget, cid, bytes, isDir, modelId, now);
    ShelfBytesSplit(Abstract(dir), cid);
    ShelfBytesAppend(others[Cut(others, budget - bytes)..], [Item(cid, bytes)]);
    OneItemBytes(cid, bytes);
  }

  lemma InsertRefines(dir: Dir, budget: nat, cid: Cid, bytes: nat, isDir: bool, modelId: string, now: int)
    requires CacheInvariant(dir, budget) && StampedBefore(dir, now) && bytes <= budget
    ensures var dir' := Insert(dir, budget, cid, bytes, isDir, modelId, now);
            && CacheInvariant(dir', budget)
            && (RowsHaveBlobs(dir) ==> RowsHaveBlobs(dir'))
            && cid in dir'.entries && cid in dir'.blobs
            && Abstract(dir') == Put(Abstract(dir), budget, cid, bytes)
  {
    InsertPuts(dir, budget, cid, bytes, isDir, modelId, now);
    InsertCounts(dir, budget, cid, bytes, isDir, modelId, now);
    PutFits(Abstract(dir), budget, cid, bytes);
    if RowsHaveBlobs(dir) {
      InsertKeepsBlobs(dir, budget, cid, bytes, isDir, modelId, now);
    }
  }

  lemma InsertKeepsBlobs(dir: Dir, budget: nat, cid: Cid, bytes: nat, isDir: bool, modelId: string, now: int)
    requires Keyed(dir.entries) && RowsHaveBlobs(dir)
    ensures RowsHaveBlobs(Insert(dir, budget, cid, bytes, isDir, modelId, now))
  {
    EvictionRefines(dir, budget, cid, bytes);
  }

  lemma {:induction false} CutFits(shelf: Shelf, budget: nat, bytes: nat)
    requires bytes <= budget
    ensures ShelfBytes(shelf[Cut(shelf, budget - bytes)..]) + bytes <= budget
  {
    CutIsShortest(shelf, budget - bytes);
  }

  // The last check of `_evict_for` never fires from `fetch`, which has already turned
  // away whatever is larger than the whole budget. The order does not matter.
  lemma {:induction false} EvictionMakesRoom(dir: Dir, order: seq<Entry>, bytes: nat, budget: nat)
    requires bytes <= budget
    ensures EvictLoop(dir, order, BytesOf(order), bytes, budget).2 + bytes <= budget
    decreases |order|
  {
    if |order| > 0 {
      EvictionMakesRoom(DropRow(dir, order[0].cid, order[0].bytes), order[1..], bytes, budget);
    }
  }

  lemma {:induction false} EvictRefines(dir: Dir, cid: Cid, budget: nat)
    requires CacheInvariant(dir, budget)
    ensures var (dir', found) := EvictRow(dir, cid);
            && CacheInvariant(dir', budget)
            && (RowsHaveBlobs(dir) ==> RowsHaveBlobs(dir'))
            && (found <==> cid in dir.entries)
            && Abstract(dir') == Without(Abstract(dir), cid)
  {
    RemoveRefines(dir.entries, cid);
    ShelfBytesSplit(Abstract(dir), cid);
    KeyedRemove(dir.entries, cid);
    if cid in dir.entries {
      OneItemBytes(cid, dir.entries[cid].bytes);
      assert EvictRow(dir, cid).0.entries == dir.entries - {cid};
    } else {
      assert dir.entries - {cid} == dir.entries;
    }
  }

  lemma OneItemBytes(cid: Cid, bytes: nat)
    ensures ShelfBytes([Item(cid, bytes)]) == bytes
  {
    assert ShelfBytes([Item(cid, bytes)]) == bytes + ShelfBytes([]);
  }

  lemma ClearRefines(dir: Dir, budget: nat)
    requires CacheInvariant(dir, budget)
    ensures var (dir', n) := Clear(dir);
            && CacheInvariant(dir', budget) && RowsHaveBlobs(dir')
            && Abstract(dir') == [] && n == |Abstract(dir)|
  {
    ByUseLists(dir.entries);
    ListingLength(dir.entries, ByUse(dir.entries));
  }

  lemma {:induction false} ListingLength(entries: map<Cid, Entry>, order: seq<Entry>)
    requires Keyed(entries) && Listing(entries, order)
    ensures |order| == |entries|
    decreases |order|
  {
    if |order| == 0 {
      assert entries.Keys == {};
    } else {
      var first := order[0];
      assert first in order;
      ListingRemove(entries, order, 0);
      KeyedRemove(entries, first.cid);
      assert Skip(order, 0) == order[1..];
      ListingLength(entries - {first.cid}, order[1..]);
      assert entries.Keys == (entries - {first.cid}).Keys + {first.cid};
    }
  }

  // ---------------------------------------------------------------- runs

  // A locked section of some process, or a blob deleted behind the cache's back.
  datatype Section =
    | DoLookup(cid: Cid, modelId: string)
    | DoInsert(cid: Cid, bytes: nat, isDir: bool, modelId: string)
    | DoEvict(cid: Cid)
    | DoClear
    | Tamper(cid: Cid)

  ghost function Apply(dir: Dir, budget: nat, now: int, section: Section): Dir {
    match section
    case DoLookup(cid, modelId) => Lookup(dir, cid, modelId, now).0
    case DoInsert(cid, bytes, isDir, modelId) =>
      if bytes <= budget then Insert(dir, budget, cid, bytes, isDir, modelId, now) else dir
    case DoEvict(cid) => EvictRow(dir, cid).0
    case DoClear => Clear(dir).0
    case Tamper(cid) => dir.(blobs := dir.blobs - {cid})
  }

  // The reference: the same sections on the recency list. What a lookup finds on disk is
  // its parameter.
  function ApplyShelf(shelf: Shelf, budget: nat, section: Section, present: bool): Shelf {
    match section
    case DoLookup(cid, _) => if present then Touch(shelf, cid) else Without(shelf, cid)
    case DoInsert(cid, bytes, _, _) => if bytes <= budget then Put(shelf, budget, cid, bytes) else shelf
    case DoEvict(cid) => Without(shelf, cid)
    case DoClear => []
    case Tamper(_) => shelf
  }

  // Section number `k` of a run executes at time `k`: one clock, strictly increasing.
  ghost function Run(budget: nat, sections: seq<Section>): Dir {
    if sections == [] then EMPTY
    else Apply(Run(budget, sections[..|sections| - 1]), budget, |sections| - 1, sections[|sections| - 1])
  }

  ghost predicate StepRefines(before: Dir, after: Dir, budget: nat, section: Section) {
    var present := section.DoLookup? && section.cid in before.blobs;
    Abstract(after) == ApplyShelf(Abstract(before), budget, section, present)
  }

  lemma {:induction false} LookupAbsent(dir: Dir, cid: Cid)
    requires Keyed(dir.entries) && cid !in dir.entries
    ensures Without(Abstract(dir), cid) == Abstract(dir) && Touch(Abstract(dir), cid) == Abstract(dir)
  {
    ByUseLists(dir.entries);
    WithoutAbsent(Abstract(dir), cid);
  }

  lemma SectionRefines(dir: Dir, budget: nat, now: int, section: Section)
    requires CacheInvariant(dir, budget) && StampedBefore(dir, now)
    ensures var dir' := Apply(dir, budget, now, section);
            && CacheInvariant(dir', budget) && StampedBefore(dir', now + 1)
            && StepRefines(dir, dir', budget, section)
            && (RowsHaveBlobs(dir) && !section.Tamper? ==> RowsHaveBlobs(dir'))
  {
    match section {
      case DoLookup(cid, modelId) => LookupSection(dir, budget, now, cid, modelId);
      case DoInsert(cid, bytes, isDir, modelId) =>
        if bytes <= budget {
          InsertRefines(dir, budget, cid, bytes, isDir, modelId, now);
          InsertStamps(dir, budget, cid, bytes, isDir, modelId, now);
        }
      case DoEvict(cid) => EvictRefines(dir, cid, budget);
      case DoClear => ClearRefines(dir, budget);
      case Tamper(_) =>
    }
  }

  lemma LookupSection(dir: Dir, budget: nat, now: int, cid: Cid, modelId: string)
    requires CacheInvariant(dir, budget) && StampedBefore(dir, now)
    ensures var dir' := Lookup(dir, cid, modelId, now).0;
            && CacheInvariant(dir', budget) && StampedBefore(dir', now + 1)
            && StepRefines(dir, dir', budget, DoLookup(cid, modelId))
            && (RowsHaveBlobs(dir) ==> RowsHaveBlobs(dir'))
  {
    LookupRefines(dir, cid, modelId, now, budget);
    if cid !in dir.entries {
      LookupAbsent(dir, cid);
    }
  }

  lemma InsertStamps(dir: Dir, budget: nat, cid: Cid, bytes: nat, isDir: bool, modelId: string, now: int)
    requires Keyed(dir.entries) && StampedBefore(dir, now)
    ensures StampedBefore(Insert(dir, budget, cid, bytes, isDir, modelId, now), now + 1)
  {
    KeyedRemove(dir.entries, cid);
    ByUseLists(dir.entries - {cid});
    EvictionIsCut(dir, cid, Candidates(dir, cid), bytes, budget);
  }

  // Whatever sections whatever processes run in whatever order: the bytes on the index
  // never exceed the budget, every section acts on the recency list as the reference
  // does, and without tampering every row has its blob.
  lemma {:induction false} RunsRefine(budget: nat, sections: seq<Section>)
    ensures CacheInvariant(Run(budget, sections), budget) && StampedBefore(Run(budget, sections), |sections|)
    ensures sections != [] ==>
              var before, last := sections[..|sections| - 1], sections[|sections| - 1];
              StepRefines(Run(budget, before), Run(budget, sections), budget, last)
    ensures (forall k :: 0 <= k < |sections| ==> !sections[k].Tamper?) ==> RowsHaveBlobs(Run(budget, sections))
    decreases |sections|
  {
    if sections == [] {
      assert ByUse(EMPTY.entries) == [];
    } else {
      RunsRefine(budget, sections[..|sections| - 1]);
      SectionRefines(Run(budget, sections[..|sections| - 1]), budget, |sections| - 1, sections[|sections| - 1]);
    }
  }
}
