// The cache as objects: edgegrid/weights.py, class `LocalWeightCache`. The directory is
// one object shared by the caches of all processes; each method is one locked section.

module WeightCache {
  import opened CacheModel
  import opened CacheRefinement

  class Directory {
    var entries: map<Cid, Entry>
    var blobs: set<Cid>
    var life: Lifetime

    constructor ()
      ensures View() == EMPTY
    {
      entries, blobs, life := map[], {}, Lifetime(0, 0, 0, 0, 0);
    }

    function View(): Dir
      reads this
    {
      Dir(entries, blobs, life)
    }
  }

  // The least recently used row.
  method FindLeast(rows: map<Cid, Entry>) returns (c: Cid)
    requires |rows| > 0
    ensures IsLeast(rows, c)
  {
    assert rows.Keys != {};
    c :| c in rows;
    var rest := rows.Keys - {c};
    while rest != {}
      invariant c in rows && c !in rest && rest <= rows.Keys
      invariant forall d :: d in rows && d !in rest ==> rows[c].lastUsed <= rows[d].lastUsed
      decreases rest
    {
      var d :| d in rest;
      rest := rest - {d};
      if rows[d].lastUsed < rows[c].lastUsed {
        c := d;
      }
    }
  }

  // The rows that are left are taken last.
  ghost predicate Taken(rows: map<Cid, Entry>, rest: map<Cid, Entry>, order: seq<Entry>) {
    && (forall c :: c in rest ==> c in rows && rest[c] == rows[c])
    && (forall c :: c in rows && c !in rest ==> rows[c] in order)
    && (forall i :: 0 <= i < |order| ==>
          order[i].cid in rows && order[i].cid !in rest && rows[order[i].cid] == order[i])
    && (forall i, k :: 0 <= i < k < |order| ==>
          order[i].cid != order[k].cid && order[i].lastUsed <= order[k].lastUsed)
    && (forall i, c :: 0 <= i < |order| && c in rest ==> order[i].lastUsed <= rest[c].lastUsed)
  }

  lemma TakeLeast(rows: map<Cid, Entry>, rest: map<Cid, Entry>, order: seq<Entry>, c: Cid)
    requires SelfKeyed(rows) && Taken(rows, rest, order) && IsLeast(rest, c)
    ensures Taken(rows, rest - {c}, order + [rest[c]])
  {
    var next := order + [rest[c]];
    assert next[|order|] == rest[c];
    forall d | d in rows && d !in rest - {c} ensures rows[d] in next {
      if d != c {
        assert rows[d] in order;
      }
    }
  }

  // The rows sorted by last use.
  method SortByUse(rows: map<Cid, Entry>) returns (order: seq<Entry>)
    requires SelfKeyed(rows)
    ensures SortedListing(rows, order)
    ensures Keyed(rows) ==> order == ByUse(rows)
  {
    order := [];
    var rest := rows;
    while |rest| > 0
      invariant Taken(rows, rest, order)
      decreases |rest|
    {
      var c := FindLeast(rest);
      TakeLeast(rows, rest, order, c);
      order := order + [rest[c]];
      assert rest.Keys == (rest - {c}).Keys + {c};
      rest := rest - {c};
    }
    assert rest.Keys == {};
    if Keyed(rows) {
      SortedIsByUse(rows, order);
    }
  }

  class LocalWeightCache {
    const dir: Directory
    const budget: nat

    var hits: nat
    var misses: nat
    var evictions: nat
    var bytesDownloaded: nat
    var bytesEvicted: nat

    constructor (dir: Directory, budget: nat)
      requires budget > 0
      ensures this.dir == dir && this.budget == budget
      ensures hits == misses == evictions == bytesDownloaded == bytesEvicted == 0
    {
      this.dir, this.budget := dir, budget;
      hits, misses, evictions, bytesDownloaded, bytesEvicted := 0, 0, 0, 0, 0;
    }

    method Lookup(cid: Cid, modelId: string, now: int) returns (hit: bool)
      modifies this, dir
      ensures (dir.View(), hit) == CacheModel.Lookup(old(dir.View()), cid, modelId, now)
      ensures hits == old(hits) + (if hit then 1 else 0) && misses == old(misses) + (if hit then 0 else 1)
      ensures evictions == old(evictions) && bytesEvicted == old(bytesEvicted)
      ensures bytesDownloaded == old(bytesDownloaded)
    {
      hit := false;
      if cid in dir.entries && cid in dir.blobs {
        var e := dir.entries[cid].(lastUsed := now);
        e := e.(hits := e.hits + 1);
        if modelId != "" {
          e := e.(modelId := modelId);
        }
        dir.entries := dir.entries[cid := e];
        hits := hits + 1;
        dir.life := dir.life.(hits := dir.life.hits + 1);
        return true;
      }
      if cid in dir.entries {
        dir.entries := dir.entries - {cid};
      }
      misses := misses + 1;
    }

    // Makes room for `incoming` bytes; `fits` is false where the code raises
    // `CacheTooSmall`.
    method EvictFor(incoming: nat, keep: Cid) returns (evicted: seq<Cid>, fits: bool, ghost order: seq<Entry>)
      requires SelfKeyed(dir.entries)
      modifies this, dir
      ensures SortedListing(old(dir.entries) - {keep}, order)
      ensures old(Keyed(dir.entries)) ==> order == old(Candidates(dir.View(), keep))
      ensures LoopOutcome(old(dir.View()), order, incoming, budget, dir.View(), evicted, fits)
      ensures evictions == old(evictions) + |evicted|
      ensures bytesEvicted - old(bytesEvicted) == dir.life.bytesEvicted - old(dir.life.bytesEvicted)
      ensures hits == old(hits) && misses == old(misses) && bytesDownloaded == old(bytesDownloaded)
    {
      if Keyed(dir.entries) {
        KeyedRemove(dir.entries, keep);
      }
      var rows := SortByUse(dir.entries - {keep});
      order := rows;
      evicted, fits := EvictInOrder(rows, incoming);
    }

    method EvictInOrder(order: seq<Entry>, incoming: nat) returns (evicted: seq<Cid>, fits: bool)
      modifies this, dir
      ensures LoopOutcome(old(dir.View()), order, incoming, budget, dir.View(), evicted, fits)
      ensures evictions == old(evictions) + |evicted|
      ensures bytesEvicted - old(bytesEvicted) == dir.life.bytesEvicted - old(dir.life.bytesEvicted)
      ensures hits == old(hits) && misses == old(misses) && bytesDownloaded == old(bytesDownloaded)
    {
      ghost var start := dir.View();
      var used: int := TotalBytes(order);
      evicted := [];
      assert order[0..] == order;
      while |evicted| < |order| && used + incoming > budget
        invariant |evicted| <= |order| && used == BytesOf(order[|evicted|..])
        invariant forall k :: 0 <= k < |evicted| ==> evicted[k] == order[k].cid
        invariant evictions == old(evictions) + |evicted|
        invariant bytesEvicted - old(bytesEvicted) == dir.life.bytesEvicted - old(dir.life.bytesEvicted)
        invariant hits == old(hits) && misses == old(misses) && bytesDownloaded == old(bytesDownloaded)
        invariant LoopState(start, order, incoming, budget, dir.View(), |evicted|)
      {
        var e := order[|evicted|];
        LoopNext(start, order, incoming, budget, dir.View(), |evicted|);
        assert order[|evicted|..][1..] == order[|evicted| + 1..];
        Drop(e);
        used := used - e.bytes;
        evicted := evicted + [e.cid];
      }
      LoopDone(start, order, incoming, budget, dir.View(), |evicted|);
      fits := used + incoming <= budget;
    }

    method Drop(e: Entry)
      modifies this, dir
      ensures dir.View() == DropRow(old(dir.View()), e.cid, e.bytes)
      ensures evictions == old(evictions) + 1 && bytesEvicted == old(bytesEvicted) + e.bytes
      ensures hits == old(hits) && misses == old(misses) && bytesDownloaded == old(bytesDownloaded)
    {
      dir.blobs := dir.blobs - {e.cid};
      dir.entries := dir.entries - {e.cid};
      evictions := evictions + 1;
      bytesEvicted := bytesEvicted + e.bytes;
      dir.life := dir.life.(evictions := dir.life.evictions + 1);
      dir.life := dir.life.(bytesEvicted := dir.life.bytesEvicted + e.bytes);
    }

    method Insert(cid: Cid, bytes: nat, isDir: bool, modelId: string, now: int)
      returns (evicted: seq<Cid>, stored: bool, ghost order: seq<Entry>)
      requires SelfKeyed(dir.entries)
      modifies this, dir
      ensures stored == (bytes <= budget)
      ensures !stored ==> dir.View() == old(dir.View()) && evicted == []
      ensures stored ==>
                && SortedListing(old(dir.entries) - {cid}, order)
                && InsertOutcome(old(dir.View()), order, budget, Entry(cid, bytes, isDir, now, now, 0, modelId),
                                 dir.View(), evicted)
      ensures stored && old(Keyed(dir.entries)) ==>
                && dir.View() == CacheModel.Insert(old(dir.View()), budget, cid, bytes, isDir, modelId, now)
                && EvictedPrefix(old(Without(Abstract(dir.View()), cid)), budget - bytes, evicted)
      ensures bytesDownloaded == old(bytesDownloaded) + (if stored then bytes else 0)
      ensures hits == old(hits) && misses == old(misses) && evictions == old(evictions) + |evicted|
      ensures bytesEvicted - old(bytesEvicted) == dir.life.bytesEvicted - old(dir.life.bytesEvicted)
    {
      evicted, stored, order := [], false, [];
      if bytes > budget {
        return;
      }
      evicted, order := MakeRoom(bytes, cid);
      stored := true;
      WriteRow(Entry(cid, bytes, isDir, now, now, 0, modelId));
    }

    // Eviction for what fits the whole budget never fails.
    method MakeRoom(bytes: nat, cid: Cid) returns (evicted: seq<Cid>, ghost order: seq<Entry>)
      requires SelfKeyed(dir.entries) && bytes <= budget
      modifies this, dir
      ensures SortedListing(old(dir.entries) - {cid}, order)
      ensures RoomMade(old(dir.View()), order, budget, cid, bytes, dir.View(), evicted)
      ensures hits == old(hits) && misses == old(misses) && bytesDownloaded == old(bytesDownloaded)
      ensures evictions == old(evictions) + |evicted|
      ensures bytesEvicted - old(bytesEvicted) == dir.life.bytesEvicted - old(dir.life.bytesEvicted)
    {
      ghost var start := dir.View();
      var fits;
      evicted, fits, order := EvictFor(bytes, cid);
      RoomIsMade(start, order, budget, cid, bytes, dir.View(), evicted, fits);
    }

    method WriteRow(e: Entry)
      modifies this, dir
      ensures dir.View() == Stored(old(dir.View()), e)
      ensures bytesDownloaded == old(bytesDownloaded) + e.bytes
      ensures hits == old(hits) && misses == old(misses)
      ensures evictions == old(evictions) && bytesEvicted == old(bytesEvicted)
    {
      dir.blobs := dir.blobs + {e.cid};
      dir.entries := dir.entries[e.cid := e];
      dir.life := dir.life.(misses := dir.life.misses + 1);
      dir.life := dir.life.(bytesDownloaded := dir.life.bytesDownloaded + e.bytes);
      bytesDownloaded := bytesDownloaded + e.bytes;
    }

    method Evict(cid: Cid) returns (found: bool)
      modifies dir
      ensures (dir.View(), found) == EvictRow(old(dir.View()), cid)
    {
      if cid !in dir.entries {
        return false;
      }
      dir.blobs := dir.blobs - {cid};
      dir.life := dir.life.(evictions := dir.life.evictions + 1);
      dir.life := dir.life.(bytesEvicted := dir.life.bytesEvicted + dir.entries[cid].bytes);
      dir.entries := dir.entries - {cid};
      found := true;
    }

    method Clear() returns (n: nat)
      modifies dir
      ensures (dir.View(), n) == CacheModel.Clear(old(dir.View()))
    {
      n := |dir.entries|;
      var rest := dir.entries.Keys;
      while rest != {}
        invariant rest <= old(dir.entries).Keys && dir.entries == old(dir.entries) && dir.life == old(dir.life)
        invariant dir.blobs == old(dir.blobs) - (old(dir.entries).Keys - rest)
        decreases rest
      {
        var cid :| cid in rest;
        dir.blobs := dir.blobs - {cid};
        rest := rest - {cid};
      }
      assert dir.blobs == old(dir.blobs) - old(dir.entries).Keys;
      dir.entries := map[];
    }
  }

  method TotalBytes(order: seq<Entry>) returns (total: nat)
    ensures total == BytesOf(order)
  {
    total := 0;
    for i := 0 to |order|
      invariant total + BytesOf(order[i..]) == BytesOf(order)
    {
      assert order[i..][1..] == order[i + 1..];
      total := total + order[i].bytes;
    }
  }

  // The cids at the old end that have to go, oldest first.
  predicate EvictedPrefix(others: Shelf, room: int, evicted: seq<Cid>) {
    |evicted| == Cut(others, room) && forall k :: 0 <= k < |evicted| ==> evicted[k] == others[k].cid
  }

  // Enough went, in that order; with distinct stamps the shortest prefix of the shelf.
  ghost predicate RoomMade(start: Dir, order: seq<Entry>, budget: nat, cid: Cid, bytes: nat, after: Dir,
                           evicted: seq<Cid>) {
    && LoopOutcome(start, order, bytes, budget, after, evicted, true)
    && (Keyed(start.entries) ==>
          order == Candidates(start, cid) && EvictedPrefix(Without(Abstract(start), cid), budget - bytes, evicted))
  }

  lemma RoomIsMade(start: Dir, order: seq<Entry>, budget: nat, cid: Cid, bytes: nat, after: Dir,
                   evicted: seq<Cid>, fits: bool)
    requires bytes <= budget && LoopOutcome(start, order, bytes, budget, after, evicted, fits)
    requires Keyed(start.entries) ==> order == Candidates(start, cid)
    ensures RoomMade(start, order, budget, cid, bytes, after, evicted)
  {
    EvictionMakesRoom(start, order, bytes, budget);
    if Keyed(start.entries) {
      EvictedIsPrefix(start, budget, cid, bytes, after, evicted, fits);
    }
  }

  lemma {:induction false} EvictedIsPrefix(start: Dir, budget: nat, cid: Cid, bytes: nat, after: Dir,
                                           evicted: seq<Cid>, fits: bool)
    requires Keyed(start.entries) && bytes <= budget
    requires LoopOutcome(start, Candidates(start, cid), bytes, budget, after, evicted, fits)
    ensures fits && EvictedPrefix(Without(Abstract(start), cid), budget - bytes, evicted)
  {
    EvictionMakesRoom(start, Candidates(start, cid), bytes, budget);
    EvictionRefines(start, budget, cid, bytes);
    OthersOnShelf(start, cid);
    var order := Candidates(start, cid);
    forall k | 0 <= k < |evicted| ensures evicted[k] == Items(order)[k].cid {
    }
  }

  // What the loop leaves: the directory, the cids that went, in order, and whether the
  // incoming bytes fit now.
  predicate LoopOutcome(start: Dir, order: seq<Entry>, incoming: nat, budget: nat, after: Dir, evicted: seq<Cid>,
                        fits: bool) {
    var (room, n, used) := EvictLoop(start, order, BytesOf(order), incoming, budget);
    && after == room && fits == (used + incoming <= budget)
    && |evicted| == n <= |order| && forall k :: 0 <= k < n ==> evicted[k] == order[k].cid
  }

  // What an insert leaves after eviction in that order: the new row and its blob.
  predicate InsertOutcome(start: Dir, order: seq<Entry>, budget: nat, e: Entry, after: Dir, evicted: seq<Cid>) {
    var (room, n, _) := EvictLoop(start, order, BytesOf(order), e.bytes, budget);
    && after == Stored(room, e)
    && |evicted| == n <= |order| && forall k :: 0 <= k < n ==> evicted[k] == order[k].cid
  }

  // After `i` rounds the rest of the loop gives what the whole loop gives.
  ghost predicate LoopState(start: Dir, order: seq<Entry>, incoming: nat, budget: nat, dir: Dir, i: nat)
    requires i <= |order|
  {
    var (room, n, used) := EvictLoop(start, order, BytesOf(order), incoming, budget);
    EvictLoop(dir, order[i..], BytesOf(order[i..]), incoming, budget) == (room, n - i, used) && n >= i
  }

  lemma LoopNext(start: Dir, order: seq<Entry>, incoming: nat, budget: nat, dir: Dir, i: nat)
    requires i < |order| && LoopState(start, order, incoming, budget, dir, i)
    requires BytesOf(order[i..]) + incoming > budget
    ensures LoopState(start, order, incoming, budget, DropRow(dir, order[i].cid, order[i].bytes), i + 1)
  {
    assert order[i..][1..] == order[i + 1..];
  }

  lemma {:induction false} LoopDone(start: Dir, order: seq<Entry>, incoming: nat, budget: nat, dir: Dir, i: nat)
    requires i <= |order| && LoopState(start, order, incoming, budget, dir, i)
    requires i == |order| || BytesOf(order[i..]) + incoming <= budget
    ensures EvictLoop(start, order, BytesOf(order), incoming, budget) == (dir, i, BytesOf(order[i..]))
  {
  }
}
