// What each section of the cache leaves in the index, and where every downloaded byte is:
// edgegrid/weights.py, `fetch`, `_evict_for`, `evict`, `clear`.

module CacheCounters {
  import opened CacheModel
  import opened CacheRefinement

  // ---------------------------------------------------------------- rows and blobs

  // A hit stamps its row and counts, a row without its blob goes, and all else stays.
  lemma LookupLeaves(dir: Dir, cid: Cid, modelId: string, now: int, c: Cid)
    ensures var (t, hit) := Lookup(dir, cid, modelId, now);
            && (hit <==> cid in dir.entries && cid in dir.blobs)
            && t.blobs == dir.blobs
            && t.life == dir.life.(hits := dir.life.hits + if hit then 1 else 0)
            && (c in t.entries <==> c in dir.entries && (c != cid || hit))
            && (c in t.entries && c != cid ==> t.entries[c] == dir.entries[c])
            && (hit ==>
                  var e := dir.entries[cid];
                  t.entries[cid] ==
                  Entry(e.cid, e.bytes, e.isDir, e.added, now, e.hits + 1,
                        if |modelId| > 0 then modelId else e.modelId))
  {
  }

  // An evicted row goes with its blob and counts.
  lemma EvictLeaves(dir: Dir, cid: Cid, c: Cid)
    ensures var (t, found) := EvictRow(dir, cid);
            && (found <==> cid in dir.entries)
            && (!found ==> t == dir)
            && (found ==>
                  && (c in t.entries <==> c in dir.entries && c != cid)
                  && (c in t.entries ==> t.entries[c] == dir.entries[c])
                  && (c in t.blobs <==> c in dir.blobs && c != cid)
                  && t.life == dir.life.(evictions := dir.life.evictions + 1,
                                         bytesEvicted := dir.life.bytesEvicted + dir.entries[cid].bytes))
  {
  }

  // Clearing takes every row with its blob, leaves blobs without a row, and counts nothing.
  lemma ClearLeaves(dir: Dir, c: Cid)
    ensures var (t, n) := Clear(dir);
            && n == |dir.entries| && t.entries == map[] && t.life == dir.life
            && (c in t.blobs <==> c in dir.blobs && c !in dir.entries)
  {
  }

  // `c` is one of the first `n` of the order.
  predicate Among(order: seq<Entry>, n: nat, c: Cid)
    requires n <= |order|
  {
    exists k :: 0 <= k < n && order[k].cid == c
  }

  // The loop takes the rows that it counts, with their blobs, and no others.
  lemma {:induction false} LoopTakes(dir: Dir, order: seq<Entry>, used: int, incoming: nat, budget: nat, c: Cid)
    ensures var (room, n, _) := EvictLoop(dir, order, used, incoming, budget);
            && n <= |order|
            && (c in room.entries <==> c in dir.entries && !Among(order, n, c))
            && (c in room.entries ==> room.entries[c] == dir.entries[c])
            && (c in room.blobs <==> c in dir.blobs && !Among(order, n, c))
            && room.life.hits == dir.life.hits && room.life.misses == dir.life.misses
    decreases |order|
  {
    if |order| > 0 && used + incoming > budget {
      var next, left := DropRow(dir, order[0].cid, order[0].bytes), used - order[0].bytes;
      LoopTakes(next, order[1..], left, incoming, budget, c);
      AmongNext(order, EvictLoop(next, order[1..], left, incoming, budget).1, c);
    }
  }

  lemma AmongNext(order: seq<Entry>, n: nat, c: Cid)
    requires n < |order|
    ensures Among(order, n + 1, c) <==> order[0].cid == c || Among(order[1..], n, c)
  {
    if Among(order[1..], n, c) {
      var k :| 0 <= k < n && order[1..][k].cid == c;
      assert order[k + 1].cid == c;
    }
    if Among(order, n + 1, c) && order[0].cid != c {
      var k :| 0 <= k < n + 1 && order[k].cid == c;
      assert order[1..][k - 1].cid == c;
    }
  }

  // What an insert has to take from the shelf: the shortest prefix that makes room.
  predicate Goes(shelf: Shelf, room: int, c: Cid) { exists k :: 0 <= k < Cut(shelf, room) && shelf[k].cid == c }

  // An insert writes its row and blob, takes the rows that have to go with their blobs, and
  // leaves the others.
  lemma {:induction false} InsertLeaves(dir: Dir, budget: nat, cid: Cid, bytes: nat, isDir: bool, modelId: string,
                                        now: int, c: Cid)
    requires Keyed(dir.entries)
    ensures var t, others := Insert(dir, budget, cid, bytes, isDir, modelId, now), Without(Abstract(dir), cid);
            var goes := Goes(others, budget - bytes, c);
            && cid in t.entries && t.entries[cid] == Entry(cid, bytes, isDir, now, now, 0, modelId) && cid in t.blobs
            && (c != cid ==>
                  && (c in t.entries <==> c in dir.entries && !goes)
                  && (c in t.entries ==> t.entries[c] == dir.entries[c])
                  && (c in t.blobs <==> c in dir.blobs && !goes))
  {
    var order := Candidates(dir, cid);
    EvictionRefines(dir, budget, cid, bytes);
    LoopTakes(dir, order, BytesOf(order), bytes, budget, c);
    GoesFromShelf(dir, budget, cid, bytes, c);
  }

  lemma GoesFromShelf(dir: Dir, budget: nat, cid: Cid, bytes: nat, c: Cid)
    requires Keyed(dir.entries)
    ensures var order, others := Candidates(dir, cid), Without(Abstract(dir), cid);
            && |order| == |others|
            && (Among(order, Cut(others, budget - bytes), c) <==> Goes(others, budget - bytes, c))
  {
    OthersOnShelf(dir, cid);
    var order := Candidates(dir, cid);
    assert forall k :: 0 <= k < |order| ==> Items(order)[k].cid == order[k].cid;
  }

  // And it counts one miss, its bytes, and the rows that went with theirs.
  lemma {:induction false} InsertCountsAll(dir: Dir, budget: nat, cid: Cid, bytes: nat, isDir: bool, modelId: string,
                                           now: int)
    requires Keyed(dir.entries)
    ensures var t, others := Insert(dir, budget, cid, bytes, isDir, modelId, now), Without(Abstract(dir), cid);
            var n := Cut(others, budget - bytes);
            && t.life.hits == dir.life.hits && t.life.misses == dir.life.misses + 1
            && t.life.bytesDownloaded == dir.life.bytesDownloaded + bytes
            && t.life.evictions == dir.life.evictions + n
            && t.life.bytesEvicted == dir.life.bytesEvicted + ShelfBytes(others[..n])
  {
    var order := Candidates(dir, cid);
    RoomCounts(dir, budget, cid, bytes);
    LoopTakes(dir, order, BytesOf(order), bytes, budget, cid);
  }

  lemma {:induction false} RoomCounts(dir: Dir, budget: nat, cid: Cid, bytes: nat)
    requires Keyed(dir.entries)
    ensures var order, others := Candidates(dir, cid), Without(Abstract(dir), cid);
            var room, n := EvictLoop(dir, order, BytesOf(order), bytes, budget).0, Cut(others, budget - bytes);
            && room.life.evictions == dir.life.evictions + n
            && room.life.bytesDownloaded == dir.life.bytesDownloaded
            && room.life.bytesEvicted == dir.life.bytesEvicted + ShelfBytes(others[..n])
  {
    var order, others := Candidates(dir, cid), Without(Abstract(dir), cid);
    EvictionRefines(dir, budget, cid, bytes);
    EvictedCounts(dir, cid, order, EvictLoop(dir, order, BytesOf(order), bytes, budget).0,
                  Cut(others, budget - bytes), others);
  }

  lemma {:induction false} EvictedCounts(dir: Dir, keep: Cid, order: seq<Entry>, room: Dir, n: nat, others: Shelf)
    requires Evicted(dir, keep, order, room, n) && |order| == |others|
    requires BytesOf(order[n..]) == ShelfBytes(others[n..]) && BytesOf(order) == ShelfBytes(others)
    ensures room.life.evictions == dir.life.evictions + n
    ensures room.life.bytesDownloaded == dir.life.bytesDownloaded
    ensures room.life.bytesEvicted == dir.life.bytesEvicted + ShelfBytes(others[..n])
  {
    ShelfBytesAppend(others[..n], others[n..]);
    assert others[..n] + others[n..] == others;
  }

  // ---------------------------------------------------------------- every downloaded byte

  // The bytes that leave the index without being evicted: a row whose blob was gone, a row
  // that was written again, and all rows when the cache is cleared.
  ghost function LostAt(dir: Dir, budget: nat, section: Section): int {
    match section
    case DoLookup(cid, _) => if cid in dir.blobs then 0 else ShelfBytes(Only(Abstract(dir), cid))
    case DoInsert(cid, bytes, _, _) => if bytes <= budget then ShelfBytes(Only(Abstract(dir), cid)) else 0
    case DoClear => ShelfBytes(Abstract(dir))
    case _ => 0
  }

  ghost function Lost(budget: nat, sections: seq<Section>): int {
    if |sections| == 0 then 0
    else
      var before := sections[..|sections| - 1];
      Lost(budget, before) + LostAt(Run(budget, before), budget, sections[|sections| - 1])
  }

  // Resident, evicted, or lost.
  ghost predicate Accounted(dir: Dir, lost: int) {
    dir.life.bytesDownloaded == ShelfBytes(Abstract(dir)) + dir.life.bytesEvicted + lost
  }

  lemma LookupAccounts(dir: Dir, budget: nat, now: int, cid: Cid, modelId: string, lost: int)
    requires CacheInvariant(dir, budget) && StampedBefore(dir, now) && Accounted(dir, lost)
    ensures Accounted(Lookup(dir, cid, modelId, now).0, lost + LostAt(dir, budget, DoLookup(cid, modelId)))
  {
    LookupRefines(dir, cid, modelId, now, budget);
    ShelfBytesSplit(Abstract(dir), cid);
    TouchKeepsBytes(Abstract(dir), cid);
    if cid !in dir.entries {
      LookupAbsent(dir, cid);
    }
  }

  lemma InsertAccounts(dir: Dir, budget: nat, now: int, cid: Cid, bytes: nat, isDir: bool, modelId: string, lost: int)
    requires CacheInvariant(dir, budget) && StampedBefore(dir, now) && Accounted(dir, lost) && bytes <= budget
    ensures Accounted(Insert(dir, budget, cid, bytes, isDir, modelId, now),
                      lost + LostAt(dir, budget, DoInsert(cid, bytes, isDir, modelId)))
  {
    var others := Without(Abstract(dir), cid);
    InsertPuts(dir, budget, cid, bytes, isDir, modelId, now);
    InsertLife(dir, budget, cid, bytes, isDir, modelId, now);
    ShelfBytesSplit(Abstract(dir), cid);
    ShelfBytesAppend(others[Cut(others, budget - bytes)..], [Item(cid, bytes)]);
    OneItemBytes(cid, bytes);
  }

  // The one item of a row.
  lemma {:induction false} OnlyItem(dir: Dir, cid: Cid)
    requires Keyed(dir.entries)
    ensures ShelfBytes(Only(Abstract(dir), cid)) == if cid in dir.entries then dir.entries[cid].bytes else 0
  {
    RemoveRefines(dir.entries, cid);
    if cid in dir.entries {
      OneItemBytes(cid, dir.entries[cid].bytes);
    } else {
      LookupAbsent(dir, cid);
      ShelfBytesSplit(Abstract(dir), cid);
    }
  }

  lemma EvictAccounts(dir: Dir, budget: nat, cid: Cid, lost: int)
    requires CacheInvariant(dir, budget) && Accounted(dir, lost)
    ensures Accounted(EvictRow(dir, cid).0, lost)
  {
    EvictRefines(dir, cid, budget);
    OnlyItem(dir, cid);
    ShelfBytesSplit(Abstract(dir), cid);
  }

  lemma SectionAccounts(dir: Dir, budget: nat, now: int, section: Section, lost: int)
    requires CacheInvariant(dir, budget) && StampedBefore(dir, now) && Accounted(dir, lost)
    ensures Accounted(Apply(dir, budget, now, section), lost + LostAt(dir, budget, section))
  {
    match section {
      case DoLookup(cid, modelId) => LookupAccounts(dir, budget, now, cid, modelId, lost);
      case DoInsert(cid, bytes, isDir, modelId) =>
        if bytes <= budget {
          InsertAccounts(dir, budget, now, cid, bytes, isDir, modelId, lost);
        }
      case DoEvict(cid) => EvictAccounts(dir, budget, cid, lost);
      case DoClear => ClearRefines(dir, budget);
      case Tamper(_) =>
    }
  }

  // Over every interleaving every byte that was ever downloaded is on the index, was
  // evicted, or was lost in one of those three ways.
  lemma {:induction false} RunsAccount(budget: nat, sections: seq<Section>)
    ensures Accounted(Run(budget, sections), Lost(budget, sections))
    decreases |sections|
  {
    if |sections| == 0 {
      assert ByUse(EMPTY.entries) == [];
    } else {
      var before := sections[..|sections| - 1];
      RunsRefine(budget, before);
      RunsAccount(budget, before);
      SectionAccounts(Run(budget, before), budget, |before|, sections[|before|], Lost(budget, before));
    }
  }

  // ---------------------------------------------------------------- counters of a run

  predicate Hits(dir: Dir, section: Section) {
    section.DoLookup? && section.cid in dir.entries && section.cid in dir.blobs
  }

  predicate Downloads(budget: nat, section: Section) { section.DoInsert? && section.bytes <= budget }

  // How many sections of a run found their artefact, and how many stored one.
  ghost function HitCount(budget: nat, sections: seq<Section>): nat {
    if |sections| == 0 then 0
    else
      var before := sections[..|sections| - 1];
      HitCount(budget, before) + (if Hits(Run(budget, before), sections[|before|]) then 1 else 0)
  }

  function DownloadCount(budget: nat, sections: seq<Section>): nat {
    if |sections| == 0 then 0
    else
      DownloadCount(budget, sections[..|sections| - 1])
      + (if Downloads(budget, sections[|sections| - 1]) then 1 else 0)
  }

  lemma CountersNext(dir: Dir, budget: nat, now: int, section: Section)
    requires Keyed(dir.entries)
    ensures var life := Apply(dir, budget, now, section).life;
            && life.hits == dir.life.hits + (if Hits(dir, section) then 1 else 0)
            && life.misses == dir.life.misses + (if Downloads(budget, section) then 1 else 0)
  {
    match section {
      case DoLookup(cid, modelId) => LookupLeaves(dir, cid, modelId, now, cid);
      case DoInsert(cid, bytes, isDir, modelId) => InsertCountsAll(dir, budget, cid, bytes, isDir, modelId, now);
      case _ =>
    }
  }

  // The counters of hits and misses are those numbers.
  lemma {:induction false} RunsCount(budget: nat, sections: seq<Section>)
    ensures Run(budget, sections).life.hits == HitCount(budget, sections)
    ensures Run(budget, sections).life.misses == DownloadCount(budget, sections)
    decreases |sections|
  {
    if |sections| > 0 {
      var before := sections[..|sections| - 1];
      RunsRefine(budget, before);
      RunsCount(budget, before);
      CountersNext(Run(budget, before), budget, |before|, sections[|before|]);
    }
  }
}
