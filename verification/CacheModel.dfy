// The cache of weights: edgegrid/weights.py, `LocalWeightCache`.
//
// The directory is shared by processes. Each locked section of the code is one function
// here, so every interleaving of processes is a sequence of these functions.

module CacheModel {
  import opened Sequences

  type Cid = string

  // ---------------------------------------------------------------- entities

  // A row of the index; `lastUsed` is the clock reading at its last use.
  datatype Entry = Entry(cid: Cid, bytes: nat, isDir: bool, added: int, lastUsed: int, hits: nat, modelId: string)

  // The counters kept in the index.
  datatype Lifetime = Lifetime(hits: nat, misses: nat, evictions: nat, bytesDownloaded: nat, bytesEvicted: nat)

  // The shared directory: the index and the blobs that exist beside it.
  datatype Dir = Dir(entries: map<Cid, Entry>, blobs: set<Cid>, life: Lifetime)

  const EMPTY := Dir(map[], {}, Lifetime(0, 0, 0, 0, 0))

  // ---------------------------------------------------------------- rows by last use

  // Every row sits under its own cid.
  ghost predicate SelfKeyed(entries: map<Cid, Entry>) {
    forall c :: c in entries ==> entries[c].cid == c
  }

  // Besides, no two rows were used last at the same instant.
  ghost predicate Keyed(entries: map<Cid, Entry>) {
    && SelfKeyed(entries)
    && (forall c, d :: c in entries && d in entries && c != d ==> entries[c].lastUsed != entries[d].lastUsed)
  }

  ghost predicate IsLeast(entries: map<Cid, Entry>, c: Cid) {
    c in entries && forall d :: d in entries ==> entries[c].lastUsed <= entries[d].lastUsed
  }

  lemma SomeIsLeast(entries: map<Cid, Entry>)
    requires |entries| > 0
    ensures exists c :: IsLeast(entries, c)
  {
    var c := LeastExists(entries);
  }

  lemma {:induction false} LeastExists(entries: map<Cid, Entry>) returns (c: Cid)
    requires |entries| > 0
    ensures IsLeast(entries, c)
    decreases |entries|
  {
    var k :| k in entries;
    var rest := entries - {k};
    assert entries.Keys == rest.Keys + {k};
    c := k;
    if |rest| > 0 {
      var d := LeastExists(rest);
      if entries[d].lastUsed < entries[k].lastUsed {
        c := d;
      }
    } else {
      assert rest.Keys == {};
    }
  }

  ghost function Least(entries: map<Cid, Entry>): (c: Cid)
    requires |entries| > 0
    ensures IsLeast(entries, c)
  {
    SomeIsLeast(entries);
    var c :| IsLeast(entries, c);
    c
  }

  // The rows, least recently used first.
  ghost function ByUse(entries: map<Cid, Entry>): seq<Entry>
    decreases |entries|
  {
    if |entries| == 0 then []
    else
      var c := Least(entries);
      [entries[c]] + ByUse(entries - {c})
  }

  predicate Increasing(order: seq<Entry>) {
    forall i, j :: 0 <= i < j < |order| ==> order[i].lastUsed < order[j].lastUsed
  }

  // `order` lists exactly the rows, in strictly increasing order of last use.
  ghost predicate Listing(entries: map<Cid, Entry>, order: seq<Entry>) {
    && (forall e :: e in order ==> e.cid in entries && entries[e.cid] == e)
    && (forall c :: c in entries ==> entries[c] in order)
    && Increasing(order)
  }

  lemma SkipMembers(order: seq<Entry>, k: nat, e: Entry)
    requires k < |order| && Increasing(order)
    ensures e in Skip(order, k) <==> e in order && e != order[k]
  {
    if e in order && e != order[k] {
      var i :| 0 <= i < |order| && order[i] == e;
      assert Skip(order, k)[if i < k then i else i - 1] == e;
    }
    if e in Skip(order, k) {
      var i :| 0 <= i < |order| - 1 && Skip(order, k)[i] == e;
      var j := if i < k then i else i + 1;
      assert order[j] == e && order[j].lastUsed != order[k].lastUsed;
    }
  }

  lemma ListingRemove(entries: map<Cid, Entry>, order: seq<Entry>, k: nat)
    requires Keyed(entries) && Listing(entries, order) && k < |order|
    ensures Listing(entries - {order[k].cid}, Skip(order, k))
  {
    var gone := order[k];
    assert gone in order;
    forall e | e in Skip(order, k) ensures e.cid in entries - {gone.cid} && entries[e.cid] == e {
      SkipMembers(order, k, e);
    }
    forall c | c in entries - {gone.cid} ensures entries[c] in Skip(order, k) {
      SkipMembers(order, k, entries[c]);
      assert entries[c].cid != gone.cid;
    }
  }

  lemma ListingAppend(entries: map<Cid, Entry>, order: seq<Entry>, e: Entry)
    requires Listing(entries, order) && e.cid !in entries
    requires forall c :: c in entries ==> entries[c].lastUsed < e.lastUsed
    ensures Listing(entries[e.cid := e], order + [e])
  {
    forall i | 0 <= i < |order| ensures order[i].lastUsed < e.lastUsed {
      assert order[i] in order;
    }
  }

  lemma LeastComesFirst(entries: map<Cid, Entry>, order: seq<Entry>)
    requires Keyed(entries) && Listing(entries, order) && |entries| > 0
    ensures |order| > 0 && order[0] == entries[Least(entries)] && order[0].cid == Least(entries)
  {
    var c := Least(entries);
    assert entries[c] in order;
    var i :| 0 <= i < |order| && order[i] == entries[c];
    assert order[0] in order && entries[order[0].cid] == order[0];
    assert i == 0;
    assert entries[c].lastUsed <= entries[order[0].cid].lastUsed;
  }

  lemma ListingRest(entries: map<Cid, Entry>, order: seq<Entry>)
    requires Keyed(entries) && Listing(entries, order) && |entries| > 0
    ensures var rest := entries - {Least(entries)};
            && |rest| < |entries| && |order| > 0 && order[0] == entries[Least(entries)]
            && Keyed(rest) && Listing(rest, order[1..])
  {
    LeastComesFirst(entries, order);
    ListingRemove(entries, order, 0);
    assert Skip(order, 0) == order[1..];
  }

  lemma ListedIsPresent(entries: map<Cid, Entry>, order: seq<Entry>)
    requires Listing(entries, order) && |order| > 0
    ensures |entries| > 0
  {
    assert order[0] in order && order[0].cid in entries.Keys;
  }

  lemma Reassembled(order: seq<Entry>, first: Entry, rest: seq<Entry>)
    requires |order| > 0 && order[0] == first && order[1..] == rest
    ensures order == [first] + rest
  {
  }

  // Distinct stamps leave one way to list the rows.
  lemma {:induction false} ListingIsByUse(entries: map<Cid, Entry>, order: seq<Entry>)
    requires Keyed(entries) && Listing(entries, order)
    ensures order == ByUse(entries)
    decreases |entries|
  {
    if |entries| > 0 {
      ListingRest(entries, order);
      var rest := entries - {Least(entries)};
      assert order[1..] == ByUse(rest) by {
        ListingIsByUse(rest, order[1..]);
      }
      Reassembled(order, entries[Least(entries)], ByUse(rest));
    } else if |order| > 0 {
      ListedIsPresent(entries, order);
    }
  }

  // `order` lists each row once, by last use; rows of one instant come in any order.
  ghost predicate SortedListing(entries: map<Cid, Entry>, order: seq<Entry>) {
    && (forall i :: 0 <= i < |order| ==> order[i].cid in entries && entries[order[i].cid] == order[i])
    && (forall c :: c in entries ==> entries[c] in order)
    && (forall i, k :: 0 <= i < k < |order| ==>
          order[i].cid != order[k].cid && order[i].lastUsed <= order[k].lastUsed)
  }

  lemma {:induction false} SortedIsByUse(entries: map<Cid, Entry>, order: seq<Entry>)
    requires Keyed(entries) && SortedListing(entries, order)
    ensures order == ByUse(entries)
  {
    forall i, k | 0 <= i < k < |order| ensures order[i].lastUsed < order[k].lastUsed {
      assert entries[order[i].cid].lastUsed != entries[order[k].cid].lastUsed;
    }
    ListingIsByUse(entries, order);
  }

  lemma ListingPrepend(entries: map<Cid, Entry>, c: Cid, rest: seq<Entry>)
    requires Keyed(entries) && IsLeast(entries, c) && Listing(entries - {c}, rest)
    ensures Listing(entries, [entries[c]] + rest)
  {
    var others := entries - {c};
    forall d | d in entries ensures entries[d] in [entries[c]] + rest {
      if d != c {
        assert d in others && others[d] == entries[d];
      }
    }
    forall i | 0 <= i < |rest| ensures entries[c].lastUsed < rest[i].lastUsed {
      assert rest[i] in rest;
      assert rest[i].cid in others && others[rest[i].cid] == rest[i];
    }
  }

  lemma {:induction false} ByUseLists(entries: map<Cid, Entry>)
    requires Keyed(entries)
    ensures Listing(entries, ByUse(entries))
    decreases |entries|
  {
    if |entries| > 0 {
      ByUseLists(entries - {Least(entries)});
      ListingPrepend(entries, Least(entries), ByUse(entries - {Least(entries)}));
    }
  }

  // ---------------------------------------------------------------- the locked sections

  // The first section of `fetch`: a hit stamps the row, a row without its blob is
  // dropped, anything else leaves the directory alone.
  function Lookup(dir: Dir, cid: Cid, modelId: string, now: int): (Dir, bool) {
    if cid !in dir.entries then (dir, false)
    else if cid in dir.blobs then
      var e := dir.entries[cid];
      var e' := e.(lastUsed := now, hits := e.hits + 1, modelId := if modelId == "" then e.modelId else modelId);
      (dir.(entries := dir.entries[cid := e'], life := dir.life.(hits := dir.life.hits + 1)), true)
    else (dir.(entries := dir.entries - {cid}), false)
  }

  function BytesOf(order: seq<Entry>): nat {
    if |order| == 0 then 0 else order[0].bytes + BytesOf(order[1..])
  }

  function DropRow(dir: Dir, cid: Cid, bytes: nat): Dir {
    dir.(entries := dir.entries - {cid}, blobs := dir.blobs - {cid},
         life := dir.life.(evictions := dir.life.evictions + 1, bytesEvicted := dir.life.bytesEvicted + bytes))
  }

  // The loop of `_evict_for`: rows go in the given order until the incoming bytes fit.
  // The result says how many went and how many bytes are still used.
  function EvictLoop(dir: Dir, order: seq<Entry>, used: int, incoming: nat, budget: nat): (Dir, nat, int)
    decreases |order|
  {
    if |order| == 0 || used + incoming <= budget then (dir, 0, used)
    else
      var (dir', n, used') := EvictLoop(DropRow(dir, order[0].cid, order[0].bytes), order[1..],
                                        used - order[0].bytes, incoming, budget);
      (dir', n + 1, used')
  }

  // The rows that may go: all but that of `keep`, least recently used first.
  ghost function Candidates(dir: Dir, keep: Cid): seq<Entry> { ByUse(dir.entries - {keep}) }

  // A downloaded blob is put in place and its row written.
  function Stored(dir: Dir, e: Entry): Dir {
    Dir(dir.entries[e.cid := e], dir.blobs + {e.cid},
        dir.life.(misses := dir.life.misses + 1, bytesDownloaded := dir.life.bytesDownloaded + e.bytes))
  }

  // The second section of `fetch`, after a download that fits the budget.
  ghost function Insert(dir: Dir, budget: nat, cid: Cid, bytes: nat, isDir: bool, modelId: string, now: int): Dir {
    var order := Candidates(dir, cid);
    var (room, n, used) := EvictLoop(dir, order, BytesOf(order), bytes, budget);
    Stored(room, Entry(cid, bytes, isDir, now, now, 0, modelId))
  }

  function EvictRow(dir: Dir, cid: Cid): (Dir, bool) {
    if cid !in dir.entries then (dir, false) else (DropRow(dir, cid, dir.entries[cid].bytes), true)
  }

  function Clear(dir: Dir): (Dir, nat) {
    (Dir(map[], dir.blobs - dir.entries.Keys, dir.life), |dir.entries|)
  }

  // ---------------------------------------------------------------- the recency list

  // What the cache means: items from least to most recently used.
  datatype Item = Item(cid: Cid, bytes: nat)

  type Shelf = seq<Item>

  function Items(order: seq<Entry>): (shelf: Shelf)
    ensures |shelf| == |order|
  {
    seq(|order|, i requires 0 <= i < |order| => Item(order[i].cid, order[i].bytes))
  }

  ghost function Abstract(dir: Dir): Shelf { Items(ByUse(dir.entries)) }

  function ShelfBytes(shelf: Shelf): nat {
    if |shelf| == 0 then 0 else shelf[0].bytes + ShelfBytes(shelf[1..])
  }

  function Without(shelf: Shelf, cid: Cid): Shelf {
    if |shelf| == 0 then []
    else if shelf[0].cid == cid then Without(shelf[1..], cid)
    else [shelf[0]] + Without(shelf[1..], cid)
  }

  // The items of a cid, moved to the recent end.
  function Touch(shelf: Shelf, cid: Cid): Shelf {
    Without(shelf, cid) + Only(shelf, cid)
  }

  function Only(shelf: Shelf, cid: Cid): Shelf {
    if |shelf| == 0 then []
    else if shelf[0].cid == cid then [shelf[0]] + Only(shelf[1..], cid)
    else Only(shelf[1..], cid)
  }

  // How many items have to go from the old end for the rest to fit in `room`.
  function Cut(shelf: Shelf, room: int): (k: nat)
    ensures k <= |shelf|
  {
    if |shelf| == 0 || ShelfBytes(shelf) <= room then 0 else 1 + Cut(shelf[1..], room)
  }

  function Put(shelf: Shelf, budget: nat, cid: Cid, bytes: nat): Shelf {
    var others := Without(shelf, cid);
    others[Cut(others, budget - bytes)..] + [Item(cid, bytes)]
  }

  // The prefix that goes is the shortest one that makes room.
  lemma {:induction false} CutIsShortest(shelf: Shelf, room: nat)
    ensures ShelfBytes(shelf[Cut(shelf, room)..]) <= room
    ensures forall k :: 0 <= k < Cut(shelf, room) ==> ShelfBytes(shelf[k..]) > room
    decreases |shelf|
  {
    if |shelf| > 0 && ShelfBytes(shelf) > room {
      CutIsShortest(shelf[1..], room);
      assert shelf[1..][Cut(shelf[1..], room)..] == shelf[Cut(shelf, room)..];
      forall k | 0 <= k < Cut(shelf, room) ensures ShelfBytes(shelf[k..]) > room {
        if k > 0 {
          assert shelf[k..] == shelf[1..][k - 1..];
        } else {
          assert shelf[0..] == shelf;
        }
      }
    } else {
      assert shelf[0..] == shelf;
    }
  }
}
