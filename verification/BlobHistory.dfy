// What becomes of a sealed blob when ids clash: edgegrid/da.py, `submit_blob`,
// `seal_block`, `_load`, `inclusion_proof`, `verify_blob`.
//
// The runs here stay in one namespace and submit text; nothing else is asked of them, so
// a submission may well take the id of a sealed blob.

module BlobHistory {
  import opened BlobStore
  import opened ByteStrings
  import opened MerkleProof
  import opened MerkleTree

  // ---------------------------------------------------------------- when ids are the same

  // What an id says of the place of its blob: index and height, run together.
  function PlaceText(i: nat, h: nat): string { Decimal(i) + Decimal(h) }

  predicate SameId(env: Env, ns: Bytes, d: Bytes, i: nat, h: nat, d': Bytes, i': nat, h': nat) {
    OwnId(env, ns, d, i, h) == OwnId(env, ns, d', i', h')
  }

  // Nothing that a run can hash collides: `used` are its blobs, and no index or height
  // exceeds `limit`.
  ghost predicate CollisionFree(env: Env, ns: Bytes, used: set<Bytes>, limit: nat) {
    && (forall d, d' :: d in used && d' in used && env.sha(d) == env.sha(d') ==> d == d')
    && (forall d, d', i: nat, i': nat, h: nat, h': nat ::
          SameId(env, ns, d, i, h, d', i', h') && d in used && d' in used &&
          i <= limit && i' <= limit && h <= limit && h' <= limit ==>
          IdInput(ns, ToHex(env.sha(d)), i, h) == IdInput(ns, ToHex(env.sha(d')), i', h'))
  }

  predicate AllStored(env: Env, used: set<Bytes>) {
    forall d :: d in used ==> env.stored(d) == d
  }

  lemma {:induction false} DecimalIsAscii(n: nat)
    ensures forall k :: 0 <= k < |Decimal(n)| ==> '0' <= Decimal(n)[k] <= '9'
    decreases n
  {
    if n >= 10 {
      DecimalIsAscii(n / 10);
    }
  }

  lemma NarrowInjective(a: string, b: string)
    requires forall k :: 0 <= k < |a| ==> a[k] as int < 256
    requires forall k :: 0 <= k < |b| ==> b[k] as int < 256
    requires Ascii(a) == Ascii(b)
    ensures a == b
  {
    assert |a| == |Ascii(a)| == |Ascii(b)| == |b|;
    forall k | 0 <= k < |a| ensures a[k] == b[k] {
      assert Ascii(a)[k] == Ascii(b)[k];
    }
  }

  lemma InputSplits(ns: Bytes, c: string, i: nat, h: nat)
    ensures IdInput(ns, c, i, h) == ns + Ascii(c) + Ascii(PlaceText(i, h))
  {
    assert Ascii(PlaceText(i, h)) == Ascii(Decimal(i)) + Ascii(Decimal(h));
  }

  lemma {:induction false} SameInputs(ns: Bytes, c: Digest, c': Digest, i: nat, i': nat, h: nat, h': nat)
    requires IdInput(ns, ToHex(c), i, h) == IdInput(ns, ToHex(c'), i', h')
    ensures c == c' && PlaceText(i, h) == PlaceText(i', h')
  {
    var x, y := IdInput(ns, ToHex(c), i, h), IdInput(ns, ToHex(c'), i', h');
    FromHexInvertsToHex(c);
    FromHexInvertsToHex(c');
    InputSplits(ns, ToHex(c), i, h);
    InputSplits(ns, ToHex(c'), i', h');
    var n := |ns|;
    assert x[n..n + 64] == Ascii(ToHex(c)) && y[n..n + 64] == Ascii(ToHex(c'));
    assert x[n + 64..] == Ascii(PlaceText(i, h)) && y[n + 64..] == Ascii(PlaceText(i', h'));
    HexAsciiInjective(c, c');
    DecimalIsAscii(i);
    DecimalIsAscii(h);
    DecimalIsAscii(i');
    DecimalIsAscii(h');
    NarrowInjective(PlaceText(i, h), PlaceText(i', h'));
  }

  lemma {:induction false} HexAsciiInjective(c: Digest, c': Digest)
    requires Ascii(ToHex(c)) == Ascii(ToHex(c'))
    ensures c == c'
  {
    HexIsAscii(c);
    HexIsAscii(c');
    NarrowInjective(ToHex(c), ToHex(c'));
    ToHexInjective(c, c');
  }

  lemma {:induction false} HexIsAscii(b: Bytes)
    ensures forall k :: 0 <= k < |ToHex(b)| ==> ToHex(b)[k] as int < 256
    decreases |b|
  {
    if |b| > 0 {
      HexIsAscii(b[1..]);
      HexDigitIsAscii(b[0] as int / 16);
      HexDigitIsAscii(b[0] as int % 16);
    }
  }

  lemma HexDigitIsAscii(n: int)
    requires 0 <= n < 16
    ensures HexDigit(n) as int < 256
  {
  }

  // Two blobs get one id exactly when they are the same bytes, at places whose index and
  // height run together into the same digits.
  lemma SameIdExactlyWhen(env: Env, ns: Bytes, used: set<Bytes>, limit: nat, d: Bytes, i: nat, h: nat,
                          d': Bytes, i': nat, h': nat)
    requires CollisionFree(env, ns, used, limit) && d in used && d' in used
    requires i <= limit && h <= limit && i' <= limit && h' <= limit
    ensures OwnId(env, ns, d, i, h) == OwnId(env, ns, d', i', h') <==>
            d == d' && PlaceText(i, h) == PlaceText(i', h')
  {
    if SameId(env, ns, d, i, h, d', i', h') {
      SameInputs(ns, env.sha(d), env.sha(d'), i, i', h, h');
    }
    if d == d' && PlaceText(i, h) == PlaceText(i', h') {
      InputSplits(ns, ToHex(env.sha(d)), i, h);
      InputSplits(ns, ToHex(env.sha(d)), i', h');
    }
  }

  // ---------------------------------------------------------------- what a run leaves behind

  // The data of the sealed batches, which the store itself keeps only as roots and ids.
  function BatchesOf(env: Env, events: seq<Event>): map<nat, seq<Bytes>> {
    if |events| == 0 then map[]
    else
      var before := events[..|events| - 1];
      NextBatches(Run(env, EMPTY, before), BatchesOf(env, before), events[|events| - 1])
  }

  function NextBatches(s: Store, batches: map<nat, seq<Bytes>>, e: Event): map<nat, seq<Bytes>> {
    if e.DoSeal? && |s.pending| > 0 then batches[s.height + 1 := PendingData(s)] else batches
  }

  // A run in one namespace, of blobs from `used`.
  predicate OneSource(events: seq<Event>, ns: Bytes, used: set<Bytes>) {
    forall k :: 0 <= k < |events| && events[k].DoSubmit? ==> events[k].namespace == ns && events[k].data in used
  }

  // A file names its own blob, at the place written in it.
  ghost predicate SelfNamed(env: Env, ns: Bytes, used: set<Bytes>, limit: nat, id: string, f: BlobFile) {
    && f.data in used && f.index <= limit && f.height <= limit
    && id == OwnId(env, ns, f.data, f.index, f.height)
  }

  ghost predicate BlockHolds(env: Env, ns: Bytes, used: set<Bytes>, limit: nat, ids: set<string>, block: Block,
                             batch: seq<Bytes>, h: nat) {
    && h <= limit && |block.ids| == |batch| <= limit + 1 && block.root == ToHex(Root(env.sha, batch))
    && forall k :: 0 <= k < |batch| ==>
         batch[k] in used && block.ids[k] == OwnId(env, ns, batch[k], k, h) && block.ids[k] in ids
  }

  ghost predicate BlocksHold(env: Env, ns: Bytes, used: set<Bytes>, limit: nat, ids: set<string>,
                             blocks: map<nat, Block>, batches: map<nat, seq<Bytes>>) {
    && batches.Keys == blocks.Keys
    && forall h :: h in blocks ==> BlockHolds(env, ns, used, limit, ids, blocks[h], batches[h], h)
  }

  ghost predicate FilesNamed(env: Env, ns: Bytes, used: set<Bytes>, limit: nat, files: map<string, BlobFile>) {
    forall id :: id in files ==> SelfNamed(env, ns, used, limit, id, files[id])
  }

  ghost predicate PendingNamed(env: Env, ns: Bytes, used: set<Bytes>, s: Store) {
    forall i :: 0 <= i < |s.pending| ==>
      && s.pending[i].id in s.files && s.pending[i].data in used
      && s.pending[i].id == OwnId(env, ns, s.pending[i].data, i, s.height + 1)
  }

  ghost predicate Logged(s: Store) {
    && s.blocks == LoadBlocks(s.chain) && s.height == LoadHeight(s.chain)
    && forall h :: h in s.blocks ==> h <= s.height
  }

  ghost predicate History(env: Env, ns: Bytes, used: set<Bytes>, limit: nat, s: Store, batches: map<nat, seq<Bytes>>) {
    && Logged(s) && s.height < limit && |s.pending| <= limit
    && BlocksHold(env, ns, used, limit, s.files.Keys, s.blocks, batches)
    && FilesNamed(env, ns, used, limit, s.files)
    && PendingNamed(env, ns, used, s)
  }

  lemma BlocksHoldOn(env: Env, ns: Bytes, used: set<Bytes>, limit: nat, ids: set<string>, ids': set<string>,
                     block: Block, batch: seq<Bytes>, h: nat)
    requires BlockHolds(env, ns, used, limit, ids, block, batch, h) && ids <= ids'
    ensures BlockHolds(env, ns, used, limit, ids', block, batch, h)
  {
  }

  lemma NewFileIsNamed(env: Env, ns: Bytes, used: set<Bytes>, limit: nat, s: Store, data: Bytes)
    requires AllStored(env, used) && data in used && |s.pending| <= limit && s.height < limit
    ensures var b := NewBlob(env, s, data, ns);
            && b.id == OwnId(env, ns, data, |s.pending|, s.height + 1) && b.data == data
            && SelfNamed(env, ns, used, limit, b.id, FileOf(env, b))
  {
  }

  lemma SubmitPends(env: Env, ns: Bytes, used: set<Bytes>, s: Store, data: Bytes)
    requires PendingNamed(env, ns, used, s) && data in used
    ensures PendingNamed(env, ns, used, Submit(env, s, data, ns))
  {
    var t, b := Submit(env, s, data, ns), NewBlob(env, s, data, ns);
    assert b.id == OwnId(env, ns, data, |s.pending|, s.height + 1);
    forall i | 0 <= i < |t.pending|
      ensures t.pending[i].id in t.files && t.pending[i].data in used
              && t.pending[i].id == OwnId(env, ns, t.pending[i].data, i, t.height + 1)
    {
      assert t.pending[i] == if i < |s.pending| then s.pending[i] else b;
    }
  }

  lemma SubmitHistory(env: Env, ns: Bytes, used: set<Bytes>, limit: nat, s: Store, batches: map<nat, seq<Bytes>>,
                      data: Bytes)
    requires AllStored(env, used) && History(env, ns, used, limit, s, batches)
    requires data in used && |s.pending| < limit
    ensures History(env, ns, used, limit, Submit(env, s, data, ns), batches)
  {
    var t := Submit(env, s, data, ns);
    NewFileIsNamed(env, ns, used, limit, s, data);
    SubmitPends(env, ns, used, s, data);
    forall h | h in t.blocks ensures BlockHolds(env, ns, used, limit, t.files.Keys, t.blocks[h], batches[h], h) {
      BlocksHoldOn(env, ns, used, limit, s.files.Keys, t.files.Keys, s.blocks[h], batches[h], h);
    }
  }

  lemma SameIdSameData(env: Env, ns: Bytes, used: set<Bytes>, limit: nat, id: string, f: BlobFile, d: Bytes,
                       i: nat, h: nat)
    requires CollisionFree(env, ns, used, limit) && SelfNamed(env, ns, used, limit, id, f)
    requires d in used && i <= limit && h <= limit && id == OwnId(env, ns, d, i, h)
    ensures f.data == d
  {
    SameIdExactlyWhen(env, ns, used, limit, f.data, f.index, f.height, d, i, h);
  }

  // A file that is moved to the place of a pending blob of its id still names its blob.
  lemma MovedIsNamed(env: Env, ns: Bytes, used: set<Bytes>, limit: nat, id: string, f: BlobFile, d: Bytes,
                     i: nat, h: nat)
    requires CollisionFree(env, ns, used, limit) && SelfNamed(env, ns, used, limit, id, f)
    requires d in used && i <= limit && h <= limit && id == OwnId(env, ns, d, i, h)
    ensures SelfNamed(env, ns, used, limit, id, f.(height := h, index := i))
  {
    SameIdSameData(env, ns, used, limit, id, f, d, i, h);
  }

  lemma PlacedIsNamed(env: Env, ns: Bytes, used: set<Bytes>, limit: nat, s: Store, id: string)
    requires CollisionFree(env, ns, used, limit) && s.height < limit && |s.pending| <= limit
    requires PendingNamed(env, ns, used, s) && id in s.files && SelfNamed(env, ns, used, limit, id, s.files[id])
    ensures var files := PlacedFiles(s.files, PendingIds(s), s.height + 1);
            id in files && SelfNamed(env, ns, used, limit, id, files[id])
  {
    var i := PlacedAt(s.files, PendingIds(s), s.height + 1, id);
    FileIsNamed(env, ns, used, limit, s, id, i, PlacedFiles(s.files, PendingIds(s), s.height + 1)[id]);
  }

  lemma FileIsNamed(env: Env, ns: Bytes, used: set<Bytes>, limit: nat, s: Store, id: string, i: nat, f: BlobFile)
    requires CollisionFree(env, ns, used, limit) && s.height < limit && |s.pending| <= limit
    requires PendingNamed(env, ns, used, s) && id in s.files && SelfNamed(env, ns, used, limit, id, s.files[id])
    requires id in PendingIds(s) ==> i < |s.pending| && PendingIds(s)[i] == id
    requires f == if id in PendingIds(s) then s.files[id].(height := s.height + 1, index := i) else s.files[id]
    ensures SelfNamed(env, ns, used, limit, id, f)
  {
    if id in PendingIds(s) {
      PendingNames(env, ns, used, s, i);
      MovedIsNamed(env, ns, used, limit, id, s.files[id], s.pending[i].data, i, s.height + 1);
    }
  }

  lemma PendingNames(env: Env, ns: Bytes, used: set<Bytes>, s: Store, i: nat)
    requires PendingNamed(env, ns, used, s) && i < |s.pending|
    ensures s.pending[i].data in used
    ensures PendingIds(s)[i] == OwnId(env, ns, s.pending[i].data, i, s.height + 1)
  {
  }

  lemma SealLogged(env: Env, s: Store)
    requires Logged(s)
    ensures Logged(Seal(env, s))
  {
    if |s.pending| > 0 {
      assert Seal(env, s).chain[..|s.chain|] == s.chain;
    }
  }

  function NewBlock(env: Env, s: Store): Block {
    Block(s.height + 1, ToHex(Root(env.sha, PendingData(s))), PendingIds(s))
  }

  lemma NewBlockHolds(env: Env, ns: Bytes, used: set<Bytes>, limit: nat, s: Store)
    requires PendingNamed(env, ns, used, s) && s.height < limit && |s.pending| <= limit
    ensures BlockHolds(env, ns, used, limit, s.files.Keys, NewBlock(env, s), PendingData(s), s.height + 1)
  {
    forall k | 0 <= k < |s.pending|
      ensures PendingData(s)[k] in used && PendingIds(s)[k] in s.files
              && PendingIds(s)[k] == OwnId(env, ns, PendingData(s)[k], k, s.height + 1)
    {
      assert PendingIds(s)[k] == s.pending[k].id && PendingData(s)[k] == s.pending[k].data;
    }
  }

  // What a seal changes, for a state `t` of which only that is known.
  predicate Seals(s: Store, t: Store, block: Block) {
    && t.pending == [] && t.height == s.height + 1 && t.blocks == s.blocks[s.height + 1 := block]
    && t.files == PlacedFiles(s.files, PendingIds(s), s.height + 1)
  }

  lemma SealSeals(env: Env, s: Store)
    requires |s.pending| > 0
    ensures Seals(s, Seal(env, s), NewBlock(env, s))
  {
  }

  lemma SealedFileIsNamed(env: Env, ns: Bytes, used: set<Bytes>, limit: nat, s: Store, t: Store, block: Block,
                          id: string)
    requires CollisionFree(env, ns, used, limit) && s.height < limit && |s.pending| <= limit
    requires PendingNamed(env, ns, used, s) && Seals(s, t, block)
    requires id in s.files && SelfNamed(env, ns, used, limit, id, s.files[id])
    ensures id in t.files && SelfNamed(env, ns, used, limit, id, t.files[id])
  {
    PlacedIsNamed(env, ns, used, limit, s, id);
  }

  lemma SealedFiles(env: Env, ns: Bytes, used: set<Bytes>, limit: nat, s: Store, t: Store, block: Block)
    requires CollisionFree(env, ns, used, limit) && s.height < limit && |s.pending| <= limit
    requires PendingNamed(env, ns, used, s) && Seals(s, t, block)
    requires FilesNamed(env, ns, used, limit, s.files)
    ensures t.files.Keys == s.files.Keys && FilesNamed(env, ns, used, limit, t.files)
  {
    SealedKeys(s, t, block);
    forall id | id in t.files ensures SelfNamed(env, ns, used, limit, id, t.files[id]) {
      assert id in s.files.Keys;
      SealedFileIsNamed(env, ns, used, limit, s, t, block, id);
    }
  }

  lemma SealedKeys(s: Store, t: Store, block: Block)
    requires Seals(s, t, block) && forall k :: 0 <= k < |s.pending| ==> s.pending[k].id in s.files
    ensures t.files.Keys == s.files.Keys
  {
    PlacedKeys(s.files, PendingIds(s), s.height + 1);
  }

  lemma SealedBlocks(env: Env, ns: Bytes, used: set<Bytes>, limit: nat, ids: set<string>, s: Store, t: Store,
                     block: Block, batches: map<nat, seq<Bytes>>, batch: seq<Bytes>)
    requires BlocksHold(env, ns, used, limit, ids, s.blocks, batches) && Seals(s, t, block)
    requires BlockHolds(env, ns, used, limit, ids, block, batch, s.height + 1)
    ensures BlocksHold(env, ns, used, limit, ids, t.blocks, batches[s.height + 1 := batch])
  {
    OneMoreBlock(env, ns, used, limit, ids, s.blocks, batches, s.height + 1, block, batch);
  }

  lemma NothingPends(env: Env, ns: Bytes, used: set<Bytes>, limit: nat, ids: set<string>, t: Store,
                     batches: map<nat, seq<Bytes>>)
    requires t.pending == [] && t.height < limit && Logged(t) && FilesNamed(env, ns, used, limit, t.files)
    requires ids == t.files.Keys && BlocksHold(env, ns, used, limit, ids, t.blocks, batches)
    ensures History(env, ns, used, limit, t, batches)
  {
  }

  lemma SealedHistory(env: Env, ns: Bytes, used: set<Bytes>, limit: nat, s: Store, t: Store, block: Block,
                      batches: map<nat, seq<Bytes>>, batch: seq<Bytes>)
    requires CollisionFree(env, ns, used, limit) && History(env, ns, used, limit, s, batches)
    requires s.height + 1 < limit && Seals(s, t, block) && Logged(t)
    requires BlockHolds(env, ns, used, limit, s.files.Keys, block, batch, s.height + 1)
    ensures History(env, ns, used, limit, t, batches[s.height + 1 := batch])
  {
    SealedFiles(env, ns, used, limit, s, t, block);
    SealedBlocks(env, ns, used, limit, s.files.Keys, s, t, block, batches, batch);
    NothingPends(env, ns, used, limit, s.files.Keys, t, batches[s.height + 1 := batch]);
  }

  lemma OneMoreBlock(env: Env, ns: Bytes, used: set<Bytes>, limit: nat, ids: set<string>, blocks: map<nat, Block>,
                     batches: map<nat, seq<Bytes>>, h: nat, block: Block, batch: seq<Bytes>)
    requires BlocksHold(env, ns, used, limit, ids, blocks, batches)
    requires BlockHolds(env, ns, used, limit, ids, block, batch, h)
    ensures BlocksHold(env, ns, used, limit, ids, blocks[h := block], batches[h := batch])
  {
    var blocks', batches' := blocks[h := block], batches[h := batch];
    forall k | k in blocks' ensures BlockHolds(env, ns, used, limit, ids, blocks'[k], batches'[k], k) {
      if k != h {
        assert blocks'[k] == blocks[k] && batches'[k] == batches[k];
      }
    }
  }

  lemma SealHistory(env: Env, ns: Bytes, used: set<Bytes>, limit: nat, s: Store, batches: map<nat, seq<Bytes>>)
    requires CollisionFree(env, ns, used, limit)
    requires History(env, ns, used, limit, s, batches) && s.height + 1 < limit && |s.pending| > 0
    ensures History(env, ns, used, limit, Seal(env, s), batches[s.height + 1 := PendingData(s)])
  {
    SealLogged(env, s);
    SealSeals(env, s);
    NewBlockHolds(env, ns, used, limit, s);
    SealedHistory(env, ns, used, limit, s, Seal(env, s), NewBlock(env, s), batches, PendingData(s));
  }

  lemma SourceOfFront(events: seq<Event>, ns: Bytes, used: set<Bytes>)
    requires |events| > 0 && OneSource(events, ns, used)
    ensures OneSource(events[..|events| - 1], ns, used)
    ensures var e := events[|events| - 1]; e.DoSubmit? ==> e.namespace == ns && e.data in used
  {
  }

  lemma {:induction false} LastStep(env: Env, events: seq<Event>)
    requires |events| > 0
    ensures var s, e := Run(env, EMPTY, events[..|events| - 1]), events[|events| - 1];
            && Run(env, EMPTY, events) == Apply(env, s, e)
            && BatchesOf(env, events) == NextBatches(s, BatchesOf(env, events[..|events| - 1]), e)
  {
  }

  // The history after one more event, from a state `s` of which only the history is known.
  lemma StepHistory(env: Env, ns: Bytes, used: set<Bytes>, limit: nat, s: Store, batches: map<nat, seq<Bytes>>,
                    e: Event)
    requires CollisionFree(env, ns, used, limit) && AllStored(env, used)
    requires e.DoSubmit? ==> e.namespace == ns && e.data in used
    requires History(env, ns, used, limit, s, batches) && s.height + |s.pending| + 1 < limit
    ensures History(env, ns, used, limit, Apply(env, s, e), NextBatches(s, batches, e))
  {
    match e {
      case DoSubmit(data, namespace) => SubmitHistory(env, ns, used, limit, s, batches, data);
      case DoSeal => SealStepHistory(env, ns, used, limit, s, batches);
      case DoReopen => ReopenHistory(env, ns, used, limit, s, batches);
    }
  }

  lemma SealStepHistory(env: Env, ns: Bytes, used: set<Bytes>, limit: nat, s: Store, batches: map<nat, seq<Bytes>>)
    requires CollisionFree(env, ns, used, limit)
    requires History(env, ns, used, limit, s, batches) && s.height + 1 < limit
    ensures History(env, ns, used, limit, Seal(env, s), NextBatches(s, batches, DoSeal))
  {
    if |s.pending| > 0 {
      SealHistory(env, ns, used, limit, s, batches);
    } else {
      assert Seal(env, s) == s;
    }
  }

  lemma ReopenHistory(env: Env, ns: Bytes, used: set<Bytes>, limit: nat, s: Store, batches: map<nat, seq<Bytes>>)
    requires History(env, ns, used, limit, s, batches)
    ensures History(env, ns, used, limit, Reopen(s.files, s.chain), batches)
  {
  }

  lemma StepGrows(env: Env, s: Store, e: Event)
    requires s.height == LoadHeight(s.chain)
    ensures Apply(env, s, e).height + |Apply(env, s, e).pending| <= s.height + |s.pending| + 1
  {
  }

  lemma EmptyHistory(env: Env, ns: Bytes, used: set<Bytes>, limit: nat)
    requires limit > 0
    ensures History(env, ns, used, limit, EMPTY, map[])
  {
  }

  lemma {:induction false} RunHistory(env: Env, ns: Bytes, used: set<Bytes>, limit: nat, events: seq<Event>)
    requires CollisionFree(env, ns, used, limit) && AllStored(env, used) && OneSource(events, ns, used)
    requires |events| < limit
    ensures History(env, ns, used, limit, Run(env, EMPTY, events), BatchesOf(env, events))
    ensures Run(env, EMPTY, events).height + |Run(env, EMPTY, events).pending| <= |events|
    decreases |events|
  {
    if |events| > 0 {
      var before, last := events[..|events| - 1], events[|events| - 1];
      SourceOfFront(events, ns, used);
      RunHistory(env, ns, used, limit, before);
      LastStep(env, events);
      StepGrows(env, Run(env, EMPTY, before), last);
      StepHistory(env, ns, used, limit, Run(env, EMPTY, before), BatchesOf(env, before), last);
    } else {
      EmptyHistory(env, ns, used, limit);
    }
  }

  // ---------------------------------------------------------------- when a blob verifies

  // The place written in the file of a blob is in a block, and the block has the blob there.
  predicate AtHome(s: Store, id: string) {
    id in s.files
    && var f := s.files[id];
       f.height in s.blocks && f.index < |s.blocks[f.height].ids| && s.blocks[f.height].ids[f.index] == id
  }

  lemma BlockLeaves(env: Env, ns: Bytes, used: set<Bytes>, limit: nat, s: Store, batches: map<nat, seq<Bytes>>, h: nat)
    requires CollisionFree(env, ns, used, limit) && History(env, ns, used, limit, s, batches) && h in s.blocks
    ensures StoredLeaves(s, s.blocks[h].ids) == Some(batches[h])
  {
    var ids := s.blocks[h].ids;
    assert BlockHolds(env, ns, used, limit, s.files.Keys, s.blocks[h], batches[h], h);
    forall k | 0 <= k < |ids| ensures ids[k] in s.files && s.files[ids[k]].data == batches[h][k] {
      SameIdSameData(env, ns, used, limit, ids[k], s.files[ids[k]], batches[h][k], k, h);
    }
    assert StoredLeaves(s, ids).Some?;
    assert StoredLeaves(s, ids).value == batches[h];
  }

  // The id at the place of a file is that of the file exactly when the data there are its.
  lemma HomeMeansData(env: Env, ns: Bytes, used: set<Bytes>, limit: nat, s: Store, batches: map<nat, seq<Bytes>>,
                      id: string)
    requires CollisionFree(env, ns, used, limit) && History(env, ns, used, limit, s, batches) && id in s.files
    requires var f := s.files[id]; f.height in s.blocks && f.index < |batches[f.height]|
    ensures var f := s.files[id]; AtHome(s, id) <==> batches[f.height][f.index] == f.data
  {
    var f := s.files[id];
    assert BlockHolds(env, ns, used, limit, s.files.Keys, s.blocks[f.height], batches[f.height], f.height);
    SameIdExactlyWhen(env, ns, used, limit, f.data, f.index, f.height, batches[f.height][f.index], f.index, f.height);
  }

  // A proof for the leaf at a place, climbed from other data, does not reach the root.
  ghost predicate ClimbCollision(env: Env, batch: seq<Bytes>, i: nat, d: Bytes)
    requires i < |batch|
  {
    var path := Path(env.sha, LeafHashes(env.sha, batch), i);
    Collision(env.sha, ProofInputs(env.sha, d, path), ProofInputs(env.sha, batch[i], path))
  }

  lemma {:induction false} ClimbInjective(sha: Hash, a: Bytes, b: Bytes, proof: seq<Step>)
    requires Climb(sha, LeafHash(sha, a), proof).Some?
    requires Climb(sha, LeafHash(sha, a), proof) == Climb(sha, LeafHash(sha, b), proof)
    ensures a == b || Collision(sha, ProofInputs(sha, a, proof), ProofInputs(sha, b, proof))
    decreases |proof|
  {
    var xs, ys := ProofInputs(sha, a, proof), ProofInputs(sha, b, proof);
    if |proof| == 0 {
      if a != b {
        assert LeafInput(a)[1..] == a && LeafInput(b)[1..] == b;
        CollisionFound(sha, xs, ys, LeafInput(a), LeafInput(b));
      }
    } else {
      var before, last := proof[..|proof| - 1], proof[|proof| - 1];
      var x := Climb(sha, LeafHash(sha, a), before).value;
      var y := Climb(sha, LeafHash(sha, b), before).value;
      var sibling := FromHex(last.sibling).value;
      if x == y {
        ClimbInjective(sha, a, b, before);
        if a != b {
          CollisionMonotone(sha, ProofInputs(sha, a, before), ProofInputs(sha, b, before), xs, ys);
        }
      } else {
        ClimbInputFixes(x, y, last.side, sibling);
        CollisionFound(sha, xs, ys, ClimbInput(x, last.side, sibling), ClimbInput(y, last.side, sibling));
      }
    }
  }

  lemma ClimbInputFixes(x: Digest, y: Digest, side: string, sibling: Bytes)
    requires x != y
    ensures ClimbInput(x, side, sibling) != ClimbInput(y, side, sibling)
  {
    var a, b := ClimbInput(x, side, sibling), ClimbInput(y, side, sibling);
    if side == "L" {
      assert a[1 + |sibling|..] == x && b[1 + |sibling|..] == y;
    } else {
      assert a[1..33] == x && b[1..33] == y;
    }
  }

  lemma {:induction false} PathRejectsOthers(env: Env, batch: seq<Bytes>, i: nat, d: Bytes)
    requires i < |batch|
    ensures var path := Path(env.sha, LeafHashes(env.sha, batch), i);
            Accepts(env.sha, d, path, ToHex(Root(env.sha, batch))) ==> d == batch[i] || ClimbCollision(env, batch, i, d)
  {
    var path := Path(env.sha, LeafHashes(env.sha, batch), i);
    if Accepts(env.sha, d, path, ToHex(Root(env.sha, batch))) {
      PathClimbs(env.sha, LeafHashes(env.sha, batch), i);
      ToHexInjective(Climb(env.sha, LeafHash(env.sha, d), path).value, Root(env.sha, batch));
      ClimbInjective(env.sha, d, batch[i], path);
    }
  }

  // The answer of `verify_blob` for a blob against its own hash, once the leaves are known.
  lemma AnswerFromLeaves(env: Env, s: Store, id: string, leaves: seq<Bytes>)
    requires id in s.files && s.files[id].height in s.blocks
    requires StoredLeaves(s, s.blocks[s.files[id].height].ids) == Some(leaves)
    ensures var f := s.files[id];
            VerifyBlob(env, s, id, ToHex(env.sha(f.data))) ==
            if f.index >= |leaves| then None
            else Some(Accepts(env.sha, f.data, Path(env.sha, LeafHashes(env.sha, leaves), f.index),
                              s.blocks[f.height].root))
  {
  }

  lemma AnswerInBlock(env: Env, ns: Bytes, used: set<Bytes>, limit: nat, s: Store, batches: map<nat, seq<Bytes>>,
                      id: string)
    requires CollisionFree(env, ns, used, limit) && History(env, ns, used, limit, s, batches)
    requires id in s.files && s.files[id].height in s.blocks
    ensures var f := s.files[id];
            var batch := batches[f.height];
            VerifyBlob(env, s, id, ToHex(env.sha(f.data))) ==
            if f.index >= |batch| then None
            else Some(Accepts(env.sha, f.data, Path(env.sha, LeafHashes(env.sha, batch), f.index),
                              ToHex(Root(env.sha, batch))))
  {
    var h := s.files[id].height;
    BlockLeaves(env, ns, used, limit, s, batches, h);
    AnswerFromLeaves(env, s, id, batches[h]);
    assert BlockHolds(env, ns, used, limit, s.files.Keys, s.blocks[h], batches[h], h);
  }

  // What `verify_blob` answers for a blob that the store knows, against its own hash: false
  // while its place is in no block, a raised error when the block there is shorter, and
  // else whether the block has the blob at that place.
  lemma AnswersByPlace(env: Env, ns: Bytes, used: set<Bytes>, limit: nat, s: Store, batches: map<nat, seq<Bytes>>,
                       id: string)
    requires CollisionFree(env, ns, used, limit) && History(env, ns, used, limit, s, batches) && id in s.files
    ensures var f := s.files[id];
            var answer := VerifyBlob(env, s, id, ToHex(env.sha(f.data)));
            if f.height !in s.blocks then answer == Some(false)
            else if f.index >= |batches[f.height]| then answer == None
            else && answer.Some? && (AtHome(s, id) ==> answer.value)
                 && (answer.value ==> AtHome(s, id) || ClimbCollision(env, batches[f.height], f.index, f.data))
  {
    var f := s.files[id];
    if f.height in s.blocks {
      AnswerInBlock(env, ns, used, limit, s, batches, id);
      if f.index < |batches[f.height]| {
        HomeMeansData(env, ns, used, limit, s, batches, id);
        ProofCompleteness(env.sha, batches[f.height], f.index);
        PathRejectsOthers(env, batches[f.height], f.index, f.data);
      }
    }
  }
}
