// The data-availability store: edgegrid/da.py, class `DALayer`.

module BlobStore {
  import opened ByteStrings
  import opened MerkleTree
  import opened MerkleProof

  // ---------------------------------------------------------------- entities

  // What the store relies on: SHA-256, and what a round trip through a JSON text file
  // makes of a blob (decoding as UTF-8 with replacement, then encoding again).
  datatype Env = Env(sha: Hash, stored: Bytes -> Bytes)

  datatype Blob = Blob(id: string, namespace: Bytes, height: nat, index: nat, data: Bytes, commitment: string)

  datatype BlobFile = BlobFile(namespace: Bytes, height: nat, index: nat, data: Bytes, commitment: string)

  datatype Block = Block(height: nat, root: string, ids: seq<string>)

  // `files` and `chain` are on disk; the rest is rebuilt when the store is opened.
  datatype Store = Store(
    pending: seq<Blob>, blocks: map<nat, Block>, height: nat, files: map<string, BlobFile>, chain: seq<Block>)

  // ---------------------------------------------------------------- blob ids

  function Ascii(s: string): (b: Bytes)
    ensures |b| == |s|
  {
    seq(|s|, i requires 0 <= i < |s| => (s[i] as int % 256) as byte)
  }

  function Decimal(n: nat): string {
    if n < 10 then [DecimalDigit(n)] else Decimal(n / 10) + [DecimalDigit(n % 10)]
  }

  function DecimalDigit(d: nat): char
    requires d < 10
  {
    "0123456789"[d]
  }

  function IdInput(namespace: Bytes, commitment: string, index: nat, height: nat): Bytes {
    namespace + Ascii(commitment) + Ascii(Decimal(index)) + Ascii(Decimal(height))
  }

  function TruncatedHash(sha: Hash, x: Bytes): (id: string) {
    FromHexInvertsToHex(sha(x));
    ToHex(sha(x))[..32]
  }

  function BlobId(sha: Hash, namespace: Bytes, commitment: string, index: nat, height: nat): string {
    TruncatedHash(sha, IdInput(namespace, commitment, index, height))
  }

  // ---------------------------------------------------------------- operations

  function NewBlob(env: Env, s: Store, data: Bytes, namespace: Bytes): Blob {
    var commitment := ToHex(env.sha(data));
    Blob(BlobId(env.sha, namespace, commitment, |s.pending|, s.height + 1), namespace, s.height + 1, |s.pending|,
         data, commitment)
  }

  function FileOf(env: Env, b: Blob): BlobFile {
    BlobFile(b.namespace, b.height, b.index, env.stored(b.data), b.commitment)
  }

  function Submit(env: Env, s: Store, data: Bytes, namespace: Bytes): Store {
    var b := NewBlob(env, s, data, namespace);
    s.(pending := s.pending + [b], files := s.files[b.id := FileOf(env, b)])
  }

  function PendingData(s: Store): seq<Bytes> {
    seq(|s.pending|, i requires 0 <= i < |s.pending| => s.pending[i].data)
  }

  function PendingIds(s: Store): seq<string> {
    seq(|s.pending|, i requires 0 <= i < |s.pending| => s.pending[i].id)
  }

  // The files with heights and positions written in, for the first blobs of a batch.
  function PlacedFiles(files: map<string, BlobFile>, ids: seq<string>, height: nat): map<string, BlobFile> {
    if ids == [] then files
    else
      var i := |ids| - 1;
      var placed := PlacedFiles(files, ids[..i], height);
      if ids[i] in placed then placed[ids[i] := placed[ids[i]].(height := height, index := i)] else placed
  }

  function Seal(env: Env, s: Store): Store {
    if s.pending == [] then s
    else
      var block := Block(s.height + 1, ToHex(Root(env.sha, PendingData(s))), PendingIds(s));
      Store([], s.blocks[block.height := block], block.height,
            PlacedFiles(s.files, PendingIds(s), block.height), s.chain + [block])
  }

  function LoadBlocks(chain: seq<Block>): map<nat, Block> {
    if chain == [] then map[]
    else
      var last := chain[|chain| - 1];
      LoadBlocks(chain[..|chain| - 1])[last.height := last]
  }

  function LoadHeight(chain: seq<Block>): nat {
    if chain == [] then 0
    else
      var before := LoadHeight(chain[..|chain| - 1]);
      var last := chain[|chain| - 1].height;
      if last > before then last else before
  }

  // A store opened again on the same directory: what was pending is gone.
  function Reopen(files: map<string, BlobFile>, chain: seq<Block>): Store {
    Store([], LoadBlocks(chain), LoadHeight(chain), files, chain)
  }

  // ---------------------------------------------------------------- reading

  // `get_blob_meta`: a blob as its file has it.
  function BlobMeta(s: Store, id: string): Option<Blob> {
    if id !in s.files then None
    else
      var f := s.files[id];
      Some(Blob(id, f.namespace, f.height, f.index, f.data, f.commitment))
  }

  datatype ProofAnswer = Absent | OutOfRange | Found(proof: seq<Step>, root: string)

  function StoredLeaves(s: Store, ids: seq<string>): Option<seq<Bytes>> {
    if forall i :: 0 <= i < |ids| ==> ids[i] in s.files
    then Some(seq(|ids|, i requires 0 <= i < |ids| && ids[i] in s.files => s.files[ids[i]].data))
    else None
  }

  function InclusionProof(env: Env, s: Store, id: string): ProofAnswer {
    if id !in s.files || s.files[id].height !in s.blocks then Absent
    else
      var block := s.blocks[s.files[id].height];
      match StoredLeaves(s, block.ids)
      case None => Absent
      case Some(leaves) =>
        if s.files[id].index >= |leaves| then OutOfRange
        else Found(Path(env.sha, LeafHashes(env.sha, leaves), s.files[id].index), block.root)
  }

  // `verify_blob`; `None` when it raises because the index is out of range.
  function VerifyBlob(env: Env, s: Store, id: string, expected: string): Option<bool> {
    if id !in s.files || ToHex(env.sha(s.files[id].data)) != expected then Some(false)
    else
      match InclusionProof(env, s, id)
      case Absent => Some(false)
      case OutOfRange => None
      case Found(proof, root) => Some(Accepts(env.sha, s.files[id].data, proof, root))
  }

  // ---------------------------------------------------------------- sealed batches

  predicate Distinct(ids: seq<string>) {
    forall i, k :: 0 <= i < k < |ids| ==> ids[i] != ids[k]
  }

  // The batch `batch` is block `h`: its root commits to the data as submitted, and each
  // file holds the stored form of its blob together with its place.
  ghost predicate Sealed(env: Env, s: Store, h: nat, batch: seq<Bytes>) {
    && h in s.blocks
    && s.blocks[h].root == ToHex(Root(env.sha, batch))
    && |s.blocks[h].ids| == |batch|
    && Distinct(s.blocks[h].ids)
    && forall i :: 0 <= i < |batch| ==>
         var id := s.blocks[h].ids[i];
         id in s.files && s.files[id].height == h && s.files[id].index == i && s.files[id].data == env.stored(batch[i])
  }

  // What every state of the store keeps.
  ghost predicate Consistent(env: Env, s: Store) {
    && s.blocks == LoadBlocks(s.chain) && s.height == LoadHeight(s.chain)
    && (forall h :: h in s.blocks ==> h <= s.height)
    && Distinct(PendingIds(s))
    && (forall i :: 0 <= i < |s.pending| ==>
          && s.pending[i].id in s.files
          && s.files[s.pending[i].id].data == env.stored(s.pending[i].data)
          && s.pending[i].commitment == ToHex(env.sha(s.pending[i].data))
          && !InSomeBlock(s, s.pending[i].id))
  }

  predicate InSomeBlock(s: Store, id: string) {
    exists h :: h in s.blocks && id in s.blocks[h].ids
  }

  predicate InBatch(s: Store, id: string) {
    exists i :: 0 <= i < |s.pending| && s.pending[i].id == id
  }

  // The id of a new blob is that of no other blob that counts.
  predicate Fresh(env: Env, s: Store, data: Bytes, namespace: Bytes) {
    var id := NewBlob(env, s, data, namespace).id;
    !InSomeBlock(s, id) && !InBatch(s, id)
  }

  // ---------------------------------------------------------------- every operation

  lemma SubmitKeeps(env: Env, s: Store, data: Bytes, namespace: Bytes)
    requires Consistent(env, s) && Fresh(env, s, data, namespace)
    ensures Consistent(env, Submit(env, s, data, namespace))
    ensures forall h, batch :: Sealed(env, s, h, batch) ==> Sealed(env, Submit(env, s, data, namespace), h, batch)
  {
    var t := Submit(env, s, data, namespace);
    assert forall i :: 0 <= i < |s.pending| ==> PendingIds(t)[i] == PendingIds(s)[i];
    forall h, batch | Sealed(env, s, h, batch) ensures Sealed(env, t, h, batch) {
      forall i | 0 <= i < |batch| ensures s.blocks[h].ids[i] != NewBlob(env, s, data, namespace).id {
        assert s.blocks[h].ids[i] in s.blocks[h].ids;
      }
    }
  }

  // Where the file of a blob of the new block says that it is.
  lemma {:induction false} PlacedAt(files: map<string, BlobFile>, ids: seq<string>, height: nat, id: string)
    returns (i: nat)
    requires forall k :: 0 <= k < |ids| ==> ids[k] in files
    requires id in files
    ensures PlacedFiles(files, ids, height).Keys == files.Keys
    ensures id !in ids ==> PlacedFiles(files, ids, height)[id] == files[id]
    ensures id in ids ==> i < |ids| && ids[i] == id
                          && PlacedFiles(files, ids, height)[id] == files[id].(height := height, index := i)
    decreases |ids|
  {
    i := 0;
    if |ids| > 0 {
      var front, last := ids[..|ids| - 1], |ids| - 1;
      assert ids == front + [ids[last]];
      i := PlacedAt(files, front, height, id);
      if ids[last] == id {
        i := last;
      }
    }
  }

  lemma {:induction false} PlacedKeys(files: map<string, BlobFile>, ids: seq<string>, height: nat)
    requires forall k :: 0 <= k < |ids| ==> ids[k] in files
    ensures PlacedFiles(files, ids, height).Keys == files.Keys
  {
    if |ids| > 0 {
      var i := PlacedAt(files, ids, height, ids[0]);
    }
  }

  // After a seal the file of each blob of the batch names a place of the new block with its id.
  lemma SealPlaces(env: Env, s: Store, k: nat)
    requires k < |s.pending| && forall i :: 0 <= i < |s.pending| ==> s.pending[i].id in s.files
    ensures var t, id := Seal(env, s), s.pending[k].id;
            && t.height in t.blocks && id in t.files && t.files[id].height == t.height
            && t.files[id].index < |t.blocks[t.height].ids| && t.blocks[t.height].ids[t.files[id].index] == id
  {
    var id := s.pending[k].id;
    assert PendingIds(s)[k] == id;
    var i := PlacedAt(s.files, PendingIds(s), s.height + 1, id);
  }

  lemma {:induction false} PlacedFilesMeaning(files: map<string, BlobFile>, ids: seq<string>, height: nat)
    requires Distinct(ids) && forall i :: 0 <= i < |ids| ==> ids[i] in files
    ensures var placed := PlacedFiles(files, ids, height);
            && placed.Keys == files.Keys
            && (forall id :: id in files && id !in ids ==> placed[id] == files[id])
            && (forall i :: 0 <= i < |ids| ==> placed[ids[i]] == files[ids[i]].(height := height, index := i))
  {
    var placed := PlacedFiles(files, ids, height);
    PlacedKeys(files, ids, height);
    forall id | id in files && id !in ids ensures placed[id] == files[id] {
      var _ := PlacedAt(files, ids, height, id);
    }
    forall i | 0 <= i < |ids| ensures placed[ids[i]] == files[ids[i]].(height := height, index := i) {
      var k := PlacedAt(files, ids, height, ids[i]);
    }
  }

  lemma {:induction false} SealIsConsistent(env: Env, s: Store)
    requires Consistent(env, s)
    ensures Consistent(env, Seal(env, s))
  {
    if |s.pending| > 0 {
      assert Seal(env, s).chain[..|s.chain|] == s.chain;
    }
  }

  lemma {:induction false} SealKeepsBatch(env: Env, s: Store, h: nat, batch: seq<Bytes>)
    requires Consistent(env, s) && Sealed(env, s, h, batch)
    ensures Sealed(env, Seal(env, s), h, batch)
  {
    if |s.pending| > 0 {
      forall i | 0 <= i < |batch|
        ensures s.blocks[h].ids[i] in s.files ==>
                s.blocks[h].ids[i] in Seal(env, s).files
                && Seal(env, s).files[s.blocks[h].ids[i]] == s.files[s.blocks[h].ids[i]]
      {
        SealKeepsFile(env, s, h, s.blocks[h].ids[i]);
      }
    }
  }

  lemma SealKeepsFile(env: Env, s: Store, h: nat, id: string)
    requires Consistent(env, s) && |s.pending| > 0 && h in s.blocks && id in s.blocks[h].ids
    ensures id in s.files ==> id in Seal(env, s).files && Seal(env, s).files[id] == s.files[id]
  {
    assert InSomeBlock(s, id);
    if id in s.files {
      var _ := PlacedAt(s.files, PendingIds(s), s.height + 1, id);
    }
  }

  lemma {:induction false} SealSealsBatch(env: Env, s: Store)
    requires Consistent(env, s) && |s.pending| > 0
    ensures Sealed(env, Seal(env, s), s.height + 1, PendingData(s))
  {
    PlacedFilesMeaning(s.files, PendingIds(s), s.height + 1);
  }

  lemma SealKeeps(env: Env, s: Store)
    requires Consistent(env, s)
    ensures Consistent(env, Seal(env, s))
    ensures forall h, batch :: Sealed(env, s, h, batch) ==> Sealed(env, Seal(env, s), h, batch)
    ensures |s.pending| > 0 ==> Sealed(env, Seal(env, s), s.height + 1, PendingData(s))
  {
    SealIsConsistent(env, s);
    forall h, batch | Sealed(env, s, h, batch) ensures Sealed(env, Seal(env, s), h, batch) {
      SealKeepsBatch(env, s, h, batch);
    }
    if |s.pending| > 0 {
      SealSealsBatch(env, s);
    }
  }

  lemma ReopenKeeps(env: Env, s: Store)
    requires Consistent(env, s)
    ensures Consistent(env, Reopen(s.files, s.chain))
    ensures forall h, batch :: Sealed(env, s, h, batch) ==> Sealed(env, Reopen(s.files, s.chain), h, batch)
  {
  }

  // ---------------------------------------------------------------- runs

  datatype Event = DoSubmit(data: Bytes, namespace: Bytes) | DoSeal | DoReopen

  function Apply(env: Env, s: Store, e: Event): Store {
    match e
    case DoSubmit(data, namespace) => Submit(env, s, data, namespace)
    case DoSeal => Seal(env, s)
    case DoReopen => Reopen(s.files, s.chain)
  }

  function Run(env: Env, s: Store, events: seq<Event>): Store {
    if events == [] then s else Apply(env, Run(env, s, events[..|events| - 1]), events[|events| - 1])
  }

  // No submission of the run produces an id that is taken.
  predicate ClashFree(env: Env, s: Store, events: seq<Event>) {
    events == [] ||
    var before := events[..|events| - 1];
    var last := events[|events| - 1];
    ClashFree(env, s, before) && (last.DoSubmit? ==> Fresh(env, Run(env, s, before), last.data, last.namespace))
  }

  const EMPTY := Store([], map[], 0, map[], [])

  lemma {:induction false} RunKeeps(env: Env, s: Store, events: seq<Event>)
    requires Consistent(env, s) && ClashFree(env, s, events)
    ensures Consistent(env, Run(env, s, events))
    ensures forall h, batch :: Sealed(env, s, h, batch) ==> Sealed(env, Run(env, s, events), h, batch)
    decreases |events|
  {
    if events != [] {
      var before, last := events[..|events| - 1], events[|events| - 1];
      RunKeeps(env, s, before);
      var middle := Run(env, s, before);
      match last {
        case DoSubmit(data, namespace) => SubmitKeeps(env, middle, data, namespace);
        case DoSeal => SealKeeps(env, middle);
        case DoReopen => ReopenKeeps(env, middle);
      }
    }
  }

  // ---------------------------------------------------------------- when a sealed blob verifies

  // Every blob of the batch survives the round trip through its text file.
  predicate AllText(env: Env, batch: seq<Bytes>) {
    forall i :: 0 <= i < |batch| ==> env.stored(batch[i]) == batch[i]
  }

  function StoredBatch(env: Env, batch: seq<Bytes>): seq<Bytes> {
    Map(env.stored, batch)
  }

  lemma SealedLeaves(env: Env, s: Store, h: nat, batch: seq<Bytes>)
    requires Sealed(env, s, h, batch)
    ensures StoredLeaves(s, s.blocks[h].ids) == Some(StoredBatch(env, batch))
  {
    assert StoredLeaves(s, s.blocks[h].ids).Some?;
    assert StoredLeaves(s, s.blocks[h].ids).value == StoredBatch(env, batch);
  }

  // Either the whole batch is text, or a collision explains why a blob verifies.
  ghost predicate TextOrCollision(env: Env, batch: seq<Bytes>, i: nat)
    requires i < |batch|
  {
    || AllText(env, batch)
    || Collides(env.sha, env.stored(batch[i]), batch[i])
    || Collision(env.sha, RootInputs(env.sha, StoredBatch(env, batch)), RootInputs(env.sha, batch))
  }

  // A sealed blob verifies against its own hash when the whole block is text. When the
  // block is not, none of its blobs does, unless a collision is exhibited: one blob
  // that does not survive its file takes the proofs of all its neighbours with it.
  lemma SealedBlobVerifies(env: Env, s: Store, h: nat, batch: seq<Bytes>, i: nat)
    requires Sealed(env, s, h, batch) && i < |batch|
    ensures var ok := VerifyBlob(env, s, s.blocks[h].ids[i], ToHex(env.sha(batch[i])));
            && (AllText(env, batch) ==> ok == Some(true))
            && (ok == Some(true) ==> TextOrCollision(env, batch, i))
  {
    var id := s.blocks[h].ids[i];
    var leaves := StoredBatch(env, batch);
    SealedLeaves(env, s, h, batch);
    if AllText(env, batch) {
      assert leaves == batch;
      ProofCompleteness(env.sha, leaves, i);
    } else if VerifyBlob(env, s, id, ToHex(env.sha(batch[i]))) == Some(true) {
      ToHexInjective(env.sha(leaves[i]), env.sha(batch[i]));
      PathClimbs(env.sha, LeafHashes(env.sha, leaves), i);
      ToHexInjective(Root(env.sha, leaves), Root(env.sha, batch));
      RootBinding(env.sha, leaves, batch);
      var k :| 0 <= k < |batch| && env.stored(batch[k]) != batch[k];
      assert leaves[k] != batch[k];
    }
  }

  // The blobs of a batch verify after any later run without id clashes exactly when the
  // batch is text: once sealed, for ever.
  lemma {:induction false} VerifiesForever(env: Env, s: Store, events: seq<Event>, i: nat)
    requires Consistent(env, s) && i < |s.pending|
    requires ClashFree(env, Seal(env, s), events)
    ensures var ok := VerifyBlob(env, Run(env, Seal(env, s), events), s.pending[i].id, s.pending[i].commitment);
            && (AllText(env, PendingData(s)) ==> ok == Some(true))
            && (ok == Some(true) ==> TextOrCollision(env, PendingData(s), i))
  {
    var h, t := s.height + 1, Run(env, Seal(env, s), events);
    SealedSurvives(env, s, events);
    SealedBlobVerifies(env, t, h, PendingData(s), i);
    assert PendingIds(s)[i] == s.pending[i].id;
  }

  lemma {:induction false} SealedSurvives(env: Env, s: Store, events: seq<Event>)
    requires Consistent(env, s) && s.pending != [] && ClashFree(env, Seal(env, s), events)
    ensures var t := Run(env, Seal(env, s), events);
            Sealed(env, t, s.height + 1, PendingData(s)) && t.blocks[s.height + 1].ids == PendingIds(s)
  {
    SealKeeps(env, s);
    RunKeeps(env, Seal(env, s), events);
    BlocksSurvive(env, Seal(env, s), events, s.height + 1);
  }

  // Blocks are append-only.
  lemma {:induction false} BlocksSurvive(env: Env, s: Store, events: seq<Event>, h: nat)
    requires Consistent(env, s) && ClashFree(env, s, events) && h in s.blocks
    ensures h in Run(env, s, events).blocks && Run(env, s, events).blocks[h] == s.blocks[h]
    decreases |events|
  {
    if events != [] {
      BlocksSurvive(env, s, events[..|events| - 1], h);
      RunKeeps(env, s, events[..|events| - 1]);
    }
  }

  // ---------------------------------------------------------------- clashes

  // A submission under the id of a sealed blob takes that blob down at once: its file
  // now points at a block that does not exist.
  lemma ClashBreaksVerification(env: Env, s: Store, h: nat, batch: seq<Bytes>, i: nat, data: Bytes, namespace: Bytes)
    requires Consistent(env, s) && Sealed(env, s, h, batch) && i < |batch|
    requires NewBlob(env, s, data, namespace).id == s.blocks[h].ids[i]
    ensures var t := Submit(env, s, data, namespace);
            VerifyBlob(env, t, s.blocks[h].ids[i], ToHex(env.sha(batch[i]))) == Some(false)
  {
    assert s.height + 1 !in s.blocks;
  }

  lemma {:induction false} DecimalInjective(m: nat, n: nat)
    requires Ascii(Decimal(m)) == Ascii(Decimal(n))
    ensures m == n
    decreases m
  {
    AsciiDecimalEnds(m);
    AsciiDecimalEnds(n);
    if m >= 10 && n >= 10 {
      DecimalInjective(m / 10, n / 10);
    }
  }

  lemma {:induction false} AsciiDecimalEnds(n: nat)
    ensures var a := Ascii(Decimal(n));
            && |a| >= 1 && a[|a| - 1] as int == '0' as int + n % 10
            && (n < 10 ==> |a| == 1)
            && (n >= 10 ==> |a| >= 2 && a[..|a| - 1] == Ascii(Decimal(n / 10)))
  {
    DecimalDigitIs(n % 10);
    if n >= 10 {
      assert Decimal(n)[..|Decimal(n)| - 1] == Decimal(n / 10);
    }
  }

  lemma DecimalDigitIs(d: nat)
    requires d < 10
    ensures DecimalDigit(d) as int == '0' as int + d
  {
  }

  // Within one namespace, positions below ten keep index and height apart.
  lemma IdInputsDiffer(namespace: Bytes, c: string, c': string, i: nat, i': nat, h: nat, h': nat)
    requires |c| == |c'| && i < 10 && i' < 10 && (i != i' || h != h')
    ensures IdInput(namespace, c, i, h) != IdInput(namespace, c', i', h')
  {
    var x, y := IdInput(namespace, c, i, h), IdInput(namespace, c', i', h');
    if x == y {
      var k := |namespace| + |c|;
      assert x[k] == Ascii(Decimal(i))[0] && y[k] == Ascii(Decimal(i'))[0];
      assert x[k + 1..] == Ascii(Decimal(h)) && y[k + 1..] == Ascii(Decimal(h'));
      DecimalInjective(i, i');
      DecimalInjective(h, h');
    }
  }

  // From the eleventh blob of a batch on they run together.
  lemma IdInputsRunTogether(namespace: Bytes, c: string)
    ensures IdInput(namespace, c, 1, 11) == IdInput(namespace, c, 11, 1)
  {
    assert Decimal(11) == "1" + "1" && Decimal(1) == "1";
    assert Ascii(Decimal(1)) + Ascii(Decimal(11)) == Ascii(Decimal(11)) + Ascii(Decimal(1));
    var prefix := namespace + Ascii(c);
    assert IdInput(namespace, c, 1, 11) == prefix + (Ascii(Decimal(1)) + Ascii(Decimal(11)));
    assert IdInput(namespace, c, 11, 1) == prefix + (Ascii(Decimal(11)) + Ascii(Decimal(1)));
  }

  // ---------------------------------------------------------------- runs that cannot clash

  function OwnId(env: Env, namespace: Bytes, data: Bytes, i: nat, h: nat): string {
    BlobId(env.sha, namespace, ToHex(env.sha(data)), i, h)
  }

  // Ids of blobs from `used`, at positions below ten and heights up to `limit`, are the
  // same only when the strings hashed for them are.
  ghost predicate NoIdCollision(env: Env, namespace: Bytes, used: set<Bytes>, limit: nat) {
    forall d, d', i: nat, i': nat, h: nat, h': nat ::
      d in used && d' in used && i < 10 && i' < 10 && h <= limit && h' <= limit &&
      OwnId(env, namespace, d, i, h) == OwnId(env, namespace, d', i', h') ==>
      IdInput(namespace, ToHex(env.sha(d)), i, h) == IdInput(namespace, ToHex(env.sha(d')), i', h')
  }

  ghost predicate IdFrom(env: Env, namespace: Bytes, used: set<Bytes>, id: string, i: nat, h: nat) {
    i < 10 && exists d :: d in used && id == OwnId(env, namespace, d, i, h)
  }

  ghost predicate SingleSource(env: Env, s: Store, namespace: Bytes, used: set<Bytes>) {
    && (forall i :: 0 <= i < |s.pending| ==> IdFrom(env, namespace, used, s.pending[i].id, i, s.height + 1))
    && (forall h, i :: h in s.blocks && 0 <= i < |s.blocks[h].ids| ==>
          IdFrom(env, namespace, used, s.blocks[h].ids[i], i, h))
  }

  // One namespace, and no batch grows beyond ten blobs.
  predicate Modest(env: Env, s: Store, events: seq<Event>, namespace: Bytes, used: set<Bytes>) {
    events == [] ||
    var before := events[..|events| - 1];
    var last := events[|events| - 1];
    && Modest(env, s, before, namespace, used)
    && (last.DoSubmit? ==> last.namespace == namespace && last.data in used && |Run(env, s, before).pending| < 10)
  }

  lemma IdsDiffer(env: Env, namespace: Bytes, used: set<Bytes>, limit: nat, id: string, i: nat, h: nat,
                  data: Bytes, i': nat, h': nat)
    requires NoIdCollision(env, namespace, used, limit)
    requires IdFrom(env, namespace, used, id, i, h) && data in used && i' < 10
    requires h <= limit && h' <= limit && (i != i' || h != h')
    ensures id != OwnId(env, namespace, data, i', h')
  {
    var d :| d in used && id == OwnId(env, namespace, d, i, h);
    FromHexInvertsToHex(env.sha(d));
    FromHexInvertsToHex(env.sha(data));
    IdInputsDiffer(namespace, ToHex(env.sha(d)), ToHex(env.sha(data)), i, i', h, h');
  }

  lemma ModestSubmissionIsFresh(env: Env, s: Store, data: Bytes, namespace: Bytes, used: set<Bytes>, limit: nat)
    requires Consistent(env, s) && SingleSource(env, s, namespace, used)
    requires NoIdCollision(env, namespace, used, limit) && s.height < limit
    requires data in used && |s.pending| < 10
    ensures Fresh(env, s, data, namespace)
  {
    var id := NewBlob(env, s, data, namespace).id;
    assert id == OwnId(env, namespace, data, |s.pending|, s.height + 1);
    forall h | h in s.blocks ensures id !in s.blocks[h].ids {
      forall i | 0 <= i < |s.blocks[h].ids| ensures s.blocks[h].ids[i] != id {
        IdsDiffer(env, namespace, used, limit, s.blocks[h].ids[i], i, h, data, |s.pending|, s.height + 1);
      }
    }
    forall i | 0 <= i < |s.pending| ensures s.pending[i].id != id {
      IdsDiffer(env, namespace, used, limit, s.pending[i].id, i, s.height + 1, data, |s.pending|, s.height + 1);
    }
  }

  lemma SubmitKeepsSource(env: Env, s: Store, data: Bytes, namespace: Bytes, used: set<Bytes>)
    requires SingleSource(env, s, namespace, used) && data in used && |s.pending| < 10
    ensures SingleSource(env, Submit(env, s, data, namespace), namespace, used)
  {
    var t := Submit(env, s, data, namespace);
    assert IdFrom(env, namespace, used, t.pending[|s.pending|].id, |s.pending|, s.height + 1);
  }

  lemma SealKeepsSource(env: Env, s: Store, namespace: Bytes, used: set<Bytes>)
    requires Consistent(env, s) && SingleSource(env, s, namespace, used)
    ensures SingleSource(env, Seal(env, s), namespace, used)
    ensures SingleSource(env, Reopen(s.files, s.chain), namespace, used)
    ensures Reopen(s.files, s.chain).height == s.height <= Seal(env, s).height <= s.height + 1
  {
  }

  // Runs that stay in one namespace and seal at least every ten blobs never clash, as
  // long as no two different id strings have digests that agree in their first half.
  lemma {:induction false} ModestRunsNeverClash(env: Env, events: seq<Event>, namespace: Bytes, used: set<Bytes>,
                                                limit: nat)
    requires Modest(env, EMPTY, events, namespace, used) && NoIdCollision(env, namespace, used, limit)
    requires |events| <= limit
    ensures ClashFree(env, EMPTY, events)
    ensures SingleSource(env, Run(env, EMPTY, events), namespace, used)
    ensures Run(env, EMPTY, events).height <= |events|
    decreases |events|
  {
    if events != [] {
      var before, last := events[..|events| - 1], events[|events| - 1];
      ModestRunsNeverClash(env, before, namespace, used, limit);
      RunKeeps(env, EMPTY, before);
      var s := Run(env, EMPTY, before);
      if last.DoSubmit? {
        ModestSubmissionIsFresh(env, s, last.data, namespace, used, limit);
        SubmitKeepsSource(env, s, last.data, namespace, used);
      } else {
        SealKeepsSource(env, s, namespace, used);
      }
    }
  }
}
