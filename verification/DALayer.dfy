// The store as an object: edgegrid/da.py, class `DALayer`.

module DALayer {
  import opened ByteStrings
  import opened MerkleTree
  import opened MerkleProof
  import opened BlobStore

  class DALayer {
    const env: Env

    var pending: seq<Blob>
    var blocks: map<nat, Block>
    var height: nat
    var files: map<string, BlobFile>
    var chain: seq<Block>

    function View(): Store
      reads this
    {
      Store(pending, blocks, height, files, chain)
    }

    // Every pending blob has its file.
    predicate Valid()
      reads this
    {
      forall i :: 0 <= i < |pending| ==> pending[i].id in files
    }

    // Opening a directory replays the block log in it.
    constructor (env: Env, files: map<string, BlobFile>, chain: seq<Block>)
      ensures this.env == env && Valid() && View() == Reopen(files, chain)
    {
      this.env := env;
      this.files, this.chain := files, chain;
      pending, blocks, height := [], map[], 0;
      new;
      for k := 0 to |chain|
        invariant this.files == files && this.chain == chain && pending == []
        invariant blocks == LoadBlocks(chain[..k]) && height == LoadHeight(chain[..k])
      {
        assert chain[..k + 1][..k] == chain[..k];
        blocks := blocks[chain[k].height := chain[k]];
        if chain[k].height > height {
          height := chain[k].height;
        }
      }
      assert chain[..|chain|] == chain;
    }

    // A blob that is sealed at once is read again from its file, which says where it is.
    method SubmitBlob(data: Bytes, namespace: Bytes, seal: bool) returns (blob: Blob)
      requires Valid()
      modifies this
      ensures Valid()
      ensures blob.id == NewBlob(env, old(View()), data, namespace).id
      ensures View() == if seal then Seal(env, Submit(env, old(View()), data, namespace))
                        else Submit(env, old(View()), data, namespace)
      ensures if seal then BlobMeta(View(), blob.id) == Some(blob)
              else blob == NewBlob(env, old(View()), data, namespace)
      ensures seal ==>
                && blob.height == height && height in blocks
                && blob.index < |blocks[height].ids| && blocks[height].ids[blob.index] == blob.id
    {
      var commitment := ToHex(env.sha(data));
      var id := BlobId(env.sha, namespace, commitment, |pending|, height + 1);
      blob := Blob(id, namespace, height + 1, |pending|, data, commitment);
      pending := pending + [blob];
      files := files[id := BlobFile(namespace, blob.height, blob.index, env.stored(data), commitment)];
      if seal {
        ghost var before := View();
        var _ := SealBlock();
        SealPlaces(env, before, |before.pending| - 1);
        blob := BlobMeta(View(), id).value;
      }
    }

    method SealBlock() returns (block: Option<Block>)
      requires Valid()
      modifies this
      ensures Valid() && View() == Seal(env, old(View()))
      ensures block == if old(pending) == [] then None else Some(blocks[height])
    {
      if pending == [] {
        return None;
      }
      height := height + 1;
      var leaves := PendingData(View());
      var root := MerkleRoot(env.sha, leaves);
      var ids := PendingIds(View());
      block := Some(Block(height, ToHex(root), ids));
      blocks := blocks[height := block.value];
      PlaceFiles(ids);
      chain := chain + [block.value];
      pending := [];
    }

    // Each blob of the new block gets its height and position written into its file.
    method PlaceFiles(ids: seq<string>)
      requires forall i :: 0 <= i < |ids| ==> ids[i] in files
      modifies this`files
      ensures files == PlacedFiles(old(files), ids, height)
    {
      for i := 0 to |ids|
        invariant files == PlacedFiles(old(files), ids[..i], height) && files.Keys == old(files).Keys
      {
        assert ids[..i + 1][..i] == ids[..i];
        files := files[ids[i] := files[ids[i]].(height := height, index := i)];
      }
      assert ids[..|ids|] == ids;
    }

    method ProveInclusion(id: string) returns (answer: ProofAnswer)
      ensures answer == InclusionProof(env, View(), id)
    {
      if id !in files || files[id].height !in blocks {
        return Absent;
      }
      var block := blocks[files[id].height];
      var leaves: seq<Bytes> := [];
      for i := 0 to |block.ids|
        invariant |leaves| == i
        invariant forall k :: 0 <= k < i ==> block.ids[k] in files && leaves[k] == files[block.ids[k]].data
      {
        if block.ids[i] !in files {
          return Absent;
        }
        leaves := leaves + [files[block.ids[i]].data];
      }
      assert StoredLeaves(View(), block.ids).Some? && StoredLeaves(View(), block.ids).value == leaves;
      var path := MerkleProofFor(env.sha, leaves, files[id].index);
      answer := if path.None? then OutOfRange else Found(path.value, block.root);
    }

    method VerifyBlob(id: string, expected: string) returns (ok: Option<bool>)
      ensures ok == BlobStore.VerifyBlob(env, View(), id, expected)
    {
      if id !in files || ToHex(env.sha(files[id].data)) != expected {
        return Some(false);
      }
      var answer := ProveInclusion(id);
      match answer {
        case Absent => ok := Some(false);
        case OutOfRange => ok := None;
        case Found(proof, root) =>
          var accepted := VerifyProof(env.sha, files[id].data, proof, root);
          ok := Some(accepted);
      }
    }
  }
}
