// What each operation of the store writes and answers, entry by entry: edgegrid/da.py,
// class `DALayer`.

module BlobEntries {
  import opened BlobStore
  import opened ByteStrings
  import opened MerkleProof
  import opened MerkleTree

  // ---------------------------------------------------------------- numbers as text

  // The number that decimal digits stand for; `None` for other text.
  function NumberOf(text: string): Option<nat> {
    if text == "" then Some(0)
    else
      var n, d := |text| - 1, text[|text| - 1];
      match NumberOf(text[..n])
      case None => None
      case Some(high) => if '0' <= d <= '9' then Some(high * 10 + (d as int - '0' as int)) else None
  }

  // Read back, and without leading zeros.
  lemma {:induction false} DecimalReads(n: nat)
    ensures NumberOf(Decimal(n)) == Some(n) && Decimal(n) != ""
    ensures n > 0 ==> Decimal(n)[0] != '0'
    ensures n < 10 ==> |Decimal(n)| == 1
    decreases n
  {
    DecimalDigitIs(n % 10);
    if n >= 10 {
      DecimalReads(n / 10);
      var front := Decimal(n / 10);
      assert Decimal(n)[..|front|] == front;
    }
  }

  // One byte a character, the code of the character.
  lemma AsciiAt(s: string, k: nat)
    requires k < |s| && s[k] as int < 128
    ensures |Ascii(s)| == |s| && Ascii(s)[k] as int == s[k] as int
  {
  }

  // ---------------------------------------------------------------- submissions

  lemma {:induction false} ToHexFront(b: Bytes, n: nat)
    requires n <= |b|
    ensures |ToHex(b)| == 2 * |b| && ToHex(b)[..2 * n] == ToHex(b[..n])
  {
    FromHexInvertsToHex(b);
    if n > 0 {
      ToHexFront(b[1..], n - 1);
      assert b[1..][..n - 1] == b[..n][1..];
      assert ToHex(b)[..2 * n] == ToHex(b)[..2] + ToHex(b[1..])[..2 * (n - 1)];
    }
  }

  // The id is half the digest of the namespace, the hash of the data as text, the place in
  // the batch and the next height; the file holds the data as stored, and that place.
  lemma SubmitWrites(env: Env, s: Store, data: Bytes, namespace: Bytes)
    ensures
      var t, hash, i, h := Submit(env, s, data, namespace), ToHex(env.sha(data)), |s.pending|, s.height + 1;
      var id := ToHex(env.sha(namespace + Ascii(hash) + Ascii(Decimal(i)) + Ascii(Decimal(h)))[..16]);
      && t.pending == s.pending + [Blob(id, namespace, h, i, data, hash)]
      && t.files == s.files[id := BlobFile(namespace, h, i, env.stored(data), hash)]
      && t.blocks == s.blocks && t.height == s.height && t.chain == s.chain
  {
    var hash, i, h := ToHex(env.sha(data)), |s.pending|, s.height + 1;
    ToHexFront(env.sha(namespace + Ascii(hash) + Ascii(Decimal(i)) + Ascii(Decimal(h))), 16);
  }

  // ---------------------------------------------------------------- seals

  // The last place of an id in a batch.
  predicate LastAt(ids: seq<string>, id: string, i: int) {
    && 0 <= i < |ids| && ids[i] == id
    && forall k :: i < k < |ids| ==> ids[k] != id
  }

  lemma {:induction false} PlacedLast(files: map<string, BlobFile>, ids: seq<string>, height: nat, id: string, i: nat)
    requires LastAt(ids, id, i) && id in files
    ensures id in PlacedFiles(files, ids, height)
    ensures PlacedFiles(files, ids, height)[id] ==
            BlobFile(files[id].namespace, height, i, files[id].data, files[id].commitment)
    decreases |ids|
  {
    var front := ids[..|ids| - 1];
    if i < |front| {
      PlacedLast(files, front, height, id, i);
    } else {
      PlacedSome(files, front, height, id);
    }
  }

  lemma {:induction false} PlacedSome(files: map<string, BlobFile>, ids: seq<string>, height: nat, id: string)
    ensures var placed := PlacedFiles(files, ids, height);
            && (id in placed <==> id in files)
            && (id in files ==> placed[id] == files[id].(height := placed[id].height, index := placed[id].index))
            && (id in files && id !in ids ==> placed[id] == files[id])
    decreases |ids|
  {
    if |ids| > 0 {
      PlacedSome(files, ids[..|ids| - 1], height, id);
    }
  }

  // A seal makes the pending batch the next block, logs it, and writes the place of each blob
  // into its file: the last one, for an id that the batch has twice.
  lemma SealWrites(env: Env, s: Store, id: string)
    ensures var t, h, n := Seal(env, s), s.height + 1, |s.pending|;
            if n == 0 then t == s
            else
              var block := Block(h, ToHex(Root(env.sha, seq(n, i requires 0 <= i < n => s.pending[i].data))),
                                 seq(n, i requires 0 <= i < n => s.pending[i].id));
              && t.pending == [] && t.height == h && t.blocks == s.blocks[h := block] && t.chain == s.chain + [block]
              && (id in t.files <==> id in s.files)
              && (id in s.files && id !in block.ids ==> t.files[id] == s.files[id])
              && (forall i :: LastAt(block.ids, id, i) && id in s.files ==>
                    t.files[id] == BlobFile(s.files[id].namespace, h, i, s.files[id].data, s.files[id].commitment))
  {
    var n, h := |s.pending|, s.height + 1;
    assert PendingData(s) == seq(n, i requires 0 <= i < n => s.pending[i].data);
    assert PendingIds(s) == seq(n, i requires 0 <= i < n => s.pending[i].id);
    PlacedSome(s.files, PendingIds(s), h, id);
    forall i | LastAt(PendingIds(s), id, i) && id in s.files
      ensures PlacedFiles(s.files, PendingIds(s), h)[id] ==
              BlobFile(s.files[id].namespace, h, i, s.files[id].data, s.files[id].commitment)
    {
      PlacedLast(s.files, PendingIds(s), h, id, i);
    }
  }

  // ---------------------------------------------------------------- opening a directory

  predicate LastLogged(chain: seq<Block>, h: nat, i: int) {
    && 0 <= i < |chain| && chain[i].height == h
    && forall k :: i < k < |chain| ==> chain[k].height != h
  }

  lemma {:induction false} LoadedAt(chain: seq<Block>, h: nat, i: int)
    requires LastLogged(chain, h, i)
    ensures h in LoadBlocks(chain) && LoadBlocks(chain)[h] == chain[i]
    decreases |chain|
  {
    if i < |chain| - 1 {
      LoadedAt(chain[..|chain| - 1], h, i);
    }
  }

  lemma {:induction false} LoadedNone(chain: seq<Block>, h: nat)
    requires forall k :: 0 <= k < |chain| ==> chain[k].height != h
    ensures h !in LoadBlocks(chain)
    decreases |chain|
  {
    if |chain| > 0 {
      LoadedNone(chain[..|chain| - 1], h);
    }
  }

  lemma {:induction false} LoadedHeight(chain: seq<Block>, k: nat)
    requires k < |chain|
    ensures LoadHeight(chain) >= chain[k].height
    ensures exists i :: 0 <= i < |chain| && chain[i].height == LoadHeight(chain)
    decreases |chain|
  {
    var n := |chain| - 1;
    if n > 0 {
      LoadedHeight(chain[..n], if k < n then k else 0);
      var i :| 0 <= i < n && chain[..n][i].height == LoadHeight(chain[..n]);
      assert chain[i].height == LoadHeight(chain[..n]);
    }
    assert chain[n].height == LoadHeight(chain) || LoadHeight(chain) == LoadHeight(chain[..n]);
  }

  // A directory opened again has the blocks of its log, the later line where two have one
  // height, the greatest height of the log, and nothing pending.
  lemma ReopenReplays(files: map<string, BlobFile>, chain: seq<Block>, h: nat)
    ensures var t := Reopen(files, chain);
            && t.pending == [] && t.files == files && t.chain == chain
            && (forall i :: LastLogged(chain, h, i) ==> h in t.blocks && t.blocks[h] == chain[i])
            && ((forall k :: 0 <= k < |chain| ==> chain[k].height != h) ==> h !in t.blocks)
            && (forall k :: 0 <= k < |chain| ==> chain[k].height <= t.height)
            && (chain == [] ==> t.height == 0)
            && (chain != [] ==> exists i :: 0 <= i < |chain| && chain[i].height == t.height)
  {
    forall i | LastLogged(chain, h, i) ensures h in LoadBlocks(chain) && LoadBlocks(chain)[h] == chain[i] {
      LoadedAt(chain, h, i);
    }
    if forall k :: 0 <= k < |chain| ==> chain[k].height != h {
      LoadedNone(chain, h);
    }
    forall k | 0 <= k < |chain| ensures chain[k].height <= LoadHeight(chain) {
      LoadedHeight(chain, k);
    }
    if chain != [] {
      LoadedHeight(chain, 0);
    }
  }

  // ---------------------------------------------------------------- answers

  // Every file that the proof of a blob needs is there.
  predicate Provable(s: Store, id: string) {
    && id in s.files && s.files[id].height in s.blocks
    && forall i :: 0 <= i < |s.blocks[s.files[id].height].ids| ==> s.blocks[s.files[id].height].ids[i] in s.files
  }

  function LeavesFor(s: Store, id: string): (leaves: seq<Bytes>)
    requires Provable(s, id)
  {
    var ids := s.blocks[s.files[id].height].ids;
    seq(|ids|, i requires 0 <= i < |ids| => s.files[ids[i]].data)
  }

  // A proof is found if and only if all these files are there and the place is in the block.
  // It is a proof of the leaf at that place for the files as they are now, while the root is
  // the one that was sealed.
  lemma ProofAnswers(env: Env, s: Store, id: string)
    ensures var answer := InclusionProof(env, s, id);
            && (answer == Absent <==> !Provable(s, id))
            && (answer == OutOfRange <==> Provable(s, id) && s.files[id].index >= |LeavesFor(s, id)|)
            && (answer.Found? ==>
                  var leaves := LeavesFor(s, id);
                  && answer.root == s.blocks[s.files[id].height].root
                  && Accepts(env.sha, leaves[s.files[id].index], answer.proof, ToHex(Root(env.sha, leaves))))
  {
    if Provable(s, id) {
      var ids, leaves := s.blocks[s.files[id].height].ids, LeavesFor(s, id);
      assert StoredLeaves(s, ids).Some? && StoredLeaves(s, ids).value == leaves;
      if s.files[id].index < |leaves| {
        ProofCompleteness(env.sha, leaves, s.files[id].index);
      }
    }
  }

  // What a verifier may rely on. A blob passes only if its file hashes to what was expected
  // and it is one of the blobs under the sealed root, or a collision is at hand; one whose
  // file does not hash to that never passes, and neither does one without a proof.
  lemma VerifiedIsGenuine(env: Env, s: Store, id: string, expected: string, batch: seq<Bytes>)
    requires VerifyBlob(env, s, id, expected) == Some(true)
    requires s.files[id].height in s.blocks ==>
               s.blocks[s.files[id].height].root == ToHex(Root(env.sha, batch))
    ensures Provable(s, id) && s.files[id].index < |LeavesFor(s, id)|
    ensures ToHex(env.sha(s.files[id].data)) == expected
    ensures var answer := InclusionProof(env, s, id);
            answer.Found? && (s.files[id].data in batch
                              || Collision(env.sha, ProofInputs(env.sha, s.files[id].data, answer.proof),
                                           RootInputs(env.sha, batch)))
  {
    ProofAnswers(env, s, id);
    ProofSoundness(env.sha, batch, s.files[id].data, InclusionProof(env, s, id).proof);
  }

  // The other way about: what passes, what fails and what raises.
  lemma VerifyAnswers(env: Env, s: Store, id: string, expected: string)
    ensures var answer, hashes := VerifyBlob(env, s, id, expected),
                                  id in s.files && ToHex(env.sha(s.files[id].data)) == expected;
            && (answer == None <==> hashes && Provable(s, id) && s.files[id].index >= |LeavesFor(s, id)|)
            && (!hashes || !Provable(s, id) ==> answer == Some(false))
            && (hashes && Provable(s, id) && s.files[id].index < |LeavesFor(s, id)|
                && LeavesFor(s, id)[s.files[id].index] == s.files[id].data ==>
                  (answer == Some(true) <==>
                     s.blocks[s.files[id].height].root == ToHex(Root(env.sha, LeavesFor(s, id)))))
  {
    ProofAnswers(env, s, id);
  }

  // A blob is read as its file has it.
  lemma MetaReadsFile(s: Store, id: string, b: Blob)
    ensures BlobMeta(s, id) == Some(b) <==>
            && id in s.files && b.id == id
            && s.files[id] == BlobFile(b.namespace, b.height, b.index, b.data, b.commitment)
  {
  }
}
