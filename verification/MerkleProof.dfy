// Inclusion proofs: edgegrid/da.py, `merkle_root`, `merkle_proof`, `verify_proof`.

module MerkleProof {
  import opened ByteStrings
  import opened MerkleTree

  // One entry of a proof: a side label and a sibling in hexadecimal.
  datatype Step = Step(side: string, sibling: string)

  // ---------------------------------------------------------------- verification

  function ClimbInput(h: Bytes, side: string, sibling: Bytes): Bytes {
    if side == "L" then NodeInput(sibling, h) else NodeInput(h, sibling)
  }

  // The digest reached from `h` through the whole proof, `None` when a sibling is
  // not hexadecimal. Siblings may have any length.
  function Climb(sha: Hash, h: Digest, proof: seq<Step>): Option<Digest> {
    if proof == [] then Some(h)
    else
      var last := proof[|proof| - 1];
      match (Climb(sha, h, proof[..|proof| - 1]), FromHex(last.sibling))
      case (Some(below), Some(sibling)) => Some(sha(ClimbInput(below, last.side, sibling)))
      case _ => None
  }

  predicate Accepts(sha: Hash, data: Bytes, proof: seq<Step>, rootHex: string) {
    match Climb(sha, LeafHash(sha, data), proof)
    case Some(h) => ToHex(h) == rootHex
    case None => false
  }

  // The strings hashed while `verify_proof(data, proof, ...)` runs.
  function ProofInputs(sha: Hash, data: Bytes, proof: seq<Step>): set<Bytes> {
    if proof == [] then {LeafInput(data)}
    else
      var last := proof[|proof| - 1];
      var before := proof[..|proof| - 1];
      ProofInputs(sha, data, before) +
      match (Climb(sha, LeafHash(sha, data), before), FromHex(last.sibling))
      case (Some(below), Some(sibling)) => {ClimbInput(below, last.side, sibling)}
      case _ => {}
  }

  method VerifyProof(sha: Hash, data: Bytes, proof: seq<Step>, rootHex: string) returns (ok: bool)
    ensures ok == Accepts(sha, data, proof, rootHex)
  {
    var h := LeafHash(sha, data);
    for k := 0 to |proof|
      invariant Climb(sha, LeafHash(sha, data), proof[..k]) == Some(h)
    {
      assert proof[..k + 1][..k] == proof[..k];
      var sibling := FromHex(proof[k].sibling);
      if sibling.None? {
        ClimbStuck(sha, LeafHash(sha, data), proof, k + 1);
        return false;
      }
      h := if proof[k].side == "L" then NodeHash(sha, sibling.value, h) else NodeHash(sha, h, sibling.value);
    }
    assert proof[..|proof|] == proof;
    ok := ToHex(h) == rootHex;
  }

  // What is hashed on the way, byte by byte: the data alone, and then under each entry the
  // sibling before what was reached so far if its label is L, and after it otherwise.
  lemma {:induction false} AcceptsByteByByte(sha: Hash, data: Bytes, proof: seq<Step>, last: Step, h: Digest)
    ensures Accepts(sha, data, [], ToHex(sha([0] + data)))
    ensures Climb(sha, sha([0] + data), proof) == Some(h) && FromHex(last.sibling).Some? ==>
              var sibling := FromHex(last.sibling).value;
              var reached := if last.side == "L" then sha([1] + sibling + h) else sha([1] + h + sibling);
              forall rootHex :: Accepts(sha, data, proof + [last], rootHex) <==> rootHex == ToHex(reached)
    ensures FromHex(last.sibling).None? ==> forall rootHex :: !Accepts(sha, data, proof + [last], rootHex)
  {
    assert (proof + [last])[..|proof|] == proof;
  }

  lemma {:induction false} ClimbStuck(sha: Hash, h: Digest, proof: seq<Step>, k: nat)
    requires k <= |proof| && Climb(sha, h, proof[..k]).None?
    ensures Climb(sha, h, proof).None?
    decreases |proof|
  {
    if k == |proof| {
      assert proof[..k] == proof;
    } else {
      var before := proof[..|proof| - 1];
      assert before[..k] == proof[..k];
      ClimbStuck(sha, h, before, k);
    }
  }

  // ---------------------------------------------------------------- soundness

  // Whatever climbs to the hash of a tree started at a leaf of that tree, or the
  // climb and the tree hash a collision between them.
  lemma {:induction false} ClimbIsSound(sha: Hash, data: Bytes, proof: seq<Step>, t: Tree)
    requires Climb(sha, LeafHash(sha, data), proof) == Some(HashTree(sha, t))
    ensures data in LeavesOf(t) || Collision(sha, ProofInputs(sha, data, proof), HashedBy(sha, t))
    decreases |proof|
  {
    var y := TopInput(sha, t);
    if proof == [] {
      var x := LeafInput(data);
      if x != y {
        CollisionFound(sha, ProofInputs(sha, data, proof), HashedBy(sha, t), x, y);
      } else {
        assert x[0] == 0 && x[1..] == data;
        assert t.Leaf? && t.data == y[1..];
      }
    } else {
      var last := proof[|proof| - 1];
      var before := proof[..|proof| - 1];
      var below := Climb(sha, LeafHash(sha, data), before).value;
      var sibling := FromHex(last.sibling).value;
      var x := ClimbInput(below, last.side, sibling);
      if x != y {
        CollisionFound(sha, ProofInputs(sha, data, proof), HashedBy(sha, t), x, y);
      } else {
        assert x[0] == 1;
        assert t.Node?;
        var l, r := HashTree(sha, t.left), HashTree(sha, t.right);
        assert y[1..33] == l && y[33..] == r && |sibling| == 32;
        var child := if last.side == "L" then t.right else t.left;
        if last.side == "L" {
          assert x[33..] == below;
        } else {
          assert x[1..33] == below;
        }
        ClimbIsSound(sha, data, before, child);
        if data !in LeavesOf(t) {
          CollisionMonotone(sha, ProofInputs(sha, data, before), HashedBy(sha, child),
                            ProofInputs(sha, data, proof), HashedBy(sha, t));
        }
      }
    }
  }

  // An accepted proof against a block root is about a blob of that block. Nothing is
  // asked of the proof: any length, any labels, siblings of any length.
  lemma {:induction false} ProofSoundness(sha: Hash, leaves: seq<Bytes>, data: Bytes, proof: seq<Step>)
    requires Accepts(sha, data, proof, ToHex(Root(sha, leaves)))
    ensures data in leaves || Collision(sha, ProofInputs(sha, data, proof), RootInputs(sha, leaves))
  {
    var h := Climb(sha, LeafHash(sha, data), proof).value;
    ToHexInjective(h, Root(sha, leaves));
    if leaves == [] {
      var x := LastInput(sha, data, proof);
      CollisionFound(sha, ProofInputs(sha, data, proof), RootInputs(sha, leaves), x, []);
    } else {
      RootIsTreeHash(sha, leaves);
      ClimbIsSound(sha, data, proof, TreeOf(leaves));
      if data in LeavesOf(TreeOf(leaves)) {
        TreeHoldsLeaves(leaves, data);
      }
    }
  }

  function LastInput(sha: Hash, data: Bytes, proof: seq<Step>): (x: Bytes)
    requires Climb(sha, LeafHash(sha, data), proof).Some?
    ensures x in ProofInputs(sha, data, proof) && x != []
    ensures Some(sha(x)) == Climb(sha, LeafHash(sha, data), proof)
  {
    if proof == [] then LeafInput(data)
    else
      var last := proof[|proof| - 1];
      ClimbInput(Climb(sha, LeafHash(sha, data), proof[..|proof| - 1]).value, last.side,
                 FromHex(last.sibling).value)
  }

  // ---------------------------------------------------------------- completeness

  function SiblingIndex(size: nat, idx: nat): nat
    requires idx < size
  {
    var sib := if idx % 2 == 0 then idx + 1 else idx - 1;
    if sib >= size then idx else sib
  }

  function StepAt(level: seq<Digest>, idx: nat): Step
    requires idx < |level|
  {
    var sib := SiblingIndex(|level|, idx);
    Step(if sib > idx then "R" else "L", ToHex(level[sib]))
  }

  // The siblings met from position `idx` of a level up to the root.
  function Path(sha: Hash, level: seq<Digest>, idx: nat): seq<Step>
    requires idx < |level|
    decreases |level|
  {
    if |level| == 1 then []
    else [StepAt(level, idx)] + Path(sha, Next(level, NodeHasher(sha)), idx / 2)
  }

  lemma {:induction false} ClimbFirst(sha: Hash, h: Digest, first: Step, rest: seq<Step>, sibling: Bytes)
    requires FromHex(first.sibling) == Some(sibling)
    ensures Climb(sha, h, [first] + rest) == Climb(sha, sha(ClimbInput(h, first.side, sibling)), rest)
    decreases |rest|
  {
    var proof := [first] + rest;
    if rest == [] {
      assert proof[..0] == [];
      assert Climb(sha, h, []) == Some(h);
    } else {
      ClimbFirst(sha, h, first, rest[..|rest| - 1], sibling);
      assert proof[..|proof| - 1] == [first] + rest[..|rest| - 1];
    }
  }

  // One step of a path joins a node with the sibling the level pass joins it with.
  lemma StepJoins(sha: Hash, level: seq<Digest>, idx: nat)
    requires idx < |level|
    ensures idx / 2 < |Next(level, NodeHasher(sha))|
    ensures var sibling := level[SiblingIndex(|level|, idx)];
            && FromHex(StepAt(level, idx).sibling) == Some(sibling)
            && sha(ClimbInput(level[idx], StepAt(level, idx).side, sibling)) == Next(level, NodeHasher(sha))[idx / 2]
            && (if idx % 2 == 0 then NodeHash(sha, level[idx], sibling) else NodeHash(sha, sibling, level[idx]))
               == Next(level, NodeHasher(sha))[idx / 2]
  {
    var sibling := level[SiblingIndex(|level|, idx)];
    FromHexInvertsToHex(sibling);
    var i := idx / 2;
    var joined := NodeHash(sha, level[2 * i], if 2 * i + 1 < |level| then level[2 * i + 1] else level[2 * i]);
    assert Next(level, NodeHasher(sha))[i] == joined;
    if idx % 2 == 0 {
      assert idx == 2 * i;
    } else {
      assert idx == 2 * i + 1 && SiblingIndex(|level|, idx) == 2 * i;
    }
  }

  lemma {:induction false} PathClimbs(sha: Hash, level: seq<Digest>, idx: nat)
    requires idx < |level|
    ensures Climb(sha, level[idx], Path(sha, level, idx)) == Some(Collapse(level, NodeHasher(sha)))
    decreases |level|
  {
    if |level| > 1 {
      var next := Next(level, NodeHasher(sha));
      var step := StepAt(level, idx);
      var sibling := level[SiblingIndex(|level|, idx)];
      StepJoins(sha, level, idx);
      ClimbFirst(sha, level[idx], step, Path(sha, next, idx / 2), sibling);
      PathClimbs(sha, next, idx / 2);
    }
  }

  // Every blob of every block has a proof that is accepted.
  lemma {:induction false} ProofCompleteness(sha: Hash, leaves: seq<Bytes>, index: nat)
    requires index < |leaves|
    ensures Accepts(sha, leaves[index], Path(sha, LeafHashes(sha, leaves), index), ToHex(Root(sha, leaves)))
  {
    PathClimbs(sha, LeafHashes(sha, leaves), index);
  }

  // ---------------------------------------------------------------- index folding

  // The contract's fold: no labels, the side is the next bit of the leaf index.
  function FoldByIndex(sha: Hash, h: Digest, idx: nat, siblings: seq<Bytes>): Digest
    decreases |siblings|
  {
    if siblings == [] then h
    else
      var h' := if idx % 2 == 0 then sha([1] + h + siblings[0]) else sha([1] + siblings[0] + h);
      FoldByIndex(sha, h', idx / 2, siblings[1..])
  }

  function Siblings(proof: seq<Step>): Option<seq<Bytes>> {
    if proof == [] then Some([])
    else
      match (FromHex(proof[0].sibling), Siblings(proof[1..]))
      case (Some(first), Some(rest)) => Some([first] + rest)
      case _ => None
  }

  lemma {:induction false} PathFoldsByIndex(sha: Hash, level: seq<Digest>, idx: nat)
    requires idx < |level|
    ensures var siblings := Siblings(Path(sha, level, idx));
            siblings.Some? && FoldByIndex(sha, level[idx], idx, siblings.value) == Collapse(level, NodeHasher(sha))
    decreases |level|
  {
    if |level| > 1 {
      var next := Next(level, NodeHasher(sha));
      var sibling := level[SiblingIndex(|level|, idx)];
      StepJoins(sha, level, idx);
      PathFoldsByIndex(sha, next, idx / 2);
      var path := Path(sha, level, idx);
      assert path[1..] == Path(sha, next, idx / 2);
      var siblings := Siblings(path).value;
      assert siblings[0] == sibling && siblings[1..] == Siblings(path[1..]).value;
    }
  }

  // Dropping the labels of a proof loses nothing: the bits of the leaf index lead to
  // the same root, although a tail joined with itself carries the label "L" where its
  // bit says right.
  lemma {:induction false} LabelsAreRedundant(sha: Hash, leaves: seq<Bytes>, index: nat)
    requires index < |leaves|
    ensures var path := Path(sha, LeafHashes(sha, leaves), index);
            && Siblings(path).Some?
            && FoldByIndex(sha, sha([0] + leaves[index]), index, Siblings(path).value) == Root(sha, leaves)
            && Climb(sha, LeafHash(sha, leaves[index]), path) == Some(Root(sha, leaves))
  {
    PathFoldsByIndex(sha, LeafHashes(sha, leaves), index);
    PathClimbs(sha, LeafHashes(sha, leaves), index);
  }

  // ---------------------------------------------------------------- the loops of the code

  method NextLevel(sha: Hash, level: seq<Digest>) returns (nxt: seq<Digest>)
    ensures nxt == Next(level, NodeHasher(sha))
  {
    nxt := [];
    var i := 0;
    while i < |level|
      invariant i % 2 == 0 && 0 <= i <= |level| + 1
      invariant |nxt| == i / 2
      invariant nxt == Next(level, NodeHasher(sha))[..i / 2]
    {
      var left := level[i];
      var right := if i + 1 < |level| then level[i + 1] else left;
      nxt := nxt + [NodeHash(sha, left, right)];
      i := i + 2;
    }
  }

  method MerkleRoot(sha: Hash, leaves: seq<Bytes>) returns (root: Digest)
    ensures root == Root(sha, leaves)
  {
    if leaves == [] {
      return sha([]);
    }
    var level := LeafHashes(sha, leaves);
    while |level| > 1
      invariant level != []
      invariant Collapse(level, NodeHasher(sha)) == Root(sha, leaves)
    {
      level := NextLevel(sha, level);
    }
    root := level[0];
  }

  lemma {:induction false} PathGoesOn(sha: Hash, level: seq<Digest>, idx: nat, step: Step, steps: seq<Step>)
    requires |level| > 1 && idx < |level| && step == StepAt(level, idx)
    ensures idx / 2 < |Next(level, NodeHasher(sha))|
    ensures steps + Path(sha, level, idx) == steps + [step] + Path(sha, Next(level, NodeHasher(sha)), idx / 2)
  {
    StepJoins(sha, level, idx);
  }

  method MerkleProofFor(sha: Hash, leaves: seq<Bytes>, index: int) returns (path: Option<seq<Step>>)
    ensures path.None? <==> !(0 <= index < |leaves|)
    ensures path.Some? ==> path.value == Path(sha, LeafHashes(sha, leaves), index)
  {
    if !(0 <= index < |leaves|) {
      return None;
    }
    var level := LeafHashes(sha, leaves);
    var steps: seq<Step> := [];
    var idx: nat := index;
    while |level| > 1
      invariant idx < |level|
      invariant steps + Path(sha, level, idx) == Path(sha, LeafHashes(sha, leaves), index)
    {
      var sib := if idx % 2 == 0 then idx + 1 else idx - 1;
      if sib >= |level| {
        sib := idx;
      }
      var side := if sib > idx then "R" else "L";
      PathGoesOn(sha, level, idx, Step(side, ToHex(level[sib])), steps);
      steps := steps + [Step(side, ToHex(level[sib]))];
      level := NextLevel(sha, level);
      idx := idx / 2;
    }
    path := Some(steps);
  }
}
