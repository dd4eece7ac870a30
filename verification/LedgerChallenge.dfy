// What a proven mismatch proves: edgegrid/ledger.py, `prove_data_mismatch`, with
// edgegrid/da.py, `verify_proof`.

module LedgerChallenge {
  import opened ByteStrings
  import opened MerkleTree
  import opened MerkleProof
  import opened LedgerModel
  import opened LedgerSettlement
  import opened LedgerAuthority
  import opened LedgerCollateral

  // ---------------------------------------------------------------- where the record comes from

  // The call in a run that wrote a given record of a proven mismatch.
  lemma MismatchHasProof(cfg: Config, sha: Hash, start: int, events: seq<Event>, i: nat) returns (k: nat)
    requires ValidConfig(cfg)
    requires i < |Run(cfg, sha, Initial(start), events).records|
    requires Run(cfg, sha, Initial(start), events).records[i].resolution.DataMismatch?
    ensures k < |events| && events[k].DoProveMismatch?
    ensures events[k].job == Run(cfg, sha, Initial(start), events).records[i].jobId
    ensures Apply(cfg, sha, Run(cfg, sha, Initial(start), events[..k]), events[k]).Accepted()
  {
    k := RecordsAreAuthorised(cfg, sha, start, events, i);
  }

  // ---------------------------------------------------------------- what the proof was

  // What was committed to stays as it is.
  lemma {:induction false} CommitmentStands(cfg: Config, sha: Hash, start: int, events: seq<Event>, k: nat, job: JobId)
    requires ValidConfig(cfg) && k <= |events|
    ensures var s, t := Run(cfg, sha, Initial(start), events[..k]), Run(cfg, sha, Initial(start), events);
            job in s.commitments ==>
              && job in t.commitments && s.commitments[job].merkleRoot == t.commitments[job].merkleRoot
              && s.commitments[job].outputHash == t.commitments[job].outputHash
  {
    var s := Run(cfg, sha, Initial(start), events[..k]);
    SettlementHolds(cfg, sha, start, events[..k]);
    RunsSettleOnce(cfg, sha, s, events[k..]);
    assert events[..k] + events[k..] == events;
    RunConcat(cfg, sha, Initial(start), events[..k], events[k..]);
  }

  // Whoever was slashed for a mismatch had committed to a root under which a blob with
  // another hash than the committed one sits: that blob is one of the leaves, or the
  // proof and the tree exhibit a collision.
  lemma MismatchIsReal(cfg: Config, sha: Hash, start: int, events: seq<Event>, i: nat, leaves: seq<Bytes>)
    returns (k: nat)
    requires ValidConfig(cfg)
    requires var t := Run(cfg, sha, Initial(start), events);
             && i < |t.records| && t.records[i].resolution.DataMismatch?
             && t.records[i].jobId in t.commitments
             && t.commitments[t.records[i].jobId].merkleRoot == ToHex(Root(sha, leaves))
    ensures k < |events| && events[k].DoProveMismatch? && events[k].proof.Some?
    ensures var t := Run(cfg, sha, Initial(start), events);
            var blob := events[k].blob;
            && events[k].job == t.records[i].jobId
            && ToHex(sha(blob)) != t.commitments[events[k].job].outputHash
            && (blob in leaves ||
                Collision(sha, ProofInputs(sha, blob, events[k].proof.value), RootInputs(sha, leaves)))
  {
    k := MismatchHasProof(cfg, sha, start, events, i);
    var s := Run(cfg, sha, Initial(start), events[..k]);
    var e := events[k];
    CommitmentStands(cfg, sha, start, events, k, e.job);
    AcceptedProof(cfg, sha, s, e);
    ProofSoundness(sha, leaves, e.blob, e.proof.value);
  }

  lemma AcceptedProof(cfg: Config, sha: Hash, s: State, e: Event)
    requires ValidConfig(cfg) && e.DoProveMismatch? && Apply(cfg, sha, s, e).Accepted()
    ensures e.job in s.commitments && e.proof.Some?
    ensures Accepts(sha, e.blob, e.proof.value, s.commitments[e.job].merkleRoot)
    ensures ToHex(sha(e.blob)) != s.commitments[e.job].outputHash
  {
  }

  // A provider whose block holds its output and nothing else, and who committed to the
  // hash of that output, is never slashed for a mismatch unless SHA-256 is broken.
  lemma HonestProviderIsSafe(cfg: Config, sha: Hash, start: int, events: seq<Event>, i: nat, output: Bytes)
    returns (k: nat)
    requires ValidConfig(cfg)
    requires var t := Run(cfg, sha, Initial(start), events);
             && i < |t.records| && t.records[i].resolution.DataMismatch?
             && t.records[i].jobId in t.commitments
             && t.commitments[t.records[i].jobId].merkleRoot == ToHex(Root(sha, [output]))
             && t.commitments[t.records[i].jobId].outputHash == ToHex(sha(output))
    ensures k < |events| && events[k].DoProveMismatch? && events[k].proof.Some?
    ensures Collision(sha, ProofInputs(sha, events[k].blob, events[k].proof.value), RootInputs(sha, [output]))
  {
    k := MismatchIsReal(cfg, sha, start, events, i, [output]);
  }

  // ---------------------------------------------------------------- when a leaf can be proven

  lemma FraudIsAccepted(cfg: Config, s: State, job: JobId, reporter: Account, kind: Resolution)
    requires ValidConfig(cfg) && job in s.commitments && job in s.escrows && s.escrows[job].state.Awaiting?
    ensures ConfirmFraud(cfg, s, job, reporter, kind).Accepted()
  {
  }

  predicate Challengeable(s: State, job: JobId) {
    && job in s.commitments && ChallengeError(s, job).None?
    && job in s.escrows && s.escrows[job].state.Awaiting?
  }

  // The text of a digest: hexadecimal in either case, with or without `0x`.
  predicate Denotes(text: string, d: Digest) {
    IsDigest(text) && FromHex(StripPrefix(text)) == Some(d)
  }

  // Both texts of a commitment are kept as the caller spelt them, and compared with the
  // canonical spelling. So by the deadline a leaf of the committed block slashes its
  // provider, by its own path, exactly when the root was committed in the canonical
  // spelling and the output hash is not the canonical spelling of the leaf's hash.
  lemma {:induction false} LeafSlashesExactlyWhen(cfg: Config, sha: Hash, s: State, job: JobId, leaves: seq<Bytes>,
                                                  i: nat, reporter: Account)
    requires ValidConfig(cfg) && Challengeable(s, job) && i < |leaves|
    requires Denotes(s.commitments[job].merkleRoot, Root(sha, leaves))
    ensures ProveMismatch(cfg, sha, s, job, leaves[i], reporter, Some(Path(sha, LeafHashes(sha, leaves), i))).Accepted()
            <==> && s.commitments[job].merkleRoot == ToHex(Root(sha, leaves))
                 && s.commitments[job].outputHash != ToHex(sha(leaves[i]))
  {
    ProofCompleteness(sha, leaves, i);
    FraudIsAccepted(cfg, s, job, reporter, DataMismatch);
    PathReachesRoot(sha, leaves, i, s.commitments[job].merkleRoot);
  }

  lemma {:induction false} PathReachesRoot(sha: Hash, leaves: seq<Bytes>, i: nat, text: string)
    requires i < |leaves|
    ensures Accepts(sha, leaves[i], Path(sha, LeafHashes(sha, leaves), i), text) <==> text == ToHex(Root(sha, leaves))
  {
    PathClimbs(sha, LeafHashes(sha, leaves), i);
  }

  // A root in any other spelling shields the provider: no blob and no proof slashes it for
  // a mismatch.
  lemma {:induction false} OddRootShields(cfg: Config, sha: Hash, s: State, job: JobId, d: Digest, blob: Bytes,
                                          reporter: Account, proof: Option<seq<Step>>)
    requires ValidConfig(cfg) && job in s.commitments
    requires Denotes(s.commitments[job].merkleRoot, d) && s.commitments[job].merkleRoot != ToHex(d)
    ensures !ProveMismatch(cfg, sha, s, job, blob, reporter, proof).Accepted()
  {
    if proof.Some? && Accepts(sha, blob, proof.value, s.commitments[job].merkleRoot) {
      var h := Climb(sha, LeafHash(sha, blob), proof.value).value;
      HexIsDigest(h);
      FromHexInvertsToHex(h);
    }
  }

  // ---------------------------------------------------------------- the text of the digest

  // In particular the honest output itself passes for a mismatch exactly when its hash was
  // committed in any other spelling than the canonical one.
  lemma {:induction false} OwnOutputSlashesExactlyWhen(cfg: Config, sha: Hash, s: State, job: JobId, leaves: seq<Bytes>,
                                                       i: nat, reporter: Account)
    requires ValidConfig(cfg) && Challengeable(s, job) && i < |leaves|
    requires s.commitments[job].merkleRoot == ToHex(Root(sha, leaves))
    requires Denotes(s.commitments[job].outputHash, sha(leaves[i]))
    ensures ProveMismatch(cfg, sha, s, job, leaves[i], reporter, Some(Path(sha, LeafHashes(sha, leaves), i))).Accepted()
            <==> s.commitments[job].outputHash != ToHex(sha(leaves[i]))
  {
    HexIsDigest(Root(sha, leaves));
    FromHexInvertsToHex(Root(sha, leaves));
    LeafSlashesExactlyWhen(cfg, sha, s, job, leaves, i, reporter);
  }

  lemma {:induction false} PrefixedText(d: Digest)
    ensures Denotes("0x" + ToHex(d), d) && "0x" + ToHex(d) != ToHex(d)
  {
    var text := ToHex(d);
    FromHexInvertsToHex(d);
    assert ("0x" + text)[..2] == "0x" && ("0x" + text)[2..] == text;
    assert |"0x" + text| == |text| + 2;
  }

  // Such spellings are accepted: the same digests with the prefix `0x`, one that lets the
  // honest output slash and one that shields whatever the output is.
  lemma {:induction false} PrefixedDigestIsAccepted(cfg: Config, s: State, job: JobId, provider: Account,
                                                    output: Digest, root: Digest, blobRef: string, leafIndex: nat)
    requires job in s.escrows && s.escrows[job].state.Open? && job !in s.commitments
    requires s.escrows[job].provider == provider
    ensures Denotes("0x" + ToHex(output), output) && "0x" + ToHex(output) != ToHex(output)
    ensures RecordCommitment(cfg, s, job, provider, "0x" + ToHex(output), blobRef, ToHex(root), leafIndex).Accepted()
    ensures RecordCommitment(cfg, s, job, provider, ToHex(output), blobRef, "0x" + ToHex(root), leafIndex).Accepted()
  {
    PrefixedText(output);
    PrefixedText(root);
    HexIsDigest(output);
    HexIsDigest(root);
  }
}
