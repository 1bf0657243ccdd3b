/** Membership proofs through nested Merkle trees. Single-tree verification (ICS 23) is a parameter. */
module AbciProofs {
  import opened BlockRangeExt

  type u8 = x: int | 0 <= x < 256

  type Bytes = seq<u8>

  datatype ExistenceProof = ExistenceProof(key: Bytes, value: Bytes)

  datatype BatchEntry = NoEntry | ExistEntry(proof: ExistenceProof) | OtherEntry

  datatype CommitmentProof = NoProof | Exist(proof: ExistenceProof) | Batch(entries: seq<BatchEntry>) | OtherProof

  datatype ProofSpec = Iavl | Tendermint

  datatype CommitmentOp = CommitmentOp(key: Bytes, spec: ProofSpec, proof: CommitmentProof)

  datatype ProofError =
    | RootMismatch
    | ExistanceProofMissing
    | UnevenProofsAndKeysLengths(proofs: nat, keys: nat)
    | OperationKeyMismatch(found: Bytes, expected: Bytes)

  /** `ics23::verify_membership(proof, spec, root, key, value)`. */
  type Verify = (CommitmentProof, ProofSpec, Bytes, Bytes, Bytes) -> bool

  /** First entry of a batch that proves the existence of `key`. */
  function FindEntry(entries: seq<BatchEntry>, key: Bytes): (found: Option<ExistenceProof>)
    ensures found.Some? ==> ExistEntry(found.value) in entries && found.value.key == key
    ensures found.None? ==> forall e :: e in entries && e.ExistEntry? ==> e.proof.key != key
    ensures found.Some? ==>
              exists i :: 0 <= i < |entries| && entries[i] == ExistEntry(found.value) &&
                          forall j :: 0 <= j < i && entries[j].ExistEntry? ==> entries[j].proof.key != key
  {
    if entries == [] then None
    else if entries[0].ExistEntry? && entries[0].proof.key == key then Some(entries[0].proof)
    else FindEntry(entries[1..], key)
  }

  /** A single existence proof is returned whatever key is asked for. */
  function GetExistenceProof(op: CommitmentOp, key: Bytes): Option<ExistenceProof> {
    match op.proof
    case Exist(proof) => Some(proof)
    case Batch(entries) => FindEntry(entries, key)
    case _ => None
  }

  /** Where an existence proof is found: in a batch under its key, the first such entry; nowhere else but on its own. */
  lemma WhereProofsAre(op: CommitmentOp, key: Bytes)
    ensures var found := GetExistenceProof(op, key);
            match op.proof
            case Exist(proof) => found == Some(proof)
            case Batch(entries) =>
              && (found.Some? <==> exists e :: e in entries && e.ExistEntry? && e.proof.key == key)
              && (found.Some? ==>
                    exists i :: 0 <= i < |entries| && entries[i] == ExistEntry(found.value) && found.value.key == key &&
                                forall j :: 0 <= j < i && entries[j].ExistEntry? ==> entries[j].proof.key != key)
            case _ => found == None
  {
    if op.proof.Batch? {
      var entries := op.proof.entries;
      var found := FindEntry(entries, key);
      if found.Some? {
        assert ExistEntry(found.value) in entries;
      }
    }
  }

  /** The value that proof `i` has to connect: the leaf below the first tree, the root above the last one. */
  function ValueAt(chain: seq<CommitmentOp>, root: Bytes, keys: seq<Bytes>, leaf: Bytes, i: nat): Option<Bytes>
    requires i <= |chain| && i <= |keys|
  {
    if i == 0 then Some(leaf)
    else if i == |chain| then Some(root)
    else
      var proof := GetExistenceProof(chain[i], keys[i - 1]);
      if proof.Some? then Some(proof.value.value) else None
  }

  /** Link `i` of the chain: the right key, an existence proof, and a verified step from one value to the next. */
  predicate IsLink(chain: seq<CommitmentOp>, root: Bytes, keys: seq<Bytes>, leaf: Bytes, verify: Verify, i: nat)
    requires i < |chain| && i < |keys|
  {
    var value, next := ValueAt(chain, root, keys, leaf, i), ValueAt(chain, root, keys, leaf, i + 1);
    && keys[i] == chain[i].key
    && GetExistenceProof(chain[i], keys[i]).Some?
    && value.Some? && next.Some?
    && verify(chain[i].proof, chain[i].spec, next.value, chain[i].key, value.value)
  }

  /** What the verifier accepts. */
  predicate Accepts(chain: seq<CommitmentOp>, root: Bytes, keys: seq<Bytes>, leaf: Bytes, verify: Verify) {
    |chain| == |keys| && forall i :: 0 <= i < |chain| ==> IsLink(chain, root, keys, leaf, verify, i)
  }

  /** Link `i` has no existence proof for its key, or the one above has none under the same key. */
  predicate IsMissing(chain: seq<CommitmentOp>, keys: seq<Bytes>, i: nat)
    requires i < |chain| && i < |keys|
  {
    || GetExistenceProof(chain[i], keys[i]).None?
    || (i + 1 < |chain| && GetExistenceProof(chain[i + 1], keys[i]).None?)
  }

  /** Link `i` is complete, and single-tree verification says no. */
  predicate IsMismatch(chain: seq<CommitmentOp>, root: Bytes, keys: seq<Bytes>, leaf: Bytes, verify: Verify, i: nat)
    requires i < |chain| && i < |keys|
  {
    var value, next := ValueAt(chain, root, keys, leaf, i), ValueAt(chain, root, keys, leaf, i + 1);
    keys[i] == chain[i].key && value.Some? && next.Some? &&
    !verify(chain[i].proof, chain[i].spec, next.value, chain[i].key, value.value)
  }

  /** The links below `i` are in order. */
  predicate GoodUpTo(chain: seq<CommitmentOp>, root: Bytes, keys: seq<Bytes>, leaf: Bytes, verify: Verify, i: nat)
    requires i <= |chain| && i <= |keys|
  {
    forall j :: 0 <= j < i ==> IsLink(chain, root, keys, leaf, verify, j)
  }

  /** Subtraction on `usize` in a release build. */
  function WrappingSub(a: u64, b: u64): u64 { if b <= a then a - b else a - b + U64_MAX + 1 }

  method VerifyMembership(chain: seq<CommitmentOp>, root: Bytes, keys: seq<Bytes>, leaf: Bytes, verify: Verify)
    returns (res: Result<(), ProofError>)
    requires |chain| <= U64_MAX
    ensures res.Ok? <==> Accepts(chain, root, keys, leaf, verify)
    ensures res.Err? && res.error.UnevenProofsAndKeysLengths? ==>
              || (0 < |chain| < |keys| && res.error == UnevenProofsAndKeysLengths(|chain| - 1, |chain|))
              || (0 < |keys| < |chain| && res.error == UnevenProofsAndKeysLengths(|keys|, |keys| - 1))
              || (0 == |keys| < |chain| && res.error == UnevenProofsAndKeysLengths(0, U64_MAX))
    ensures res.Err? && res.error.OperationKeyMismatch? ==>
              exists i :: 0 <= i < |chain| && i < |keys| && GoodUpTo(chain, root, keys, leaf, verify, i) &&
                          keys[i] != chain[i].key && res.error == OperationKeyMismatch(chain[i].key, keys[i])
    ensures res == Err(ExistanceProofMissing) ==>
              || (chain == [] && keys != [])
              || exists i :: 0 <= i < |chain| && i < |keys| && GoodUpTo(chain, root, keys, leaf, verify, i) &&
                             keys[i] == chain[i].key && IsMissing(chain, keys, i)
    ensures res == Err(RootMismatch) ==>
              exists i :: 0 <= i < |chain| && i < |keys| && GoodUpTo(chain, root, keys, leaf, verify, i) &&
                          IsMismatch(chain, root, keys, leaf, verify, i)
  {
    var currentLeaf := leaf;
    var currentIdx: u64 := 0;
    while currentIdx < |keys|
      invariant currentIdx <= |keys| && currentIdx <= |chain|
      invariant 0 < currentIdx == |chain| ==> |chain| == |keys|
      invariant ValueAt(chain, root, keys, leaf, currentIdx) == Some(currentLeaf)
      invariant GoodUpTo(chain, root, keys, leaf, verify, currentIdx)
    {
      var key := keys[currentIdx];
      if currentIdx >= |chain| { return Err(ExistanceProofMissing); }
      var op := chain[currentIdx];
      if key != op.key {
        assert !IsLink(chain, root, keys, leaf, verify, currentIdx);
        return Err(OperationKeyMismatch(op.key, key));
      }
      if GetExistenceProof(op, key).None? {
        assert IsMissing(chain, keys, currentIdx);
        assert !IsLink(chain, root, keys, leaf, verify, currentIdx);
        return Err(ExistanceProofMissing);
      }
      var currentRoot := root;
      if currentIdx + 1 < |chain| {
        var next := GetExistenceProof(chain[currentIdx + 1], key);
        if next.None? {
          assert IsMissing(chain, keys, currentIdx);
          assert !IsLink(chain, root, keys, leaf, verify, currentIdx);
          return Err(ExistanceProofMissing);
        }
        currentRoot := next.value.value;
      } else if currentIdx + 1 < |keys| {
        return Err(UnevenProofsAndKeysLengths(currentIdx, currentIdx + 1));
      }
      if !verify(op.proof, op.spec, currentRoot, op.key, currentLeaf) {
        assert IsMismatch(chain, root, keys, leaf, verify, currentIdx);
        assert !IsLink(chain, root, keys, leaf, verify, currentIdx);
        return Err(RootMismatch);
      }
      currentLeaf := currentRoot;
      currentIdx := currentIdx + 1;
    }
    if currentIdx < |chain| {
      return Err(UnevenProofsAndKeysLengths(currentIdx, WrappingSub(currentIdx, 1)));
    }
    res := Ok(());
  }

  predicate IsStep(values: seq<Bytes>, chain: seq<CommitmentOp>, keys: seq<Bytes>, verify: Verify, i: nat)
    requires |values| == |chain| + 1 && i < |chain| == |keys|
  {
    keys[i] == chain[i].key && verify(chain[i].proof, chain[i].spec, values[i + 1], keys[i], values[i])
  }

  /** A way from the leaf to the root, each step accepted by single-tree verification for its own key. */
  predicate IsPath(
      values: seq<Bytes>, chain: seq<CommitmentOp>, root: Bytes, keys: seq<Bytes>, leaf: Bytes, verify: Verify)
  {
    && |values| == |chain| + 1 && |chain| == |keys|
    && values[0] == leaf && values[|chain|] == root
    && forall i :: 0 <= i < |chain| ==> IsStep(values, chain, keys, verify, i)
  }

  /** Acceptance is sound: the leaf is in a tree whose root is in a tree ... whose root is `root`. */
  lemma AcceptedIsNested(chain: seq<CommitmentOp>, root: Bytes, keys: seq<Bytes>, leaf: Bytes, verify: Verify)
    returns (values: seq<Bytes>)
    requires Accepts(chain, root, keys, leaf, verify) && chain != []
    ensures IsPath(values, chain, root, keys, leaf, verify)
  {
    values := seq(|chain| + 1, i requires 0 <= i <= |chain| =>
      var v := ValueAt(chain, root, keys, leaf, i); if v.Some? then v.value else []);
    forall i | 0 <= i < |chain|
      ensures IsStep(values, chain, keys, verify, i)
    {
      assert IsLink(chain, root, keys, leaf, verify, i);
    }
  }

  /** The existence proof that a link carries for its own key. */
  function Own(op: CommitmentOp): Option<ExistenceProof> { GetExistenceProof(op, op.key) }

  /** The path that the proofs describe: each tree's root is the value the next proof holds under its own key. */
  function OwnValues(chain: seq<CommitmentOp>, root: Bytes, leaf: Bytes): seq<Bytes>
    requires forall i :: 0 <= i < |chain| ==> Own(chain[i]).Some?
  {
    seq(|chain| + 1, i requires 0 <= i <= |chain| =>
      if i == 0 then leaf else if i == |chain| then root else Own(chain[i]).value.value)
  }

  /** Nested membership as documented. */
  ghost predicate IsNested(chain: seq<CommitmentOp>, root: Bytes, keys: seq<Bytes>, leaf: Bytes, verify: Verify) {
    && (forall i :: 0 <= i < |chain| ==> Own(chain[i]).Some?)
    && IsPath(OwnValues(chain, root, leaf), chain, root, keys, leaf, verify)
  }

  predicate LookupAgrees(op: CommitmentOp, below: Bytes) {
    var found := GetExistenceProof(op, below);
    found.Some? && Own(op).Some? && found.value.value == Own(op).value.value
  }

  /** The code looks a proof up under the key of the proof below it. This is when that makes no difference. */
  predicate LookupsAgree(chain: seq<CommitmentOp>, keys: seq<Bytes>)
    requires |chain| == |keys|
  {
    forall i :: 0 < i < |chain| ==> LookupAgrees(chain[i], keys[i - 1])
  }

  lemma LinkIsStep(chain: seq<CommitmentOp>, root: Bytes, keys: seq<Bytes>, leaf: Bytes, verify: Verify, i: nat)
    requires i < |chain| == |keys| && LookupsAgree(chain, keys)
    requires forall j :: 0 <= j < |chain| ==> Own(chain[j]).Some?
    ensures IsLink(chain, root, keys, leaf, verify, i) <==> IsStep(OwnValues(chain, root, leaf), chain, keys, verify, i)
  {}

  lemma LinkHasOwn(chain: seq<CommitmentOp>, root: Bytes, keys: seq<Bytes>, leaf: Bytes, verify: Verify, i: nat)
    requires i < |chain| == |keys| && IsLink(chain, root, keys, leaf, verify, i)
    ensures Own(chain[i]).Some?
  {
  }

  /** When the lookups agree, the code accepts exactly nested membership. */
  lemma AgreeingIsExact(chain: seq<CommitmentOp>, root: Bytes, keys: seq<Bytes>, leaf: Bytes, verify: Verify)
    requires chain != [] && |chain| == |keys| && LookupsAgree(chain, keys)
    ensures Accepts(chain, root, keys, leaf, verify) <==> IsNested(chain, root, keys, leaf, verify)
  {
    hide LookupsAgree, IsLink, IsStep;
    if Accepts(chain, root, keys, leaf, verify) {
      forall i | 0 <= i < |chain|
        ensures Own(chain[i]).Some?
      {
        LinkHasOwn(chain, root, keys, leaf, verify, i);
      }
    }
    if forall i :: 0 <= i < |chain| ==> Own(chain[i]).Some? {
      forall i | 0 <= i < |chain|
        ensures IsLink(chain, root, keys, leaf, verify, i) <==> IsStep(OwnValues(chain, root, leaf), chain, keys, verify, i)
      {
        LinkIsStep(chain, root, keys, leaf, verify, i);
      }
    }
  }

  /** Plain existence proofs ignore the key they are asked for, so on them the code is exact. */
  lemma PlainChainsAreExact(chain: seq<CommitmentOp>, root: Bytes, keys: seq<Bytes>, leaf: Bytes, verify: Verify)
    requires chain != [] && |chain| == |keys| && forall i :: 0 <= i < |chain| ==> chain[i].proof.Exist?
    ensures Accepts(chain, root, keys, leaf, verify) <==> IsNested(chain, root, keys, leaf, verify)
  {
    AgreeingIsExact(chain, root, keys, leaf, verify);
  }

  /** Single-tree verification computes a root and compares: at most one root passes. */
  ghost predicate RootIsDetermined(verify: Verify) {
    forall p, s, r1, r2, k, v :: verify(p, s, r1, k, v) && verify(p, s, r2, k, v) ==> r1 == r2
  }

  /** Completeness fails in general: nested membership is accepted if and only if the lookups agree. */
  lemma NestedIsAcceptedIffLookupsAgree(
      chain: seq<CommitmentOp>, root: Bytes, keys: seq<Bytes>, leaf: Bytes, verify: Verify)
    requires chain != [] && IsNested(chain, root, keys, leaf, verify) && RootIsDetermined(verify)
    ensures Accepts(chain, root, keys, leaf, verify) <==> LookupsAgree(chain, keys)
  {
    if LookupsAgree(chain, keys) {
      AgreeingIsExact(chain, root, keys, leaf, verify);
    }
    if Accepts(chain, root, keys, leaf, verify) {
      forall i | 0 < i < |chain|
        ensures LookupAgrees(chain[i], keys[i - 1])
      {
        AcceptedFollowsPath(chain, root, keys, leaf, verify, i);
      }
    }
  }

  lemma {:induction false} AcceptedFollowsPath(
      chain: seq<CommitmentOp>, root: Bytes, keys: seq<Bytes>, leaf: Bytes, verify: Verify, i: nat)
    requires IsNested(chain, root, keys, leaf, verify) && RootIsDetermined(verify)
    requires Accepts(chain, root, keys, leaf, verify) && i < |chain|
    ensures ValueAt(chain, root, keys, leaf, i) == Some(OwnValues(chain, root, leaf)[i])
  {
    hide GetExistenceProof;
    if i > 0 {
      AcceptedFollowsPath(chain, root, keys, leaf, verify, i - 1);
      assert IsLink(chain, root, keys, leaf, verify, i - 1);
      assert IsStep(OwnValues(chain, root, leaf), chain, keys, verify, i - 1);
    }
  }

  /** A chain of one batch is accepted exactly when some entry has the key and single-tree verification agrees. */
  lemma OneBatchIsExact(op: CommitmentOp, root: Bytes, key: Bytes, leaf: Bytes, verify: Verify)
    requires op.proof.Batch?
    ensures Accepts([op], root, [key], leaf, verify) <==>
            && key == op.key
            && (exists e :: e in op.proof.entries && e.ExistEntry? && e.proof.key == key)
            && verify(op.proof, op.spec, root, key, leaf)
  {
    hide GetExistenceProof;
    WhereProofsAre(op, key);
    assert Accepts([op], root, [key], leaf, verify) <==> IsLink([op], root, [key], leaf, verify, 0);
  }

  /** Whatever single-tree verification says, a batch that does not mention the key below it is turned down. */
  lemma BatchAboveIsTurnedDown(chain: seq<CommitmentOp>, root: Bytes, keys: seq<Bytes>, leaf: Bytes, verify: Verify, i: nat)
    requires 0 < i < |chain| && |chain| == |keys| && chain[i].proof.Batch?
    requires forall e :: e in chain[i].proof.entries && e.ExistEntry? ==> e.proof.key != keys[i - 1]
    ensures !Accepts(chain, root, keys, leaf, verify)
  {
    assert !IsLink(chain, root, keys, leaf, verify, i);
  }

  /** A stand-in for hashing in the example below. */
  predicate Extends(proof: CommitmentProof, spec: ProofSpec, root: Bytes, key: Bytes, value: Bytes) {
    root == value + [0]
  }

  /** Nested membership that is turned down: a batch in the upper tree with an entry for its own key only. */
  lemma TurnedDownThoughNested()
    ensures var below := CommitmentOp([1], Iavl, Exist(ExistenceProof([1], [7])));
            var above := CommitmentOp([2], Tendermint, Batch([ExistEntry(ExistenceProof([2], [7, 0]))]));
            && RootIsDetermined(Extends)
            && IsNested([below, above], [7, 0, 0], [[1], [2]], [7], Extends)
            && !Accepts([below, above], [7, 0, 0], [[1], [2]], [7], Extends)
  {
    var below := CommitmentOp([1], Iavl, Exist(ExistenceProof([1], [7])));
    var above := CommitmentOp([2], Tendermint, Batch([ExistEntry(ExistenceProof([2], [7, 0]))]));
    var chain, keys := [below, above], [[1], [2]];
    var one: Bytes, two: Bytes := [1], [2];
    assert one != two by { assert one[0] != two[0]; }
    assert GetExistenceProof(above, one).None?;
    assert Own(above).Some?;
    assert OwnValues(chain, [7, 0, 0], [7]) == [[7], [7, 0], [7, 0, 0]];
    assert IsStep(OwnValues(chain, [7, 0, 0], [7]), chain, keys, Extends, 0);
    assert IsStep(OwnValues(chain, [7, 0, 0], [7]), chain, keys, Extends, 1);
    assert !IsLink(chain, [7, 0, 0], keys, [7], Extends, 1);
  }
}
