/**
 Which proofs the checker hashes to the end, which it rejects for their form and on
 which it throws, as conditions on the proof alone.
 */
module ProofForms {

  import opened Nibbles
  import opened Tries
  import opened Digests
  import opened Hashing
  import opened Proofs

  /** The occupied slots from `b` on, without the one that the layer below fills. */
  function Others(bv: set<Nibble>, b: nat, self: Nibble): set<Nibble> {
    set i | i in bv && b <= i && i != self
  }

  lemma OthersStep(bv: set<Nibble>, b: Nibble, self: Nibble)
    ensures |Others(bv, b, self)| == |Others(bv, b + 1, self)| + if b in bv && b != self then 1 else 0
  {
    assert Others(bv, b, self) == Others(bv, b + 1, self) + if b in bv && b != self then {b} else {};
  }

  predicate IsHash(data: seq<Bytes>, i: nat) {
    i < |data| && |data[i]| == 32
  }

  /** From `idx` on the list has `n` hashes. */
  ghost predicate HasHashes(data: seq<Bytes>, idx: nat, n: nat) {
    forall i | idx <= i < idx + n :: IsHash(data, i)
  }

  lemma OneHash(data: seq<Bytes>, idx: nat, n: nat)
    ensures HasHashes(data, idx, n + 1) <==> IsHash(data, idx) && HasHashes(data, idx + 1, n)
  {
  }

  /** Filling succeeds when there is a hash for every slot. */
  lemma {:induction false} FillSucceeds(bv: set<Nibble>, b: nat, data: seq<Bytes>, idx: nat, self: Nibble,
                                        carried: Option<Hash>)
    requires b <= 16
    ensures FillBytes(bv, b, data, idx, self, carried).Some? <==>
      (self in bv && b <= self ==> carried.Some?) && HasHashes(data, idx, |Others(bv, b, self)|)
    decreases 16 - b
  {
    if b < 16 {
      OthersStep(bv, b, self);
      if b in bv && b != self {
        OneHash(data, idx, |Others(bv, b + 1, self)|);
        FillSucceeds(bv, b + 1, data, idx + 1, self, carried);
      } else {
        FillSucceeds(bv, b + 1, data, idx, self, carried);
      }
    } else {
      assert Others(bv, b, self) == {};
    }
  }

  /** A layer for the whole key comes first and holds one value. */
  predicate LeafForm(layer: Layer, first: bool) {
    first && |layer.data| == 1 && layer.bv == {}
  }

  /** Any other layer has the slot of the key exactly if there is a layer below, and a hash for each other slot. */
  ghost predicate BranchForm(key: Key, layer: Layer, first: bool)
    requires layer.len < 4 * |key|
  {
    var self := BitsAt(key, layer.len);
    (self in layer.bv <==> !first) && HasHashes(layer.data, 0, |Others(layer.bv, 0, self)|)
  }

  /** Layer `i` of a proof is in order; layers get shorter towards the root. */
  ghost predicate InForm(key: Key, stack: seq<Layer>, i: nat)
    requires i < |stack|
  {
    var layer := stack[i];
    if layer.len == 4 * |key| then LeafForm(layer, i == 0)
    else layer.len < 4 * |key| && (i > 0 ==> layer.len < stack[i - 1].len) && BranchForm(key, layer, i == 0)
  }

  /** Layer `i` is too long, and not noticed to be out of order before that. */
  predicate TooLong(key: Key, stack: seq<Layer>, i: nat)
    requires i < |stack|
  {
    stack[i].len > 4 * |key| && (i > 0 ==> stack[i].len < stack[i - 1].len)
  }

  lemma StepForm(key: Key, stack: seq<Layer>, i: nat, below: Option<Carry>)
    requires i < |stack| && (below.Some? <==> i > 0) && (i > 0 ==> below.value.len == stack[i - 1].len)
    ensures LayerStep(key, stack[i], below).Digest? <==> InForm(key, stack, i)
    ensures LayerStep(key, stack[i], below).Raise? <==> TooLong(key, stack, i)
  {
    var layer := stack[i];
    if layer.len < 4 * |key| {
      FillSucceeds(layer.bv, 0, layer.data, 0, BitsAt(key, layer.len),
        if below.Some? then Some(below.value.hash) else None);
    }
  }

  ghost predicate AllInForm(key: Key, stack: seq<Layer>, n: nat)
    requires n <= |stack|
  {
    forall i | 0 <= i < n :: InForm(key, stack, i)
  }

  /** The first layer that is not in order is too long. */
  ghost predicate Throws(key: Key, stack: seq<Layer>, n: nat)
    requires n <= |stack|
  {
    exists i :: 0 <= i < n && AllInForm(key, stack, i) && TooLong(key, stack, i)
  }

  lemma OneLayer(key: Key, stack: seq<Layer>, n: nat)
    requires n < |stack|
    ensures AllInForm(key, stack, n + 1) <==> AllInForm(key, stack, n) && InForm(key, stack, n)
    ensures Throws(key, stack, n + 1) <==>
      Throws(key, stack, n) || (AllInForm(key, stack, n) && TooLong(key, stack, n))
  {
  }

  lemma NotBoth(key: Key, stack: seq<Layer>, n: nat)
    requires n <= |stack| && Throws(key, stack, n)
    ensures !AllInForm(key, stack, n)
  {
    var i :| 0 <= i < n && AllInForm(key, stack, i) && TooLong(key, stack, i);
    assert !InForm(key, stack, i);
  }

  lemma NextRun(H: Hasher, F: Stepper, stack: seq<Layer>, n: nat, r: Run)
    requires n < |stack| && r == Check(H, F, stack, n)
    ensures r.Run? ==> (Check(H, F, stack, n + 1).Run? <==> F(stack[n], Below(H, stack, r.digests)).Digest?)
    ensures r.Run? ==> (Check(H, F, stack, n + 1) == Failed(Throw) <==> F(stack[n], Below(H, stack, r.digests)).Raise?)
    ensures r.Failed? ==> Check(H, F, stack, n + 1) == r
  {
  }

  lemma NextForm(H: Hasher, key: Key, stack: seq<Layer>, n: nat, r: Run)
    requires n < |stack| && r == Check(H, StepOf(key), stack, n)
    ensures r.Run? ==> (Check(H, StepOf(key), stack, n + 1).Run? <==> InForm(key, stack, n))
    ensures r.Run? ==> (Check(H, StepOf(key), stack, n + 1) == Failed(Throw) <==> TooLong(key, stack, n))
    ensures r.Failed? ==> Check(H, StepOf(key), stack, n + 1) == r
  {
    NextRun(H, StepOf(key), stack, n, r);
    if r.Run? { StepForm(key, stack, n, Below(H, stack, r.digests)); }
  }

  lemma {:induction false} CheckForm(H: Hasher, key: Key, stack: seq<Layer>, n: nat)
    requires n <= |stack|
    ensures Check(H, StepOf(key), stack, n).Run? <==> AllInForm(key, stack, n)
    ensures Check(H, StepOf(key), stack, n) == Failed(Throw) <==> Throws(key, stack, n)
    decreases n
  {
    if n > 0 {
      CheckForm(H, key, stack, n - 1);
      NextForm(H, key, stack, n - 1, Check(H, StepOf(key), stack, n - 1));
      OneLayer(key, stack, n - 1);
      if Throws(key, stack, n - 1) { NotBoth(key, stack, n - 1); }
    }
  }

  /**
   The checker throws exactly when the first layer out of order is longer than the key,
   and it accepts exactly when all layers are in order, there is one, and the hash of
   the last one is the root hash.
   */
  lemma VerdictByForm(H: Hasher, proof: Proof, root: Hash)
    ensures var n, v := |proof.stack|, VerdictOf(H, proof, root);
      && (v == Throw <==> Throws(proof.key, proof.stack, n))
      && (v == Accept <==>
            && AllInForm(proof.key, proof.stack, n) && n > 0
            && var r := Check(H, StepOf(proof.key), proof.stack, n);
            r.Run? && H(r.digests[n - 1]) == root)
  {
    CheckForm(H, proof.key, proof.stack, |proof.stack|);
  }
}
