/**
 Merkle proofs: making and checking them.

 A proof lists the nodes from the one that settles the question up to the root;
 each layer gives the children's hashes except the one the layer below stands for.
 The hash function is arbitrary.  Soundness is therefore stated as: the claim
 holds, or the checker and the trie between them hash two different byte strings,
 which the lemma names, to the same value.
 */
module Proofs {

  import opened Nibbles
  import opened Tries
  import opened Digests
  import opened Hashing

  /** `len` in bits, as in the serialised proof. */
  datatype Layer = Layer(len: nat, bv: set<Nibble>, data: seq<Bytes>)

  datatype Proof = Proof(key: Key, stack: seq<Layer>)

  datatype Verdict = Accept | Reject | Throw

  /** What the layer below hands on. */
  datatype Carry = Carry(hash: Hash, len: nat)

  datatype Step = Digest(bytes: Bytes) | Bad | Raise

  // ----- headers of arbitrary length -----

  /** One more than the largest value of the low `s` bits. */
  function LowBits(s: nat): (p: nat)
    ensures p > 0
  {
    if s == 0 then 1 else if s == 1 then 2 else if s == 2 then 4 else if s == 3 then 8
    else if s == 4 then 16 else if s == 5 then 32 else if s == 6 then 64 else 128
  }

  /** `byte & (0xFF << s)`. */
  function Cleared(byte: Byte, s: nat): Byte {
    var b: int := byte;
    b - b % LowBits(s)
  }

  function LastCleared(bytes: Bytes, s: nat): Bytes {
    if bytes == [] then [] else bytes[..|bytes| - 1] + [Cleared(bytes[|bytes| - 1], s)]
  }

  /** `write_node_header` on a whole key and a length in bits. */
  function HeaderAt(key: Key, len: nat): Bytes {
    var n := (len + 7) / 8 % 256;
    LastCleared(BigEndian16(len) + (if n <= |Packed(key)| then Packed(key)[..n] else Packed(key)), len % 8)
  }

  lemma {:induction false} PackedAt(p: Key, i: nat)
    requires i < |Packed(p)|
    ensures 2 * i < |p| && Packed(p)[i] == Pair(p[2 * i], if 2 * i + 1 < |p| then p[2 * i + 1] else 0)
  {
    if |p| > 1 && i > 0 {
      PackedAt(p[2..], i - 1);
    }
  }

  lemma PackedTakeAt(key: Key, n: nat, i: nat)
    requires n <= |key| && i < (n + 1) / 2
    ensures Packed(key[..n])[i] == if 2 * i + 1 < n then Packed(key)[i] else Cleared(Packed(key)[i], 4)
  {
    PackedAt(key, i);
    PackedAt(key[..n], i);
    PairCleared(key[2 * i], if 2 * i + 1 < |key| then key[2 * i + 1] else 0);
  }

  lemma PairCleared(x: Nibble, y: Nibble)
    ensures Cleared(Pair(x, y), 4) == Pair(x, 0)
  {
    var a, b: int := x, y;
    assert (16 * a + b) % 16 == b;
  }

  lemma TakeEven(key: Key, n: nat)
    requires n <= |key| && n % 2 == 0
    ensures Packed(key[..n]) == Packed(key)[..n / 2]
  {
    forall i: nat | i < n / 2 ensures Packed(key[..n])[i] == Packed(key)[i] {
      PackedTakeAt(key, n, i);
    }
  }

  lemma TakeOdd(key: Key, n: nat)
    requires n <= |key| && n % 2 == 1
    ensures Packed(key[..n]) == Packed(key)[..n / 2] + [Cleared(Packed(key)[n / 2], 4)]
  {
    forall i: nat | i <= n / 2 ensures Packed(key[..n])[i] == if i < n / 2 then Packed(key)[i]
      else Cleared(Packed(key)[i], 4) {
      PackedTakeAt(key, n, i);
    }
  }

  lemma ClearedLast(x: Bytes, y: Bytes, s: nat)
    ensures y != [] ==> LastCleared(x + y, s) == x + y[..|y| - 1] + [Cleared(y[|y| - 1], s)]
    ensures s == 0 ==> LastCleared(x + y, s) == x + y
  {
    if y != [] {
      assert (x + y)[..|x + y| - 1] == x + y[..|y| - 1];
    }
  }

  lemma BytesOfNibbles(n: nat)
    requires n <= HEADER_NIBBLES
    ensures (4 * n + 7) / 8 % 256 == (n + 1) / 2
    ensures 4 * n % 8 == if n % 2 == 0 then 0 else 4
  {
  }

  /** At a nibble boundary the header is that of the prefix. */
  lemma HeaderAtIsHeader(key: Key, n: nat)
    requires n <= |key| && n <= HEADER_NIBBLES
    ensures HeaderAt(key, 4 * n) == Header(key[..n])
  {
    HeaderIsWhole(key[..n], []);
    HeaderAtCut(key, n);
    if n % 2 == 0 {
      TakeEven(key, n);
      ClearedLast(BigEndian16(4 * n), Packed(key)[..n / 2], 0);
    } else {
      TakeOdd(key, n);
      ClearedOdd(BigEndian16(4 * n), Packed(key), n);
    }
  }

  lemma HeaderAtCut(key: Key, n: nat)
    requires n <= |key| && n <= HEADER_NIBBLES
    ensures (n + 1) / 2 <= |Packed(key)|
    ensures HeaderAt(key, 4 * n)
         == LastCleared(BigEndian16(4 * n) + Packed(key)[..(n + 1) / 2], if n % 2 == 0 then 0 else 4)
  {
    BytesOfNibbles(n);
  }

  lemma ClearedOdd(len: Bytes, bytes: Bytes, n: nat)
    requires n % 2 == 1 && (n + 1) / 2 <= |bytes|
    ensures LastCleared(len + bytes[..(n + 1) / 2], 4) == len + (bytes[..n / 2] + [Cleared(bytes[n / 2], 4)])
  {
    ClearedLast(len, bytes[..(n + 1) / 2], 4);
    OddTake(bytes, n);
  }

  lemma OddTake(bytes: Bytes, n: nat)
    requires n % 2 == 1 && (n + 1) / 2 <= |bytes|
    ensures var y := bytes[..(n + 1) / 2];
      |y| == n / 2 + 1 && y[..|y| - 1] == bytes[..n / 2] && y[|y| - 1] == bytes[n / 2]
  {
  }

  // ----- checking -----

  /** `get_branch_bits` at a length in bits; between nibbles it gives the lower half of the byte. */
  function BitsAt(key: Key, len: nat): Nibble
    requires len < 4 * |key|
  {
    if len % 4 == 0 then key[len / 4]
    else if 2 * (len / 8) + 1 < |key| then key[2 * (len / 8) + 1]
    else 0
  }

  /** The hashes of slots `b` and up: the carried one for slot `self`, the others from `data[idx..]`. */
  function Fill(bv: set<Nibble>, b: nat, data: seq<Bytes>, idx: nat, self: Nibble,
                carried: Option<Hash>): (r: Option<map<Nibble, Hash>>)
    requires b <= 16
    ensures r.Some? ==> r.value.Keys == set i | i in bv && b <= i
    decreases 16 - b
  {
    if b == 16 then Some(map[])
    else if b !in bv then Fill(bv, b + 1, data, idx, self, carried)
    else if b == self then
      var rest := Fill(bv, b + 1, data, idx, self, carried);
      if carried.Some? && rest.Some? then Some(rest.value[b := carried.value]) else None
    else if idx < |data| && |data[idx]| == 32 then
      var rest := Fill(bv, b + 1, data, idx + 1, self, carried);
      if rest.Some? then Some(rest.value[b := data[idx]]) else None
    else None
  }

  /** The same as bytes, in the order in which they are written. */
  function FillBytes(bv: set<Nibble>, b: nat, data: seq<Bytes>, idx: nat, self: Nibble,
                     carried: Option<Hash>): Option<Bytes>
    requires b <= 16
    decreases 16 - b
  {
    if b == 16 then Some([])
    else if b !in bv then FillBytes(bv, b + 1, data, idx, self, carried)
    else if b == self then
      var rest := FillBytes(bv, b + 1, data, idx, self, carried);
      if carried.Some? && rest.Some? then Some(carried.value + rest.value) else None
    else if idx < |data| && |data[idx]| == 32 then
      var rest := FillBytes(bv, b + 1, data, idx + 1, self, carried);
      if rest.Some? then Some(data[idx] + rest.value) else None
    else None
  }

  lemma {:induction false} ConcatSame(m: map<Nibble, Hash>, n: map<Nibble, Hash>, b: nat)
    requires b <= 16 && forall i: Nibble | b <= i :: (i in m <==> i in n) && (i in m ==> m[i] == n[i])
    ensures Concat(m, b) == Concat(n, b)
    decreases 16 - b
  {
    if b < 16 { ConcatSame(m, n, b + 1); }
  }

  lemma {:induction false} FillBytesIsConcat(bv: set<Nibble>, b: nat, data: seq<Bytes>, idx: nat, self: Nibble,
                                             carried: Option<Hash>)
    requires b <= 16
    ensures var m := Fill(bv, b, data, idx, self, carried);
      FillBytes(bv, b, data, idx, self, carried) == if m.Some? then Some(Concat(m.value, b)) else None
    decreases 16 - b
  {
    if b < 16 {
      var next := if b in bv && b != self then idx + 1 else idx;
      FillBytesIsConcat(bv, b + 1, data, next, self, carried);
      var m, rest := Fill(bv, b, data, idx, self, carried), Fill(bv, b + 1, data, next, self, carried);
      if m.Some? {
        ConcatSame(m.value, rest.value, b + 1);
        assert b !in bv ==> [] + Concat(rest.value, b + 1) == Concat(rest.value, b + 1);
      }
    }
  }

  /** The bytes that a layer hashes, or why the proof fails there. */
  function LayerStep(key: Key, layer: Layer, below: Option<Carry>): Step {
    if layer.len == 4 * |key| then
      if below.Some? || |layer.data| != 1 || layer.bv != {} then Bad
      else Digest(HeaderAt(key, layer.len) + layer.data[0])
    else if below.Some? && below.value.len <= layer.len then Bad
    else if layer.len > 4 * |key| then Raise
    else
      var self := BitsAt(key, layer.len);
      var rest := FillBytes(layer.bv, 0, layer.data, 0, self, if below.Some? then Some(below.value.hash) else None);
      if rest.None? || (below.Some? && self !in layer.bv) then Bad
      else Digest(HeaderAt(key, layer.len) + (BitVector(layer.bv) + rest.value))
  }

  type Stepper = (Layer, Option<Carry>) -> Step

  function StepOf(key: Key): Stepper {
    (layer, below) => LayerStep(key, layer, below)
  }

  datatype Run = Run(digests: seq<Bytes>) | Failed(verdict: Verdict)

  function Below(H: Hasher, stack: seq<Layer>, digests: seq<Bytes>): Option<Carry>
    requires |digests| <= |stack|
  {
    var n := |digests|;
    if n == 0 then None else Some(Carry(H(digests[n - 1]), stack[n - 1].len))
  }

  /** The byte strings hashed for the first `n` layers. */
  function Check(H: Hasher, F: Stepper, stack: seq<Layer>, n: nat): (r: Run)
    requires n <= |stack|
    ensures r.Run? ==> |r.digests| == n
    ensures r.Failed? ==> r.verdict != Accept
  {
    if n == 0 then Run([])
    else
      var r := Check(H, F, stack, n - 1);
      if r.Failed? then r
      else
        match F(stack[n - 1], Below(H, stack, r.digests))
        case Digest(d) => Run(r.digests + [d])
        case Bad => Failed(Reject)
        case Raise => Failed(Throw)
  }

  function Verdicts(H: Hasher, F: Stepper, stack: seq<Layer>, root: Hash): Verdict {
    var r := Check(H, F, stack, |stack|);
    if r.Failed? then r.verdict
    else if r.digests != [] && H(r.digests[|r.digests| - 1]) == root then Accept
    else Reject
  }

  function VerdictOf(H: Hasher, proof: Proof, root: Hash): Verdict {
    Verdicts(H, StepOf(proof.key), proof.stack, root)
  }

  function Joined(front: Bytes, rest: Option<Bytes>): Option<Bytes> {
    if rest.Some? then Some(front + rest.value) else None
  }

  /** Moving the next hash from what is left to what is written. */
  lemma JoinedMoves(front: Bytes, h: Bytes, rest: Option<Bytes>)
    ensures Joined(front, Joined(h, rest)) == Joined(front + h, rest)
  {
    if rest.Some? { assert front + (h + rest.value) == (front + h) + rest.value; }
  }

  /** The rest of the digest, popping the bit vector from its lowest bit. */
  method FillLoop(bv: set<Nibble>, data: seq<Bytes>, self: Nibble, carried: Option<Hash>)
    returns (r: Option<Bytes>, used: bool)
    ensures r == FillBytes(bv, 0, data, 0, self, carried)
    ensures r.Some? ==> (used <==> self in bv)
  {
    var idx, buffer: Bytes := 0, [];
    used := false;
    ghost var all := FillBytes(bv, 0, data, 0, self, carried);
    assert all.Some? ==> [] + all.value == all.value;
    for b := 0 to 16
      invariant all == Joined(buffer, FillBytes(bv, b, data, idx, self, carried))
      invariant used <==> self in bv && self < b
    {
      if b in bv {
        if b == self {
          if carried.None? {
            return None, used;
          }
          JoinedMoves(buffer, carried.value, FillBytes(bv, b + 1, data, idx, self, carried));
          buffer, used := buffer + carried.value, true;
        } else {
          if |data| <= idx || |data[idx]| != 32 {
            return None, used;
          }
          JoinedMoves(buffer, data[idx], FillBytes(bv, b + 1, data, idx + 1, self, carried));
          buffer, idx := buffer + data[idx], idx + 1;
        }
      }
    }
    assert buffer + [] == buffer;
    r := Some(buffer);
  }

  method CheckLayer(key: Key, layer: Layer, below: Option<Carry>) returns (step: Step)
    ensures step == LayerStep(key, layer, below)
  {
    if layer.len == 4 * |key| {
      if below.Some? || |layer.data| != 1 || layer.bv != {} {
        return Bad;
      }
      return Digest(HeaderAt(key, layer.len) + layer.data[0]);
    }
    if below.Some? && below.value.len <= layer.len {
      return Bad;
    }
    if layer.len > 4 * |key| {
      return Raise;
    }
    var self := BitsAt(key, layer.len);
    var rest, used := FillLoop(layer.bv, layer.data, self, if below.Some? then Some(below.value.hash) else None);
    if rest.None? || (below.Some? && !used) {
      return Bad;
    }
    return Digest(HeaderAt(key, layer.len) + (BitVector(layer.bv) + rest.value));
  }

  lemma {:induction false} FailureStays(H: Hasher, F: Stepper, stack: seq<Layer>, n: nat, m: nat)
    requires n <= m <= |stack| && Check(H, F, stack, n).Failed?
    ensures Check(H, F, stack, m) == Check(H, F, stack, n)
    decreases m
  {
    if n < m { FailureStays(H, F, stack, n, m - 1); }
  }

  /** `verify_proof`. */
  method VerifyProof(H: Hasher, proof: Proof, root: Hash) returns (verdict: Verdict)
    ensures verdict == VerdictOf(H, proof, root)
  {
    var stack := proof.stack;
    ghost var F := StepOf(proof.key);
    var carried: Option<Carry> := None;
    var n := 0;
    while n < |stack|
      invariant n <= |stack|
      invariant Check(H, F, stack, n).Run? && carried == Below(H, stack, Check(H, F, stack, n).digests)
    {
      var step := CheckLayer(proof.key, stack[n], carried);
      assert step == F(stack[n], carried);
      n := n + 1;
      if !step.Digest? {
        FailureStays(H, F, stack, n, |stack|);
        return if step.Bad? then Reject else Throw;
      }
      carried := Some(Carry(H(step.bytes), stack[n - 1].len));
    }
    verdict := if carried.Some? && carried.value.hash == root then Accept else Reject;
  }
}
