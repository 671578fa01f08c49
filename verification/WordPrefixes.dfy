/**
 Prefixes that are one 64-bit word (`UInt64Prefix`).

 Every operation of the class is tied to the same operation on the sixteen nibbles
 of the word.
 */
module WordPrefixes {

  import opened Nibbles
  import opened Words
  import opened Tries
  import opened Digests
  import opened Proofs
  import opened BatchItems

  function NibblesOf(w: Word): (k: Key)
    ensures |k| == 16 && forall i | 0 <= i < 16 :: k[i] == Quad(w, i)
  {
    seq(16, i requires 0 <= i < 16 => Quad(w, i))
  }

  // ----- the class -----

  /** `get_branch_bits`; nothing for a length beyond the end, where it throws. */
  method BranchBits(w: Word, len: nat) returns (r: Option<Nibble>)
    requires len % 4 == 0
    ensures r == if len < BITS then Some(NibblesOf(w)[len / 4]) else None
  {
    if len >= BITS { return None; }
    var x := And(Shr(w, BITS - 4 - len), OfNibble(15));
    QuadsDecide(x, w, 15, len / 4);
    return Some(Quad(x, 15));
  }

  /** `get_prefix_match_len`: leading equal bits, rounded down to nibbles, capped by both lengths. */
  method PrefixMatchLen(a: Word, selfLen: nat, b: Word, otherLen: nat) returns (r: nat)
    ensures r == Least(Least(4 * MatchLen(NibblesOf(a), NibblesOf(b)), selfLen), otherLen)
  {
    var diff := Xor(a, b);
    assert forall i | 0 <= i < BITS :: a[i] == b[i] <==> !diff[i];
    var bits := BITS;
    if diff != Zero() {
      var n := LeadingZeros(diff);
      bits := n - n % 4;
      MatchAt(a, b, n);
    } else {
      assert a == b;
      MatchLenUnique(NibblesOf(a), NibblesOf(a), 16);
    }
    r := Least(Least(bits, selfLen), otherLen);
  }

  lemma MatchAt(a: Word, b: Word, n: nat)
    requires n < BITS && a[n] != b[n] && forall i | 0 <= i < n :: a[i] == b[i]
    ensures 4 * MatchLen(NibblesOf(a), NibblesOf(b)) == n - n % 4
  {
    var m := n / 4;
    forall i | 0 <= i < m ensures NibblesOf(a)[i] == NibblesOf(b)[i] { QuadsDecide(a, b, i, i); }
    QuadsDecide(a, b, m, m);
    assert a[4 * m + n % 4] != b[4 * m + n % 4];
    assert NibblesOf(a)[..m] == NibblesOf(b)[..m];
    MatchLenUnique(NibblesOf(a), NibblesOf(b), m);
  }

  /** `truncate`. */
  method Truncate(w: Word, len: nat) returns (r: Word)
    requires len % 4 == 0 && len <= BITS
    ensures forall i | 0 <= i < 16 :: NibblesOf(r)[i] == if i < len / 4 then NibblesOf(w)[i] else 0
  {
    if len == 0 {
      r := Zero();
    } else {
      r := And(w, Shl(Not(Zero()), BITS - len));
      forall i | 0 <= i < 16 ensures NibblesOf(r)[i] == if i < len / 4 then NibblesOf(w)[i] else 0 {
        QuadsDecide(r, if i < len / 4 then w else Zero(), i, i);
      }
    }
  }

  /** `set_next_branch_bits`: one nibble is replaced, the others stay. */
  method SetNextBranchBits(w: Word, len: nat, bb: Nibble) returns (r: Word)
    requires len % 4 == 0 && len < BITS
    ensures NibblesOf(r) == NibblesOf(w)[len / 4 := bb]
  {
    var offset := BITS - 4 - len;
    var mask := Shl(OfNibble(15), offset);
    var adjust := Shl(OfNibble(bb), offset);
    r := Or(And(w, Not(mask)), adjust);
    forall i | 0 <= i < 16 ensures NibblesOf(r)[i] == NibblesOf(w)[len / 4 := bb][i] {
      if i == len / 4 {
        QuadsDecide(r, OfNibble(bb), i, 15);
        NibbleWord(bb);
      } else {
        QuadsDecide(r, w, i, i);
      }
    }
  }

  // ----- order -----

  lemma {:induction false} FirstBitDecides(a: seq<bool>, b: seq<bool>, n: nat)
    requires |a| == |b| && n < |a| && !a[n] && b[n] && forall i | 0 <= i < n :: a[i] == b[i]
    ensures Value(a) < Value(b)
  {
    var x, y := a[..|a| - 1], b[..|b| - 1];
    if n == |a| - 1 {
      assert x == y;
    } else {
      FirstBitDecides(x, y, n);
    }
  }

  lemma QuadOrder(a: Word, b: Word, n: nat)
    requires n < BITS && !a[n] && b[n] && forall i | 0 <= i < n :: a[i] == b[i]
    ensures Quad(a, n / 4) < Quad(b, n / 4)
  {
  }

  lemma LessFromBit(a: Word, b: Word, n: nat)
    requires n < BITS && !a[n] && b[n] && forall i | 0 <= i < n :: a[i] == b[i]
    ensures Value(a) < Value(b) && Less(NibblesOf(a), NibblesOf(b)) && !Less(NibblesOf(b), NibblesOf(a))
  {
    FirstBitDecides(a, b, n);
    QuadOrder(a, b, n);
    MatchAt(a, b, n);
    MatchAt(b, a, n);
  }

  /** The order of the words is the lexicographic order of the nibbles. */
  lemma OrderIsLexicographic(a: Word, b: Word)
    ensures Value(a) < Value(b) <==> Less(NibblesOf(a), NibblesOf(b))
  {
    if a != b {
      var diff := Xor(a, b);
      assert forall i | 0 <= i < BITS :: a[i] == b[i] <==> !diff[i];
      var n := LeadingZeros(diff);
      if b[n] {
        LessFromBit(a, b, n);
      } else {
        LessFromBit(b, a, n);
      }
    }
  }

  // ----- headers -----

  /** `write_node_header`: the eight bytes of the word, cut and masked at `len`. */
  function WordHeader(w: Word, len: nat): Bytes
    requires len <= BITS
  {
    var all := BigEndian16(len) + Packed(NibblesOf(w));
    var extra := 8 - (len + 7) / 8;
    LastCleared(all[..|all| - extra], len % 8)
  }

  /** It is the header of the nibbles up to that length. */
  lemma WordHeaderIsHeader(w: Word, n: nat)
    requires n <= 16
    ensures WordHeader(w, 4 * n) == Header(NibblesOf(w)[..n])
  {
    var m := (4 * n + 7) / 8;
    FewBytesOf(n);
    CutBehind(BigEndian16(4 * n), Packed(NibblesOf(w)), m);
    HeaderAtIsHeader(NibblesOf(w), n);
  }

  lemma FewBytesOf(n: nat)
    requires n <= 16
    ensures (4 * n + 7) / 8 <= 8 && (4 * n + 7) / 8 % 256 == (4 * n + 7) / 8
  {
  }

  lemma CutBehind(len: Bytes, bytes: Bytes, m: nat)
    requires m <= |bytes|
    ensures (len + bytes)[..|len + bytes| - (|bytes| - m)] == len + bytes[..m]
  {
  }
}
