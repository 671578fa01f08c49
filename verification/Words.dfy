/**
 64-bit words as sequences of bits, the most significant first, with the machine's
 operators defined bit by bit.
 */
module Words {

  import opened Nibbles

  const BITS: nat := 64

  type Word = w: seq<bool> | |w| == BITS witness seq(BITS, _ => false)

  // ----- the operators -----

  function Shl(w: Word, n: nat): Word
    requires n <= BITS
  {
    w[n..] + seq(n, _ => false)
  }

  function Shr(w: Word, n: nat): Word
    requires n <= BITS
  {
    seq(n, _ => false) + w[..BITS - n]
  }

  function And(a: Word, b: Word): Word {
    seq(BITS, i requires 0 <= i < BITS => a[i] && b[i])
  }

  function Or(a: Word, b: Word): Word {
    seq(BITS, i requires 0 <= i < BITS => a[i] || b[i])
  }

  function Xor(a: Word, b: Word): Word {
    seq(BITS, i requires 0 <= i < BITS => a[i] != b[i])
  }

  function Not(a: Word): Word {
    seq(BITS, i requires 0 <= i < BITS => !a[i])
  }

  function Zero(): Word {
    seq(BITS, _ => false)
  }

  /** The word with value `n`, for a nibble `n`. */
  function OfNibble(n: Nibble): Word {
    seq(BITS - 4, _ => false) + [n >= 8, n % 8 >= 4, n % 4 >= 2, n % 2 >= 1]
  }

  /** `__builtin_clzll`. */
  function LeadingZeros(w: seq<bool>): (n: nat)
    ensures n <= |w| && (n < |w| ==> w[n]) && forall i | 0 <= i < n :: !w[i]
  {
    if w == [] || w[0] then 0 else
      var n := LeadingZeros(w[1..]);
      assert forall i | 1 <= i < n + 1 :: w[i] == w[1..][i - 1];
      n + 1
  }

  /** `__builtin_ctzll`. */
  function TrailingZeros(w: seq<bool>): (n: nat)
    ensures n <= |w| && (n < |w| ==> w[|w| - 1 - n]) && forall i | |w| - n <= i < |w| :: !w[i]
  {
    if w == [] || w[|w| - 1] then 0 else
      var n := TrailingZeros(w[..|w| - 1]);
      assert forall i | 0 <= i < |w| - 1 :: w[i] == w[..|w| - 1][i];
      n + 1
  }

  /** One less: the lowest bit that is set goes, and the bits below it are set. */
  function Decrement(w: seq<bool>): (r: seq<bool>)
    ensures |r| == |w|
    ensures var n := TrailingZeros(w); forall i | 0 <= i < |w| ::
      r[i] == if i < |w| - 1 - n then w[i] else i > |w| - 1 - n
  {
    var n := TrailingZeros(w);
    seq(|w|, i requires 0 <= i < |w| => if i < |w| - 1 - n then w[i] else i > |w| - 1 - n)
  }

  /** `&` on numbers. */
  function BitAnd(a: nat, b: nat): nat {
    if a == 0 || b == 0 then 0 else 2 * BitAnd(a / 2, b / 2) + (a % 2) * (b % 2)
  }

  function Bit(b: bool): nat {
    if b then 1 else 0
  }

  /** The number a sequence of bits denotes. */
  function Value(w: seq<bool>): nat {
    if w == [] then 0 else 2 * Value(w[..|w| - 1]) + Bit(w[|w| - 1])
  }

  lemma {:induction false} DecrementIsOneLess(w: seq<bool>)
    requires TrailingZeros(w) < |w|
    ensures Value(Decrement(w)) == Value(w) - 1
    decreases |w|
  {
    var x := w[..|w| - 1];
    if w[|w| - 1] {
      assert Decrement(w)[..|w| - 1] == x;
    } else {
      DecrementIsOneLess(x);
      assert Decrement(w)[..|w| - 1] == Decrement(x);
    }
  }

  lemma AndEven(a: nat, m: nat)
    ensures BitAnd(a, 2 * m) == 2 * BitAnd(a / 2, m)
  {
    assert 2 * m / 2 == m && 2 * m % 2 == 0;
  }

  lemma AndOdd(a: nat, m: nat)
    ensures BitAnd(a, 2 * m + 1) == 2 * BitAnd(a / 2, m) + a % 2
  {
    assert (2 * m + 1) / 2 == m && (2 * m + 1) % 2 == 1;
  }

  lemma LowThreeBits(x: nat)
    ensures BitAnd(x, 7) == x % 8
  {
    AndOdd(x, 3);
    AndOdd(x / 2, 1);
    AndOdd(x / 2 / 2, 0);
  }

  /** Masking a length in bits with `0x38` gives the offset of its byte within its word. */
  lemma ByteOffset(len: nat)
    ensures BitAnd(len, 0x38) == 8 * (len / 8 % 8)
  {
    AndEven(len, 0x1C);
    AndEven(len / 2, 0x0E);
    AndEven(len / 2 / 2, 7);
    assert len / 2 / 2 / 2 == len / 8;
    LowThreeBits(len / 8);
  }

  // ----- nibbles -----

  function Quad(w: Word, i: nat): Nibble
    requires i < 16
  {
    8 * Bit(w[4 * i]) + 4 * Bit(w[4 * i + 1]) + 2 * Bit(w[4 * i + 2]) + Bit(w[4 * i + 3])
  }

  predicate SameBits(a: Word, i: nat, b: Word, j: nat)
    requires i < 16 && j < 16
  {
    && a[4 * i] == b[4 * j] && a[4 * i + 1] == b[4 * j + 1]
    && a[4 * i + 2] == b[4 * j + 2] && a[4 * i + 3] == b[4 * j + 3]
  }

  lemma QuadsDecide(a: Word, b: Word, i: nat, j: nat)
    requires i < 16 && j < 16
    ensures Quad(a, i) == Quad(b, j) <==> SameBits(a, i, b, j)
  {
  }

  lemma NibbleWord(n: Nibble)
    ensures Quad(OfNibble(n), 15) == n
  {
  }
}
