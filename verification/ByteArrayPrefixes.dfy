/**
 Prefixes that are arrays of 64-bit words (`ByteArrayPrefix`).

 The bytes of a key fill little-endian words; the last word may be filled in part,
 and what is behind the key in it is arbitrary.  Every operation of the class is
 tied to the same operation on the nibbles of the key.
 */
module ByteArrayPrefixes {

  import opened Nibbles
  import opened Words
  import opened Tries
  import opened Prefixes

  /** Where nibble `k` of a little-endian word lies, counted in nibbles from its most significant end. */
  function Place(k: nat): nat
    requires k < 16
  {
    if k % 2 == 0 then 14 - k else 16 - k
  }

  function WordNibble(w: Word, k: nat): Nibble
    requires k < 16
  {
    Quad(w, Place(k))
  }

  // ----- the nibbles of an array of words -----

  type Row = k: Key | |k| == 16 witness seq(16, _ => 0)

  function WordRow(w: Word): Row {
    seq(16, i requires 0 <= i < 16 => WordNibble(w, i))
  }

  function Rows(data: seq<Word>): (rows: seq<Row>)
    ensures |rows| == |data| && forall i | 0 <= i < |data| :: rows[i] == WordRow(data[i])
  {
    seq(|data|, i requires 0 <= i < |data| => WordRow(data[i]))
  }

  function Flatten(rows: seq<Row>): (k: Key)
    ensures |k| == 16 * |rows|
  {
    seq(16 * |rows|, i requires 0 <= i < 16 * |rows| => rows[i / 16][i % 16])
  }

  /** `x` is made of the rows, one after the other. */
  ghost predicate Spread(x: Key, rows: seq<Row>) {
    && |x| == 16 * |rows|
    && forall i, k {:trigger rows[i][k]} | 0 <= i < |rows| && 0 <= k < 16 :: x[16 * i + k] == rows[i][k]
  }

  lemma FlattenSpreads(rows: seq<Row>)
    ensures Spread(Flatten(rows), rows)
  {
    forall i, k | 0 <= i < |rows| && 0 <= k < 16 ensures Flatten(rows)[16 * i + k] == rows[i][k] {
      assert (16 * i + k) / 16 == i && (16 * i + k) % 16 == k;
    }
  }

  lemma RowPlace(k: nat) returns (i: nat, l: nat)
    ensures l < 16 && k == 16 * i + l
  {
    i, l := k / 16, k % 16;
  }

  /** The nibbles of the first `size` bytes. */
  function KeyOf(data: seq<Word>, size: nat): (k: Key)
    requires size <= 8 * |data|
    ensures |k| == 2 * size
  {
    Flatten(Rows(data))[..2 * size]
  }

  // ----- match length within a word -----

  lemma LowerBitsDecide(a: Word, b: Word, j: nat, k: nat)
    requires j <= 8 && k < 2 * j && forall i | BITS - 8 * j <= i < BITS :: a[i] == b[i]
    ensures WordNibble(a, k) == WordNibble(b, k)
  {
    assert 4 * Place(k) >= BITS - 8 * j;
    QuadsDecide(a, b, Place(k), Place(k));
  }

  function LowHalf(): Word {
    OfNibble(15)
  }

  function HighHalf(): Word {
    Shl(OfNibble(15), 4)
  }

  /** Masking a shifted word leaves the bits of one nibble. */
  lemma MaskedHigh(w: Word, j: nat)
    requires j < 8
    ensures forall i | 0 <= i < BITS :: And(Shr(w, 8 * j), HighHalf())[i] == (56 <= i < 60 && w[i - 8 * j])
  {
  }

  lemma MaskedLow(w: Word, j: nat)
    requires j < 8
    ensures forall i | 0 <= i < BITS :: And(Shr(w, 8 * j), LowHalf())[i] == (60 <= i && w[i - 8 * j])
  {
  }

  lemma HighTest(w: Word, j: nat)
    requires j < 8
    ensures And(Shr(w, 8 * j), HighHalf()) == Zero() <==> WordNibble(w, 2 * j) == 0
  {
    MaskedHigh(w, j);
    QuadTest(And(Shr(w, 8 * j), HighHalf()), w, 14, j);
    Places(j);
  }

  lemma LowTest(w: Word, j: nat)
    requires j < 8
    ensures And(Shr(w, 8 * j), LowHalf()) == Zero() <==> WordNibble(w, 2 * j + 1) == 0
  {
    MaskedLow(w, j);
    QuadTest(And(Shr(w, 8 * j), LowHalf()), w, 15, j);
    Places(j);
  }

  lemma Places(j: nat)
    requires j < 8
    ensures Place(2 * j) == 14 - 2 * j && Place(2 * j + 1) == 15 - 2 * j
  {
  }

  lemma QuadTest(x: Word, w: Word, i: nat, j: nat)
    requires 14 <= i < 16 && j < 8
    requires forall b | 0 <= b < BITS :: x[b] == (4 * i <= b < 4 * i + 4 && w[b - 8 * j])
    ensures x == Zero() <==> Quad(w, i - 2 * j) == 0
  {
    OnlyQuad(x, i);
    MovedQuad(x, i, w, i - 2 * j, 8 * j);
  }

  lemma MovedQuad(x: Word, i: nat, w: Word, k: nat, n: nat)
    requires i < 16 && k < 16 && 4 * i == 4 * k + n
    requires forall b | 4 * i <= b < 4 * i + 4 :: x[b] == w[b - n]
    ensures Quad(x, i) == Quad(w, k)
  {
    assert x[4 * i] == w[4 * k] && x[4 * i + 1] == w[4 * k + 1];
    assert x[4 * i + 2] == w[4 * k + 2] && x[4 * i + 3] == w[4 * k + 3];
  }

  /** A word whose other bits are zero is zero exactly if the nibble is. */
  lemma OnlyQuad(w: Word, i: nat)
    requires i < 16 && forall b | 0 <= b < BITS && !(4 * i <= b < 4 * i + 4) :: !w[b]
    ensures w == Zero() <==> Quad(w, i) == 0
  {
    if Quad(w, i) == 0 {
      assert !w[4 * i] && !w[4 * i + 1] && !w[4 * i + 2] && !w[4 * i + 3];
      assert forall b | 0 <= b < BITS :: !w[b];
    }
  }

  /** `x` is the exclusive or of `a` and `b`. */
  ghost predicate IsXor(x: Word, a: Word, b: Word) {
    forall i | 0 <= i < BITS :: x[i] == (a[i] != b[i])
  }

  lemma XorIsXor(a: Word, b: Word)
    ensures IsXor(Xor(a, b), a, b)
  {
  }

  /** The nibble of an exclusive or is zero exactly where the nibbles agree. */
  lemma XorNibble(x: Word, a: Word, b: Word, k: nat)
    requires k < 16 && IsXor(x, a, b)
    ensures WordNibble(x, k) == 0 <==> WordNibble(a, k) == WordNibble(b, k)
  {
    QuadsDecide(a, b, Place(k), Place(k));
  }

  /** Nibble `k` is the first in which the words differ. */
  ghost predicate FirstDiffers(a: Word, b: Word, k: nat) {
    && k < 16 && WordNibble(a, k) != WordNibble(b, k)
    && forall j | 0 <= j < k :: WordNibble(a, j) == WordNibble(b, j)
  }

  /** The offset in bits at which two words part, from the trailing zeros of their exclusive or. */
  method WordOffset(a: Word, b: Word) returns (offset: nat, ghost k: nat)
    requires Xor(a, b) != Zero()
    ensures offset == 4 * k && FirstDiffers(a, b, k)
  {
    var local := Xor(a, b);
    var n := TrailingZeros(local);
    XorIsXor(a, b);
    NotAllZero(local);
    ghost var j := Bytewise(n);
    PartingByte(a, b, local, n, j);
    offset := HalfOffset(local, n - n % 8, j);
    k := if WordNibble(local, 2 * j) != 0 then 2 * j else 2 * j + 1;
  }

  lemma Bytewise(n: nat) returns (j: nat)
    ensures n - n % 8 == 8 * j <= n < 8 * j + 8
  {
    j := n / 8;
  }

  /** The half of byte `j` in which a word is not zero, as an offset in bits. */
  method HalfOffset(local: Word, offset: nat, ghost j: nat) returns (r: nat)
    requires offset == 8 * j && j < 8 && (WordNibble(local, 2 * j) == 0 ==> WordNibble(local, 2 * j + 1) != 0)
    ensures r == if WordNibble(local, 2 * j) != 0 then offset else offset + 4
  {
    HighTest(local, j);
    LowTest(local, j);
    r := offset;
    if And(Shr(local, offset), HighHalf()) == Zero() && And(Shr(local, offset), LowHalf()) != Zero() {
      r := r + 4;
    }
  }

  /** What the first set bit of the exclusive or says about the byte it is in. */
  lemma PartingByte(a: Word, b: Word, x: Word, n: nat, j: nat)
    requires IsXor(x, a, b) && n < BITS && x[BITS - 1 - n] && 8 * j <= n < 8 * j + 8
    requires forall i | BITS - n <= i < BITS :: !x[i]
    ensures FirstDiffers(a, b, if WordNibble(x, 2 * j) != 0 then 2 * j else 2 * j + 1)
    ensures WordNibble(x, 2 * j) == 0 ==> WordNibble(x, 2 * j + 1) != 0
  {
    SomeHalf(x, n, j);
    XorNibble(x, a, b, 2 * j);
    XorNibble(x, a, b, 2 * j + 1);
    forall k: nat | k < 2 * j ensures WordNibble(a, k) == WordNibble(b, k) {
      LowerBitsDecide(a, b, j, k);
    }
  }

  lemma NotAllZero(w: Word)
    requires w != Zero()
    ensures TrailingZeros(w) < BITS
  {
  }

  /** The byte that holds a set bit is not zero. */
  lemma SomeHalf(w: Word, n: nat, j: nat)
    requires n < BITS && w[BITS - 1 - n] && 8 * j <= n < 8 * j + 8
    ensures WordNibble(w, 2 * j) != 0 || WordNibble(w, 2 * j + 1) != 0
  {
    Places(j);
  }

  // ----- match length of two arrays -----

  /** Two arrays agree before word `i`. */
  ghost predicate AgreeTo(a: seq<Word>, b: seq<Word>, i: nat) {
    i <= |a| <= |b| && forall j | 0 <= j < i :: a[j] == b[j]
  }

  ghost predicate RowsPart(r: Row, q: Row, k: nat) {
    k < 16 && r[k] != q[k] && forall j | 0 <= j < k :: r[j] == q[j]
  }

  lemma SpreadAt(x: Key, r: seq<Row>, k: nat) returns (i: nat, l: nat)
    requires Spread(x, r) && k < |x|
    ensures k == 16 * i + l && i < |r| && l < 16 && x[k] == r[i][l]
  {
    i, l := RowPlace(k);
    assert r[i][l] == x[16 * i + l];
  }

  /** The first difference within row `i`, as a position in the array. */
  lemma PartInRow(r: seq<Row>, x: Key, q: seq<Row>, y: Key, i: nat, k: nat)
    requires Spread(x, r) && Spread(y, q) && i < |r| <= |q| && RowsPart(r[i], q[i], k)
    requires forall j | 0 <= j < i :: r[j] == q[j]
    ensures 16 * i + k < |x| && x[16 * i + k] != y[16 * i + k]
    ensures forall j | 0 <= j < 16 * i + k :: x[j] == y[j]
  {
    forall j: nat | j < 16 * i + k ensures x[j] == y[j] {
      var h, l := SpreadAt(x, r, j);
      assert q[h][l] == y[16 * h + l];
    }
  }

  /** Where two keys that may go on part tells the match length of their beginnings. */
  lemma PartAt(x: Key, m: nat, y: Key, n: nat, d: nat)
    requires m <= n && m <= |x| <= |y| && n <= |y| && d < |x|
    requires x[d] != y[d] && forall k | 0 <= k < d :: x[k] == y[k]
    ensures MatchLen(x[..m], y[..n]) == Least(d, m)
  {
    var l := Least(d, m);
    assert x[..m][..l] == y[..n][..l];
    MatchLenUnique(x[..m], y[..n], l);
  }

  /** The match length of two keys whose words first differ in word `i`, be it behind the end of the shorter one. */
  lemma PartInWord(a: seq<Word>, m: nat, b: seq<Word>, n: nat, i: nat, k: nat)
    requires m <= n && m <= 8 * |a| && n <= 8 * |b| && i < |a| && AgreeTo(a, b, i) && FirstDiffers(a[i], b[i], k)
    ensures 4 * MatchLen(KeyOf(a, m), KeyOf(b, n)) == Least(64 * i + 4 * k, 8 * m)
    ensures Least(64 * i + 4 * k, 8 * m) % 4 == 0
  {
    var r, q := Rows(a), Rows(b);
    FlattenSpreads(r);
    FlattenSpreads(q);
    WordsPart(a[i], b[i], k);
    PartInRow(r, Flatten(r), q, Flatten(q), i, k);
    PartAt(Flatten(r), 2 * m, Flatten(q), 2 * n, 16 * i + k);
    Nibblewise(16 * i + k, m);
  }

  /** The word that decides the match length. */
  method MatchInWord(x: Word, y: Word, ghost i: nat, ghost a: seq<Word>, ghost m: nat, ghost b: seq<Word>, ghost n: nat)
    returns (offset: nat)
    requires m <= n && m <= 8 * |a| && n <= 8 * |b| && i < |a| && AgreeTo(a, b, i)
    requires x == a[i] && y == b[i] && Xor(x, y) != Zero()
    ensures 4 * MatchLen(KeyOf(a, m), KeyOf(b, n)) == Least(64 * i + offset, 8 * m)
    ensures Least(64 * i + offset, 8 * m) % 4 == 0
  {
    ghost var k;
    offset, k := WordOffset(x, y);
    PartInWord(a, m, b, n, i, k);
  }

  lemma NowhereApart(a: seq<Word>, m: nat, b: seq<Word>, n: nat)
    requires m <= n && m <= 8 * |a| && n <= 8 * |b| && AgreeTo(a, b, |a|)
    ensures MatchLen(KeyOf(a, m), KeyOf(b, n)) == 2 * m
  {
    var r, q := Rows(a), Rows(b);
    FlattenSpreads(r);
    FlattenSpreads(q);
    SameBeginning(r, Flatten(r), q, Flatten(q), 2 * m);
    var x, y := KeyOf(a, m), KeyOf(b, n);
    assert x[..2 * m] == y[..2 * m];
    MatchLenUnique(x, y, 2 * m);
  }

  lemma SameBeginning(r: seq<Row>, x: Key, q: seq<Row>, y: Key, m: nat)
    requires Spread(x, r) && Spread(y, q) && |r| <= |q| && m <= |x| && forall j | 0 <= j < |r| :: r[j] == q[j]
    ensures x[..m] == y[..m]
  {
    forall j: nat | j < m ensures x[j] == y[j] {
      var h, l := SpreadAt(x, r, j);
      assert q[h][l] == y[16 * h + l];
    }
  }

  lemma WordsPart(a: Word, b: Word, k: nat)
    requires FirstDiffers(a, b, k)
    ensures RowsPart(WordRow(a), WordRow(b), k)
  {
  }

  lemma XorDecides(a: Word, b: Word)
    ensures Xor(a, b) == Zero() <==> a == b
  {
    XorIsXor(a, b);
    if Xor(a, b) == Zero() { assert forall i | 0 <= i < BITS :: a[i] == b[i]; }
  }

  // ----- one nibble and a truncated word -----

  function LowByte(): Word {
    Or(HighHalf(), LowHalf())
  }

  /** `byte >> 4` or `byte`, masked, of the byte at an offset. */
  function NibbleBits(w: Word, offset: nat, high: bool): Word
    requires offset <= BITS
  {
    var byte := And(Shr(w, offset), LowByte());
    And(if high then Shr(byte, 4) else byte, LowHalf())
  }

  lemma NibbleBitsAre(w: Word, j: nat, high: bool)
    requires j < 8
    ensures Quad(NibbleBits(w, 8 * j, high), 15) == WordNibble(w, if high then 2 * j else 2 * j + 1)
  {
    Places(j);
    NibbleBitsMoved(w, 8 * j, high);
    if high {
      MovedQuad(NibbleBits(w, 8 * j, high), 15, w, 14 - 2 * j, 8 * j + 4);
    } else {
      MovedQuad(NibbleBits(w, 8 * j, high), 15, w, 15 - 2 * j, 8 * j);
    }
  }

  lemma NibbleBitsMoved(w: Word, offset: nat, high: bool)
    requires offset <= 56
    ensures var n := if high then offset + 4 else offset;
      forall b | 60 <= b < 64 :: NibbleBits(w, offset, high)[b] == w[b - n]
  {
    var byte := And(Shr(w, offset), LowByte());
    assert forall b | 56 <= b < 64 :: byte[b] == w[b - offset];
    var moved := if high then Shr(byte, 4) else byte;
    assert forall b | 60 <= b < 64 :: moved[b] == byte[if high then b - 4 else b];
    assert forall b | 60 <= b < 64 :: And(moved, LowHalf())[b] == moved[b];
  }

  /** `(1 << offset) - 1`, with the upper half of the next byte when the length ends within it. */
  function TruncateMask(offset: nat, half: bool): Word
    requires offset < BITS
  {
    var low := Decrement(Shl(OfNibble(1), offset));
    if half then Or(low, Shl(HighHalf(), offset)) else low
  }

  lemma {:induction false} OneBit(w: seq<bool>, p: nat)
    requires p < |w| && forall i | 0 <= i < |w| :: w[i] == (i == |w| - 1 - p)
    ensures TrailingZeros(w) == p
  {
    assert w[|w| - 1 - p];
  }

  lemma MaskBits(j: nat, half: bool)
    requires j < 8
    ensures forall i | 0 <= i < BITS ::
      TruncateMask(8 * j, half)[i] == (i >= BITS - 8 * j || (half && 56 - 8 * j <= i < 60 - 8 * j))
  {
    LowMask(8 * j);
    HighShifted(8 * j);
  }

  lemma LowMask(offset: nat)
    requires offset <= 56
    ensures forall i | 0 <= i < BITS :: Decrement(Shl(OfNibble(1), offset))[i] == (i >= BITS - offset)
  {
    OneShifted(offset);
    OneBit(Shl(OfNibble(1), offset), offset);
  }

  lemma OneShifted(offset: nat)
    requires offset <= 56
    ensures forall i | 0 <= i < BITS :: Shl(OfNibble(1), offset)[i] == (i == BITS - 1 - offset)
  {
  }

  lemma HighShifted(offset: nat)
    requires offset <= 56
    ensures forall i | 0 <= i < BITS :: Shl(HighHalf(), offset)[i] == (56 - offset <= i < 60 - offset)
  {
    var h := HighHalf();
    assert forall i | 0 <= i < BITS :: h[i] == (56 <= i < 60);
    forall i | 0 <= i < BITS ensures Shl(h, offset)[i] == (56 - offset <= i < 60 - offset) {
      if i < BITS - offset { assert Shl(h, offset)[i] == h[i + offset]; }
    }
  }

  lemma TruncatedNibble(w: Word, j: nat, half: bool, k: nat)
    requires j < 8 && k < 16
    ensures WordNibble(And(w, TruncateMask(8 * j, half)), k)
         == if k < 2 * j + (if half then 1 else 0) then WordNibble(w, k) else 0
  {
    MaskBits(j, half);
    PlaceOrder(k, j);
    MaskedQuad(w, TruncateMask(8 * j, half), Place(k), k < 2 * j + if half then 1 else 0);
  }

  lemma PlaceOrder(k: nat, j: nat)
    requires j < 8 && k < 16
    ensures k < 2 * j ==> 4 * Place(k) >= BITS - 8 * j
    ensures k == 2 * j ==> 4 * Place(k) == 56 - 8 * j
    ensures k == 2 * j + 1 ==> 4 * Place(k) == 60 - 8 * j
    ensures k > 2 * j + 1 ==> 4 * Place(k) + 4 <= 56 - 8 * j
  {
  }

  /** A mask keeps or clears a nibble. */
  lemma MaskedQuad(w: Word, mask: Word, p: nat, keep: bool)
    requires p < 16 && forall b | 4 * p <= b < 4 * p + 4 :: mask[b] == keep
    ensures Quad(And(w, mask), p) == if keep then Quad(w, p) else 0
  {
    var x := And(w, mask);
    assert forall b | 4 * p <= b < 4 * p + 4 :: x[b] == (w[b] && keep);
  }

  // ----- bytes into words -----

  function ByteBit(b: Byte, p: nat): bool
    requires p < 8
  {
    if p < 4 then OfNibble(High(b))[60 + p] else OfNibble(Low(b))[56 + p]
  }

  /** The little-endian word of up to eight bytes; missing bytes are zero. */
  function WordOf(bytes: Bytes): Word {
    seq(BITS, i requires 0 <= i < BITS =>
      7 - i / 8 < |bytes| && ByteBit(bytes[7 - i / 8], i % 8))
  }

  lemma WordOfNibbles(bytes: Bytes, j: nat)
    requires j < 8 && j < |bytes|
    ensures WordNibble(WordOf(bytes), 2 * j) == High(bytes[j])
    ensures WordNibble(WordOf(bytes), 2 * j + 1) == Low(bytes[j])
  {
    Places(j);
    BitsOfByte(bytes, j);
    ByteQuads(WordOf(bytes), bytes[j], 14 - 2 * j);
  }

  lemma BitsOfByte(bytes: Bytes, j: nat)
    requires j < 8 && j < |bytes|
    ensures forall b | 56 - 8 * j <= b < 64 - 8 * j :: WordOf(bytes)[b] == ByteBit(bytes[j], b - (56 - 8 * j))
  {
    forall b | 56 - 8 * j <= b < 64 - 8 * j ensures WordOf(bytes)[b] == ByteBit(bytes[j], b - (56 - 8 * j)) {
      ByteOfBit(b, j);
    }
  }

  lemma ByteOfBit(b: nat, j: nat)
    requires j < 8 && 56 - 8 * j <= b < 64 - 8 * j
    ensures b / 8 == 7 - j && b % 8 == b - (56 - 8 * j)
  {
  }

  lemma ByteQuads(w: Word, byte: Byte, i: nat)
    requires i < 15 && forall b | 4 * i <= b < 4 * i + 8 :: w[b] == ByteBit(byte, b - 4 * i)
    ensures Quad(w, i) == High(byte) && Quad(w, i + 1) == Low(byte)
  {
    NibbleWord(High(byte));
    NibbleWord(Low(byte));
    MovedQuad(OfNibble(High(byte)), 15, w, i, 60 - 4 * i);
    MovedQuad(OfNibble(Low(byte)), 15, w, i + 1, 56 - 4 * i);
  }

  /** The bytes of word `i`. */
  function Eight(bytes: Bytes, i: nat): Bytes
    requires 8 * i <= |bytes|
  {
    bytes[8 * i..Least(8 * i + 8, |bytes|)]
  }

  /** Row `i` holds the nibbles of bytes `8 * i` and on. */
  ghost predicate RowFilled(row: Row, bytes: Bytes, i: nat) {
    forall j | 0 <= j < 8 && 8 * i + j < |bytes| ::
      row[2 * j] == High(bytes[8 * i + j]) && row[2 * j + 1] == Low(bytes[8 * i + j])
  }

  lemma FilledRow(bytes: Bytes, i: nat, e: Bytes)
    requires 8 * i <= |bytes| && e == Eight(bytes, i)
    ensures RowFilled(WordRow(WordOf(e)), bytes, i)
  {
    forall j | 0 <= j < 8 && 8 * i + j < |bytes|
      ensures WordNibble(WordOf(e), 2 * j) == High(bytes[8 * i + j])
      ensures WordNibble(WordOf(e), 2 * j + 1) == Low(bytes[8 * i + j])
    {
      assert e[j] == bytes[8 * i + j];
      WordOfNibbles(e, j);
    }
  }

  /** `y` holds the halves of the bytes. */
  ghost predicate Halves(y: Key, bytes: Bytes) {
    |y| == 2 * |bytes| && forall m | 0 <= m < |bytes| :: y[2 * m] == High(bytes[m]) && y[2 * m + 1] == Low(bytes[m])
  }

  lemma NibblesAreHalves(bytes: Bytes)
    ensures Halves(NibblesOf(bytes), bytes)
  {
    forall m | 0 <= m < |bytes|
      ensures NibblesOf(bytes)[2 * m] == High(bytes[m]) && NibblesOf(bytes)[2 * m + 1] == Low(bytes[m])
    {
      NibbleAt(bytes, m);
    }
  }

  lemma FilledSpread(bytes: Bytes, rows: seq<Row>, x: Key, y: Key)
    requires Spread(x, rows) && Halves(y, bytes) && |y| <= |x|
    requires forall i | 0 <= i < |rows| :: RowFilled(rows[i], bytes, i)
    ensures x[..|y|] == y
  {
    forall k: nat | k < |y| ensures x[k] == y[k] {
      var i, j, low := BytePlace(k);
      FilledNibble(bytes, rows[i], x, y, i, j);
      assert rows[i][2 * j + low] == x[k];
    }
  }

  lemma FilledNibble(bytes: Bytes, row: Row, x: Key, y: Key, i: nat, j: nat)
    requires Halves(y, bytes) && j < 8 && 8 * i + j < |bytes| && RowFilled(row, bytes, i)
    ensures row[2 * j] == y[16 * i + 2 * j] && row[2 * j + 1] == y[16 * i + 2 * j + 1]
  {
    var m := 8 * i + j;
    assert y[2 * m] == High(bytes[m]) && y[2 * m + 1] == Low(bytes[m]);
  }

  lemma FilledRows(bytes: Bytes, rows: seq<Row>)
    requires 8 * |rows| >= |bytes| && forall i | 0 <= i < |rows| :: RowFilled(rows[i], bytes, i)
    ensures Flatten(rows)[..2 * |bytes|] == NibblesOf(bytes)
  {
    FlattenSpreads(rows);
    NibblesAreHalves(bytes);
    FilledSpread(bytes, rows, Flatten(rows), NibblesOf(bytes));
  }

  lemma BytePlace(k: nat) returns (i: nat, j: nat, low: nat)
    ensures j < 8 && low < 2 && k == 16 * i + 2 * j + low
  {
    i, j, low := k / 16, k % 16 / 2, k % 2;
  }

  // ----- the class -----

  class ByteArrayPrefix {
    /** `MAX_LEN_BYTES`. */
    const size: nat
    const data: array<Word>

    ghost predicate Valid() {
      data.Length == (size + 7) / 8
    }

    ghost function Nibbles(): (k: Key)
      requires Valid()
      reads data
      ensures |k| == 2 * size
    {
      KeyOf(data[..], size)
    }

    /** Copies a byte array into zeroed words. */
    constructor (input: Bytes)
      ensures Valid() && fresh(data) && size == |input| && Nibbles() == NibblesOf(input)
    {
      size := |input|;
      data := new Word[(|input| + 7) / 8](i => WordOf(if 0 <= 8 * i <= |input| then Eight(input, i) else []));
      new;
      forall i | 0 <= i < data.Length ensures RowFilled(Rows(data[..])[i], input, i) {
        FilledRow(input, i, Eight(input, i));
      }
      FilledRows(input, Rows(data[..]));
    }

    /** `get_prefix_match_len`; the other prefix may be longer, and its words are compared as they are. */
    method PrefixMatchLen(selfLen: nat, other: ByteArrayPrefix, otherLen: nat) returns (r: nat)
      requires Valid() && other.Valid() && size <= other.size
      ensures r == Least(Least(4 * MatchLen(Nibbles(), other.Nibbles()), selfLen), otherLen)
    {
      ghost var a, b := data[..], other.data[..];
      var res, i := 8 * size, 0;
      while i < data.Length
        invariant i <= data.Length && AgreeTo(a, b, i)
        invariant res == 8 * size
      {
        XorDecides(data[i], other.data[i]);
        if Xor(data[i], other.data[i]) != Zero() {
          var offset := MatchInWord(data[i], other.data[i], i, a, size, b, other.size);
          res := Least(64 * i + offset, res);
          return Least(Least(res - res % 4, selfLen), otherLen);
        }
        i := i + 1;
      }
      NowhereApart(a, size, b, other.size);
      r := Least(Least(res - res % 4, selfLen), otherLen);
    }

    /** `get_branch_bits`; beyond the end it throws. */
    method BranchBits(len: nat) returns (r: Option<Nibble>)
      requires Valid() && len % 4 == 0
      ensures r == if len < 8 * size then Some(Nibbles()[len / 4]) else None
    {
      if len >= 8 * size { return None; }
      ghost var i, j, high := LengthPlace(len);
      BranchNibble(data[..], i, j, high);
      var x := NibbleBits(data[len / 64], BitAnd(len, 0x38), len % 8 == 0);
      return Some(Quad(x, 15));
    }

    /** `truncate`; at the end or beyond it throws. */
    method Truncate(len: nat) returns (ok: bool)
      requires Valid() && len % 4 == 0
      modifies data
      ensures ok <==> len < 8 * size
      ensures !ok ==> Nibbles() == old(Nibbles())
      ensures ok ==> forall i | 0 <= i < 2 * size :: Nibbles()[i] == if i < len / 4 then old(Nibbles())[i] else 0
    {
      ok := len < 8 * size;
      if !ok { return; }
      ghost var before := data[..];
      var at := len / 64;
      ghost var _, p, whole := LengthPlace(len);
      data[at] := And(data[at], TruncateMask(BitAnd(len, 0x38), len % 8 != 0));
      ghost var cut := data[at];
      var i := at + 1;
      while i < data.Length
        invariant at < i <= data.Length && data[at] == cut
        invariant forall j | 0 <= j < at || i <= j < data.Length :: data[j] == before[j]
        invariant forall j | at < j < i :: data[j] == Zero()
      {
        data[i] := Zero();
        i := i + 1;
      }
      TruncatedWords(before, data[..], at, p, !whole);
    }
  }

  lemma Nibblewise(d: nat, size: nat)
    ensures 4 * Least(d, 2 * size) == Least(4 * d, 8 * size) && Least(4 * d, 8 * size) % 4 == 0
  {
  }

  /** Word, byte and half byte at which a length ends. */
  lemma LengthPlace(len: nat) returns (i: nat, j: nat, whole: bool)
    requires len % 4 == 0
    ensures j < 8 && len / 64 == i && BitAnd(len, 0x38) == 8 * j && whole == (len % 8 == 0)
    ensures len == 64 * i + 8 * j + (if whole then 0 else 4)
    ensures len / 4 == 16 * i + 2 * j + (if whole then 0 else 1)
  {
    i, j, whole := len / 64, len / 8 % 8, len % 8 == 0;
    ByteOffset(len);
    LengthParts(len);
  }

  lemma LengthParts(len: nat)
    requires len % 4 == 0
    ensures len == 64 * (len / 64) + 8 * (len / 8 % 8) + (if len % 8 == 0 then 0 else 4)
    ensures len / 4 == 16 * (len / 64) + 2 * (len / 8 % 8) + (if len % 8 == 0 then 0 else 1)
  {
    var q := len / 8;
    HalfBytes(len, q);
    assert len / 64 == q / 8;
    assert q == 8 * (q / 8) + q % 8;
  }

  lemma HalfBytes(len: nat, q: nat)
    requires len % 4 == 0 && q == len / 8
    ensures len == 8 * q + (if len % 8 == 0 then 0 else 4) && len / 4 == 2 * q + (if len % 8 == 0 then 0 else 1)
  {
  }

  lemma BranchNibble(data: seq<Word>, i: nat, j: nat, high: bool)
    requires i < |data| && j < 8
    ensures var k := if high then 2 * j else 2 * j + 1;
      Quad(NibbleBits(data[i], 8 * j, high), 15) == Flatten(Rows(data))[16 * i + k]
  {
    NibbleBitsAre(data[i], j, high);
    FlattenSpreads(Rows(data));
    assert Rows(data)[i][if high then 2 * j else 2 * j + 1] == WordNibble(data[i], if high then 2 * j else 2 * j + 1);
  }

  /** The first `n` nibbles of a row are kept and the others are zero. */
  ghost predicate RowCut(r: Row, q: Row, n: nat) {
    forall k | 0 <= k < 16 :: q[k] == if k < n then r[k] else 0
  }

  lemma TruncatedRow(w: Word, j: nat, half: bool)
    requires j < 8
    ensures RowCut(WordRow(w), WordRow(And(w, TruncateMask(8 * j, half))), 2 * j + if half then 1 else 0)
  {
    forall k: nat | k < 16
      ensures WordNibble(And(w, TruncateMask(8 * j, half)), k)
           == if k < 2 * j + (if half then 1 else 0) then WordNibble(w, k) else 0
    {
      TruncatedNibble(w, j, half, k);
    }
  }

  lemma ZeroRow(r: Row)
    ensures RowCut(r, WordRow(Zero()), 0)
  {
  }

  lemma TruncatedKey(r: seq<Row>, x: Key, q: seq<Row>, y: Key, at: nat, n: nat)
    requires Spread(x, r) && Spread(y, q) && at < |r| == |q| && n <= 16 && RowCut(r[at], q[at], n)
    requires forall i | 0 <= i < at :: q[i] == r[i]
    requires forall i | at < i < |r| :: RowCut(r[i], q[i], 0)
    ensures forall k | 0 <= k < |x| :: y[k] == if k < 16 * at + n then x[k] else 0
  {
    forall k: nat | k < |x| ensures y[k] == if k < 16 * at + n then x[k] else 0 {
      var i, l := SpreadAt(x, r, k);
      assert q[i][l] == y[16 * i + l];
    }
  }

  lemma TruncatedWords(a: seq<Word>, b: seq<Word>, at: nat, j: nat, half: bool)
    requires at < |a| == |b| && j < 8 && b[at] == And(a[at], TruncateMask(8 * j, half))
    requires forall i | 0 <= i < at :: b[i] == a[i]
    requires forall i | at < i < |a| :: b[i] == Zero()
    ensures var x, y := Flatten(Rows(a)), Flatten(Rows(b));
      forall k | 0 <= k < |x| :: y[k] == if k < 16 * at + 2 * j + (if half then 1 else 0) then x[k] else 0
  {
    var r, q := Rows(a), Rows(b);
    FlattenSpreads(r);
    FlattenSpreads(q);
    TruncatedRow(a[at], j, half);
    forall i | at < i < |r| ensures RowCut(r[i], q[i], 0) { ZeroRow(r[i]); }
    TruncatedKey(r, Flatten(r), q, Flatten(q), at, 2 * j + if half then 1 else 0);
  }
}
