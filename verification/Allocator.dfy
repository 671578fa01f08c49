/**
 Handles of the ephemeral trie's allocator.

 A handle is a buffer number and an offset in one 32-bit word.  A context owns one
 buffer at a time and moves a cursor through it; when a request does not fit it
 gets the next unused buffer.  Between resets no handle is given out twice, every
 block lies inside one assigned buffer, and the null handle never occurs.
 */
module Allocator {

  type Cid = nat

  const WORD: nat := 0x1_0000_0000

  /** `UINT32_MAX`. */
  const NULL: nat := 0xFFFF_FFFF

  lemma Distribute(i: nat, j: nat, size: nat)
    requires i < j
    ensures j * size >= i * size + size
  {
    var d := j - i - 1;
    assert j * size == (i + 1 + d) * size == i * size + size + d * size;
  }

  /** Buffer and offset can be read off a handle. */
  lemma SameHandle(size: nat, i: nat, j: nat, a: nat, b: nat)
    requires a < size && b < size && i * size + a == j * size + b
    ensures i == j && a == b
  {
    if i < j {
      Distribute(i, j, size);
    } else if j < i {
      Distribute(j, i, size);
    }
  }

  /** `get_object`: shifting and masking a handle gives back buffer and offset. */
  lemma DecodeHandle(size: nat, i: nat, a: nat)
    requires a < size
    ensures (i * size + a) / size == i && (i * size + a) % size == a
  {
    var h := i * size + a;
    assert h == (h / size) * size + h % size;
    SameHandle(size, i, h / size, a, h % size);
  }

  /** Handles fit a word, and one that is not the last of its buffer is not null. */
  lemma HandleFits(size: nat, count: nat, i: nat, a: nat)
    requires size * count <= WORD && i < count && a < size
    ensures i * size + a < WORD
    ensures a + 1 < size ==> i * size + a < NULL
  {
    Distribute(i, count, size);
  }

  /** A buffer and an offset in it. */
  datatype Place = Place(buffer: nat, offset: nat)

  function HandleOf(size: nat, p: Place): nat {
    p.buffer * size + p.offset
  }

  /** `+=` on a 32-bit cursor. */
  function Advance(word: nat, n: nat): nat {
    (word + n) % WORD
  }

  /** How much of each assigned buffer has been given out. */
  type Tops = map<nat, nat>

  ghost predicate Issued(tops: Tops, p: Place) {
    p.buffer in tops && p.offset < tops[p.buffer]
  }

  /** Each context's cursor stands at the top of a buffer of its own. */
  ghost predicate CursorOk(size: nat, cursors: map<nat, nat>, at: map<nat, Place>, tops: Tops, c: nat) {
    && c in cursors && c in at
    && cursors[c] == HandleOf(size, at[c])
    && at[c].buffer in tops && tops[at[c].buffer] == at[c].offset
  }

  ghost predicate Sound(size: nat, count: nat, next: nat, cursors: map<nat, nat>, at: map<nat, Place>, tops: Tops) {
    && size > 0 && size * count <= WORD && cursors.Keys == at.Keys
    && (forall b | b in tops :: b < next && b < count && tops[b] < size)
    && (forall c {:trigger CursorOk(size, cursors, at, tops, c)} | c in cursors :: CursorOk(size, cursors, at, tops, c))
    && (forall c, d | c in at && d in at && at[c].buffer == at[d].buffer :: c == d)
  }

  lemma SoundMove(size: nat, count: nat, next: nat, cursors: map<nat, nat>, at: map<nat, Place>, tops: Tops, c: nat)
    requires Sound(size, count, next, cursors, at, tops)
    ensures Sound(size, count, next + 1, cursors, at, tops)
    ensures next < count ==> Sound(size, count, next + 1, cursors[c := next * size],
      at[c := Place(next, 0)], tops[next := 0])
  {
    if next < count {
      var cursors', at', tops' := cursors[c := next * size], at[c := Place(next, 0)], tops[next := 0];
      forall d | d in cursors' ensures CursorOk(size, cursors', at', tops', d) && (d != c ==> at'[d].buffer != next) {
        if d != c { assert CursorOk(size, cursors, at, tops, d); }
      }
    }
  }

  lemma SoundTake(size: nat, count: nat, next: nat, cursors: map<nat, nat>, at: map<nat, Place>, tops: Tops, c: nat,
                  n: nat)
    requires Sound(size, count, next, cursors, at, tops) && c in cursors && at[c].offset + n < size
    ensures var p := Place(at[c].buffer, at[c].offset + n);
      Sound(size, count, next, cursors[c := Advance(cursors[c], n)], at[c := p], tops[p.buffer := p.offset])
    ensures CursorOk(size, cursors, at, tops, c)
  {
    var p := Place(at[c].buffer, at[c].offset + n);
    var cursors', at', tops' := cursors[c := Advance(cursors[c], n)], at[c := p], tops[p.buffer := p.offset];
    assert CursorOk(size, cursors, at, tops, c);
    HandleFits(size, count, p.buffer, p.offset);
    forall d | d in cursors' ensures CursorOk(size, cursors', at', tops', d) {
      if d != c { assert CursorOk(size, cursors, at, tops, d); }
    }
  }

  lemma TakeIssues(tops: Tops, p: Place, n: nat)
    requires p.buffer in tops && tops[p.buffer] == p.offset
    ensures Issues(tops, tops[p.buffer := p.offset + n], p, n)
  {
  }

  class Manager {
    /** Objects per buffer and number of buffers; offset and buffer bits fill at most 32 bits. */
    const size: nat
    const count: nat
    /** `next_available_buffer`; it counts on when there are no more buffers. */
    var next: nat
    /** `cur_buffer_offset_and_index` of each context. */
    var cursors: map<Cid, nat>
    /** The decoded cursors, and what has been given out since the last reset. */
    ghost var at: map<Cid, Place>
    ghost var tops: Tops

    ghost predicate Valid()
      reads this
    {
      Sound(size, count, next, cursors, at, tops)
    }

    constructor (size: nat, count: nat)
      requires size > 0 && size * count <= WORD
      ensures Valid() && tops == map[] && cursors == map[] && this.size == size && this.count == count
    {
      this.size, this.count, next, cursors, at, tops := size, count, 0, map[], map[], map[];
    }

    /** A context, new or not, gets the next buffer; fails when all are used up. */
    method AssignNewBuffer(c: Cid) returns (ok: bool)
      requires Valid()
      modifies this
      ensures Valid()
      ensures (ok <==> old(next) < count) && next == old(next) + 1
      ensures cursors.Keys == if ok then old(cursors).Keys + {c} else old(cursors).Keys
      ensures at == if ok then old(at)[c := Place(old(next), 0)] else old(at)
      ensures SameIssued(old(tops), tops)
    {
      SoundMove(size, count, next, cursors, at, tops, c);
      var idx := next;
      next := next + 1;
      ok := idx < count;
      if ok {
        cursors := cursors[c := idx * size];
        at := at[c := Place(idx, 0)];
        tops := tops[idx := 0];
      }
    }

    /** `overflow_check`. */
    predicate Overflows(cursor: nat, n: nat)
      reads this
      requires size > 0
    {
      cursor % size + n >= size
    }

    /** The first half of `allocate`: a buffer in which the request fits. */
    method MakeRoom(c: Cid, n: nat) returns (ok: bool)
      requires Valid() && c in cursors && 0 < n < size
      modifies this
      ensures Valid() && cursors.Keys == old(cursors).Keys
      ensures SameIssued(old(tops), tops)
      ensures if ok then at[c].offset + n < size else old(next) >= count
      ensures if old(at)[c].offset + n < size then ok && at == old(at) && next == old(next)
        else next == old(next) + 1 && (ok ==> old(next) < count && at[c] == Place(old(next), 0))
      ensures OthersStand(old(at), at, c)
    {
      assert CursorOk(size, cursors, at, tops, c);
      DecodeHandle(size, at[c].buffer, at[c].offset);
      ok := true;
      if Overflows(cursors[c], n) {
        ok := AssignNewBuffer(c);
      }
    }

    /** The second half: the cursor moves past the block. */
    method Take(c: Cid, n: nat) returns (h: nat, ghost p: Place)
      requires Valid() && c in cursors && at[c].offset + n < size
      modifies this`cursors, this`at, this`tops
      ensures Valid() && cursors.Keys == old(cursors).Keys
      ensures p == old(at)[c] && at[c] == Place(p.buffer, p.offset + n) && OthersStand(old(at), at, c)
      ensures h == HandleOf(size, p) && p.buffer < count && p.offset + n < size
      ensures Issues(old(tops), tops, p, n)
    {
      h, p := cursors[c], at[c];
      SoundTake(size, count, next, cursors, at, tops, c, n);
      TakeIssues(tops, p, n);
      cursors := cursors[c := Advance(h, n)];
      at := at[c := Place(p.buffer, p.offset + n)];
      tops := tops[p.buffer := p.offset + n];
    }

    /**
     `allocate`: the block of `n` places from `p` on, and the handle of the first.
     Exactly these places are newly given out; all are in one buffer, none is its last.
     A request that fits goes where the cursor of the context is; any other takes the
     next buffer, and fails when there is none.
     */
    method Allocate(c: Cid, n: nat) returns (ok: bool, h: nat, ghost p: Place)
      requires Valid() && c in cursors && 0 < n < size
      modifies this
      ensures Valid() && cursors.Keys == old(cursors).Keys
      ensures ok <==> old(at)[c].offset + n < size || old(next) < count
      ensures ok ==> p == (if old(at)[c].offset + n < size then old(at)[c] else Place(old(next), 0))
      ensures ok ==> at[c] == Place(p.buffer, p.offset + n) && OthersStand(old(at), at, c)
      ensures next == if old(at)[c].offset + n < size then old(next) else old(next) + 1
      ensures !ok ==> SameIssued(old(tops), tops)
      ensures ok ==> h == HandleOf(size, p) && p.buffer < count && p.offset + n < size
      ensures ok ==> Issues(old(tops), tops, p, n)
    {
      ok := MakeRoom(c, n);
      h, p := 0, at[c];
      ghost var was, stood := tops, at;
      if ok {
        h, p := Take(c, n);
        SameThenIssues(old(tops), was, tops, p, n);
        OthersStill(old(at), stood, at, c);
      }
    }
  }

  ghost predicate SameIssued(was: Tops, now: Tops) {
    forall q :: Issued(now, q) <==> Issued(was, q)
  }

  /** The `n` places from `p` on, and no others, are newly given out. */
  ghost predicate Issues(was: Tops, now: Tops, p: Place, n: nat) {
    && (forall q :: Issued(now, q) <==> Issued(was, q) || InBlock(p, n, q))
    && (forall q | InBlock(p, n, q) :: !Issued(was, q))
  }

  /** Only the cursor of `c` has moved. */
  ghost predicate OthersStand(was: map<Cid, Place>, now: map<Cid, Place>, c: Cid) {
    forall d | d != c :: (d in now <==> d in was) && (d in was ==> now[d] == was[d])
  }

  lemma OthersStill(a: map<Cid, Place>, b: map<Cid, Place>, d: map<Cid, Place>, c: Cid)
    requires OthersStand(a, b, c) && OthersStand(b, d, c)
    ensures OthersStand(a, d, c)
  {
  }

  lemma SameThenIssues(a: Tops, b: Tops, c: Tops, p: Place, n: nat)
    requires SameIssued(a, b) && Issues(b, c, p, n)
    ensures Issues(a, c, p, n)
  {
  }

  predicate InBlock(p: Place, n: nat, q: Place) {
    q.buffer == p.buffer && p.offset <= q.offset < p.offset + n
  }

  /** Different places have different handles, and no place given out has the null handle. */
  lemma HandlesDiffer(m: Manager, p: Place, q: Place)
    requires m.Valid() && Issued(m.tops, p) && Issued(m.tops, q)
    ensures HandleOf(m.size, p) == HandleOf(m.size, q) ==> p == q
    ensures HandleOf(m.size, p) < NULL
  {
    if HandleOf(m.size, p) == HandleOf(m.size, q) {
      SameHandle(m.size, p.buffer, q.buffer, p.offset, q.offset);
    }
    HandleFits(m.size, m.count, p.buffer, p.offset);
  }
}
