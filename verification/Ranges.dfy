/**
 Splitting the work on an ephemeral trie into ranges.

 A range is a list of subtrees whose values are consecutive in key order, with
 their total number and the place in the output where they start.  A split moves
 subtrees from the front of one range to a new one, opening the last subtree when
 it is alone.  Sizes are the exact ones of a trie at rest.
 */
module Ranges {

  import opened Nibbles
  import opened Tries
  import opened BatchItems

  /** The annotation is the size stored in the slot that holds the node. */
  type Node = Trie<nat>

  /** At rest every stored size is exact. */
  ghost predicate Sized(t: Node)
  {
    t.ann == |Items(t)| && (t.Branch? ==> forall b | b in t.children :: Sized(t.children[b]))
  }

  /** The values of a list of subtrees, in order. */
  ghost function All(work: seq<Node>): seq<Item> {
    if work == [] then [] else Items(work[0]) + All(work[1..])
  }

  lemma {:induction false} AllConcat(v: seq<Node>, w: seq<Node>)
    ensures All(v + w) == All(v) + All(w)
  {
    if v == [] {
      assert v + w == w;
    } else {
      assert (v + w)[1..] == v[1..] + w;
      AllConcat(v[1..], w);
    }
  }

  lemma AllOne(t: Node)
    ensures All([t]) == Items(t)
  {
    assert [t][1..] == [];
    assert All([]) == [];
  }

  /** `children_and_sizes_list`: the children of slots `b` and up, in order. */
  function ChildList(c: map<Nibble, Node>, b: nat): seq<Node>
    requires b <= 16
    decreases 16 - b
  {
    if b == 16 then [] else (if b in c then [c[b]] else []) + ChildList(c, b + 1)
  }

  lemma {:induction false} ChildListItems(t: Node, b: nat)
    requires t.Branch? && b <= 16
    ensures Items(t) == Flat(ItemMap(t), b) + All(ChildList(t.children, b))
    decreases 16 - b
  {
    if b < 16 {
      ChildListItems(t, b + 1);
      var rest := ChildList(t.children, b + 1);
      if b in t.children {
        assert ([t.children[b]] + rest)[1..] == rest;
        assert Flat(ItemMap(t), b) + Items(t.children[b]) + All(rest)
          == Flat(ItemMap(t), b) + (Items(t.children[b]) + All(rest));
      } else {
        assert [] + rest == rest;
        assert Flat(ItemMap(t), b) + [] == Flat(ItemMap(t), b);
      }
    }
  }

  /** Opening a subtree keeps its values. */
  lemma OpenKeepsItems(t: Node)
    requires t.Branch?
    ensures All(ChildList(t.children, 0)) == Items(t)
  {
    ChildListItems(t, 0);
    assert [] + All(ChildList(t.children, 0)) == All(ChildList(t.children, 0));
  }

  ghost predicate Subtrees(work: seq<Node>, K: nat) {
    forall i | 0 <= i < |work| :: Canonical(work[i], K) && Sized(work[i])
  }

  lemma {:induction false} ChildListHolds(c: map<Nibble, Node>, b: nat, i: nat) returns (d: Nibble)
    requires b <= 16 && i < |ChildList(c, b)|
    ensures b <= d && d in c && ChildList(c, b)[i] == c[d]
    decreases 16 - b
  {
    if b in c && i == 0 {
      d := b;
    } else {
      d := ChildListHolds(c, b + 1, if b in c then i - 1 else i);
    }
  }

  function SlotsFrom(c: map<Nibble, Node>, b: nat): set<Nibble> {
    set d | d in c && b <= d
  }

  lemma {:induction false} ChildListLength(c: map<Nibble, Node>, b: nat)
    requires b <= 16
    ensures |ChildList(c, b)| == |SlotsFrom(c, b)|
    decreases 16 - b
  {
    if b < 16 {
      ChildListLength(c, b + 1);
      if b in c {
        assert SlotsFrom(c, b) == SlotsFrom(c, b + 1) + {b};
      } else {
        assert SlotsFrom(c, b) == SlotsFrom(c, b + 1);
      }
    } else {
      assert SlotsFrom(c, b) == {};
    }
  }

  lemma ChildListMany(t: Node, K: nat)
    requires t.Branch? && WellFormed(t, K) && Sized(t) && forall b | b in t.children :: Dense(t.children[b])
    ensures Subtrees(ChildList(t.children, 0), K) && |ChildList(t.children, 0)| == |t.children|
  {
    forall i: nat | i < |ChildList(t.children, 0)|
      ensures Canonical(ChildList(t.children, 0)[i], K) && Sized(ChildList(t.children, 0)[i])
    {
      var d := ChildListHolds(t.children, 0, i);
    }
    ChildListLength(t.children, 0);
    assert SlotsFrom(t.children, 0) == t.children.Keys;
  }

  // ----- accumulating values -----

  lemma TakeFirst(work: seq<Node>, K: nat)
    requires |work| > 0 && Subtrees(work, K)
    ensures All(work) == Items(work[0]) + All(work[1..]) && work[0].ann == |Items(work[0])| >= 1
    ensures Subtrees(work[1..], K) && (|work| > 1 ==> |All(work[1..])| >= 1)
  {
    ManyItems(work[0], K);
    if |work| > 1 { ManyItems(work[1], K); }
  }

  /** A subtree that is alone in its range and has several values can be opened. */
  lemma OpenLast(work: seq<Node>, K: nat)
    requires |work| == 1 && Subtrees(work, K) && |All(work)| >= 2
    ensures work[0].Branch?
    ensures var inner := ChildList(work[0].children, 0);
      Subtrees(inner, K) && |inner| >= 2 && All(inner) == All(work)
  {
    assert work == [work[0]];
    AllOne(work[0]);
    ManyItems(work[0], K);
    ChildListMany(work[0], K);
    OpenKeepsItems(work[0]);
  }

  function Total(work: seq<Node>): nat {
    if work == [] then 0 else work[0].ann + Total(work[1..])
  }

  lemma {:induction false} TotalIsSize(work: seq<Node>, K: nat)
    requires Subtrees(work, K)
    ensures Total(work) == |All(work)|
  {
    if work != [] { TotalIsSize(work[1..], K); }
  }

  lemma WholeList(root: Node, K: nat)
    requires RootCanonical(root, K) && Sized(root)
    ensures var work := ChildList(root.children, 0);
      Subtrees(work, K) && All(work) == Items(root) && Total(work) == |Items(root)|
  {
    ChildListMany(root, K);
    OpenKeepsItems(root);
    TotalIsSize(ChildList(root.children, 0), K);
  }

  class AccumulateRange {
    const K: nat
    const grain: nat
    var work: seq<Node>
    var size: nat
    var offset: nat

    ghost predicate Valid()
      reads this
    {
      Subtrees(work, K) && size == |All(work)|
    }

    predicate Divisible()
      reads this
    {
      size > grain
    }

    /** The range of the whole trie. */
    constructor Whole(K: nat, root: Node, grain: nat)
      requires RootCanonical(root, K) && Sized(root) && grain >= 1
      ensures Valid() && All(work) == Items(root) && offset == 0 && this.grain == grain && this.K == K
    {
      this.K, this.grain, offset := K, grain, 0;
      work := ChildList(root.children, 0);
      size := Total(ChildList(root.children, 0));
      WholeList(root, K);
    }

    /**
     The splitting constructor: this range takes subtrees from the front of `other`
     until it has half of the values.  Neither of the source's assertions fails, and
     both parts are nonempty.
     */
    constructor Split(other: AccumulateRange)
      requires other.Valid() && other.Divisible() && other.grain >= 1
      modifies other
      ensures Valid() && other.Valid() && K == other.K && grain == other.grain
      ensures All(work) + All(other.work) == old(All(other.work))
      ensures offset == old(other.offset) && other.offset == offset + size
      ensures 0 < size && 0 < other.size && old(other.size) / 2 <= size
    {
      K, grain, offset := other.K, other.grain, other.offset;
      new;
      work, other.work, size := TakeHalf(K, other.work, other.size);
      other.size := other.size - size;
      other.offset := other.offset + size;
    }
  }

  /** Moves subtrees from the front of `rest` until half of the values are taken. */
  method TakeHalf(K: nat, all: seq<Node>, total: nat) returns (work: seq<Node>, rest: seq<Node>, size: nat)
    requires Subtrees(all, K) && total == |All(all)| && total >= 2
    ensures Subtrees(work, K) && Subtrees(rest, K) && All(work) + All(rest) == All(all)
    ensures size == |All(work)| && total / 2 <= size < total && 0 < size
  {
    work, rest, size := [], all, 0;
    while size < total / 2
      invariant Subtrees(work, K) && Subtrees(rest, K) && All(work) + All(rest) == All(all)
      invariant size == |All(work)| < total
      decreases total - size
    {
      if |rest| == 1 {
        OpenLast(rest, K);
        rest := ChildList(rest[0].children, 0);
      }
      assert |rest| != 1 && |rest| != 0;
      MoveFirst(K, work, rest);
      size := size + rest[0].ann;
      work, rest := work + [rest[0]], rest[1..];
    }
  }

  /** The front of the remaining list joins the end of the taken one. */
  lemma MoveFirst(K: nat, work: seq<Node>, rest: seq<Node>)
    requires Subtrees(work, K) && Subtrees(rest, K) && |rest| > 1
    ensures var n := rest[0].ann;
      && 0 < n < |All(rest)| && Subtrees(work + [rest[0]], K) && Subtrees(rest[1..], K)
      && All(work + [rest[0]]) + All(rest[1..]) == All(work) + All(rest)
      && |All(work + [rest[0]])| == |All(work)| + n && |All(rest[1..])| == |All(rest)| - n
  {
    TakeFirst(rest, K);
    AllConcat(work, [rest[0]]);
    AllOne(rest[0]);
    Regroup(All(work), Items(rest[0]), All(rest[1..]));
    OneMore(K, work, rest[0]);
  }

  lemma OneMore(K: nat, work: seq<Node>, t: Node)
    requires Subtrees(work, K) && Canonical(t, K) && Sized(t)
    ensures Subtrees(work + [t], K)
  {
  }

  // ----- writing the values -----

  /** Every output place of the stretch holds its value, and no other place changed. */
  ghost predicate Writes(before: seq<Entry>, after: seq<Entry>, offset: nat, s: seq<Item>) {
    && |after| == |before| && offset + |s| <= |before|
    && (forall i | 0 <= i < |s| :: after[offset + i] == s[i].entry)
    && (forall i | 0 <= i < |before| && !(offset <= i < offset + |s|) :: after[i] == before[i])
  }

  lemma WritesNothing(x: seq<Entry>, offset: nat)
    requires offset <= |x|
    ensures Writes(x, x, offset, [])
  {
  }

  lemma WritesInTurn(x: seq<Entry>, y: seq<Entry>, z: seq<Entry>, offset: nat, s: seq<Item>, r: seq<Item>)
    requires Writes(x, y, offset, s) && Writes(y, z, offset + |s|, r)
    ensures Writes(x, z, offset, s + r)
  {
  }

  /** `accumulate_values_parallel_worker`: the values below one node. */
  method Worker(K: nat, t: Node, out: array<Entry>, offset: nat)
    requires Canonical(t, K) && Sized(t) && offset + |Items(t)| <= out.Length
    modifies out
    ensures Writes(old(out[..]), out[..], offset, Items(t))
    decreases t, 1
  {
    if t.Leaf? {
      out[offset] := t.entry;
    } else {
      var place := offset;
      ghost var m, start := ItemMap(t), out[..];
      WritesNothing(start, offset);
      for b := 0 to 16
        invariant place == offset + |Flat(m, b)| && |out[..]| == |start|
        invariant Writes(start, out[..], offset, Flat(m, b))
      {
        FlatFits(m, b);
        place := WorkerSlot(K, t, b, out, place, start, offset, Flat(m, b));
      }
    }
  }

  /** Adds the values of slot `b` to those `done` since the output was `start`. */
  method WorkerSlot(K: nat, t: Node, b: Nibble, out: array<Entry>, place: nat,
                    ghost start: seq<Entry>, ghost offset: nat, ghost done: seq<Item>)
    returns (next: nat)
    requires Canonical(t, K) && Sized(t) && t.Branch? && place + |SlotOf(ItemMap(t), b)| <= out.Length
    requires Writes(start, out[..], offset, done) && place == offset + |done|
    modifies out
    ensures Writes(start, out[..], offset, done + SlotOf(ItemMap(t), b)) && next == place + |SlotOf(ItemMap(t), b)|
    decreases t, 0
  {
    next := place;
    if b in t.children {
      ghost var before := out[..];
      Worker(K, t.children[b], out, place);
      WritesInTurn(start, before, out[..], offset, done, Items(t.children[b]));
      next := place + t.children[b].ann;
    } else {
      assert done + [] == done;
    }
  }

  lemma FlatFits(m: map<Nibble, seq<Item>>, b: nat)
    requires b < 16
    ensures |Flat(m, b)| + |SlotOf(m, b)| <= |Flat(m, 16)|
  {
    var z := Behind(m, b, 16);
  }

  /** The body of the parallel loop: the values of one range. */
  method WriteRange(r: AccumulateRange, out: array<Entry>)
    requires r.Valid() && r.offset + r.size <= out.Length
    modifies out
    ensures Writes(old(out[..]), out[..], r.offset, All(r.work))
  {
    WriteList(r.K, r.work, out, r.offset);
  }

  method WriteList(K: nat, work: seq<Node>, out: array<Entry>, offset: nat)
    requires Subtrees(work, K) && offset + |All(work)| <= out.Length
    modifies out
    ensures Writes(old(out[..]), out[..], offset, All(work))
  {
    var place, i := offset, 0;
    ghost var done: seq<Item>, start := [], out[..];
    WritesNothing(start, place);
    while i < |work|
      invariant i <= |work| && place == offset + |done|
      invariant done + All(work[i..]) == All(work)
      invariant Writes(start, out[..], offset, done)
    {
      AllFrom(work, i, done);
      place := WriteNext(K, work[i], out, place, start, offset, done);
      i, done := i + 1, done + Items(work[i]);
    }
    assert done + [] == done;
  }

  /** Adds the values of one subtree to those `done` since the output was `start`. */
  method WriteNext(K: nat, t: Node, out: array<Entry>, place: nat,
                   ghost start: seq<Entry>, ghost offset: nat, ghost done: seq<Item>)
    returns (next: nat)
    requires Canonical(t, K) && Sized(t) && place + |Items(t)| <= out.Length
    requires Writes(start, out[..], offset, done) && place == offset + |done|
    modifies out
    ensures Writes(start, out[..], offset, done + Items(t)) && next == place + |Items(t)|
  {
    ghost var before := out[..];
    Worker(K, t, out, place);
    WritesInTurn(start, before, out[..], offset, done, Items(t));
    next := place + t.ann;
  }

  lemma AllFrom(work: seq<Node>, i: nat, done: seq<Item>)
    requires i < |work| && done + All(work[i..]) == All(work)
    ensures (done + Items(work[i])) + All(work[i + 1..]) == All(work)
  {
    assert work[i..][1..] == work[i + 1..];
    Regroup(done, Items(work[i]), All(work[i + 1..]));
  }

  /**
   Any way of splitting: at each divisible range the scheduler may split or run.
   Whatever it chooses, each output place of the range is written, with the value
   that belongs there, and no other place.
   */
  method Accumulate(r: AccumulateRange, out: array<Entry>)
    requires r.Valid() && r.grain >= 1 && r.offset + r.size <= out.Length
    modifies out, r
    ensures Writes(old(out[..]), out[..], old(r.offset), old(All(r.work)))
    decreases r.size
  {
    var split: bool := *;
    if split && r.Divisible() {
      var left := new AccumulateRange.Split(r);
      ghost var x, y := All(left.work), All(r.work);
      ghost var o := left.offset;
      Accumulate(left, out);
      ghost var half := out[..];
      Accumulate(r, out);
      WritesInTurn(old(out[..]), half, out[..], o, x, y);
    } else {
      WriteRange(r, out);
    }
  }

  /** `accumulate_values_parallel`: the list of all values in key order. */
  method AccumulateValues(K: nat, root: Node, grain: nat) returns (out: array<Entry>)
    requires RootCanonical(root, K) && Sized(root) && grain >= 1
    ensures fresh(out) && out.Length == |Items(root)|
    ensures forall i | 0 <= i < out.Length :: out[i] == Items(root)[i].entry
  {
    var range := new AccumulateRange.Whole(K, root, grain);
    out := new Entry[range.size](_ => Entry([], 0, false));
    Accumulate(range, out);
  }

  // ----- applying a function to disjoint parts of the key space -----

  /** Two prefixes part before position `m`. */
  predicate Apart(a: Key, b: Key, m: nat) {
    var n := MatchLen(a, b);
    n < m && n < |a| && n < |b|
  }

  /** Keys below prefixes that part before `m` differ when truncated to `m`. */
  lemma ApartExtends(a: Key, b: Key, m: nat, x: Key, y: Key)
    requires Apart(a, b, m) && a <= x && b <= y
    ensures Apart(x, y, m)
    ensures |x| >= m && |y| >= m ==> x[..m] != y[..m]
  {
    var n := MatchLen(a, b);
    SamePrefixAt(a, b, n);
    assert x[..n] == a[..n] && y[..n] == b[..n];
    MatchLenUnique(x, y, n);
    assert |x| >= m && |y| >= m ==> x[..m][n] == x[n] && y[..m][n] == y[n];
  }

  ghost predicate Separate(work: seq<Node>, m: nat) {
    forall i, j | 0 <= i < j < |work| :: Apart(work[i].Prefix(), work[j].Prefix(), m)
  }

  /** Every subtree of `work` is, or lies below, one of `all`. */
  ghost predicate Refines(work: seq<Node>, all: seq<Node>) {
    forall i | 0 <= i < |work| :: HasAbove(all, work[i].Prefix())
  }

  ghost predicate HasAbove(all: seq<Node>, p: Key) {
    exists j :: 0 <= j < |all| && all[j].Prefix() <= p
  }

  /** Whatever was apart from the subtrees of a range is apart from those of its parts. */
  lemma RefinedStaysApart(work: seq<Node>, all: seq<Node>, p: Key, m: nat)
    requires Refines(work, all) && forall j | 0 <= j < |all| :: Apart(all[j].Prefix(), p, m)
    ensures forall i | 0 <= i < |work| :: Apart(work[i].Prefix(), p, m)
  {
    forall i | 0 <= i < |work| ensures Apart(work[i].Prefix(), p, m) {
      var j :| 0 <= j < |all| && all[j].Prefix() <= work[i].Prefix();
      ApartExtends(all[j].Prefix(), p, m, work[i].Prefix(), p);
    }
  }

  lemma {:induction false} ChildrenApart(t: Node, K: nat, b: nat, m: nat)
    requires t.Branch? && WellFormed(t, K) && |t.prefix| < m && b <= 16
    ensures Separate(ChildList(t.children, b), m)
    decreases 16 - b
  {
    if b < 16 {
      ChildrenApart(t, K, b + 1, m);
      if b in t.children {
        var rest := ChildList(t.children, b + 1);
        FirstApart(t, K, b, m, rest);
        FrontIsSeparate(t.children[b], rest, m);
      }
    }
  }

  lemma FirstApart(t: Node, K: nat, b: nat, m: nat, rest: seq<Node>)
    requires t.Branch? && WellFormed(t, K) && |t.prefix| < m && b < 16 && b in t.children
    requires rest == ChildList(t.children, b + 1)
    ensures forall j | 0 <= j < |rest| :: Apart(t.children[b].Prefix(), rest[j].Prefix(), m)
  {
    forall j: nat | j < |rest| ensures Apart(t.children[b].Prefix(), rest[j].Prefix(), m) {
      var d := ChildListHolds(t.children, b + 1, j);
      SlotsApart(t.prefix, b, t.children[b].Prefix(), d, t.children[d].Prefix(), m);
    }
  }

  lemma FrontIsSeparate(x: Node, rest: seq<Node>, m: nat)
    requires Separate(rest, m) && forall j | 0 <= j < |rest| :: Apart(x.Prefix(), rest[j].Prefix(), m)
    ensures Separate([x] + rest, m)
  {
  }

  lemma SlotsApart(p: Key, b: Nibble, x: Key, d: Nibble, y: Key, m: nat)
    requires Under(p, b, x) && Under(p, d, y) && b != d && |p| < m
    ensures Apart(x, y, m)
  {
    assert x[..|p|] == p == y[..|p|];
    MatchLenUnique(x, y, |p|);
  }

  lemma OpenSeparate(work: seq<Node>, t: Node, K: nat, m: nat)
    requires t.Branch? && WellFormed(t, K) && |t.prefix| < m && Separate(work + [t], m)
    ensures Separate(work + ChildList(t.children, 0), m) && Refines(work + ChildList(t.children, 0), work + [t])
  {
    var inner := ChildList(t.children, 0);
    var v, w := work + [t], work + inner;
    ChildrenApart(t, K, 0, m);
    forall i: nat | i < |inner| ensures t.prefix <= inner[i].Prefix() {
      var d := ChildListHolds(t.children, 0, i);
    }
    forall i, j | 0 <= i < j < |w| ensures Apart(w[i].Prefix(), w[j].Prefix(), m) {
      if j < |work| {
        assert w[i] == v[i] && w[j] == v[j];
      } else if i < |work| {
        assert w[i] == v[i] && v[|work|] == t && w[j] == inner[j - |work|];
        ApartExtends(w[i].Prefix(), t.prefix, m, w[i].Prefix(), w[j].Prefix());
      } else {
        assert w[i] == inner[i - |work|] && w[j] == inner[j - |work|];
      }
    }
    forall i | 0 <= i < |w| ensures HasAbove(v, w[i].Prefix()) {
      if i < |work| {
        assert v[i].Prefix() <= w[i].Prefix();
      } else {
        assert w[i] == inner[i - |work|] && v[|work|].Prefix() <= w[i].Prefix();
      }
    }
  }

  lemma RefinesTrans(u: seq<Node>, v: seq<Node>, w: seq<Node>)
    requires Refines(u, v) && Refines(v, w)
    ensures Refines(u, w)
  {
    forall i | 0 <= i < |u| ensures HasAbove(w, u[i].Prefix()) {
      var k :| 0 <= k < |v| && v[k].Prefix() <= u[i].Prefix();
      var j :| 0 <= j < |w| && w[j].Prefix() <= v[k].Prefix();
      assert w[j].Prefix() <= u[i].Prefix();
    }
  }

  lemma RefinesItself(work: seq<Node>)
    ensures Refines(work, work)
  {
    forall i | 0 <= i < |work| ensures HasAbove(work, work[i].Prefix()) {
      assert work[i].Prefix() <= work[i].Prefix();
    }
  }

  /** `work` and `rest` together are `all`, possibly opened further, with separate keys. */
  ghost predicate Parts(K: nat, m: nat, all: seq<Node>, work: seq<Node>, rest: seq<Node>) {
    && Subtrees(work, K) && Subtrees(rest, K) && All(work) + All(rest) == All(all)
    && Separate(work + rest, m) && Refines(work + rest, all)
  }

  lemma WholeParts(K: nat, m: nat, all: seq<Node>)
    requires Subtrees(all, K) && Separate(all, m)
    ensures Parts(K, m, all, [], all)
  {
    assert [] + all == all && [] + All(all) == All(all);
    RefinesItself(all);
  }

  lemma OpenPart(K: nat, m: nat, all: seq<Node>, work: seq<Node>, rest: seq<Node>)
    requires Parts(K, m, all, work, rest) && |rest| == 1 && |rest[0].Prefix()| < m && |All(rest)| >= 2
    ensures rest[0].Branch? && |ChildList(rest[0].children, 0)| >= 2
    ensures Parts(K, m, all, work, ChildList(rest[0].children, 0))
  {
    OpenLast(rest, K);
    assert rest == [rest[0]];
    OpenSeparate(work, rest[0], K, m);
    RefinesTrans(work + ChildList(rest[0].children, 0), work + rest, all);
  }

  lemma FirstMoves(work: seq<Node>, rest: seq<Node>)
    requires |rest| > 0
    ensures (work + [rest[0]]) + rest[1..] == work + rest
  {
  }

  lemma MovePart(K: nat, m: nat, all: seq<Node>, work: seq<Node>, rest: seq<Node>)
    requires Parts(K, m, all, work, rest) && |rest| > 1
    ensures Parts(K, m, all, work + [rest[0]], rest[1..])
    ensures |All(work + [rest[0]])| == |All(work)| + rest[0].ann && 0 < rest[0].ann < |All(rest)|
  {
    MoveFirst(K, work, rest);
    FirstMoves(work, rest);
  }

  /**
   The splitting constructor of the apply range; `m` is `max_split_len` in nibbles.
   The parts hold the values of the whole, no two of their subtrees share a key
   truncated to `m` nibbles, and a split that stops short says so.
   */
  method SplitApply(K: nat, m: nat, all: seq<Node>, total: nat)
    returns (work: seq<Node>, rest: seq<Node>, size: nat, splittable: bool)
    requires Subtrees(all, K) && Separate(all, m) && total == |All(all)|
    ensures Parts(K, m, all, work, rest) && size == |All(work)|
    ensures splittable ==> total / 2 <= size
    ensures !splittable ==> |rest| == 1 && m <= |rest[0].Prefix()|
    ensures total > 0 ==> size < total
  {
    work, rest, size, splittable := [], all, 0, true;
    WholeParts(K, m, all);
    if total == 0 {
      return;
    }
    while size < total / 2
      invariant Parts(K, m, all, work, rest) && size == |All(work)| < total
      decreases total - size, if |rest| == 1 then 1 else 0
    {
      assert |All(rest)| == total - size;
      assert |rest| != 0;
      if |rest| == 1 {
        if |rest[0].Prefix()| >= m {
          splittable := false;
          return;
        }
        OpenPart(K, m, all, work, rest);
        rest := ChildList(rest[0].children, 0);
      } else {
        MovePart(K, m, all, work, rest);
        size := size + rest[0].ann;
        work, rest := work + [rest[0]], rest[1..];
      }
    }
  }

  // ----- every tree of splits -----

  /** The subtrees of a list of ranges, in order. */
  function Joined(ranges: seq<seq<Node>>): seq<Node> {
    if ranges == [] then [] else ranges[0] + Joined(ranges[1..])
  }

  lemma {:induction false} JoinedConcat(v: seq<seq<Node>>, w: seq<seq<Node>>)
    ensures Joined(v + w) == Joined(v) + Joined(w)
  {
    if v == [] {
      assert v + w == w;
    } else {
      assert (v + w)[1..] == v[1..] + w;
      JoinedConcat(v[1..], w);
    }
  }

  /** `parts` are subtrees of `all` that hold its values in order, no two with a common key truncated to `m`. */
  ghost predicate Covers(K: nat, m: nat, parts: seq<Node>, all: seq<Node>) {
    Subtrees(parts, K) && All(parts) == All(all) && Separate(parts, m) && Refines(parts, all)
  }

  lemma HalvesApart(m: nat, v: seq<Node>, w: seq<Node>, x: seq<Node>, y: seq<Node>)
    requires Separate(v + w, m) && Refines(x, v) && Refines(y, w) && Separate(x, m) && Separate(y, m)
    ensures Separate(x + y, m)
  {
    var z := x + y;
    forall i, j | 0 <= i < j < |z| ensures Apart(z[i].Prefix(), z[j].Prefix(), m) {
      if j < |x| {
        assert z[i] == x[i] && z[j] == x[j];
      } else if i >= |x| {
        assert z[i] == y[i - |x|] && z[j] == y[j - |x|];
      } else {
        assert z[i] == x[i] && z[j] == y[j - |x|];
        CrossApart(m, v, w, z[i].Prefix(), z[j].Prefix());
      }
    }
  }

  lemma CrossApart(m: nat, v: seq<Node>, w: seq<Node>, p: Key, q: Key)
    requires Separate(v + w, m) && HasAbove(v, p) && HasAbove(w, q)
    ensures Apart(p, q, m)
  {
    var i :| 0 <= i < |v| && v[i].Prefix() <= p;
    var j :| 0 <= j < |w| && w[j].Prefix() <= q;
    assert (v + w)[i] == v[i] && (v + w)[|v| + j] == w[j];
    ApartExtends(v[i].Prefix(), w[j].Prefix(), m, p, q);
  }

  lemma HalvesRefine(v: seq<Node>, w: seq<Node>, x: seq<Node>, y: seq<Node>)
    requires Refines(x, v) && Refines(y, w)
    ensures Refines(x + y, v + w)
  {
    forall i | 0 <= i < |x + y| ensures HasAbove(v + w, (x + y)[i].Prefix()) {
      if i < |x| {
        var j :| 0 <= j < |v| && v[j].Prefix() <= x[i].Prefix();
        assert (v + w)[j] == v[j];
      } else {
        var j :| 0 <= j < |w| && w[j].Prefix() <= y[i - |x|].Prefix();
        assert (v + w)[|v| + j] == w[j];
      }
    }
  }

  lemma HalvesCover(K: nat, m: nat, all: seq<Node>, work: seq<Node>, rest: seq<Node>, x: seq<Node>, y: seq<Node>)
    requires Parts(K, m, all, work, rest) && Covers(K, m, x, work) && Covers(K, m, y, rest)
    ensures Covers(K, m, x + y, all)
  {
    AllConcat(x, y);
    HalvesApart(m, work, rest, x, y);
    HalvesRefine(work, rest, x, y);
    RefinesTrans(x + y, work + rest, all);
  }

  lemma PartsSeparate(K: nat, m: nat, all: seq<Node>, work: seq<Node>, rest: seq<Node>)
    requires Parts(K, m, all, work, rest)
    ensures Subtrees(work, K) && Subtrees(rest, K) && Separate(work, m) && Separate(rest, m)
    ensures |All(rest)| == |All(all)| - |All(work)|
  {
    var z := work + rest;
    forall i, j | 0 <= i < j < |work| ensures Apart(work[i].Prefix(), work[j].Prefix(), m) {
      assert z[i] == work[i] && z[j] == work[j];
    }
    forall i, j | 0 <= i < j < |rest| ensures Apart(rest[i].Prefix(), rest[j].Prefix(), m) {
      assert z[|work| + i] == rest[i] && z[|work| + j] == rest[j];
    }
  }

  lemma WholeCovers(K: nat, m: nat, all: seq<Node>)
    requires Subtrees(all, K) && Separate(all, m)
    ensures Covers(K, m, Joined([all]), all)
  {
    assert [all][1..] == [] && all + [] == all;
    assert Joined([all]) == all + Joined([all][1..]);
    RefinesItself(all);
  }

  /**
   Any way of splitting an apply range: at each divisible range the scheduler may
   split or run.  Whatever it chooses, the ranges that are run cover the whole, and
   no two of their subtrees share a truncated key.
   */
  method SplitAll(K: nat, m: nat, all: seq<Node>, total: nat, splittable: bool, grain: nat)
    returns (ranges: seq<seq<Node>>)
    requires Subtrees(all, K) && Separate(all, m) && total == |All(all)| && grain >= 1
    ensures Covers(K, m, Joined(ranges), all)
    decreases total, if splittable then 1 else 0
  {
    var split: bool := *;
    if split && total > grain && splittable {
      var work, rest, size, more := SplitApply(K, m, all, total);
      PartsSeparate(K, m, all, work, rest);
      var v := SplitAll(K, m, work, size, true, grain);
      var w := SplitAll(K, m, rest, total - size, more, grain);
      HalvesCover(K, m, all, work, rest, Joined(v), Joined(w));
      JoinedConcat(v, w);
      ranges := v + w;
    } else {
      WholeCovers(K, m, all);
      ranges := [all];
    }
  }

  /** All ranges of a trie; `maxSplitLen` is in bits. */
  method ApplyRanges(K: nat, root: Node, maxSplitLen: nat, grain: nat) returns (ranges: seq<seq<Node>>)
    requires RootCanonical(root, K) && Sized(root) && grain >= 1 && maxSplitLen > 0 && maxSplitLen % 4 == 0
    ensures Subtrees(Joined(ranges), K) && All(Joined(ranges)) == Items(root)
    ensures Separate(Joined(ranges), maxSplitLen / 4)
  {
    var work := ChildList(root.children, 0);
    WholeList(root, K);
    ChildrenApart(root, K, 0, maxSplitLen / 4);
    ranges := SplitAll(K, maxSplitLen / 4, work, Total(work), true, grain);
  }

  /** Keys of two different subtrees differ when truncated. */
  lemma TruncatedKeysDiffer(work: seq<Node>, m: nat, i: nat, j: nat, x: Key, y: Key)
    requires Separate(work, m) && i < |work| && j < |work| && i != j
    requires work[i].Prefix() <= x && work[j].Prefix() <= y && |x| >= m && |y| >= m
    ensures x[..m] != y[..m]
  {
    if i < j {
      ApartExtends(work[i].Prefix(), work[j].Prefix(), m, x, y);
    } else {
      ApartExtends(work[j].Prefix(), work[i].Prefix(), m, y, x);
    }
  }
}
