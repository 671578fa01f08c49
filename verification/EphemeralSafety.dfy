/**
 Invariants of the ephemeral trie under concurrency.

 Sizes: the size in a slot plus the number of published keys below it whose
 `bump_size` walk has not passed the slot equals the number of leaves below it.
 Shape: all published nodes form one search tree, and a node with a single child
 is one that some insert is still about to complete.
 */
module EphemeralSafety {

  import opened Nibbles
  import opened Tries
  import opened SearchTrees
  import opened EphemeralTrie

  /** Call `t` published a key below slot `b` of `n` and has not yet bumped that slot. */
  ghost predicate Waits(s: State, t: Tid, n: Id, b: Nibble) {
    && t in s.calls && s.calls[t].pc.Climb? && s.calls[t].pc.node in s.cells
    && n in s.cells && Under(s.cells[n].prefix, b, s.calls[t].key)
    && |s.cells[s.calls[t].pc.node].prefix| <= |s.cells[n].prefix|
  }

  ghost function Waiting(s: State, n: Id, b: Nibble): set<Tid> {
    set t | t in s.calls && Waits(s, t, n, b)
  }

  ghost predicate IsBelow(s: State, x: Id, n: Id, b: Nibble) {
    x in s.cells && n in s.cells && |s.cells[x].prefix| == s.K && Under(s.cells[n].prefix, b, s.cells[x].prefix)
  }

  /** The leaves below slot `b` of `n`. */
  ghost function Below(s: State, n: Id, b: Nibble): set<Id> {
    set x | x in s.cells && IsBelow(s, x, n, b)
  }

  ghost predicate SlotOk(s: State, n: Id, b: Nibble) {
    (n, b) in s.sizes && s.sizes[(n, b)] + |Waiting(s, n, b)| == |Below(s, n, b)|
  }

  ghost predicate SizesOk(s: State) {
    forall n, b {:trigger SlotOk(s, n, b)} | n in s.cells && b in s.cells[n].slots :: SlotOk(s, n, b)
  }

  ghost predicate TreeOk(s: State) {
    && SearchTree(s.cells, s.cells.Keys, ROOT, s.K)
    && forall n | n in s.cells :: n == ROOT || n < NULL
  }

  /** Call `t` is at `n` and will give it one more child. */
  ghost predicate Fills(s: State, t: Tid, n: Id) {
    && t in s.calls && (s.calls[t].pc.Visit? || s.calls[t].pc.Choose?) && s.calls[t].pc.node == n
    && n in s.cells && |s.cells[n].prefix| < |s.calls[t].key|
    && s.calls[t].key[|s.cells[n].prefix|] !in s.cells[n].slots
  }

  ghost predicate DenseOk(s: State, n: Id) {
    && n in s.cells
    && (n != ROOT && |s.cells[n].prefix| < s.K ==>
          && |s.cells[n].slots| >= 1
          && (|s.cells[n].slots| >= 2 || exists t :: Fills(s, t, n)))
  }

  ghost predicate BranchesOk(s: State) {
    forall n {:trigger DenseOk(s, n)} | n in s.cells :: DenseOk(s, n)
  }

  predicate Won(pc: Pc) {
    pc.Climb? || pc == Done(true)
  }

  ghost predicate WinOk(s: State, k: Key) {
    && k in s.published && |k| == s.K
    && s.published[k].leaf in s.cells && s.cells[s.published[k].leaf].prefix == k
    && s.published[k].tid in s.calls && s.calls[s.published[k].tid].key == k && Won(s.calls[s.published[k].tid].pc)
  }

  ghost predicate LeafOk(s: State, x: Id) {
    x in s.cells && (|s.cells[x].prefix| == s.K ==> s.cells[x].prefix in s.published)
  }

  /** Published keys, leaves and winners correspond. */
  ghost predicate WinsOk(s: State) {
    && (forall k {:trigger WinOk(s, k)} | k in s.published :: WinOk(s, k))
    && (forall x {:trigger LeafOk(s, x)} | x in s.cells :: LeafOk(s, x))
  }

  ghost predicate CallOk(s: State, t: Tid) {
    && t in s.calls
    && var Call(key, pc) := s.calls[t];
    && |key| == s.K
    && (Won(pc) ==> key in s.published && s.published[key].tid == t)
    && match pc
       case Visit(n) => n in s.cells && s.cells[n].prefix <= key
       case Choose(n, seen) =>
         && n in s.cells && s.cells[n].prefix < key
         && (seen.Some? ==>
               && key[|s.cells[n].prefix|] in s.cells[n].slots
               && seen.value.handle in s.cells
               && Under(s.cells[n].prefix, key[|s.cells[n].prefix|], s.cells[seen.value.handle].prefix))
       case Climb(n) => n in s.cells && s.cells[n].prefix <= key
       case Done(result) => key in s.published
       case Seek(n) => n in s.cells
       case Found(x) => x in s.cells && s.cells[x].prefix == key
       case Missing => true
       case Threw => false
  }

  ghost predicate CallsOk(s: State) {
    forall t {:trigger CallOk(s, t)} | t in s.calls :: CallOk(s, t)
  }

  ghost predicate Inv(s: State) {
    TreeOk(s) && SizesOk(s) && BranchesOk(s) && WinsOk(s) && CallsOk(s)
  }

  lemma InitInv(s: State, K: nat)
    requires Init(s, K)
    ensures Inv(s)
  {
    assert Local(s.cells, s.cells.Keys, K, ROOT) && Leads(s.cells, ROOT, ROOT);
    assert DenseOk(s, ROOT) && LeafOk(s, ROOT);
  }

  // ----- steps that move one call and leave the nodes alone -----

  /** Only the call `t` differs, and whether and where it climbs does not. */
  ghost predicate Moved(s: State, u: State, t: Tid) {
    && u == s.(calls := u.calls)
    && t in u.calls && u.calls == s.calls[t := u.calls[t]]
    && !u.calls[t].pc.Climb?
    && (t in s.calls ==> u.calls[t].key == s.calls[t].key)
    && (t in s.calls && Won(s.calls[t].pc) ==> Won(u.calls[t].pc))
    && (t in s.calls && s.calls[t].pc.Climb? ==>
          s.calls[t].pc.node in s.cells && |s.cells[s.calls[t].pc.node].prefix| >= |s.calls[t].key|)
    && (forall n | t in s.calls && Fills(s, t, n) :: Fills(u, t, n))
  }

  lemma MovedSizes(s: State, u: State, t: Tid)
    requires SizesOk(s) && Moved(s, u, t)
    ensures SizesOk(u)
  {
    forall n, b | n in u.cells && b in u.cells[n].slots ensures SlotOk(u, n, b) {
      assert SlotOk(s, n, b);
      assert Waiting(u, n, b) == Waiting(s, n, b);
      assert Below(u, n, b) == Below(s, n, b);
    }
  }

  lemma MovedBranches(s: State, u: State, t: Tid)
    requires BranchesOk(s) && Moved(s, u, t)
    ensures BranchesOk(u)
  {
    forall n | n in u.cells ensures DenseOk(u, n) {
      assert DenseOk(s, n);
      if i :| Fills(s, i, n) {
        assert Fills(u, i, n);
      }
    }
  }

  lemma MovedInv(s: State, u: State, t: Tid)
    requires Inv(s) && Moved(s, u, t) && CallOk(u, t)
    ensures Inv(u)
  {
    MovedSizes(s, u, t);
    MovedBranches(s, u, t);
    forall k | k in u.published ensures WinOk(u, k) {
      assert WinOk(s, k);
    }
    forall x | x in u.cells ensures LeafOk(u, x) {
      assert LeafOk(s, x);
    }
    forall i | i in u.calls ensures CallOk(u, i) {
      if i != t { assert CallOk(s, i); }
    }
  }

  // ----- overwriting a value -----

  /** Only entries differ, and no leaf loses its entry. */
  ghost predicate Overwritten(s: State, u: State, n: Id, e: Entry) {
    n in s.cells && u == s.(cells := s.cells[n := s.cells[n].(entry := Some(e))])
  }

  lemma OverwriteTree(s: State, u: State, n: Id, e: Entry)
    requires TreeOk(s) && Overwritten(s, u, n, e) && |s.cells[n].prefix| == s.K
    ensures TreeOk(u)
  {
    assert Local(s.cells, s.cells.Keys, s.K, n);
    Frame(s.cells, u.cells, s.cells.Keys, ROOT, s.K);
    assert u.cells.Keys == s.cells.Keys;
  }

  lemma OverwriteSizes(s: State, u: State, n: Id, e: Entry)
    requires SizesOk(s) && Overwritten(s, u, n, e)
    ensures SizesOk(u)
  {
    forall m, b | m in u.cells && b in u.cells[m].slots ensures SlotOk(u, m, b) {
      assert SlotOk(s, m, b);
      assert Waiting(u, m, b) == Waiting(s, m, b);
      assert Below(u, m, b) == Below(s, m, b);
    }
  }

  lemma OverwriteRest(s: State, u: State, n: Id, e: Entry)
    requires BranchesOk(s) && WinsOk(s) && CallsOk(s) && Overwritten(s, u, n, e)
    ensures BranchesOk(u) && WinsOk(u) && CallsOk(u)
  {
    forall m | m in u.cells ensures DenseOk(u, m) && LeafOk(u, m) {
      assert DenseOk(s, m) && LeafOk(s, m);
      if i :| Fills(s, i, m) {
        assert Fills(u, i, m);
      }
    }
    forall k | k in u.published ensures WinOk(u, k) {
      assert WinOk(s, k);
    }
    forall i | i in u.calls ensures CallOk(u, i) {
      assert CallOk(s, i);
    }
  }

  lemma VisitInv(s: State, t: Tid, e: Entry)
    requires Inv(s) && Enabled(s, DoVisit(t, e))
    ensures Inv(VisitStep(s, t, e))
  {
    var n, key := s.calls[t].pc.node, s.calls[t].key;
    assert CallOk(s, t);
    assert Local(s.cells, s.cells.Keys, s.K, n);
    if |s.cells[n].prefix| >= |key| {
      assert LeafOk(s, n) && s.cells[n].prefix == key;
      var m := s.(cells := s.cells[n := s.cells[n].(entry := Some(e))]);
      OverwriteTree(s, m, n, e);
      OverwriteSizes(s, m, n, e);
      OverwriteRest(s, m, n, e);
      MovedInv(m, SetPc(m, t, Done(false)), t);
    } else {
      LoadInv(s, t, n);
    }
  }

  lemma LoadInv(s: State, t: Tid, n: Id)
    requires Inv(s) && t in s.calls && (s.calls[t].pc.Visit? || s.calls[t].pc.Choose?) && s.calls[t].pc.node == n
    requires n in s.cells && s.cells[n].prefix < s.calls[t].key && |s.calls[t].key| == s.K
    ensures Inv(SetPc(s, t, Choose(n, Load(s, n, s.calls[t].key[|s.cells[n].prefix|]))))
  {
    assert Local(s.cells, s.cells.Keys, s.K, n);
    MovedInv(s, SetPc(s, t, Choose(n, Load(s, n, s.calls[t].key[|s.cells[n].prefix|]))), t);
  }

  lemma RecurseInv(s: State, t: Tid, c: Id)
    requires Inv(s) && t in s.calls && s.calls[t].pc.Choose? && s.calls[t].pc.seen.Some?
    requires s.calls[t].pc.seen.value.handle == c && c in s.cells && s.cells[c].prefix <= s.calls[t].key
    ensures Inv(SetPc(s, t, Visit(c)))
  {
    assert CallOk(s, t);
    MovedInv(s, SetPc(s, t, Visit(c)), t);
  }

  lemma SeekInv(s: State, t: Tid)
    requires Inv(s) && Enabled(s, DoSeek(t))
    ensures Inv(SeekStep(s, t))
  {
    var n, key := s.calls[t].pc.node, s.calls[t].key;
    var p := s.cells[n].prefix;
    assert CallOk(s, t);
    assert Local(s.cells, s.cells.Keys, s.K, n);
    if MatchLen(p, key) >= |p| && MatchLen(p, key) >= s.K {
      assert p == key;
    }
    MovedInv(s, SeekStep(s, t), t);
  }

  lemma BeginInv(s: State, t: Tid, key: Key, n: Id)
    requires Inv(s) && t !in s.calls && |key| == s.K && n == ROOT
    ensures Inv(s.(calls := s.calls[t := Call(key, Visit(n))]))
    ensures Inv(s.(calls := s.calls[t := Call(key, Seek(n))]))
  {
    MovedInv(s, s.(calls := s.calls[t := Call(key, Visit(n))]), t);
    MovedInv(s, s.(calls := s.calls[t := Call(key, Seek(n))]), t);
  }

  // ----- publishing a leaf -----

  /** Call `t` saw the null word in slot `b` of `n` and it is still there. */
  ghost predicate Publishing(s: State, t: Tid, n: Id, b: Nibble, x: Id) {
    && t in s.calls && s.calls[t].pc.Choose? && s.calls[t].pc.node == n
    && n in s.cells && x !in s.cells && x < NULL
    && |s.calls[t].key| == s.K && Under(s.cells[n].prefix, b, s.calls[t].key)
    && b !in s.cells[n].slots
  }

  lemma KeyIsNew(s: State, t: Tid, n: Id, b: Nibble, x: Id)
    requires Publishing(s, t, n, b, x) && TreeOk(s) && WinsOk(s)
    ensures s.calls[t].key !in s.published
  {
    var key := s.calls[t].key;
    if key in s.published {
      assert WinOk(s, key);
      var _ := Leads(s.cells, n, s.published[key].leaf);
      assert false;
    }
  }

  lemma PublishSlot(s: State, u: State, t: Tid, n: Id, b: Nibble, x: Id, m: Id, d: Nibble)
    requires Publishing(s, t, n, b, x) && TreeOk(s) && CallsOk(s)
    requires x in u.cells && u.cells == SetSlot(s.cells, n, b, x)[x := u.cells[x]]
    requires u.K == s.K && u.cells[x].prefix == s.calls[t].key
    requires t in u.calls && u.calls == s.calls[t := s.calls[t].(pc := Climb(ROOT))]
    requires m in s.cells
    ensures Under(s.cells[m].prefix, d, s.calls[t].key) ==>
      Waiting(u, m, d) == Waiting(s, m, d) + {t} && Below(u, m, d) == Below(s, m, d) + {x}
    ensures !Under(s.cells[m].prefix, d, s.calls[t].key) ==>
      Waiting(u, m, d) == Waiting(s, m, d) && Below(u, m, d) == Below(s, m, d)
    ensures t !in Waiting(s, m, d) && x !in Below(s, m, d)
  {
    forall i | i in s.calls ensures Waits(u, i, m, d)
      <==> Waits(s, i, m, d) || (i == t && Under(s.cells[m].prefix, d, s.calls[t].key)) {
      assert CallOk(s, i);
    }
    forall y | y in u.cells ensures IsBelow(u, y, m, d)
      <==> IsBelow(s, y, m, d) || (y == x && Under(s.cells[m].prefix, d, s.calls[t].key)) {
    }
  }

  lemma NothingBelow(s: State, n: Id, b: Nibble)
    requires TreeOk(s) && n in s.cells && b !in s.cells[n].slots
    ensures Below(s, n, b) == {}
  {
    forall x | x in s.cells ensures !IsBelow(s, x, n, b) {
      assert Leads(s.cells, n, x);
    }
  }

  /** A climbing call's key is a leaf, so nobody waits where there is none. */
  lemma NobodyWaits(s: State, n: Id, b: Nibble)
    requires TreeOk(s) && WinsOk(s) && CallsOk(s) && n in s.cells && b !in s.cells[n].slots
    ensures Waiting(s, n, b) == {}
  {
    forall t | t in s.calls ensures !Waits(s, t, n, b) {
      if Waits(s, t, n, b) {
        assert CallOk(s, t);
        assert WinOk(s, s.calls[t].key);
        var _ := Leads(s.cells, n, s.published[s.calls[t].key].leaf);
        assert false;
      }
    }
  }

  lemma PublishSizes(s: State, t: Tid, n: Id, b: Nibble, x: Id, e: Entry)
    requires Publishing(s, t, n, b, x) && TreeOk(s) && SizesOk(s) && WinsOk(s) && CallsOk(s)
    ensures SizesOk(PublishLeaf(s, t, n, b, x, e))
  {
    var u := PublishLeaf(s, t, n, b, x, e);
    forall m, d | m in u.cells && d in u.cells[m].slots ensures SlotOk(u, m, d) {
      PublishSlotOk(s, u, t, n, b, x, e, m, d);
    }
  }

  lemma PublishSlotOk(s: State, u: State, t: Tid, n: Id, b: Nibble, x: Id, e: Entry, m: Id, d: Nibble)
    requires Publishing(s, t, n, b, x) && TreeOk(s) && SizesOk(s) && WinsOk(s) && CallsOk(s)
    requires u == PublishLeaf(s, t, n, b, x, e) && m in u.cells && d in u.cells[m].slots
    ensures SlotOk(u, m, d)
  {
    PublishSlot(s, u, t, n, b, x, m, d);
    if m == n && d == b {
      NothingBelow(s, n, b);
      NobodyWaits(s, n, b);
    } else {
      assert SlotOk(s, m, d);
    }
  }

  lemma PublishTree(s: State, t: Tid, n: Id, b: Nibble, x: Id, e: Entry)
    requires Publishing(s, t, n, b, x) && TreeOk(s)
    ensures TreeOk(PublishLeaf(s, t, n, b, x, e))
  {
    var u := PublishLeaf(s, t, n, b, x, e);
    AddLeaf(s.cells, s.cells.Keys, ROOT, s.K, n, x, Cell(s.calls[t].key, Some(e), map[]));
    assert u.cells.Keys == s.cells.Keys + {x};
  }

  lemma PublishBranches(s: State, t: Tid, n: Id, b: Nibble, x: Id, e: Entry)
    requires Publishing(s, t, n, b, x) && BranchesOk(s)
    ensures BranchesOk(PublishLeaf(s, t, n, b, x, e))
  {
    var u := PublishLeaf(s, t, n, b, x, e);
    forall m | m in u.cells ensures DenseOk(u, m) {
      if m == n {
        assert DenseOk(s, n);
        assert |u.cells[n].slots| == |s.cells[n].slots| + 1;
      } else if m != x {
        assert DenseOk(s, m);
        if i :| Fills(s, i, m) {
          assert Fills(u, i, m);
        }
      }
    }
  }

  lemma PublishWins(s: State, t: Tid, n: Id, b: Nibble, x: Id, e: Entry)
    requires Publishing(s, t, n, b, x) && TreeOk(s) && WinsOk(s) && CallsOk(s)
    ensures WinsOk(PublishLeaf(s, t, n, b, x, e)) && CallsOk(PublishLeaf(s, t, n, b, x, e))
  {
    var u := PublishLeaf(s, t, n, b, x, e);
    KeyIsNew(s, t, n, b, x);
    forall k | k in u.published ensures WinOk(u, k) {
      if k in s.published { assert WinOk(s, k); }
    }
    forall y | y in u.cells ensures LeafOk(u, y) {
      if y in s.cells { assert LeafOk(s, y); }
    }
    PublishCalls(s, t, n, b, x, e);
  }

  lemma PublishCalls(s: State, t: Tid, n: Id, b: Nibble, x: Id, e: Entry)
    requires Publishing(s, t, n, b, x) && TreeOk(s) && WinsOk(s) && CallsOk(s) && s.calls[t].key !in s.published
    ensures CallsOk(PublishLeaf(s, t, n, b, x, e))
  {
    var u := PublishLeaf(s, t, n, b, x, e);
    forall i | i in u.calls ensures CallOk(u, i) {
      assert CallOk(s, i);
    }
  }

  lemma PublishInv(s: State, t: Tid, n: Id, b: Nibble, x: Id, e: Entry)
    requires Inv(s) && Publishing(s, t, n, b, x)
    ensures Inv(PublishLeaf(s, t, n, b, x, e))
  {
    PublishTree(s, t, n, b, x, e);
    PublishSizes(s, t, n, b, x, e);
    PublishBranches(s, t, n, b, x, e);
    PublishWins(s, t, n, b, x, e);
  }

  // ----- splitting a slot -----

  /** Call `t` saw `word` in slot `b` of `n`, it is still there, and its node parts from the key at length `|p|`. */
  ghost predicate Splitting(s: State, t: Tid, n: Id, b: Nibble, x: Id, word: Slot, p: Key, d: Nibble) {
    && t in s.calls && s.calls[t].pc.Choose? && s.calls[t].pc.node == n
    && n in s.cells && x !in s.cells && x < NULL
    && b in s.cells[n].slots && s.cells[n].slots[b] == word.handle && word.handle in s.cells
    && (n, b) in s.sizes && s.sizes[(n, b)] == word.size
    && Under(s.cells[n].prefix, b, p) && p < s.cells[word.handle].prefix && s.cells[word.handle].prefix[|p|] == d
    && p < s.calls[t].key && s.calls[t].key[|p|] != d && |s.calls[t].key| == s.K
  }

  lemma SplitTree(s: State, t: Tid, n: Id, b: Nibble, x: Id, word: Slot, p: Key, d: Nibble)
    requires Splitting(s, t, n, b, x, word, p, d) && TreeOk(s)
    ensures TreeOk(Split(s, t, n, b, x, word, p, d))
  {
    var u := Split(s, t, n, b, x, word, p, d);
    Join(s.cells, s.cells.Keys, ROOT, s.K, n, b, x, p);
    assert u.cells.Keys == s.cells.Keys + {x};
  }

  /** Everything below the old slot is below the new one, and the other way round. */
  lemma SplitBelow(s: State, t: Tid, n: Id, b: Nibble, x: Id, word: Slot, p: Key, d: Nibble, y: Id)
    requires Splitting(s, t, n, b, x, word, p, d) && TreeOk(s) && y in s.cells
    ensures Under(s.cells[n].prefix, b, s.cells[y].prefix) <==> Under(p, d, s.cells[y].prefix)
    ensures s.cells[n].prefix < s.cells[y].prefix && s.cells[y].prefix[|s.cells[n].prefix|] == b ==>
      |p| < |s.cells[y].prefix|
  {
    assert Leads(s.cells, n, y);
    assert p[|s.cells[n].prefix|] == b;
  }

  lemma SplitNewSlot(s: State, t: Tid, n: Id, b: Nibble, x: Id, word: Slot, p: Key, d: Nibble)
    requires Splitting(s, t, n, b, x, word, p, d) && TreeOk(s) && WinsOk(s) && CallsOk(s)
    ensures var u := Split(s, t, n, b, x, word, p, d);
      Waiting(u, x, d) == Waiting(s, n, b) && Below(u, x, d) == Below(s, n, b)
  {
    var u := Split(s, t, n, b, x, word, p, d);
    forall y | y in u.cells ensures IsBelow(u, y, x, d) <==> IsBelow(s, y, n, b) {
      if y in s.cells { SplitBelow(s, t, n, b, x, word, p, d, y); }
      assert Local(s.cells, s.cells.Keys, s.K, word.handle);
    }
    forall i | i in s.calls ensures Waits(u, i, x, d) <==> Waits(s, i, n, b) {
      assert CallOk(s, i);
      if s.calls[i].pc.Climb? {
        var key, m := s.calls[i].key, s.calls[i].pc.node;
        assert WinOk(s, key);
        SplitBelow(s, t, n, b, x, word, p, d, s.published[key].leaf);
        SplitBelow(s, t, n, b, x, word, p, d, m);
        assert |s.cells[n].prefix| < |p|;
        assert s.cells[m].prefix <= key;
      }
    }
  }

  lemma SplitOldSlot(s: State, t: Tid, n: Id, b: Nibble, x: Id, word: Slot, p: Key, d: Nibble, m: Id, c: Nibble)
    requires Splitting(s, t, n, b, x, word, p, d) && TreeOk(s) && CallsOk(s) && m in s.cells
    ensures var u := Split(s, t, n, b, x, word, p, d);
      Waiting(u, m, c) == Waiting(s, m, c) && Below(u, m, c) == Below(s, m, c)
  {
    var u := Split(s, t, n, b, x, word, p, d);
    assert Local(s.cells, s.cells.Keys, s.K, word.handle);
    forall i | i in s.calls ensures Waits(u, i, m, c) <==> Waits(s, i, m, c) {
      assert CallOk(s, i);
    }
    forall y | y in u.cells ensures IsBelow(u, y, m, c) <==> IsBelow(s, y, m, c) {
    }
  }

  lemma SplitSizes(s: State, t: Tid, n: Id, b: Nibble, x: Id, word: Slot, p: Key, d: Nibble)
    requires Splitting(s, t, n, b, x, word, p, d) && TreeOk(s) && SizesOk(s) && WinsOk(s) && CallsOk(s)
    ensures SizesOk(Split(s, t, n, b, x, word, p, d))
  {
    var u := Split(s, t, n, b, x, word, p, d);
    forall m, c | m in u.cells && c in u.cells[m].slots ensures SlotOk(u, m, c) {
      if m == x {
        SplitNewSlot(s, t, n, b, x, word, p, d);
        assert SlotOk(s, n, b);
      } else {
        SplitOldSlot(s, t, n, b, x, word, p, d, m, c);
        assert SlotOk(s, m, c);
      }
    }
  }

  lemma SplitBranches(s: State, t: Tid, n: Id, b: Nibble, x: Id, word: Slot, p: Key, d: Nibble)
    requires Splitting(s, t, n, b, x, word, p, d) && BranchesOk(s)
    ensures BranchesOk(Split(s, t, n, b, x, word, p, d))
  {
    var u := Split(s, t, n, b, x, word, p, d);
    assert s.calls[t].key[|s.cells[n].prefix|] == p[|s.cells[n].prefix|] == b;
    forall m | m in u.cells ensures DenseOk(u, m) {
      if m == x {
        assert Fills(u, t, x);
      } else {
        assert DenseOk(s, m);
        if m == n {
          assert u.cells[n].slots.Keys == s.cells[n].slots.Keys;
          assert |u.cells[n].slots| == |u.cells[n].slots.Keys| == |s.cells[n].slots.Keys|;
        }
        if i :| Fills(s, i, m) {
          assert Fills(u, i, m);
        }
      }
    }
  }

  lemma SplitWins(s: State, t: Tid, n: Id, b: Nibble, x: Id, word: Slot, p: Key, d: Nibble)
    requires Splitting(s, t, n, b, x, word, p, d) && TreeOk(s) && WinsOk(s) && CallsOk(s)
    ensures WinsOk(Split(s, t, n, b, x, word, p, d)) && CallsOk(Split(s, t, n, b, x, word, p, d))
  {
    var u := Split(s, t, n, b, x, word, p, d);
    assert Local(s.cells, s.cells.Keys, s.K, word.handle);
    forall k | k in u.published ensures WinOk(u, k) {
      assert WinOk(s, k);
    }
    forall y | y in u.cells ensures LeafOk(u, y) {
      if y in s.cells { assert LeafOk(s, y); }
    }
    forall i | i in u.calls ensures CallOk(u, i) {
      assert CallOk(s, i);
    }
  }

  lemma SplitInv(s: State, t: Tid, n: Id, b: Nibble, x: Id, word: Slot, p: Key, d: Nibble)
    requires Inv(s) && Splitting(s, t, n, b, x, word, p, d)
    ensures Inv(Split(s, t, n, b, x, word, p, d))
  {
    SplitTree(s, t, n, b, x, word, p, d);
    SplitSizes(s, t, n, b, x, word, p, d);
    SplitBranches(s, t, n, b, x, word, p, d);
    SplitWins(s, t, n, b, x, word, p, d);
  }

  // ----- bumping a size -----

  lemma {:induction false} BoundedSet(S: set<nat>, n: nat)
    requires forall x | x in S :: x < n
    ensures |S| <= n
  {
    if n == 0 {
      assert S == {};
    } else {
      BoundedSet(S - {n - 1}, n - 1);
      if n - 1 in S {
        assert S == S - {n - 1} + {n - 1};
      } else {
        assert S == S - {n - 1};
      }
    }
  }

  /** There are fewer leaves than handles, so a size never fills its half of the word. */
  lemma FewLeaves(s: State, n: Id, b: Nibble)
    requires TreeOk(s)
    ensures |Below(s, n, b)| <= NULL
  {
    BoundedSet(Below(s, n, b), NULL);
  }

  /** Packing two halves and unpacking them again. */
  lemma PackRoundTrip(x: Slot)
    requires x.size < HALF
    ensures Unpack(Pack(x)) == x
  {
    assert (x.handle * HALF + x.size) / HALF == x.handle;
    assert (x.handle * HALF + x.size) % HALF == x.size;
  }

  /** Without a carry the increment touches the size only; with one it changes the handle. */
  lemma AddOneKeepsHandle(x: Slot)
    requires x.handle < HALF && x.size < HALF
    ensures AddOne(x) == Slot(x.handle, x.size + 1) <==> x.size + 1 < HALF
  {
    var word := Pack(x) + 1;
    if x.size + 1 < HALF {
      assert word == Pack(Slot(x.handle, x.size + 1)) < HALF * HALF by {
        assert x.handle * HALF <= (HALF - 1) * HALF;
      }
      assert word % (HALF * HALF) == word;
      PackRoundTrip(Slot(x.handle, x.size + 1));
    } else {
      assert AddOne(x).size < HALF;
    }
  }

  /** Call `t` stands at a branch `n` of its bump walk, with child `h` on the way. */
  ghost predicate Climbing(s: State, t: Tid, n: Id, b: Nibble, h: Id) {
    && t in s.calls && s.calls[t].pc == Climb(n) && n in s.cells && |s.calls[t].key| == s.K
    && Under(s.cells[n].prefix, b, s.calls[t].key)
    && b in s.cells[n].slots && s.cells[n].slots[b] == h && h in s.cells
    && s.cells[n].prefix < s.cells[h].prefix <= s.calls[t].key
  }

  /** The walk never meets the null word, and goes down the key. */
  lemma WayIsOpen(s: State, t: Tid, n: Id)
    requires TreeOk(s) && WinsOk(s) && CallsOk(s) && t in s.calls && s.calls[t].pc == Climb(n)
    requires n in s.cells && |s.cells[n].prefix| < s.K
    ensures s.cells[n].prefix < s.calls[t].key
    ensures var b := s.calls[t].key[|s.cells[n].prefix|];
      b in s.cells[n].slots && Climbing(s, t, n, b, s.cells[n].slots[b])
  {
    assert CallOk(s, t);
    assert WinOk(s, s.calls[t].key);
    assert Leads(s.cells, n, s.published[s.calls[t].key].leaf);
    assert Local(s.cells, s.cells.Keys, s.K, n);
  }

  lemma NoCarry(s: State, t: Tid, n: Id, b: Nibble, h: Id)
    requires TreeOk(s) && SizesOk(s) && Climbing(s, t, n, b, h)
    ensures (n, b) in s.sizes
    ensures AddOne(Slot(h, SizeAt(s, n, b))) == Slot(h, s.sizes[(n, b)] + 1)
    ensures t in Waiting(s, n, b)
  {
    assert SlotOk(s, n, b);
    assert t in Waiting(s, n, b);
    assert |Waiting(s, n, b)| >= 1 by {
      assert |Waiting(s, n, b)| == |Waiting(s, n, b) - {t}| + 1;
    }
    FewLeaves(s, n, b);
    assert Local(s.cells, s.cells.Keys, s.K, n);
    assert h != ROOT;
    AddOneKeepsHandle(Slot(h, s.sizes[(n, b)]));
  }

  /** Having bumped slot `b` of `n`, call `t` waits where it waited before, except there. */
  lemma ClimbSlot(s: State, u: State, t: Tid, n: Id, b: Nibble, h: Id, m: Id, c: Nibble)
    requires Climbing(s, t, n, b, h) && TreeOk(s) && m in s.cells
    requires u.cells == s.cells && u.K == s.K && u.calls == s.calls[t := s.calls[t].(pc := Climb(h))]
    ensures Below(u, m, c) == Below(s, m, c)
    ensures Waiting(u, m, c) == if m == n && c == b then Waiting(s, m, c) - {t} else Waiting(s, m, c)
  {
    assert Leads(s.cells, n, m) && Leads(s.cells, m, n);
    forall i | i in s.calls && i != t ensures Waits(u, i, m, c) <==> Waits(s, i, m, c) {
    }
    if s.cells[m].prefix <= s.calls[t].key && |s.cells[n].prefix| <= |s.cells[m].prefix| {
      PrefixesComparable(s.cells[n].prefix, s.cells[m].prefix, s.calls[t].key);
    }
    assert Waits(u, t, m, c) <==> Waits(s, t, m, c) && !(m == n && c == b);
    forall y | y in s.cells ensures IsBelow(u, y, m, c) <==> IsBelow(s, y, m, c) {
    }
  }

  lemma ClimbSizes(s: State, u: State, t: Tid, n: Id, b: Nibble, h: Id)
    requires Climbing(s, t, n, b, h) && TreeOk(s) && SizesOk(s) && (n, b) in s.sizes
    requires u == s.(sizes := s.sizes[(n, b) := s.sizes[(n, b)] + 1],
      calls := s.calls[t := s.calls[t].(pc := Climb(h))])
    ensures SizesOk(u)
  {
    forall m, c | m in u.cells && c in u.cells[m].slots ensures SlotOk(u, m, c) {
      assert SlotOk(s, m, c);
      ClimbSlot(s, u, t, n, b, h, m, c);
      if m == n && c == b {
        assert t in Waiting(s, n, b);
      }
    }
  }

  lemma ClimbRest(s: State, u: State, t: Tid, n: Id, b: Nibble, h: Id)
    requires Climbing(s, t, n, b, h) && BranchesOk(s) && WinsOk(s) && CallsOk(s)
    requires u == s.(sizes := u.sizes, calls := s.calls[t := s.calls[t].(pc := Climb(h))])
    ensures BranchesOk(u) && WinsOk(u) && CallsOk(u)
  {
    forall m | m in u.cells ensures DenseOk(u, m) && LeafOk(u, m) {
      assert DenseOk(s, m) && LeafOk(s, m);
      if i :| Fills(s, i, m) {
        assert Fills(u, i, m);
      }
    }
    forall k | k in u.published ensures WinOk(u, k) {
      assert WinOk(s, k);
    }
    forall i | i in u.calls ensures CallOk(u, i) {
      assert CallOk(s, i);
    }
  }

  lemma ClimbInv(s: State, t: Tid)
    requires Inv(s) && Enabled(s, DoClimb(t))
    ensures Inv(ClimbStep(s, t))
  {
    var n, key := s.calls[t].pc.node, s.calls[t].key;
    assert CallOk(s, t);
    if |s.cells[n].prefix| >= s.K {
      MovedInv(s, SetPc(s, t, Done(true)), t);
    } else {
      WayIsOpen(s, t, n);
      var b := key[|s.cells[n].prefix|];
      var h := s.cells[n].slots[b];
      NoCarry(s, t, n, b, h);
      assert s.cells[n].slots[b := h] == s.cells[n].slots;
      assert SetSlot(s.cells, n, b, h) == s.cells;
      var u := s.(sizes := s.sizes[(n, b) := s.sizes[(n, b)] + 1], calls := s.calls[t := s.calls[t].(pc := Climb(h))]);
      assert ClimbStep(s, t) == u;
      ClimbSizes(s, u, t, n, b, h);
      ClimbRest(s, u, t, n, b, h);
    }
  }
}
