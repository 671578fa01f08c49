# Proofs about nibble-branching Merkle tries

A Dafny model of a library of Merkle tries over fixed-length keys that branch
sixteen ways, and proofs of what its tries promise.  All of them denote a map
from keys (sequences of nibbles) to entries, and a canonical trie is the only one
of its map; that fact (`Tries.CanonicalUnique`) carries most of the rest.

* **Layered trie** (`Layered*.dfy`, `SearchTrees.dfy`): a transition system over an
  arena of nodes.  Threads insert and collect in the active layer by
  compare-and-swap, layers are bumped, and old roots are destroyed slot by slot at
  the same time.  A use after free, a double free and `std::terminate` are
  explicit faults; the main results are that no run reaches one, that a finalised
  root reaches exactly the nodes of its interval of layers, that a sweep ends and
  frees exactly what it should, that finalised layers never change, that the layers
  refine a list of maps, and exactly when a call returns or throws.
* **Ephemeral trie** (`Ephemeral*.dfy`): every compare-and-swap on a slot word of
  handle and size is one step of a machine with any number of threads.  Sizes are
  conserved at every reachable state, the trie refines one map, one insert per key
  wins, published keys are found, calls that are left alone end, and the tree at rest
  depends on nothing but the set of keys.
* **Hashes and Merkle proofs** (`Digests.dfy`, `DigestLayout.dfy`, `Commitments.dfy`,
  `Proof*.dfy`): what hashes commit to, soundness and completeness of proofs, for an
  arbitrary hash function.  Instead of assuming it injective, the lemmas return the
  two colliding byte strings where a claim fails.
* **Snapshot trie** (`Snapshot*.dfy`): lazily invalidated hashes, tombstones and
  one-child scaffolding, normalised into the canonical trie of live values.
* **Batch trie** (`Batch*.dfy`, `Hashing.dfy`): merge in five cases, insertion,
  deletion, deletion marks that hashing looks through, and the split of an order
  book by cumulative endowment, with metadata maintained by deltas.
* **Supports**: `Ranges.dfy` (work splitting), `Allocator.dfy` (handles),
  `Words.dfy`, `WordPrefixes.dfy`, `ByteArrayPrefixes.dfy` and `Prefixes.dfy`
  (64-bit words bit by bit, and prefixes in one word, in arrays of words and in
  bytes, all as nibbles).

Where the code and its comments differ, the model follows the code:

* `ByteArrayPrefix::set_next_branch_bits` is said to set the bits after a length;
  at a whole byte it also clears the nibble after them (`Prefixes.SetsOneNibble`
  gives the exact condition), while `UInt64Prefix` does not.
* `write_bytes_to` keeps the number of bytes in eight bits, so headers are
  injective up to 510 nibbles and no further.
* `insert` on a layered trie is not total: `LayeredWitnesses.InsertCanThrow` is a run
  that throws, and `LayeredTraps.ThrowsIfTrapped` gives the exact condition on the
  state in which the call begins.
* A collecting `insert` on a layered trie is meant to remove an inactive leaf.  Where
  the leaf is the only child of an older node it copies the leaf into the active layer
  instead (`LayeredCollect.CollectsExactly` gives the exact condition).
* The first `insert` into an empty batch trie applies the insert function to an initial
  value, later ones that make a leaf store the value as it is
  (`BatchTrie.MerkleTrie.Insert`); for the overwriting function they agree.
* `raise_gc_lowerbound` before there are two layers above zero is not safe.  It
  destroys the active root exactly when the bound is at least the active layer
  (`LayeredEarly.FreeBoundReaches`, `LayeredEarly.EarlyRaiseFaults`).  In the one
  case that is left, one layer above zero and bound zero, it destroys root zero only,
  but can destroy a node in use (`LayeredWitnesses.EarlyRaiseRaces`).  The safety
  results are for later calls.
* `make_proof` yields a proof for every key, but one that is not accepted where
  the search ends at a node that does not prefix the key.

Hash functions, value updates and merge functions are parameters.  Lengths of keys
are parameters too.  Metadata sums are integers.

## Model

| member | source | states |
|---|---|---|
| `Tries.GetFindsLeaves` | include/mtt/trie/merkle_trie.h:3793-3815 | lookup along branch bits finds exactly the leaves of a well-formed trie, wherever they are, with their values |
| `Tries.CanonicalUnique` | include/mtt/trie/merkle_trie.h:2421-2744 | two canonical tries with the same lookups are the same trie: shape, prefixes, keys and values |
| `Tries.RootUnique` | include/mtt/ephemeral_trie/atomic_ephemeral_trie.h:171-179 | the same for tries whose root keeps the empty prefix whatever its number of children |
| `LayeredSafety.InitInv` | include/mtt/layered_trie/layered_trie.h:144-153 | a new trie satisfies the global invariant |
| `LayeredSweep.StepInv` | include/mtt/layered_trie/layered_trie.h:779-910 | every step of every thread keeps the global invariant: slot loads, compare-and-swaps, commits, single stamps, bumps, root erasures and single destructor slots |
| `LayeredSweep.NoFaults` | include/mtt/layered_trie/layered_trie.h:672-712 | in every interleaving nobody touches a destroyed node, nothing is destroyed twice and `std::terminate` in the destructor is unreachable |
| `LayeredSweep.ReachableExactly` | include/mtt/layered_trie/layered_trie.h:159-216 | once layer k is finalised, its root reaches a node if and only if `current_layer <= k < superseded_in_layer` |
| `LayeredSweep.RetainedIsAlive` | include/mtt/layered_trie/layered_trie.h:672-704 | whatever a retained root reaches has not been destroyed |
| `LayeredReclaim.SweepFreesExactly` | include/mtt/layered_trie/layered_trie.h:672-704 | after a complete sweep, whatever ran meanwhile and since, the roots in the map are exactly those of the layers above every bound asked for so far or among the last two when the sweep began, and of the layers made since |
| `LayeredReclaim.DeadExactly` | include/mtt/layered_trie/layered_trie.h:183-216 | while no sweep runs, a node that was ever published has been destroyed if and only if no root in the map reaches it |
| `LayeredReclaim.SweepEnds` | include/mtt/layered_trie/layered_trie.h:691-703 | from every state of a sweep its own steps lead to its end: no destructor loop hangs or is stuck |
| `LayeredReclaim.TrieIsFreed` | include/mtt/layered_trie/layered_trie.h:706-712 | whenever no call is in flight and no sweep runs, the destructor of the trie can run, ends, and leaves no node undestroyed |
| `LayeredSweep.EverythingIsFreed` | include/mtt/layered_trie/layered_trie.h:706-712 | after the trie is destroyed every node that was ever published has been destroyed (once, by `NoFaults`) |
| `LayeredEarly.FreeBoundReaches` | include/mtt/layered_trie/layered_trie.h:678-691 | the bound of a sweep, with its unsigned wrap, reaches the active layer if and only if there are fewer than two layers above zero and the lower bound is at least the active layer |
| `LayeredEarly.EarlyRaiseFaults` | include/mtt/layered_trie/layered_trie.h:672-704 | from every state with that condition, whatever runs meanwhile, a sweep cannot end with the active root in the map: unless something faulted before, the root is destroyed and the next insert reads it |
| `LayeredWitnesses.EarlyRaiseRaces` | include/mtt/layered_trie/layered_trie.h:672-704 | with one layer above zero and bound zero the active root stays, yet there is a reachable state in which the sweep destroys a node that an insert of the active layer then reads |
| `LayeredRuns.BumpInv` | include/mtt/layered_trie/layered_trie.h:594-661 | making a new layer over a copy of the previous root keeps the invariant |
| `LayeredRuns.SupersedeInv` | include/mtt/layered_trie/layered_trie.h:829-883 | replacing a one-child chain by a copy, an empty leaf or nothing keeps the invariant, also when the slot has changed meanwhile |
| `LayeredSweep.DestructInv` | include/mtt/layered_trie/layered_trie.h:183-216 | one slot of a destructor loop keeps the invariant, whichever way the two stamps compare |
| `LayeredMaps.SnapshotIsolation` | include/mtt/layered_trie/layered_trie.h:649-661 | once a layer is finalised, no later insert, collection, bump or sweep changes the trie that its root denotes |
| `LayeredMaps.StepEffect` | include/mtt/layered_trie/layered_trie.h:779-910 | each step acts on the list of layer maps as nothing, as one write into the last map, or as a copy of the last map |
| `LayeredMaps.RefinesMaps` | include/mtt/layered_trie/layered_trie.h:779-910 | over every run the layers denote exactly the list of maps that replaying those effects gives |
| `LayeredCalls.StepEnds` | include/mtt/layered_trie/layered_trie.h:779-910 | a step makes a call bound to throw exactly by collapsing a chain that ends aside of its key, and makes a non-collecting call return exactly by writing |
| `LayeredCalls.ThrowsExactly` | include/mtt/layered_trie/layered_trie.h:792-873 | over every run, a call has thrown or is bound to if and only if it replaced a one-child chain ending in a node that does not prefix its key; a non-collecting call has returned if and only if it wrote its entry |
| `LayeredTraps.UntrappedIsSafe` | include/mtt/layered_trie/layered_trie.h:792-883 | if, when a call begins, no node of an older layer on the path of its key starts a one-child chain that ends aside of the key, then no schedule makes the call throw |
| `LayeredTraps.TrappedNeverReturns` | include/mtt/layered_trie/layered_trie.h:792-883 | if there is such a node, the call does not return in any run of its own steps |
| `LayeredTraps.ThrowsIfTrapped` | include/mtt/layered_trie/layered_trie.h:792-883 | the two together, for every reachable state: a call begun there can throw if and only if its key is trapped there (left alone it does) |
| `LayeredWitnesses.InsertCanThrow` | include/mtt/layered_trie/layered_trie.h:792-873 | a concrete run of four single-threaded calls over three layers in which an insert throws, so "every insert returns" is false |
| `LayeredProgress.CallEnds` | include/mtt/layered_trie/layered_trie.h:779-910 | from every reachable state that accepts calls, a call that is left alone ends; it returns if and only if its key was not trapped when it began, and the active layer then has the value of an insert, or what it had after a collection |
| `LayeredProgress.AloneEnds` | include/mtt/layered_trie/layered_trie.h:779-910 | the same for a call already in flight, whatever it has seen |
| `LayeredProgress.BumpCopies` | include/mtt/layered_trie/layered_trie.h:594-661 | with no call in flight and no sweep under way a new layer can be made; it starts with the map of the last one, which keeps it |
| `LayeredCollect.CollectsExactly` | include/mtt/layered_trie/layered_trie.h:812-908 | after a collecting call that was left alone has returned, the active layer has a leaf for its key if and only if the key was active before or had a leaf that belonged to the layer or was the only child of an older node |
| `LayeredHash.ComputeHash` | include/mtt/layered_trie/layered_trie.h:912-1023 | the recursion with its caches returns the hash of the active entries below a node, nothing if there are none, and leaves only right caches |
| `LayeredHash.CacheStays` | include/mtt/layered_trie/layered_trie.h:936-943 | what is cached for a node of a finalised layer stays right through every later run |
| `LayeredHash.CacheIsShared` | include/mtt/layered_trie/layered_trie.h:936-943 | a cached hash is right for every layer that shares the node |
| `LayeredHash.LayerHashIsOfMap` | include/mtt/layered_trie/layered_trie.h:967-1023 | the hash of a layer is a function of its active entries alone: inactive leaves, emptied branches and one-child chains leave no trace |
| `LayeredHash.LayerHashCommits` | include/mtt/layered_trie/layered_trie.h:967-1023 | conversely, layers with one hash have the same active keys with the same values, or the lemma names two different hashed byte strings with one hash |
| `EphemeralSafety.PackRoundTrip` | include/mtt/ephemeral_trie/atomic_ephemeral_trie.h:51-69 | a slot word determines its handle and its size |
| `EphemeralSafety.AddOneKeepsHandle` | include/mtt/ephemeral_trie/atomic_ephemeral_trie.h:662-685 | adding one to the word leaves the handle alone if and only if the size half is not full |
| `EphemeralSafety.NoCarry` | include/mtt/ephemeral_trie/atomic_ephemeral_trie.h:662-685 | in the bump walk of a reachable state it never is full |
| `EphemeralSafety.SplitInv` | include/mtt/ephemeral_trie/atomic_ephemeral_trie.h:633-656 | pushing a slot word below a new branch keeps the invariant (sizes, winners, shape), whatever bump walks are under way |
| `EphemeralSafety.PublishInv` | include/mtt/ephemeral_trie/atomic_ephemeral_trie.h:608-625 | publishing a leaf keeps the invariant |
| `EphemeralSafety.ClimbInv` | include/mtt/ephemeral_trie/atomic_ephemeral_trie.h:662-685 | one increment of a bump walk keeps the invariant |
| `EphemeralRuns.StepInv` | include/mtt/ephemeral_trie/atomic_ephemeral_trie.h:575-685 | every step of every thread keeps the global invariant |
| `EphemeralRuns.SizeIsConserved` | include/mtt/ephemeral_trie/atomic_ephemeral_trie.h:575-685 | at every reachable state the size in a slot plus the inserted keys below it still to be counted there is the number of leaves below it |
| `EphemeralRuns.OneWinner` | include/mtt/ephemeral_trie/atomic_ephemeral_trie.h:575-660 | of all calls that insert one key exactly one publishes it and returns true |
| `EphemeralRuns.NeverStuck` | include/mtt/ephemeral_trie/atomic_ephemeral_trie.h:575-685 | no assertion of `insert` or `bump_size` fails, every call in flight has an enabled step, and in the loop a swap whose expected word is still in the slot is enabled with every new handle |
| `EphemeralRuns.SeekAnswers` | include/mtt/ephemeral_trie/atomic_ephemeral_trie.h:840-865 | a lookup leaves the path of its key, by an empty slot or a node that does not prefix the key, only in a state in which the key is not published; what it finds is the leaf of the key |
| `EphemeralRuns.PublishedIsFound` | include/mtt/ephemeral_trie/atomic_ephemeral_trie.h:840-865 | a lookup that starts after its key was published never reports it missing, however it interleaves with inserts, splits and size updates |
| `EphemeralShape.Size` | include/mtt/ephemeral_trie/atomic_ephemeral_trie.h:751-765 | at rest the 32-bit sum of the slot sizes is the number of leaves and of inserts that returned true |
| `EphemeralShape.QuietSizes` | include/mtt/ephemeral_trie/atomic_ephemeral_trie.h:397-412 | at rest every slot holds the exact number of leaves below it |
| `EphemeralShape.QuietIsCanonical` | include/mtt/ephemeral_trie/atomic_ephemeral_trie.h:625-656 | at rest every branch below the root has two children or more |
| `EphemeralShape.ShapeIsUnique` | include/mtt/ephemeral_trie/atomic_ephemeral_trie.h:575-660 | two runs that published the same keys end at rest in the same tree, whatever the threads, orders and schedules |
| `EphemeralRanges.RestIsSized` | include/mtt/ephemeral_trie/atomic_ephemeral_trie.h:473-494 | after every run that came to rest, the trie as a value is canonical with the exact sizes that the ranges require, and has as many entries as inserts returned true |
| `EphemeralMaps.StepEffect` | include/mtt/ephemeral_trie/atomic_ephemeral_trie.h:575-660 | each step acts on the map of the trie as nothing or as one write of the value it was given at the key of its call, and a call that writes is bound to return whether the key is new |
| `EphemeralMaps.RefinesMap` | include/mtt/ephemeral_trie/atomic_ephemeral_trie.h:575-660 | over every run the trie holds exactly the map that replaying those writes on a plain map gives |
| `EphemeralMaps.ReachableTrie` | include/mtt/ephemeral_trie/atomic_ephemeral_trie.h:840-865 | at every reachable state the published nodes form a well-formed trie, the one that hashes and proofs are about, in which a lookup finds what the run wrote last at its key |
| `EphemeralMaps.LookupEnds` | include/mtt/ephemeral_trie/atomic_ephemeral_trie.h:840-865 | from every reachable state, a lookup that is left alone ends within one step more than there are nibbles in a key, with the leaf that holds the value of its key if there is one and with a miss otherwise |
| `EphemeralMaps.InsertEnds` | include/mtt/ephemeral_trie/atomic_ephemeral_trie.h:575-660 | from every reachable state with two handles left, an insert that is left alone ends within a number of steps linear in the length of a key; the key then has its value, and the answer says whether it had none |
| `EphemeralMaps.CallEnds` | include/mtt/ephemeral_trie/atomic_ephemeral_trie.h:575-685 | the same for a call already in flight, whatever word it has seen |
| `Digests.HeaderInjective` | include/mtt/common/prefix.h:565-573 | a node header followed by anything determines the length and the leading bits, up to 510 nibbles |
| `Digests.LongHeadersCollide` | include/mtt/common/prefix.h:330-340 | beyond 510 nibbles it does not: the byte count wraps and prefixes of one length collide |
| `Digests.BitVectorInjective` | include/mtt/common/bitvector.h:14-23 | the two bytes of the child bit vector determine the set of children |
| `Digests.BranchDigestInjective` | include/mtt/ephemeral_trie/atomic_ephemeral_trie.h:798-826 | the bytes hashed for a branch determine prefix, children and child hashes |
| `DigestLayout.HeaderLayout` | include/mtt/common/prefix.h:565-573 | byte by byte: the length in bits, most significant byte first, then the nibbles, upper halves first, and zeros in a half byte left over |
| `DigestLayout.BranchLayout` | include/mtt/trie/merkle_trie.h:1668-1712 | byte by byte: the header, two bytes whose bit i says whether slot i is occupied, most significant byte first, and the child hashes in slot order |
| `Commitments.HashBinds` | include/mtt/trie/merkle_trie.h:1668-1712 | tries with one node hash hold the same values at the same keys, or the lemma names two different hashed byte strings with one hash |
| `Commitments.LiveHashBinds` | include/mtt/trie/merkle_trie.h:1728-1817 | the same for hashes that skip entries and the entries that count |
| `Proofs.HeaderAtIsHeader` | include/mtt/common/prefix.h:565-573 | at a nibble boundary the masked header of a whole key is the header of its prefix |
| `Proofs.FillLoop` | include/mtt/ephemeral_trie/atomic_ephemeral_trie.h:1038-1086 | popping the bit vector writes the carried hash into the key's own slot and the listed hashes into the others in order, and fails exactly when one is missing |
| `Proofs.CheckLayer` | include/mtt/ephemeral_trie/atomic_ephemeral_trie.h:977-1101 | a layer yields the digest, the rejection or the exception of the layer specification |
| `Proofs.VerifyProof` | include/mtt/ephemeral_trie/atomic_ephemeral_trie.h:970-1109 | the loop over the stack gives the verdict that soundness and completeness are about |
| `ProofForms.VerdictByForm` | include/mtt/ephemeral_trie/atomic_ephemeral_trie.h:970-1109 | the checker throws if and only if the first layer out of order is longer than the key, and accepts if and only if every layer is in order, there is one, and the last hash is the root hash; being in order is a condition on lengths, slots and listed hashes alone |
| `ProofTheorems.ProofSoundness` | include/mtt/ephemeral_trie/atomic_ephemeral_trie.h:970-1109 | an accepted proof whose first layer is full length shows the key with that value, any other shows the key absent, or the lemma names two different hashed byte strings with one hash |
| `ProofTheorems.ProofCompleteness` | include/mtt/ephemeral_trie/atomic_ephemeral_trie.h:881-964 | a proof made for a key is accepted whenever the search ends at its leaf or at an empty slot of a node that prefixes it |
| `ProofTheorems.PresentIsNotAside` | include/mtt/ephemeral_trie/atomic_ephemeral_trie.h:881-964 | a present key never ends aside |
| `ProofTheorems.AsideIsNotAccepted` | include/mtt/ephemeral_trie/atomic_ephemeral_trie.h:881-964 | where the search ends at a node that does not prefix the key, acceptance of the proof made would show a hash collision |
| `SnapshotNodes.InsertCorrect` | include/mtt/snapshot_trie/atomic_merkle_trie.h:423-500 | an insert changes the value of its key only, invalidates its path and keeps every remaining valid hash right |
| `SnapshotNodes.DeleteFinds` | include/mtt/snapshot_trie/atomic_merkle_trie.h:772-799 | a deletion passes its assertions if and only if there is a leaf for the key |
| `SnapshotNodes.DeleteCorrect` | include/mtt/snapshot_trie/atomic_merkle_trie.h:772-799 | a deletion, successful or not, removes the live value of its key if there is one and nothing else, and keeps every remaining valid hash right |
| `SnapshotNodes.MakeRefCorrect` | include/mtt/snapshot_trie/atomic_merkle_trie.h:502-648 | obtaining a subnode changes no live value, makes the node exist and invalidates the path to it |
| `SnapshotTrie.InsertAtIsInsert` | include/mtt/snapshot_trie/atomic_merkle_trie.h:423-500 | inserting through an obtained subnode is inserting at the root |
| `SnapshotTrie.DeleteAtCorrect` | include/mtt/snapshot_trie/atomic_merkle_trie.h:772-799 | the same for deleting through an obtained subnode |
| `SnapshotTrie.OpenInsert` | include/mtt/snapshot_trie/atomic_merkle_trie.h:423-500 | an insert keeps every other obtained subnode in place with an invalid path |
| `SnapshotTrie.OpenMakeRef` | include/mtt/snapshot_trie/atomic_merkle_trie.h:581-648 | so does obtaining another subnode |
| `SnapshotTrie.OpenDeleteAt` | include/mtt/snapshot_trie/atomic_merkle_trie.h:772-799 | so does a deletion, except for the subnode that it unlinks |
| `SnapshotHash.Normalize` | include/mtt/snapshot_trie/atomic_merkle_trie.h:650-770 | normalising a subtree leaves the canonical trie of its live values with all hashes in place, or nothing |
| `SnapshotHash.NormalizeRoot` | include/mtt/snapshot_trie/atomic_merkle_trie.h:650-770 | normalising the root does the same and always leaves a root |
| `SnapshotHash.SnapshotHashIsOfMap` | include/mtt/snapshot_trie/atomic_merkle_trie.h:650-770 | the hash is a function of the live values alone |
| `SnapshotHash.SnapshotHashCommits` | include/mtt/snapshot_trie/atomic_merkle_trie.h:650-770 | conversely, equal hashes mean the same live values, or the lemma names two different hashed byte strings with one hash |
| `SnapshotHash.AtomicMerkleTrie.GetSubnode` | include/mtt/snapshot_trie/atomic_merkle_trie.h:356-365 | keeps the trie invariant and the live values; the subnode joins those that may be used |
| `SnapshotHash.AtomicMerkleTrie.InsertThrough` | include/mtt/snapshot_trie/atomic_merkle_trie.h:423-500 | puts exactly the merged or new value at the key |
| `SnapshotHash.AtomicMerkleTrie.DeleteThrough` | include/mtt/snapshot_trie/atomic_merkle_trie.h:772-799 | succeeds exactly when there is a leaf, drops exactly its value, keeps the invariant also when it fails half-way, and retires the subnode of the key |
| `SnapshotHash.AtomicMerkleTrie.HashAndNormalize` | include/mtt/snapshot_trie/atomic_merkle_trie.h:396-401 | returns the from-scratch hash of the canonical trie of live values and leaves that trie |
| `BatchMerge.MergeIn` | include/mtt/trie/merkle_trie.h:2421-2744 | all five cases: the result is canonical with exact metadata, holds the union with the merge function on shared keys, and the delta is new minus old metadata |
| `BatchMerge.MergeSame` | include/mtt/trie/merkle_trie.h:2497-2558 | equal prefixes: the same for the slot-by-slot union |
| `BatchMerge.MergeBelow` | include/mtt/trie/merkle_trie.h:2560-2604 | the other node goes below this one |
| `BatchMerge.MergeAbove` | include/mtt/trie/merkle_trie.h:2606-2700 | this node goes below the other: the swap, the recursion and the metadata correction |
| `BatchMerge.MergeApart` | include/mtt/trie/merkle_trie.h:2702-2744 | a common ancestor is made for both |
| `BatchUpdates.Insert` | include/mtt/trie/merkle_trie.h:2259-2419 | canonical, exact metadata and delta; the key gets the value, or what the insert function makes of the old value and the new one in this order, unmarked; no other key changes |
| `BatchUpdates.PerformDeletion` | include/mtt/trie/merkle_trie.h:3049-3115 | reports what it removed, asks its parent to delete it exactly when it is that leaf, otherwise removes the key only and leaves a node to contract |
| `BatchMarks.MarkForDeletion` | include/mtt/trie/merkle_trie.h:2856-2911 | sets the mark of one key, returns the value if it was unmarked, delta exact |
| `BatchMarks.UnmarkForDeletion` | include/mtt/trie/merkle_trie.h:2755-2808 | clears the mark of one key; a path without a mark is left alone with its hashes |
| `BatchMarks.PerformMarkedDeletions` | include/mtt/trie/merkle_trie.h:2913-2995 | removes exactly the marked entries, contracting on the way; says when nothing is left |
| `BatchHash.ComputeHash` | include/mtt/trie/merkle_trie.h:1728-1866 | hashing around marked entries, with caches, gives the hash of the canonical trie of unmarked entries |
| `BatchCounts.CountsAreExact` | include/mtt/trie/merkle_trie.h:1874-1885 | metadata as cardinalities: the size of a node is the number of entries below it, its marks are the number of marked ones, size minus marks is the number of unmarked ones, and the endowment is the sum over the entries |
| `BatchHash.LiveCountIsKept` | include/mtt/trie/merkle_trie.h:1874-1897 | size minus marks is the size of the pruned trie, and zero exactly when nothing is left |
| `BatchHash.RootHash` | include/mtt/trie/merkle_trie.h:1874-1914 | count and node hash of the root digest are those of the unmarked entries |
| `BatchHash.RootHashIsOfMap` | include/mtt/trie/merkle_trie.h:1874-1914 | the root hash is a function of the unmarked entries alone |
| `Commitments.RootBytesRead` | include/mtt/trie/merkle_trie.h:1874-1897 | the root hash is over 36 bytes: the first four, read as a big-endian number, are the number of unmarked entries modulo 2^32; the rest is the node hash of the canonical trie of these entries, or zeros where that number is zero |
| `Commitments.RootHashCommits` | include/mtt/trie/merkle_trie.h:1874-1914 | with fewer than 2^32 unmarked entries on either side, equal root hashes mean that the same keys are unmarked with the same values, or the lemma names two different hashed byte strings with one hash |
| `Hashing.PruneIsCanonical` | include/mtt/trie/merkle_trie.h:2913-2995 | pruning yields the canonical trie of exactly the live entries |
| `Hashing.LiveHashIsOfPruned` | include/mtt/trie/merkle_trie.h:1728-1817 | hashing that looks through dead and single live children equals plain hashing of the pruned trie |
| `Hashing.LiveHashIsOfMap` | include/mtt/trie/merkle_trie.h:1728-1817 | tries with the same live entries have the same hash |
| `BatchItems.ItemsAreEntries` | include/mtt/trie/merkle_trie.h:3139-3231 | the in-order list holds exactly what lookups find |
| `BatchItems.ItemsSorted` | include/mtt/trie/merkle_trie.h:3139-3231 | the in-order list is strictly increasing in key order |
| `BatchItems.TotalIsOfItems` | include/mtt/trie/merkle_trie.h:2421-2744 | metadata summed over children equals metadata summed over entries |
| `BatchSplit.TakeWhole` | include/mtt/trie/merkle_trie.h:3139-3231 | the slots that fit move off whole, and the next one would exceed the threshold |
| `BatchSplit.EndowSplit` | include/mtt/trie/merkle_trie.h:3139-3231 | whatever the signs of the endowments, the parts are an initial segment within the threshold that cannot take one entry more, and the rest; the rest has exact metadata; what comes off is canonical except along the smallest remaining key |
| `BatchSplit.CutIsLongest` | include/mtt/trie/merkle_trie.h:3139-3231 | for positive endowments that segment is the longest whose total is at most the threshold |
| `BatchOrders.EndowLtKey` | include/mtt/trie/merkle_trie.h:3691-3747 | the recursion returns the endowment of exactly the keys below the bound |
| `BatchOrders.SplitAtKey` | include/mtt/trie/merkle_trie.h:3691-3747 | among positive endowments the longest segment that fits below `endow_lt_key(k)` holds exactly the keys below k (`SplitBelow` runs both calls on one trie) |
| `BatchOrders.CleanSingleChild` | include/mtt/trie/merkle_trie.h:2997-3029 | cleaning along the path keeps the entries and leaves no one-child node below |
| `BatchTrie.SplitAndRestore` | include/mtt/trie/merkle_trie.h:2997-3231 | split, clean along the smallest remaining key, merge back: the original trie |
| `BatchTrie.HistoryIndependence` | include/mtt/trie/merkle_trie.h:1229-1397 | valid tries with the same map are the same trie with the same metadata and root hash, whatever operations led there |
| `BatchTrie.LowestKey` | include/mtt/trie/merkle_trie.h:3749-3765 | the smallest key of the trie |
| `BatchTrie.MerkleTrie.Insert` | include/mtt/trie/merkle_trie.h:1229-1240 | an old key gets what the insert function makes of the old value and the new one; a new key gets the new value, except in an empty trie, where the insert function is applied to an initial value (2300-2316); all caches stay right |
| `BatchTrie.MerkleTrie.Size` | include/mtt/trie/merkle_trie.h:914-927 | the number of entries, cut to 32 bits |
| `BatchTrie.MerkleTrie.MergeIn` | include/mtt/trie/merkle_trie.h:1253-1275 | the map becomes the merged map and the cached root hash is dropped; the other trie is left empty if it was empty or was taken over whole, and otherwise it is spent |
| `BatchTrie.MerkleTrie.PerformDeletion` | include/mtt/trie/merkle_trie.h:1370-1397 | the key leaves the map and its value is returned |
| `BatchTrie.MerkleTrie.MarkForDeletion` | include/mtt/trie/merkle_trie.h:1277-1290 | one mark is set, the value is returned if it was unmarked, and the cached root hash stays right |
| `BatchTrie.MerkleTrie.UnmarkForDeletion` | include/mtt/trie/merkle_trie.h:1305-1318 | one mark is cleared, the value is returned if it was marked, and the cached root hash stays right |
| `BatchTrie.MerkleTrie.PerformMarkedDeletions` | include/mtt/trie/merkle_trie.h:1328-1348 | the map keeps its unmarked entries, and the root hash is the one it had with the marks |
| `BatchTrie.MerkleTrie.EndowSplit` | include/mtt/trie/merkle_trie.h:3233-3271 | succeeds exactly for limit zero, for the exact total, or below it (not for a negative limit on a branch); splits the list of entries at the cut, which for positive endowments is the longest segment that fits; taking everything moves the old root as it is |
| `BatchTrie.MerkleTrie.EndowLtKey` | include/mtt/trie/merkle_trie.h:1410-1414 | the sum of the endowments of the keys below the bound, and zero for an empty trie |
| `BatchTrie.MerkleTrie.SplitBelow` | include/mtt/trie/merkle_trie.h:3233-3271 | `endow_lt_key(k)` followed by `endow_split` at its result succeeds and takes off exactly the keys below k, for positive endowments |
| `BatchTrie.MerkleTrie.RootHash` | include/mtt/trie/merkle_trie.h:1916-1943 | the cached or recomputed root hash is that of the unmarked entries, and hashing changes no entry |
| `Ranges.AccumulateRange.Split` | include/mtt/ephemeral_trie/ranges.h:62-96 | two nonempty consecutive parts with the values of the whole, the first at least half; no assertion fires |
| `Ranges.TakeHalf` | include/mtt/ephemeral_trie/ranges.h:72-95 | moving subtrees, opening the last one, ends with at least half and not all of the values |
| `Ranges.Worker` | include/mtt/ephemeral_trie/atomic_ephemeral_trie.h:722-749 | writes the values below a node in key order to the stretch from its offset and nothing else |
| `Ranges.Accumulate` | include/mtt/ephemeral_trie/atomic_ephemeral_trie.h:480-493 | for every way of splitting, each place of the range gets its value and no other place changes |
| `Ranges.AccumulateValues` | include/mtt/ephemeral_trie/atomic_ephemeral_trie.h:473-494 | the output is the list of all values in key order |
| `Ranges.SplitApply` | include/mtt/ephemeral_trie/ranges.h:132-183 | the parts hold the values of the whole, no two of their subtrees share a truncated key, and a split that stops short has reached the length limit |
| `Ranges.SplitAll` | include/mtt/ephemeral_trie/ranges.h:132-183 | for every tree of splits the ranges that are run hold the values of the whole in order, and no two of their subtrees share a truncated key |
| `Ranges.ApplyRanges` | include/mtt/ephemeral_trie/ranges.h:120-183 | the same from the children of the root, for every positive `max_split_len` that is a multiple of four |
| `Ranges.TruncatedKeysDiffer` | include/mtt/ephemeral_trie/ranges.h:160-169 | keys of two different subtrees of separate ranges differ when truncated |
| `Ranges.ApartExtends` | include/mtt/ephemeral_trie/ranges.h:160-169 | keys below prefixes that part before the limit differ when truncated to it |
| `Ranges.RefinedStaysApart` | include/mtt/ephemeral_trie/ranges.h:132-183 | whatever was apart from a range is apart from all its later parts |
| `Allocator.Manager.AssignNewBuffer` | include/mtt/ephemeral_trie/allocator.h:157-199 | a context gets a buffer nobody has, until they run out; nothing is given out by it |
| `Allocator.Manager.Allocate` | include/mtt/ephemeral_trie/allocator.h:50-75 | a request that fits goes where the cursor of its context is; any other takes the next buffer, and fails if and only if there is none; exactly the new block is given out, in one buffer, short of its last place, and none of it was given out before |
| `Allocator.HandlesDiffer` | include/mtt/ephemeral_trie/allocator.h:10-23 | places given out by all contexts have distinct handles, none of them `UINT32_MAX` |
| `Allocator.DecodeHandle` | include/mtt/ephemeral_trie/allocator.h:219-225 | shifting and masking a handle gives back buffer and offset |
| `Words.ByteOffset` | include/mtt/common/prefix.h:223-223 | masking a length with 0x38 gives the offset of its byte within its word |
| `Words.DecrementIsOneLess` | include/mtt/common/prefix.h:249-249 | flipping the lowest set bit and all below it subtracts one, as the truncation mask needs |
| `ByteArrayPrefixes.WordOffset` | include/mtt/common/prefix.h:195-209 | from trailing zeros of the exclusive or, rounded to bytes, and the two half-byte tests: the first nibble in which two little-endian words differ |
| `ByteArrayPrefixes.ByteArrayPrefix.constructor` | include/mtt/common/prefix.h:151-160 | copying bytes into little-endian words, the last one filled in part, keeps the nibbles |
| `ByteArrayPrefixes.ByteArrayPrefix.PrefixMatchLen` | include/mtt/common/prefix.h:182-212 | the word loop gives the longest common nibble prefix capped by both lengths, also against a longer array and when the first difference lies behind the key |
| `ByteArrayPrefixes.ByteArrayPrefix.BranchBits` | include/mtt/common/prefix.h:214-230 | shifting and masking the word gives the nibble at a length; beyond the end it throws |
| `ByteArrayPrefixes.ByteArrayPrefix.Truncate` | include/mtt/common/prefix.h:232-258 | masking one word and zeroing the later ones keeps the leading nibbles and zeroes the rest; at the end or beyond it throws |
| `Prefixes.NextBranchBitsAreSet` | include/mtt/common/prefix.h:381-402 | sets one nibble, clears the other half of its byte after it, keeps all others |
| `Prefixes.SetsOneNibble` | include/mtt/common/prefix.h:381-402 | changes that nibble only if and only if it is the lower half of its byte or the lower half was zero |
| `Prefixes.OrderIsLexicographic` | include/mtt/common/prefix.h:349-366 | byte comparison is the lexicographic order of nibbles |
| `Prefixes.PackedNibbles` | include/mtt/common/prefix.h:305-317 | packing the nibbles of an array gives the array back |
| `WordPrefixes.BranchBits` | include/mtt/common/prefix.h:442-449 | shift and mask give the nibble at a length; beyond the end it throws |
| `WordPrefixes.PrefixMatchLen` | include/mtt/common/prefix.h:451-469 | leading zeros of the exclusive or, rounded down, are the longest common nibble prefix capped by both lengths |
| `WordPrefixes.Truncate` | include/mtt/common/prefix.h:471-478 | masking keeps the leading nibbles and zeroes the rest |
| `WordPrefixes.SetNextBranchBits` | include/mtt/common/prefix.h:552-558 | replaces one nibble and no other |
| `WordPrefixes.OrderIsLexicographic` | include/mtt/common/prefix.h:436-437 | the order of the words is the lexicographic order of their nibbles |
| `WordPrefixes.WordHeaderIsHeader` | include/mtt/common/prefix.h:491-497 | the cut and masked big-endian bytes form the header of the prefix |

## Left out

- `memcached_snapshot_trie/`: eviction, reload and the durable log depend on a storage backend; its proof code repeats the ephemeral one.
- `trie/recycling_impl/`: the same insertion and merge algorithms over index handles.
- `batch_merge_in` and its range: correctness depends on the scheduler, on adopting per-node locks and on pointer identity.
- Memory orders, spurious failure of a compare-and-swap beyond "may retry", spin pauses, thread-local caches, the work-stealing scheduler, parallel hashing, hash logs and printing.
- `clear_marked_deletions` and `do_rollback`: they leave the cached root hash of the trie as it is, so the cache claims do not hold of them.
- `metadata_query` and `apply_geq_key`: not exercised and inconsistent with the rest of their class.
- User metadata other than size, number of marks and endowment, and fixed-width overflow of its sums.
- Races on a value inside `value_insert` or a user's function, which the code leaves to the caller.
- Locks of the batch trie: its operations are modelled one at a time; its nodes, owned by one pointer each, are values inside a class that owns the root.
- The snapshot trie is modelled one call at a time: its compare-and-swap retries, its garbage collector and its summed metadata are not modelled; nodes are values inside a class, and a reference to a subnode is the prefix of that subnode.
- Hashing of the ephemeral trie while inserts go on, and its flag that forbids inserting after hashing.
- The layered trie's `raise_gc_lowerbound` with fewer than two layers above zero: no run of the model makes the call then.
- The buffer counter of the allocator is not wrapped: that takes 2^32 failed requests.  The value buffers work like the node buffers and have no copy of their own.
- Hashes bind the serialised value of an entry; an endowment is bound as far as the serialisation holds it.
- Values that are moved: after a failed publication the ephemeral `insert` moves its argument a second time; here the argument of a call is a value.
- Reuse of a destroyed node's address in the layered trie: addresses are fresh in the model.
- Ephemeral slots are read back as handle and size.
- Prefix lengths that are not multiples of four bits, and lengths of a one-word prefix beyond its end where the source shifts by a negative amount.
- LayeredHash.ComputeHash: `is_active` and having a commitment are one flag of an entry.
- BatchTrie.MerkleTrie.EndowSplit: that the cut is the longest segment is stated for positive endowments; for others it need not be, and only the cut itself is stated.
- BatchTrie.MerkleTrie.MergeIn: a spent trie has no operations in the model, while the source throws if its root is null.
- Ranges.Accumulate: the parts run one after the other; that they write disjoint places is what makes this no restriction.
