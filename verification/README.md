# Models and proofs for a collection of textbook C and C++ code

The repository gathers the code of several textbooks: allocators and search trees, an indexed database library, small
concurrent programs, a timer and a request parser. This project models its hardest self-contained parts in Dafny, one
module for each source file, and proves what those parts are for, over every input, every run or every reachable state.

`dafny verify dfyconfig.toml` checks the whole project.

## What is modelled

| file | part of the repository | main results |
|---|---|---|
| `BoundaryTag.dfy` | boundary-tag allocator | blocks tile the arena, tags agree, the ring holds exactly the free blocks, coalescing is complete |
| `DbFiles.dfy`, `DbLibrary.dfy` | hash-indexed database, one process | the two files refine a finite map; every index record is on one list; extents stay disjoint |
| `DbCodec.dfy`, `DbBytes.dfy` | the index file as bytes | the form of a record in bytes; what is written is read back; the bytes of the whole file stand for its records, and each write changes exactly its own bytes |
| `DbLocks.dfy` | the same database, many processes | no list changes under a process that holds its lock; loose records have one owner; no cycle of waits |
| `DbCalls.dfy` | its calls, from beginning to return | what each call has done to lists and files when it returns or ends its process |
| `RedBlack.dfy` | top-down red-black insertion | order, colours, black heights, key set; stale ancestor pointers are never used |
| `AATree.dfy` | AA-trees | levels, order, key set under insertion and deletion; exactly when deletion reads through a null pointer |
| `SkipList.dfy` | 1-2-3 deterministic skip list | sorted levels with gaps of one to three, exact search, logarithmic height |
| `Splay.dfy` | top-down splay trees | in-order sequence kept, nearest key at the root, depths on the search path halved, exact insertion and deletion |
| `Binomial.dfy` | binomial queues | merging is binary addition, heap order, multiset of elements, one least element removed |
| `NumberTheory.dfy`, `Witness.dfy` | Miller-Rabin witness | exact value; a prime never fails, by Fermat's little theorem |
| `HashQuad.dfy` | quadratic probing | why a probe meets the key or a hole; least prime; rehashing |
| `DisjSets.dfy` | union by height, path compression | roots are the joined classes, a rank h heads 2^h elements |
| `AllPairs.dfy` | Floyd's all-pairs shortest paths | least walks despite updates in place; negative cycles exactly on the diagonal |
| `OptMatrix.dfy` | matrix-chain ordering | the optimum over all parenthesisations, rebuilt from the splits |
| `FooRefs.dfy` | reference counts under two locks | counts equal references, one free, no deadlock, for any number of threads |
| `FooCalls.dfy` | its calls, from beginning to return | what foo_alloc, foo_hold, foo_find and foo_rele have done when they return |
| `TimeWheel.dfy` | timing wheel | every timer runs once, on the (k + 1)-th later tick |
| `HttpParser.dfy` | incremental request parser | chunks do not matter; which requests and request lines are accepted |

`Basics.dfy`, `Lists.dfy` and `Ordering.dfy` hold what several modules share.

Nodes reached through pointers are modelled with a memory, a map from addresses to nodes, that the methods reassign; a
ghost shape says what the memory holds. Integers are unbounded, and the limits of the source are written out where a
property depends on them. Long C functions are cut into several methods, each proved against its own contract. malloc
gives an unused address.

## Where code and comments disagree

- The comment above `IsPrime` in `DSAAC/fig10_62.c` asks for N >= 3, but for N = 3 its `RandInt( 2, N - 2 )` has an empty
  range and divides by zero. `Witness.TestDefined` states that this happens exactly for N = 3, whatever `rand( )` gives.
- `Remove` in `DSAAC/aatree.c` compares its static `DeletePtr` with `NullNode`, but before the first use it is the C null
  pointer. The first removal of an item below every element then reads through it. The code is modelled as it is, and
  `AATree.AATrees.RemoveItem` states exactly when this happens; `AATree.FirstRemoval` is a run of two calls that gets there.
- The comment above `SetUnion` in `DSAAC/disjsets.c` asks only for two roots. For one root twice the array stops being a
  forest; for two distinct roots all promises hold. `DisjSets.DisjSet.SetUnion` states both.
- In `parse_line` of the request parser the case of an LF found behind a CR can never arise (`HttpParser.ParseLine`).
- `db_nextrec` is documented to skip deleted records; it skips every record whose key is blank, also a stored key that
  consists of spaces. `DbLibrary.EachKeyOnce` says so, and `DbLibrary.BlankKeySkipped` stores and fetches such a key that
  no scan meets.
- `db_store` with DB_REPLACE and data of another length deletes the old record before it appends the new one. If the new
  one does not fit, the process ends with the key gone: `DbLibrary.Database.Store` says exactly when, and
  `DbLibrary.ReplaceLosesKey` loses a key of 1018 characters in two calls.
- A process that `_db_writeptr` ends for an offset beyond `PTR_MAX` has already written its index record, which no list
  has. `DbLibrary.LostKeyScanned`: after that `db_nextrec` returns a key that `db_fetch` does not find.

## Model

| member | source | states |
|---|---|---|
| `BoundaryTag.Arena.constructor` | gao/ch8/algo8-1.c:136-145 | the initial arena is one free block of MAX words and meets the invariant |
| `BoundaryTag.Arena.FirstFit` | gao/ch8/algo8-1.c:11-13 | NULL exactly when no free block has n words, otherwise the first node of the ring that has them |
| `BoundaryTag.Arena.AllocBoundTag` | gao/ch8/algo8-1.c:7-42 | the invariant is kept; NULL exactly when no free block is large enough, and then nothing changes; otherwise the first fitting block is granted whole, and leaves the ring, when at most e words would be left of it, and else exactly its last n words are granted, and the rest stays a free block in its place in the ring; pav moves to the successor |
| `BoundaryTag.Arena.Reclaim` | gao/ch8/algo8-1.c:44-99 | the invariant is kept, exactly the block p leaves the granted blocks, and where it is in the ring afterwards follows from which neighbours are free |
| `BoundaryTag.FreeIntoEmpty` | gao/ch8/algo8-1.c:48-54 | with an empty ring the block becomes its only node |
| `BoundaryTag.FreeFirst` | gao/ch8/algo8-1.c:57-67 | between occupied blocks the block becomes the first node of the ring, before all others, and pav points to it |
| `BoundaryTag.FreeWithLeft` | gao/ch8/algo8-1.c:68-75 | the left neighbour grows over the block, the ring stays |
| `BoundaryTag.FreeWithRight` | gao/ch8/algo8-1.c:76-87 | the right neighbour joins the block, which takes exactly its place in the ring and in pav, also when the neighbour was alone in the ring |
| `BoundaryTag.FreeWithBoth` | gao/ch8/algo8-1.c:88-96 | three blocks become one; the right neighbour leaves the ring, which keeps its cyclic order, and pav moves off it |
| `BoundaryTag.Arena.UserWrite` | gao/ch8/algo8-1.c:137-145 | the owner of a block may write all of it but its tags and size without disturbing the allocator |
| `BoundaryTag.WordInBlock` | gao/ch8/algo8-1.c:32-38 | every word of the arena is in exactly one block |
| `BoundaryTag.LeftTag` | gao/ch8/algo8-1.c:46-47 | the word before a block tells whether its left neighbour is free, and where it starts |
| `BoundaryTag.RightTag` | gao/ch8/algo8-1.c:46-47 | the word behind a block tells whether its right neighbour is free |
| `BoundaryTag.Canonical` | gao/ch8/algo8-1.c:44-99 | coalescing is complete: the granted blocks determine the whole tiling, whatever the history |
| `BoundaryTag.NothingGranted` | gao/ch8/algo8-1.c:44-99 | once everything is freed there is one block of MAX words |
| `DbFiles.ComputeHash` | apue/db/db.c:306-316 | the result is the sum of every character times its place, counted from 1, reduced to an unsigned long and then to the table size, although the loop wraps around at every step |
| `DbFiles.PlainHash` | apue/db/db.c:306-316 | for every key that fits an index record nothing wraps around: the hash is the sum modulo the table size |
| `DbLibrary.Database.constructor` | apue/db/db.c:141-154 | a new database meets the invariant and stands for the empty map |
| `DbLibrary.Database.Reopen` | apue/db/db.c:84-166 | files that are in order, also with records left behind, make a database that stands for the same map, rewound |
| `DbLibrary.SearchKey` | apue/db/db.c:285-300 | the loop stops at the first record with the key, or at the end, and knows where the pointer to it is stored |
| `DbLibrary.Database.FindAndLock` | apue/db/db.c:259-301 | the record is found exactly when the key is in the map; the current record and the place of the pointer to it are set; a search in vain leaves the last record of the chain as the current one |
| `DbLibrary.Database.Fetch` | apue/db/db.c:232-252 | the data of the key in the map, or nothing |
| `DbLibrary.Database.DoDelete` | apue/db/db.c:463-525 | the key leaves the map, the record goes to the free list, the invariant is kept and the files keep their lengths |
| `DbLibrary.DeleteOrder` | apue/db/db.c:489-522 | the four writes of a deletion amount to unlinking, blanking and relinking, although the free list is written first |
| `DbLibrary.Database.Delete` | apue/db/db.c:440-456 | 0 and the key removed, or -1 and nothing changed |
| `DbLibrary.SearchFree` | apue/db/db.c:767-776 | the first free record with both lengths, or none has them |
| `DbLibrary.Database.FindFree` | apue/db/db.c:752-805 | a free record with the wanted lengths is taken off the list and belongs to nobody else; the map is unchanged |
| `DbLibrary.Database.Reuse` | apue/db/db.c:690-698 | the reused record is rewritten in place and the key is added with its data |
| `DbLibrary.Database.WriteIdxAt` | apue/db/db.c:567-606 | an index record is only ever written over one of exactly the same length, and within the limits |
| `DbLibrary.Database.AppendNew` | apue/db/db.c:676-687 | the key is added with its data at the ends of both files exactly unless a limit is exceeded; then the map is unchanged, and a record that could be written is left behind, with key and data, on no list |
| `DbLibrary.Database.Replace` | apue/db/db.c:712-738 | the key gets the new data, in place when the lengths agree and in a new record otherwise; when that does not fit the key is lost |
| `DbLibrary.Database.Store` | apue/db/db.c:637-746 | the documented return codes and the new map for every flag; exactly when the process ends; and then, that the files are in order for whoever opens them next, that the map has lost the key, and which record is left behind on no list |
| `DbLibrary.OneListEach` | apue/db/db.c:463-525 | every index record is on exactly one chain or the free list, or is one left behind on none, and no two share a byte of either file |
| `DbLibrary.Database.Rewind` | apue/db/db.c:812-827 | the next record is the first of the index file |
| `DbLibrary.OnlySpaces` | apue/db/db.c:861-864 | the inner loop tells whether a key has nothing but spaces |
| `DbLibrary.NextNonBlank` | apue/db/db.c:851-864 | every record passed over has nothing but spaces in its key, and the one returned has another character |
| `DbLibrary.Database.NextRec` | apue/db/db.c:835-875 | the next record in file order with a key that is not blank, with its data in the map unless the record was left behind |
| `DbLibrary.EachKeyOnce` | apue/db/db.c:812-875 | from a rewind on, consecutive calls meet every key of the map that is not blank exactly once, and besides only records left behind |
| `DbLibrary.Database.AllRecords` | apue/db/db.c:812-875 | rewinding and asking until there is no more gives every key that is not blank exactly once, with its data, and every record left behind |
| `DbLibrary.BlankKeySkipped` | apue/db/db.c:857-864 | a key of one space is stored, fetched, and met by no scan |
| `DbLibrary.ReplaceLosesKey` | apue/db/db.c:712-738 | a record of the greatest length is stored; replacing its data by longer data ends the process, with the key gone |
| `DbLibrary.LostKeyScanned` | apue/db/db.c:605-631 | in an index file that is too long, a key whose storing ended the process is not fetched, but met by a scan |
| `DbCodec.NumberRoundTrip` | apue/db/db.c:577-583 | a number printed with a field width is read back and fills its field |
| `DbCodec.BodyRoundTrip` | apue/db/db.c:391-417 | key, offset and length are cut at the separators as they were put together |
| `DbCodec.RecordRoundTrip` | apue/db/db.c:567-606 | whatever follows it in the file, a record is read back as written and takes exactly the bytes counted for it |
| `DbCodec.EncodeForm` | apue/db/db.c:567-606 | the bytes of a record are a field of 7 bytes, a field of 4 bytes, the key, a colon, a numeral, a colon, a numeral and a newline; fields and numerals stand for pointer, length, data offset and data length, in that order, in positional notation without leading zeros |
| `DbCodec.DecodeForm` | apue/db/db.c:343-417 | conversely, bytes of that form within the limits are those of the record, and are read as it, whatever follows |
| `DbCodec.OnlyRecordsRead` | apue/db/db.c:384-417 | what is read without ending the process has lengths within the limits, the newline in its place and exactly two colons |
| `DbCodec.ReadBackExactly` | apue/db/db.c:343-417 | within the limits exactly the records whose keys have no colon are read back; any other ends the process that reads it |
| `DbBytes.BytesHoldRecords` | apue/db/db.c:323-417 | in a database that is in order, reading the bytes of the index file at any offset of the model gives the pointer or the record that the model has there, and the file is as long as the model says |
| `DbBytes.BytesOfPtr` | apue/db/db.c:618-631 | writing a pointer changes exactly the seven bytes at its offset |
| `DbBytes.BytesOfRewrite` | apue/db/db.c:567-606 | writing an index record over one of the same length changes exactly the bytes of that record |
| `DbBytes.BytesOfAppend` | apue/db/db.c:590-606 | writing an index record at the end adds exactly its bytes |
| `DbLocks.StepKeeps` | apue/db/db.c:259-301 | every system call of every process keeps the invariant of lists, locks and owners |
| `DbLocks.WalkUndisturbed` | apue/db/db.c:269-300 | in every run, a list whose lock a process holds is not changed by any step of another process, nor any pointer in it |
| `DbLocks.Exclusive` | apue/db/db.c:273-279 | what one process holds for writing no other process holds |
| `DbLocks.DelIdxKeeps` | apue/db/db.c:496-514 | between the writes of a deletion the chain is whole again as soon as the one pending pointer is written |
| `DbLocks.FreeTakeKeeps` | apue/db/db.c:761-803 | taking a record off the free list, with the pointer read when it was found, leaves it to one process |
| `DbLocks.IdxWriteKeeps` | apue/db/db.c:590-611 | seeking to the end and writing there are one step for everybody else |
| `DbLocks.QuitStepKeeps` | apue/db/db.c:577-631 | a process that ends at a limit, with the locks it had freed, leaves the lists and everybody else in order |
| `DbLocks.OneHome` | apue/db/db.c:752-805 | in every run, every record is on exactly one list, or owned by exactly one process that is about to link it, or left behind by a process that has ended, at an offset that fits no pointer |
| `DbLocks.AwaitedFreely` | apue/db/db.c:542-559 | nothing is awaited while the free-list lock or an append lock is held |
| `DbLocks.NoDeadlock` | apue/db/db.c:250-300 | in every run, while any process is inside the library some process there can take its next step, with valid pointers; it is an end of the process only for a record that no pointer can lead to |
| `DbCalls.CallDone` | apue/db/db.c:637-746 | in every run, a call that returns has done exactly this to the index file, whatever others did meanwhile: db_fetch nothing; db_delete has moved the record it found from its chain to the front of the free list; db_store of a new key has put one record, taken from the free list or added at the end, at the front of the chain; db_store with data of another length both |
| `DbCalls.CallEnded` | apue/db/db.c:577-631 | a call that ended its process at a limit has completed the deletion it wanted and linked nothing; a record that it added is at an offset that fits no pointer |
| `RedBlack.RedBlackTree.constructor` | DSAAC/redblack.c:21-45 | an empty tree with sentinel and header meets the invariant |
| `RedBlack.RedBlackTree.SingleRotateWithLeft` | DSAAC/redblack.c:131-141 | the memory holds the tree below k2 turned to the right, with the same keys in order; only k2 and its left child change |
| `RedBlack.RedBlackTree.SingleRotateWithRight` | DSAAC/redblack.c:147-157 | the memory holds the tree below k1 turned to the left, with the same keys in order; only k1 and its right child change |
| `RedBlack.RedBlackTree.Rotate` | DSAAC/redblack.c:164-176 | the child towards the item is rotated up, towards the item, below its parent |
| `RedBlack.RedBlackTree.HandleReorient` | DSAAC/redblack.c:182-198 | colours are flipped and, below a red parent, one or two rotations made; the memory holds the reoriented tree |
| `RedBlack.ReorientKeys` | DSAAC/redblack.c:182-198 | the keys in order are unchanged |
| `RedBlack.ReorientGood` | DSAAC/redblack.c:182-198 | no red-red edge and equal black heights hold again |
| `RedBlack.FreshWhenFlipping` | DSAAC/redblack.c:180-214 | a flip below a red parent happens only when P, GP and GGP are the true ancestors, so pointers left stale by a rotation are never used |
| `RedBlack.RedBlackTree.Search` | DSAAC/redblack.c:203-214 | the descent ends at the item or at the missing child where it belongs, with the same keys |
| `RedBlack.RedBlackTree.Insert` | DSAAC/redblack.c:200-232 | order, colours, black heights and the black root are kept; exactly the item is added; a duplicate gives the sentinel |
| `RedBlack.RedBlackTree.Find` | DSAAC/redblack.c:95-106 | the node of the key, or the sentinel exactly when it is absent |
| `RedBlack.RedBlackTree.FindFromHeader` | DSAAC/redblack.c:95-106 | called with the header, as callers do, it finds exactly the elements of the tree |
| `AATree.AATrees.Skew` | DSAAC/aatree.c:116-122 | the left child on the same level is rotated up |
| `AATree.AATrees.Split` | DSAAC/aatree.c:127-136 | the right child of two equal links is rotated up and raised |
| `AATree.InsertedLevels` | DSAAC/aatree.c:143-170 | insertion keeps all level rules, and the level of a subtree grows by at most one |
| `AATree.InsertedElems` | DSAAC/aatree.c:143-170 | insertion adds exactly the item and keeps search order |
| `AATree.AATrees.Insert` | DSAAC/aatree.c:143-170 | the memory holds the tree with the item added; the static pointer of Remove still points into the tree if it did |
| `AATree.RepairedLevels` | DSAAC/aatree.c:206-219 | three skews and two splits restore all level rules after a deletion below, and no split is applied to the sentinel |
| `AATree.RemovedLevels` | DSAAC/aatree.c:174-222 | deletion keeps all level rules |
| `AATree.RemovedElems` | DSAAC/aatree.c:174-222 | deletion removes exactly the item and keeps search order |
| `AATree.AATrees.Remove` | DSAAC/aatree.c:174-222 | the recursion with its static pointers moves the successor into place and repairs the levels on the way up |
| `AATree.AATrees.RemoveItem` | DSAAC/aatree.c:174-222 | exactly the item is removed; the null pointer is read exactly when DeletePtr was never set and the item is below all elements |
| `AATree.FirstRemoval` | DSAAC/aatree.c:174-222 | one insertion and one removal read the null pointer exactly when the item removed is the smaller one |
| `AATree.AATrees.Find` | DSAAC/aatree.c:44-56 | the node of the key, or the sentinel exactly when it is absent |
| `SkipList.SkipLists.constructor` | DSAAC/dsl.c:19-46 | an empty list of height 0 meets the invariant |
| `SkipList.SkipLists.Find` | DSAAC/dsl.c:70-83 | a node of the list exactly for a key of the list, otherwise Bottom |
| `SkipList.FindFrom` | DSAAC/dsl.c:73-82 | the search ends, at the item or at Bottom |
| `SkipList.WideTest` | DSAAC/dsl.c:129-130 | above the lowest level the comparison finds exactly the gaps of three |
| `SkipList.SplitOrDown` | DSAAC/dsl.c:127-143 | a node over a full gap is split before the search goes down, so there is always room for one more |
| `SkipList.Promote` | DSAAC/dsl.c:121-144 | the loop ends with the item in the list and everything else as before |
| `SkipList.SkipLists.Insert` | DSAAC/dsl.c:115-158 | the invariant is kept; the item is added unless present, and nothing else changes |
| `SkipList.WholeLevels` | DSAAC/dsl.c:115-158 | every level is a sorted list to the tail, made from the one below with one to three nodes in each gap; one node on top; 2^height at most the number of keys with the sentinel Infinity |
| `Splay.SplayTrees.Splay` | DSAAC/splay.c:107-150 | it ends for every item and tree, keeps the in-order sequence and nodes, puts the item or a neighbour of its place at the root, and leaves every node that was d links down the search path at most d / 2 + 2 links below the root |
| `Splay.SplayTrees.Split` | DSAAC/splay.c:117-141 | the loop hangs what is smaller and what is larger on two spines |
| `Splay.Reassembled` | DSAAC/splay.c:143-147 | four assignments join the spines and the rest to one tree |
| `Splay.RestIsNearest` | DSAAC/splay.c:117-141 | where the loop stops, the root of the rest is nearest to the item |
| `Splay.HalvesPath` | DSAAC/splay.c:117-147 | because of the rotations the two spines have half the length of the path, so putting them together about halves the depth of every node on it |
| `Splay.SplayTrees.Insert` | DSAAC/splay.c:157-199 | exactly the item is added, and is the root; a duplicate changes no key and keeps the spare node for the next call |
| `Splay.SplayTrees.Remove` | DSAAC/splay.c:204-229 | exactly the item is removed |
| `Binomial.CombineTrees` | DSAAC/binomial.c:174-183 | the root that is not larger gets the other tree as its first child; nothing else in memory changes |
| `Binomial.AddSlots` | DSAAC/binomial.c:205-235 | in each of the eight cases the column adds three bits and keeps rank and heap order |
| `Binomial.AddColumn` | DSAAC/binomial.c:203-235 | the switch does this in memory |
| `Binomial.AddingEnds` | DSAAC/binomial.c:201-237 | when the loop ends the carry is empty and the columns spell the sum of the sizes |
| `Binomial.ColumnsAreBits` | DSAAC/binomial.c:191-238 | column i holds a tree exactly when bit i of the size is 1 |
| `Binomial.BagSize` | DSAAC/binomial.c:191-238 | a queue has as many elements as its size says |
| `Binomial.BinQueue.Merge` | DSAAC/binomial.c:191-238 | within the capacity the invariant is kept, sizes and multisets add up, the other queue has no trees left; otherwise the program ends before any change |
| `Binomial.BinQueue.Insert` | DSAAC/binomial.c:70-87 | exactly the item is added, unless the queue is full |
| `Binomial.SmallestRoot` | DSAAC/binomial.c:105-115 | the loop finds a least element of the queue and its tree |
| `Binomial.BinQueue.FindMin` | DSAAC/binomial.c:139-160 | a least element, or none exactly for an empty queue |
| `Binomial.BinQueue.DeleteMin` | DSAAC/binomial.c:90-136 | exactly one least element is removed and returned; the children of its root become a queue of 2^k - 1 elements that is merged back |
| `Binomial.BinQueue.constructor` | DSAAC/binomial.c:21-34 | an empty queue meets the invariant |
| `Witness.WitnessExact` | DSAAC/fig10_62.c:19-40 | the result is a^i mod n, or 0 exactly when a squaring on the way meets a non-trivial square root of 1 |
| `Witness.NonzeroIsPower` | DSAAC/fig10_62.c:19-40 | a result other than 0 is a^i mod n |
| `Witness.PrimePasses` | DSAAC/fig10_62.c:19-40 | for a prime n and every base from 1 to n - 1 the result on n - 1 is 1 |
| `Witness.OtherResultProvesComposite` | DSAAC/fig10_62.c:42-50 | any other result proves n composite |
| `Witness.TestRejectsOnlyComposites` | DSAAC/fig10_62.c:46-50 | the primality test never rejects a prime |
| `Witness.TestDefined` | DSAAC/fig10_62.c:42-50 | among N >= 3 the call divides by zero exactly for N = 3, where there is no base to draw; for every other prime it returns true whatever is drawn |
| `Witness.EveryBaseDrawn` | DSAAC/fig10_62.c:6-10 | every base from 2 to N - 2 can be drawn |
| `Witness.AllBasesDecide` | DSAAC/fig10_62.c:42-50 | for N > 3, N is prime exactly when every base passes, and exactly when the call returns true whatever is drawn: no prime is rejected, and every composite by some base |
| `NumberTheory.Fermat` | DSAAC/fig10_62.c:42-50 | Fermat's little theorem, on which the test rests |
| `HashQuad.NextPrime` | DSAAC/hashquad.c:27-42 | the loop ends with the least prime that is not below its argument |
| `HashQuad.ProbeStep` | DSAAC/hashquad.c:96-98 | adding 2i - 1 with one conditional subtraction gives (h + i*i) mod p, for i up to half the table |
| `HashQuad.ProbesDistinct` | DSAAC/hashquad.c:92-99 | the first (p + 1) / 2 positions are different |
| `HashQuad.ProbesSeeHalf` | DSAAC/hashquad.c:92-99 | no probe sequence ever sees more than these, so the bound of one half is exact |
| `HashQuad.RoomLeft` | DSAAC/hashquad.c:92-99 | with at most (p - 1) / 2 cells in use a probe meets a hole in time |
| `HashQuad.HashTable.Find` | DSAAC/hashquad.c:84-101 | it ends at the key or at a hole, and the cell is in use exactly when the key is in the table |
| `HashQuad.HashTable.Insert` | DSAAC/hashquad.c:105-118 | exactly the key is added and all keys stay findable |
| `HashQuad.HashTable.Rehash` | DSAAC/hashquad.c:122-142 | the new table has the same keys and room, however full the old one was, and the least prime size from twice the old one on |
| `HashQuad.InitializeTable` | DSAAC/hashquad.c:52-80 | a small size is refused, otherwise an empty table of the least prime size that is not below it |
| `DisjSets.DisjSet.constructor` | DSAAC/disjsets.c:23-30 | every element is its own root |
| `DisjSets.DisjSet.SetUnion` | DSAAC/disjsets.c:63-74 | the classes of two distinct roots are merged under the higher, and the invariant is kept; one root passed twice becomes its own parent, and no roots and ranks make a forest of the array |
| `DisjSets.DisjSet.Find` | DSAAC/disjsets.c:78-85 | it ends with the root, which is the same for two elements exactly when the unions joined them; exactly the elements on the way are made to point to it |
| `DisjSets.SameRootIffJoined` | DSAAC/disjsets.c:63-85 | two elements have one root exactly when a chain of unions joins them |
| `DisjSets.LinkHeavy` | DSAAC/disjsets.c:63-74 | a root of rank h still heads at least 2^h elements |
| `DisjSets.DepthBound` | DSAAC/disjsets.c:63-85 | no path is longer than the logarithm of the number of elements |
| `DisjSets.SelfUnionIsNoForest` | DSAAC/disjsets.c:58-74 | an array with an element that is its own parent is no forest, whatever roots and ranks are tried |
| `AllPairs.AllPairs` | DSAAC/fig10_53.c:18-42 | a diagonal entry is negative exactly when there is a negative cycle; otherwise every entry is the least weight of a walk, and Path rebuilds such a walk |
| `AllPairs.RelaxThrough` | DSAAC/fig10_53.c:34-41 | one round in place has the effect of a round on a copy, as long as no negative cycle has shown |
| `AllPairs.LowerBound` | DSAAC/fig10_53.c:32-41 | no walk through the vertices seen so far is lighter than the entry |
| `AllPairs.Attained` | DSAAC/fig10_53.c:32-41 | every entry is the weight of a walk |
| `OptMatrix.OptMatrix` | DSAAC/fig10_46.c:19-44 | every entry is the least cost over all parenthesisations of its range, cut off at Infinity, and the recorded splits rebuild one that attains it |
| `OptMatrix.BestIsOptimal` | DSAAC/fig10_46.c:25-43 | the recurrence gives the minimum over all parenthesisations |
| `OptMatrix.RebuiltCosts` | DSAAC/fig10_46.c:36-41 | the splits in LastChange rebuild an order with the cost in M |
| `FooRefs.StepKeeps` | apue/threads/mutex2.c:19-104 | every statement of every thread keeps the invariant of counts, locks, table and references |
| `FooRefs.CountsAgree` | apue/threads/mutex2.c:44-50 | in every run f_count is the number of outstanding references, and all of them are to allocated objects |
| `FooRefs.FreedAlone` | apue/threads/mutex2.c:78-99 | an object is freed only by the last release, when no list has it and no other reference is left |
| `FooRefs.TestOk` | apue/threads/mutex2.c:75-85 | the second test goes on to free the object exactly when the count is 1; then the thread has both locks and the only reference |
| `FooRefs.HashAwaitedFreely` | apue/threads/mutex2.c:74-78 | hashlock is never awaited by a thread that has the lock of an object |
| `FooRefs.Moves` | apue/threads/mutex2.c:19-104 | a thread that is not blocked has a next statement, and every pointer it follows is valid |
| `FooRefs.NoDeadlock` | apue/threads/mutex2.c:19-104 | in every run, while any thread is inside the functions some thread there can move |
| `FooCalls.AllocDone` | apue/threads/mutex2.c:19-42 | in every run, when foo_alloc returns, it has put the object with its id at the front of the chain of that id, and the caller has a reference to it |
| `FooCalls.HoldDone` | apue/threads/mutex2.c:44-50 | in every run, when foo_hold returns, one step of it has made and counted one more reference of the caller to the object |
| `FooCalls.FindDone` | apue/threads/mutex2.c:52-66 | in every run, when foo_find returns NULL no object in the table had the id while hashlock was held; when it returns an object, that was in the table, has the id, and the caller has a new, counted reference to it |
| `FooCalls.ReleDone` | apue/threads/mutex2.c:68-104 | in every run, when foo_rele returns, one step of it has given up the reference, and freed the object exactly when that was the last one |
| `FooCalls.NoneForgotten` | apue/threads/mutex2.c:19-104 | in every run every allocated object has a reference left |
| `TimeWheel.Wheel.constructor` | linux_advance_server/11/11-5tw_timer.h:36-42 | an empty wheel meets the invariant |
| `TimeWheel.Wheel.AddTimer` | linux_advance_server/11/11-5tw_timer.h:56-86 | the timer is due after max(1, timeout / TI) more ticks, all others as before; a negative timeout is refused |
| `TimeWheel.Wheel.DelTimer` | linux_advance_server/11/11-5tw_timer.h:87-112 | exactly the timer leaves the wheel |
| `TimeWheel.Wheel.Tick` | linux_advance_server/11/11-5tw_timer.h:113-153 | exactly the timers that are due run, once each, and leave; the others keep their deadlines |
| `TimeWheel.TickList` | linux_advance_server/11/11-5tw_timer.h:115-151 | the loop takes one rotation off every timer of the slot and runs those that have none left, in order |
| `TimeWheel.DueAdded` | linux_advance_server/11/11-5tw_timer.h:71-72 | slot and rotation stand for the deadline, also for multiples of N |
| `TimeWheel.RunsOnceOnTime` | linux_advance_server/11/11-5tw_timer.h:56-153 | in every run a timer added for k ticks runs on the (k + 1)-th later tick and on no other, unless deleted first |
| `HttpParser.ParseLine` | linux_advance_server/8/8-3httpparser.cpp:17-49 | the loop finds the end of the line and overwrites it; the second case for CR LF is dead code |
| `HttpParser.LineMeaning` | linux_advance_server/8/8-3httpparser.cpp:17-49 | a line ends at its first CR LF with no CR or LF before it; anything else is open or bad |
| `HttpParser.LineExtends` | linux_advance_server/8/8-3httpparser.cpp:25-28 | more input continues the search where it stopped and changes no earlier result |
| `HttpParser.SplitAtCr` | linux_advance_server/8/8-3httpparser.cpp:25-28 | a CR at the end of a chunk is looked at again with the next one and ends the line once |
| `HttpParser.RequestLineForm` | linux_advance_server/8/8-3httpparser.cpp:50-92 | accepted are exactly: GET, blanks, a target, blanks, HTTP/1.1, where letters may differ in case, blanks are spaces and tabs, and a target is a path or http://, a host and a path |
| `HttpParser.TargetMeaning` | linux_advance_server/8/8-3httpparser.cpp:79-87 | a target passes exactly when it begins with a slash, or is the scheme in any letter case, a host without a slash, and a path that begins with one |
| `HttpParser.SameTextMeaning` | linux_advance_server/8/8-3httpparser.cpp:59-75 | texts are the same exactly when every two characters are equal or the two cases of one ASCII letter |
| `HttpParser.ParseRequestline` | linux_advance_server/8/8-3httpparser.cpp:50-92 | the method that cuts the line up in the buffer decides this and writes nothing outside the line |
| `HttpParser.ParseHeaders` | linux_advance_server/8/8-3httpparser.cpp:93-110 | an empty line ends the request |
| `HttpParser.Parser.ParseContent` | linux_advance_server/8/8-3httpparser.cpp:111-157 | result and state are those of the specification on all input so far, although the buffer is overwritten |
| `HttpParser.ContentExtends` | linux_advance_server/8/8-3httpparser.cpp:111-157 | more input continues from the state reached, or changes nothing once there is a result |
| `HttpParser.RequestMeaning` | linux_advance_server/8/8-3httpparser.cpp:111-157 | the result is GET_REQUEST exactly for input that begins with an accepted request line, header lines that are not empty, and an empty line |
| `HttpParser.AnyChunks` | linux_advance_server/8/8-3httpparser.cpp:194-223 | however the input is split into chunks, result and state are those of one call on all of it |
| `HttpParser.Parser.Serve` | linux_advance_server/8/8-3httpparser.cpp:194-223 | the receive loop ends with the result and the state of one call on everything sent |

## Left out

- The rest of the repository: socket, epoll, process and file-system demonstrations, which are sequences of system calls,
  and exercises, sorts, plain lists, heaps and trees, whose structures are simpler cases of those modelled here.
- gao/ch8/algo8-2.c: its buddy test looks only at the tag and not at the order of the buddy, so blocks need not tile.
- DSAAC/treap.c and DSAAC/pairheap.c: correct only within bounds that the code does not keep.
- Printing, drivers, MakeEmpty and DestroyTree, FindMin and FindMax of the trees, and running out of memory.
- Widths of C integers, except the limits of the database, the capacity of queues and the unsigned sum of the hash.
- BoundaryTag.Arena.AllocBoundTag: requests of fewer than two words are excluded, since header and footer would then be
  one word; the tags of granted blocks are not written by their owners.
- BoundaryTag.Arena.Reclaim: setting the caller's pointer to NULL is left to the caller.
- AATree.AATrees.RemoveItem: the static pointers are those of one tree; one program with several trees shares them.
- SkipList.SkipLists.Find: for items of Infinity and more the search finds the sentinel or does not end; they are excluded,
  as the header file limits the keys. One list at a time owns Bottom and Tail.
- Binomial.BinQueue.Insert: elements are below Infinity, as DeleteMin needs them to be.
- HashQuad.HashTable.Find: keys are not negative, as the index computation needs them to be, and at most half of the table
  is in use, since a probe sees no more of it (`HashQuad.ProbesSeeHalf`) and need not end otherwise.
- HashQuad.HashTable.Insert: the same is asked as for the search.
- Witness.WitnessExact: bases are not negative.
- OptMatrix.OptMatrix: dimensions are not negative.
- DbLibrary.Database.Store: keys have no colon, since the record would not be read back (`DbCodec.ReadBackExactly`), and
  strings have no NUL.
  Characters are those of ASCII, so lengths are in bytes and sums are not negative.
- DbLibrary.Database.NextRec: it is called behind a rewind, another such call or a search that read a record; a position
  that a write or a search in an empty chain left elsewhere in the index file is excluded.
- DbLocks.StepKeeps: keys and data are left open, so a match, or a record that is too long, is a free choice; read errors
  of the operating system do not occur.
- FooRefs.StepKeeps: a statement under a lock is one step, and failing mutex initialisation is not modelled.
- TimeWheel.Wheel.Tick: callbacks do not call the wheel.
- HttpParser.Parser.Serve: chunks together fit the buffer, as recv is asked for no more than what is left of it.
