# A model of the symmetric heap, the hash table, the lock and the teams of an OpenSHMEM library

The repository implements OpenSHMEM. Four of its parts keep intricate state, and this project models them in Dafny, in
the form the C code has (fields and words overwritten in place, loops over lists and tries, compare-and-swap steps),
and proves what they are for.

**The symmetric-heap allocator** (`src/ptmalloc/ptmalloc.c`, the mspace routines). One fixed segment is an array of
8-byte words; chunk heads, feet, `fd`/`bk`/`child`/`parent` links, small-bin headers and tree-bin slots are words of
it, and the class `Mspace` holds the registers `smallmap`, `treemap`, `dv`, `top` and their sizes. A ghost map of
chunks, a ghost list per small bin and a ghost trie per tree bin say what the words stand for. `Mspace.Valid` is the
heap invariant: chunks tile the segment, no two free chunks touch, heads and feet agree with the neighbours, every free
chunk is top, dv or in the one bin its size selects, every tree is a digital trie on the bits of the size, and the bin
maps mark exactly the bins that hold something. Every operation keeps it, every operation is tied to the abstract
map of live blocks and their contents, and what malloc, free, realloc and memalign do to the chunks, dv and top is given
as a function of the chunks before (`Plans`).

**The hash table** (`src/klib/khash.h`): packed two-bit flags, triangular probing, tombstones, and a rehash that shares
one key array between the old and the new table and kicks out residents. The class `KHash` refines a finite map, over
any sequence of operations.

**The distributed lock** (`src/api/lock.c`) and **the reentrant spin lock** of the allocator: state machines whose steps
are single atomic actions, for any number of PEs or threads and every interleaving.

**Teams** (`src/shmemc/teams.c`): the class `Team` and the loops that fill its two maps for the world team, the shared
team, strided splits and two-dimensional splits; and what any sequence of splits leaves, and whether the PEs that make
it agree.

## How the files fit

| part | files, from the bottom up |
|---|---|
| arithmetic | `Products`, `Sizes`, `BinMaps`, `Words`, `Align` |
| allocator, on values | `Layout` (tiling), `Tags` (heads and feet), `Rings`, `Paths`, `Bins`, `SmallOps`, `TreeOps`, `TreeUnlink`, `Search`, `Moves`, `States`, `Freeing`, `Reshape`, `Plans`, `Blocks`, `Resizing` |
| allocator, the class and its clients | `Mspace`, `Finding`, `Checks`, `Clients` |
| hash table | `Flags`, `Probing`, `Tables`, `Rehash`, `KHash`, `KClients` |
| locks | `Lock`, `SpinLock` |
| teams | `TeamMaps`, `Splits`, `Teams`, `Lineages` |

A method of `Mspace` writes words with `Put` and calls, for each macro it stands for, one lemma that takes the memory
before and after as values. Addresses in `Mspace` count words from the start of the segment, so that chunk 0 is the
`malloc_state` and a null pointer is 0; a client's pointer is its chunk's address plus 2.

## Where the code and what is said about it differ

* `shmem_set_lock` is documented as queueing callers in order of arrival (`src/api/lock.c:334-335`). It does not:
  `set_lock_request` spins until its swap finds the word reset, so the queueing code is never reached
  (`Lock.NeverChained`). In every reachable state, for any number of PEs, a PE that is asking can be overtaken by one
  that has not yet called exactly when its claim is not in, that is, when it has not swapped yet or its last swap did
  not find the word reset (`Lock.ArrivalOrder`).
* `internal_memalign` rounds an alignment up by doubling from 16. The doubling reaches the alignment exactly when it is
  at most 2^63; beyond that the shift wraps to zero and the loop has no end (`Align.RoundingEnds`).
* A strided split with stride 0 and more than one PE takes the same PE repeatedly, and its maps are then not inverse; a
  negative size is declared as it stands. A split of a team that already has a PE twice can take it twice whatever the
  stride (`Lineages.Repeated`). Maps and size are right exactly when no PE is taken twice and the size is not negative
  (`Teams.Team.SplitStrided`); over any sequence of splits, the maps are inverse exactly when the team has at most one
  PE or no split on the way had stride 0 (`Lineages.LineageInverse`).
* A two-dimensional split called with a parent the caller is not in declares, for one of its two teams, a size that the
  team does not have; for members of the parent, and only for them, both sizes are true. Splitting a team of no ranks
  divides by zero, and splitting one that declares more ranks than it maps reads an entry that is not there; with every
  other team the splits can make, both reads and division are safe (`Teams.Team.Split2d`; the failing teams arise in
  `Lineages.Empty` and `Lineages.Outsider`).
* Doubling a table by rounding up its size plus one works for sizes up to 2^30; at 2^31 the rounding wraps
  (`Words.DoublingExact`), and `kh_put` then inserts into a table at its load bound. This happens exactly when a full
  table of 2^31 buckets has at least 2^30 pairs (`KHashes.KHash.MakeRoom`).

## Model

| member | source | states |
|---|---|---|
| Sizes.RequestExact | src/ptmalloc/ptmalloc.c:1982-1991 | below MAX_REQUEST a padded request is a multiple of 8, at least MIN_CHUNK_SIZE, holds the request and its head without wrapping, wastes less than 16 bytes, and is small exactly for requests up to MAX_SMALL_REQUEST |
| Sizes.TreeIndexBrackets | src/ptmalloc/ptmalloc.c:2612-2644 | the shift ladder gives every large size an index below 32 whose minimum size is not above it, and the next index's is |
| Sizes.TreeIndexUnique | src/ptmalloc/ptmalloc.c:2612-2644 | no other index brackets the size |
| Sizes.TreeIndexMonotone | src/ptmalloc/ptmalloc.c:2612-2628 | a larger size never gets a smaller index |
| Sizes.SizeBitsExact | src/ptmalloc/ptmalloc.c:2636-2639 | the left shift of a bin brings exactly the size bits below the bin's range to the top of the word |
| Paths.JustifiedStep | src/ptmalloc/ptmalloc.c:3352-3358 | taking the sign bit and shifting left goes down one level of the trie, to the half of the range that holds the size |
| BinMaps.MarkClearExact | src/ptmalloc/ptmalloc.c:2649-2658 | marking or clearing a bin changes that bin's bit and no other |
| BinMaps.LowestMarked | src/ptmalloc/ptmalloc.c:2682-2702 | least_bit followed by compute_bit2idx is the lowest marked bin |
| BinMaps.LeftBitsExact | src/ptmalloc/ptmalloc.c:2704-2705 | the mask of left_bits keeps exactly the marked bins above the given one |
| States.SmallBits | src/ptmalloc/ptmalloc.c:4842-4846 | the shifted small map and its two low bits say whether bin idx, bin idx + 1, or any later bin is marked |
| SmallOps.InsertSmall | src/ptmalloc/ptmalloc.c:3276-3279 | the four link writes put the chunk first in its bin's ring and leave the rest of the heap, and every live payload, as it was |
| SmallOps.UnlinkSmall | src/ptmalloc/ptmalloc.c:3285-3296 | the two link writes take any one chunk out of its bin's ring and leave the rest as it was |
| TreeOps.InsertLeaf | src/ptmalloc/ptmalloc.c:3346-3348 | hanging a chunk of a new size at the vacant position of its path keeps every tree a trie with unique sizes, and every live payload |
| TreeOps.InsertChain | src/ptmalloc/ptmalloc.c:3369-3375 | a chunk of a size already present joins the ring behind the tree node and nothing else changes |
| TreeUnlink.UnlinkHead | src/ptmalloc/ptmalloc.c:3406-3464 | when a tree node with equals goes, the chunk behind it takes over its parent and children |
| TreeUnlink.UnlinkInner | src/ptmalloc/ptmalloc.c:3415-3464 | when a lone interior node goes, any leaf below it can take its place and the trie order still holds |
| TreeUnlink.UnlinkLeaf | src/ptmalloc/ptmalloc.c:3431-3441 | a lone leaf goes and only its parent's link is cleared |
| TreeUnlink.UnlinkChained | src/ptmalloc/ptmalloc.c:3406-3411 | a chained chunk goes and only its ring closes |
| Search.WalkStep | src/ptmalloc/ptmalloc.c:4058-4065 | one step of the leftmost walk keeps this: whatever beats the best so far lies under the next node |
| Search.PathStep | src/ptmalloc/ptmalloc.c:4028-4045 | one step down the bits of the request keeps this: whatever beats the best so far lies under the path or under the deepest untaken right subtree |
| Search.FoundInOwnBin | src/ptmalloc/ptmalloc.c:4024-4065 | once something fits in the request's own bin, the walks have found the best fit among the chunks of all bins |
| Search.FoundInNextBin | src/ptmalloc/ptmalloc.c:4048-4065 | otherwise the smallest chunk of the next marked bin is the best fit of all |
| Search.FoundNowhere | src/ptmalloc/ptmalloc.c:4048-4056 | and with no such bin, nothing fits |
| Search.SmallestIsBest | src/ptmalloc/ptmalloc.c:4090-4106 | for a small request the smallest chunk of the first marked tree bin is the best fit |
| Moves.MergeHeap | src/ptmalloc/ptmalloc.c:2037-2043 | the freed chunk and its unbinned free neighbours become one free chunk by three word writes; the whole heap invariant and every other live payload are kept |
| Moves.SplitHeap | src/ptmalloc/ptmalloc.c:2813-2814 | the same for cutting a free chunk into a block in use and a free remainder |
| Freeing.ShapeFreed | src/ptmalloc/ptmalloc.c:4958-5012 | whichever neighbours join in, the blocks in use afterwards are those before less the freed one |
| Freeing.ShapeRegisters | src/ptmalloc/ptmalloc.c:4971-5010 | and dv and top name the merged chunk exactly when it took them in |
| Reshape.CutHeap | src/ptmalloc/ptmalloc.c:2803-2806 | set_inuse on the two parts of a block in use keeps the heap invariant and all other payloads |
| Reshape.StretchHeap | src/ptmalloc/ptmalloc.c:4158-4168 | so do the writes that expand a block into top, which also leave the block's own payload alone |
| Mspaces.Mspace.OverBase | src/ptmalloc/ptmalloc.c:4747-4769 | a fresh segment satisfies the whole invariant, with the malloc_state and one top chunk |
| Mspaces.Mspace.CreateWithBase | src/ptmalloc/ptmalloc.c:4789-4801 | null exactly when the capacity is out of range, and then no word is written; otherwise a valid mspace without blocks |
| Mspaces.Mspace.InsertSmallChunk | src/ptmalloc/ptmalloc.c:3263-3280 | the loose chunk becomes the first member of its small bin and the map bit is set; all else is kept |
| Mspaces.Mspace.UnlinkSmallChunk | src/ptmalloc/ptmalloc.c:3283-3300 | the chunk leaves its small bin, whose bit is cleared when it was the last; all else is kept |
| Mspaces.Mspace.UnlinkFirstSmallChunk | src/ptmalloc/ptmalloc.c:3303-3317 | the same for the first chunk of a bin |
| Mspaces.Mspace.ReplaceDv | src/ptmalloc/ptmalloc.c:3321-3331 | the old dv, which is small, goes to its small bin, and the remainder is the new dv |
| Mspaces.Mspace.Descend | src/ptmalloc/ptmalloc.c:3350-3381 | the descent of a marked tree bin ends, at a vacant child or at a node of the same size, and puts the chunk there |
| Mspaces.Mspace.InsertLargeChunk | src/ptmalloc/ptmalloc.c:3336-3383 | the loose chunk becomes a member of the tree bin its size selects; no other chunk changes |
| Mspaces.Mspace.DetachBelow | src/ptmalloc/ptmalloc.c:3416-3429 | the loop below a lone node ends at a leaf below it, and cuts it off its parent |
| Mspaces.Mspace.Relink | src/ptmalloc/ptmalloc.c:3431-3464 | the replacement takes over the parent link and the children of the unlinked node, or the link is cleared |
| Mspaces.Mspace.UnlinkLargeChunk | src/ptmalloc/ptmalloc.c:3402-3465 | the chunk is in no bin any more; every other chunk keeps its size and stays in a bin |
| Mspaces.Mspace.CarveToDv | src/ptmalloc/ptmalloc.c:4113-4119 | the chunk serves the request within the waste bound; a remainder of MIN_CHUNK_SIZE or more becomes dv and the old dv goes to its bin, and without one dv stays |
| Mspaces.Mspace.CarveToBin | src/ptmalloc/ptmalloc.c:4074-4080 | the chunk serves the request within the waste bound; a remainder of MIN_CHUNK_SIZE or more goes to its bin, and dv stays |
| Mspaces.Mspace.SmallestTreeChunk | src/ptmalloc/ptmalloc.c:4094-4106 | the walk of tmalloc_small ends with a chunk no other tree chunk beats |
| Mspaces.Mspace.TmallocSmall | src/ptmalloc/ptmalloc.c:4090-4125 | a small request is served from a tree chunk of minimal size, and the remainder is the new dv |
| Mspaces.Mspace.PathSearch | src/ptmalloc/ptmalloc.c:4024-4046 | the first loop leaves a node under which every better fit of the bin lies |
| Mspaces.Mspace.BestTreeChunk | src/ptmalloc/ptmalloc.c:4018-4065 | the three phases together find the smallest tree chunk that fits, over all bins, or none when none fits |
| Mspaces.Mspace.TmallocLarge | src/ptmalloc/ptmalloc.c:4017-4087 | that chunk serves the request if it is smaller than a fitting dv; otherwise nothing changes and no tree chunk is better than dv |
| Mspaces.Mspace.FromBins | src/ptmalloc/ptmalloc.c:4838-4888 | a small request gets a chunk of its own bin or the next; else, when dv does not fit, of the least larger bin, or else a smallest tree chunk; otherwise it goes on because the two bins are empty, and dv is large enough or nothing in any bin is |
| Mspaces.Mspace.SplitDv | src/ptmalloc/ptmalloc.c:4899-4916 | the front of dv, or all of it, serves the request; dv is the rest or none |
| Mspaces.Mspace.SplitTop | src/ptmalloc/ptmalloc.c:4918-4927 | the front of top serves the request |
| Mspaces.Mspace.Malloc | src/ptmalloc/ptmalloc.c:4828-4935 | the invariant is kept; null exactly when no free chunk fits, and then nothing has changed; otherwise one new block of at least the request and less than MIN_CHUNK_SIZE more than its padded size, apart from a map of blocks and contents that is unchanged; a large request gets the smallest fitting chunk outside top, and top only when there is none; a small request gets a chunk of the kind and size its search order names, the first of its bin; the whole layout afterwards, remainder, dv and top included, is a function of the layout before and the chunk chosen |
| Mspaces.Mspace.FreeForward | src/ptmalloc/ptmalloc.c:4983-5024 | the freed range joins top, dv, a binned neighbour or none, and the invariant holds again |
| Mspaces.Mspace.FreeBehindDv | src/ptmalloc/ptmalloc.c:4973-4977 | dv takes in the chunk after it when the one after that is in use |
| Mspaces.Mspace.Free | src/ptmalloc/ptmalloc.c:4940-5033 | the invariant is kept; the map of live blocks loses exactly the freed block; the block and its free neighbours become one chunk, part of top or dv when it touches them and otherwise in its bin, and no other chunk, dv or top changes |
| Plans.PlanMerge | src/ptmalloc/ptmalloc.c:4958-5012 | what the freed range becomes depends on nothing but the chunks before and after the block |
| Plans.FreeRegisters | src/ptmalloc/ptmalloc.c:4971-5010 | a block that ends at top joins it, with a dv that ends at the block; any other block leaves top alone; a block that touches dv joins it, and any other leaves it alone |
| Plans.CarvedToDv | src/ptmalloc/ptmalloc.c:4113-4119 | cutting a chunk and calling replace_dv leaves exactly the block, the new dv, and the old dv in a bin |
| Plans.StartIs | src/ptmalloc/ptmalloc.c:4958-4970 | the pinuse bit and the foot before a block name the one free chunk before it, if there is one |
| Mspaces.Mspace.CutBlock | src/ptmalloc/ptmalloc.c:4152-4157 | a block is cut into two blocks that together fill it |
| Mspaces.Mspace.GrowIntoTop | src/ptmalloc/ptmalloc.c:4158-4168 | the block before top grows to exactly the padded size, keeps its words, and top is what is left |
| Mspaces.Mspace.MoveBlock | src/ptmalloc/ptmalloc.c:4183-4191 | a new block, a copy of every old payload word, and the old block freed; on failure nothing has changed |
| Mspaces.Mspace.InternalRealloc | src/ptmalloc/ptmalloc.c:4130-4194 | null exactly when the block can neither be cut, nor grow into top, nor move, and then nothing has changed; the block stays at its address exactly when it is large enough, or lies before a top with room for it, and is then cut back to, or grown to, the padded size; otherwise it moves to where malloc puts it; it starts with its old words, and no other block has changed |
| Mspaces.Mspace.Realloc | src/ptmalloc/ptmalloc.c:5055-5077 | the same, and malloc for a null pointer |
| Mspaces.Mspace.CutLeader | src/ptmalloc/ptmalloc.c:4246-4250 | the two set_inuse of memalign, back part first, cut the block exactly |
| Mspaces.Mspace.SkipLeader | src/ptmalloc/ptmalloc.c:4225-4252 | a misaligned block is cut at an aligned spot, behind a leader that is a chunk, with room for the request after it |
| Mspaces.Mspace.TrimTail | src/ptmalloc/ptmalloc.c:4254-4264 | spare room of more than MIN_CHUNK_SIZE is cut off the end |
| Mspaces.Mspace.PlaceAligned | src/ptmalloc/ptmalloc.c:4218-4277 | leader and trailer are free again, and the aligned part of the block is all that is left of it |
| Mspaces.Mspace.Memalign | src/ptmalloc/ptmalloc.c:4198-4280 | for every alignment up to 2^63: null exactly when the enlarged request cannot be served, and then nothing has changed; otherwise one new block, large enough and at most MIN_CHUNK_SIZE too large, at the first multiple of the rounded alignment in the block malloc gives for the enlarged request that leaves no leader or one that is a chunk; leader and spare tail are freed, and no other block has changed |
| Words.PowerTest | src/ptmalloc/ptmalloc.c:4203-4203 | a & (a - 1) is zero exactly for powers of two |
| Words.MaskRounds | src/ptmalloc/ptmalloc.c:4234-4235 | masking with the two's complement of a power of two rounds down to its multiple |
| Align.RoundAlignment | src/ptmalloc/ptmalloc.c:4201-4208 | the alignment used is the least power of two not below the one asked for, or MIN_CHUNK_SIZE |
| Align.RoundingEnds | src/ptmalloc/ptmalloc.c:4204-4206 | the rounding loop ends exactly for alignments up to 2^63 |
| Align.SpotExact | src/ptmalloc/ptmalloc.c:4226-4240 | the aligned spot is a chunk address at least MIN_CHUNK_SIZE and at most the alignment plus 24 bytes on |
| Align.SpotFirst | src/ptmalloc/ptmalloc.c:4226-4240 | no multiple of the alignment comes before the spot but one that would leave a leader too small to be a chunk |
| Blocks.LiveServed | src/ptmalloc/ptmalloc.c:4828-4935 | what serving a request does to the chunks adds one block, of enough words, to the client's map |
| Blocks.LiveFreed | src/ptmalloc/ptmalloc.c:4940-5033 | what freeing does removes one block and nothing else |
| Blocks.BlocksApart | src/ptmalloc/ptmalloc.c:1815-1826 | no two live blocks share a word, and none reaches into the malloc_state or past the end |
| Blocks.Conserved | src/ptmalloc/ptmalloc.c:3121-3147 | the words in use and the free words always add up to the segment |
| Resizing.PayloadHeap | src/ptmalloc/ptmalloc.c:1943-1948 | whatever a client writes into the payload of its own block, the lent foot word included, the invariant holds |
| Checks.StateChecks | src/ptmalloc/ptmalloc.c:3150-3176 | the invariant implies the debug checks of every chunk in use, every free chunk, top, dv and the bin maps, read off the words and registers alone |
| Checks.SmallChecks | src/ptmalloc/ptmalloc.c:3062-3083 | and those of every chunk in a small bin |
| Checks.TreeChecks | src/ptmalloc/ptmalloc.c:3002-3048 | and those of every chunk in a tree bin: index, size range, ring and parent links, left sizes below right sizes |
| Checks.MallocedChecks | src/ptmalloc/ptmalloc.c:2988-2999 | what malloc hands out passes its check |
| Checks.TraverseAndCheck | src/ptmalloc/ptmalloc.c:3121-3147 | the traversal reaches top with no assertion failing, those about bin_find included, and the sizes add up to the footprint |
| Checks.CheckMallocState | src/ptmalloc/ptmalloc.c:3160-3175 | dv and top are found in no bin, and the traversal comes to the footprint |
| Finding.BinFind | src/ptmalloc/ptmalloc.c:3086-3118 | the walk of the small ring, or down the size bits of the trie and along the ring there, finds a chunk exactly when it is in a bin |
| Finding.FindNode | src/ptmalloc/ptmalloc.c:3102-3107 | the walk down the size bits ends, at the node of that size or at null when the tree has none |
| Clients.Store | src/ptmalloc/ptmalloc.c:1943-1948 | a client's store changes one word of its own block in the map, and nothing else |
| Clients.Run | src/ptmalloc/ptmalloc.c:4828-5087 | over any number of calls by a client that is lawful against an abstract allocator, the heap stays valid and what the client sees is a run of the abstract allocator |
| Clients.BlockPersists | src/ptmalloc/ptmalloc.c:4828-5087 | in every such run a block stays, with its contents, until the client itself frees, resizes or writes it |
| Flags.WordWrites | src/klib/khash.h:165-175 | each flag macro changes the two bits of its own bucket, as named, and no other bucket's |
| Flags.EmptyWord | src/klib/khash.h:231-231 | 0xaa bytes mark every bucket empty |
| Words.RoundUp32Exact | src/klib/khash.h:178-182 | kroundup32 gives the least power of two not below its argument, and zero when that would be 2^32 or the argument is zero |
| Words.DoublingExact | src/klib/khash.h:357-358 | rounding up a table size plus one doubles it exactly up to 2^30 |
| Probing.ProbesApart | src/klib/khash.h:244-244 | two positions of a probe sequence less than n steps in are different buckets |
| Probing.VisitsAll | src/klib/khash.h:239-247 | the first n positions visit every bucket |
| Probing.FirstReturn | src/klib/khash.h:244-246 | the start comes round again at step 2n - 1 and not before |
| Tables.NotThere | src/klib/khash.h:242-248 | an empty bucket on the probe path proves the key absent, whatever tombstones were passed |
| Tables.Placed | src/klib/khash.h:391-401 | a key placed in a free bucket of its path leaves every key reachable, once |
| Tables.DestinationReuses | src/klib/khash.h:371-388 | a new key reuses a deleted bucket exactly when its probe path has one |
| Tables.Removed | src/klib/khash.h:407-410 | turning a bucket into a tombstone removes its key and hides no other |
| Tables.LiveKeys | src/klib/khash.h:391-410 | the number of live buckets is the number of keys |
| Rehash.NeverBoth | src/klib/khash.h:293-332 | during a rehash no bucket is live under both sets of flags |
| Rehash.TakeStep | src/klib/khash.h:294-301 | taking up an old bucket keeps every pair in exactly one place |
| Rehash.KickStep | src/klib/khash.h:308-323 | so does placing the pair in hand over an old resident, which is then in hand |
| Rehash.DropStep | src/klib/khash.h:324-329 | and placing it where nothing is in the way |
| Rehash.RehashEnds | src/klib/khash.h:340-344 | when no old bucket is live the new table holds exactly the pairs of the old |
| KHashes.KHash.Get | src/klib/khash.h:235-251 | the bucket of the key with its value, or the number of buckets exactly when the key is not in the map; the walk ends and never comes back to its start |
| KHashes.KHash.FirstEmpty | src/klib/khash.h:303-307 | the rehash probe ends at an empty new bucket on the key's path |
| KHashes.KHash.KickOut | src/klib/khash.h:302-330 | the kick-out loop ends and leaves nothing in hand |
| KHashes.KHash.RehashAll | src/klib/khash.h:292-332 | after the outer loop the new flags hold exactly the old map |
| KHashes.KHash.Resize | src/klib/khash.h:252-347 | growing, shrinking, same size or failing, the map is the same; it fails exactly when it needs an allocation that fails, and then no flag has changed; on success the table and, if the size changed, both arrays have the rounded size and no tombstone is left; a size too small for the pairs does nothing |
| KHashes.KHash.MakeRoom | src/klib/khash.h:350-362 | a table at its load bound is rebuilt at the same size when more than half of it would be free and at twice the size otherwise; unless an allocation failed, it can take one more pair afterwards exactly when it was not full, has at most 2^30 buckets, or has more than twice as many buckets as pairs |
| KHashes.KHash.Walk | src/klib/khash.h:365-388 | the search of kh_put ends at the key or at an empty bucket, having noted the last deleted bucket on the way, and its wrap-around branch is unreachable |
| KHashes.KHash.Put | src/klib/khash.h:348-405 | -1 exactly when a needed allocation failed, and then the map is unchanged; 0 with the map unchanged when the key was there; otherwise exactly the key is added, in the last deleted bucket of its probe path when the path has one, answered by 2, and else in the empty bucket at its end, answered by 1; no other bucket changes unless the table is rebuilt |
| KHashes.KHash.Del | src/klib/khash.h:406-411 | exactly the key of the bucket goes and its bucket is marked deleted; nothing changes when there is none |
| KHashes.KHash.Clear | src/klib/khash.h:229-234 | the map is empty and so is every bucket |
| KHashes.KHash.SizeCounts | src/klib/khash.h:391-410 | size is the number of keys and some bucket is empty |
| KHashes.GrowthRoom | src/klib/khash.h:350-362 | either resize of kh_put leaves fewer pairs than the load bound |
| KClients.Run | src/klib/khash.h:229-411 | over any number of gets, puts, deletes and clears by a client that keeps below 2^30 pairs, allocations failing at will, the table stays valid and answers as a finite map |
| KClients.KeyPersists | src/klib/khash.h:229-411 | in every such run a key keeps its value, or stays absent, until the client stores it, drops it or wipes the table |
| Lock.BlobExact | src/api/lock.c:50-56 | the two halves of the lock word can be read back, so distinct claims are distinct words |
| Lock.StepInv | src/api/lock.c:114-304 | every step of every PE keeps the protocol invariant |
| Lock.MutualExclusion | src/api/lock.c:114-304 | in every run at most one PE holds the lock or is between its two swaps; the owner's word is reset exactly when none is, and otherwise names it |
| Lock.PutsComplete | src/api/lock.c:281-289 | when a PE has its claim in, every put of every other PE is complete |
| Lock.NeverChained | src/api/lock.c:198-214 | the queueing code is unreachable |
| Lock.ClearSucceeds | src/api/lock.c:184-258 | a holder's node is free, so clear swaps; the swap finds its own claim; and the result it tests names itself |
| Lock.NeverUndefined | src/api/lock.c:184-289 | no result is tested before a swap has set it, and clear never waits but for its own puts |
| Lock.SetEnds | src/api/lock.c:155-161 | a PE that has called set is in the call until it holds the lock |
| Lock.TestEnds | src/api/lock.c:170-234 | test swaps once; it returns without the lock exactly when the word was set at that swap, and otherwise its claim is in and it goes on to hold the lock |
| Lock.ClearEnds | src/api/lock.c:281-289 | clear returns only after its swap has taken the claim out of the word |
| Lock.NotStuck | src/api/lock.c:155-289 | every call comes nearer its end by each of its own steps, but for a set while the word is set, which swaps again, and a clear that waits for its puts |
| Lock.OwnNodeOnly | src/api/lock.c:198-258 | no PE ever writes another PE's node |
| Lock.Overtaken | src/api/lock.c:155-161 | from any state, while a PE is asking and its claim is not in, any idle PE can call set and come to hold the lock without the asking PE having moved |
| Lock.ArrivalOrder | src/api/lock.c:155-161 | in every reachable state, a PE that is asking can be overtaken by a PE that is idle if and only if its claim is not in |
| Lock.InTurn | src/api/lock.c:114-304 | once the claim of a PE is in, no other PE holds the lock before it has swapped the claim out |
| Lock.OvertakenRun | src/api/lock.c:334-335 | for any number of PEs and any two of them there is a run in which one asks first and the other, idle until later, holds the lock while the first still asks |
| Lock.OwnerMoves | src/api/lock.c:198-304 | the PE whose claim is in always has a step of its own that frees the word, brings it closer to that, or completes a put it waits for |
| SpinLocks.StepInv | src/ptmalloc/ptmalloc.c:1554-1608 | every load, store and locked instruction of every thread keeps the invariant |
| SpinLocks.MutualExclusion | src/ptmalloc/ptmalloc.c:1554-1608 | no two threads have more acquires completed than releases begun |
| SpinLocks.ReadTellsHolder | src/ptmalloc/ptmalloc.c:1555-1556 | the unsynchronised read of threadid finds the reader's id exactly when the reader holds the lock |
| SpinLocks.ReleaseBalances | src/ptmalloc/ptmalloc.c:1587-1594 | the count is the nesting depth, and the lock is free exactly when every acquire has been released |
| SpinLocks.AcquireEnds | src/ptmalloc/ptmalloc.c:1554-1585 | acquire returns only with the lock held once more than before |
| SpinLocks.TryEnds | src/ptmalloc/ptmalloc.c:1596-1608 | try swaps once, and returns with the lock held once more exactly when that swap found it free |
| SpinLocks.ReleaseEnds | src/ptmalloc/ptmalloc.c:1587-1594 | release returns with the lock held once less |
| SpinLocks.NotStuck | src/ptmalloc/ptmalloc.c:1554-1608 | every call comes nearer its end by each of its own steps, but for an acquire of a lock that another thread has |
| SpinLocks.AssertionsHold | src/ptmalloc/ptmalloc.c:1566-1589 | the two assertions in the code hold when reached |
| TeamMaps.InverseExact | src/shmemc/teams.c:296-300 | the two maps undo each other exactly when no PE is in the team twice |
| TeamMaps.TranslationsCompose | src/shmemc/teams.c:434-457 | translating to another team and back is the identity, and on to a third is going there directly |
| TeamMaps.ChainTranslates | src/shmemc/teams.c:434-457 | the same along any chain of teams |
| TeamMaps.GridPlaces | src/shmemc/teams.c:604-606 | the PE of parent rank i is at place i mod xrange of row i div xrange, and at place i div xrange of column i mod xrange |
| TeamMaps.GridPartition | src/shmemc/teams.c:655-760 | rows partition the parent and so do columns; a row and a column share one PE |
| TeamMaps.MapsUnique | src/shmemc/teams.c:655-760 | the list of members fixes both maps, whoever builds them |
| TeamMaps.GridAgree | src/shmemc/teams.c:614-760 | two PEs of one parent build equal x-axis maps exactly when they are in one row, and equal y-axis maps exactly when they are in one column |
| TeamMaps.SizesExact | src/shmemc/teams.c:620-705 | for a member of the parent both declared sizes are the numbers of PEs mapped |
| TeamMaps.SizesWrong | src/shmemc/teams.c:604-705 | for a caller outside the parent one of the two teams is empty and declares a size that is not zero, the row when the grid is one wide and the column otherwise; the other size is true |
| Teams.Team.InitWorld | src/shmemc/teams.c:282-302 | rank i is PE i, and the maps are inverse |
| Teams.Team.InitShared | src/shmemc/teams.c:310-337 | rank i is the i-th peer, the maps are inverse, and the caller's rank is its place among the peers |
| Teams.Team.SplitStrided | src/shmemc/teams.c:489-555 | of any team the splits can make: fails exactly when a step leaves the parent; rank i is the parent's rank start + i * stride; maps and size are right exactly when no PE is taken twice and the size is not negative, which for a parent without repetition is a stride other than 0 or at most one PE |
| Teams.Team.SplitRow | src/shmemc/teams.c:614-682 | the x-axis team is the caller's row of the parent, unless the row has a rank that the parent does not map |
| Teams.Team.SplitColumn | src/shmemc/teams.c:690-760 | the y-axis team is the caller's column of the parent, unless the column has a rank that the parent does not map |
| Teams.Team.Split2d | src/shmemc/teams.c:573-779 | of any team the splits can make: refuses exactly a width that is not positive, divides by zero exactly for a team of no ranks, and reads an unmapped rank exactly when the team declares more than it maps; otherwise a member gets its rank mod xrange and its rank div xrange as ranks, even if it is there twice, in the teams of its row and its column, or its own rank and 0 when xrange is above the size; both sizes are true exactly for members |
| Splits.SplitFacts | src/shmemc/teams.c:586-760 | of any team the splits can make: the two loops read only mapped ranks exactly when the team maps what it declares, and both sizes are then true exactly for a PE with a rank |
| Lineages.Progression | src/shmemc/teams.c:489-779 | whatever the splits, of both kinds and in any order, the team they leave takes every b-th PE of the root from some a on, with b zero exactly when a split on the way had stride 0 |
| Lineages.LineageInverse | src/shmemc/teams.c:282-779 | after any sequence of splits from a root without repetition the two maps are inverse exactly when the team has at most one PE or no split had stride 0 |
| Lineages.LineageSize | src/shmemc/teams.c:489-779 | after any sequence of splits a size that is not true belongs to a team of no PEs; the declared size is true exactly when the last split lets it |
| Lineages.Coherent | src/shmemc/teams.c:489-779 | PEs agree: when a PE has a team by some splits, every PE in it has, by the same splits, a team with the same members in the same order and the same size |
| Lineages.Repeated | src/shmemc/teams.c:519-545 | a team that has a PE twice still has it twice after a split with stride 1 |
| Lineages.Outsider | src/shmemc/teams.c:600-666 | a PE outside the parent gets from a grid one wide a team that declares one rank and maps none, of which no two-dimensional split is safe |
| Lineages.Empty | src/shmemc/teams.c:600-602 | a strided split of size 0 gives a team of which no two-dimensional split is safe |

## Left out

- Segments from the operating system: `sys_alloc`, `sys_trim`, mmap, sbrk, `add_segment`, `release_unused_segments`; `sys_alloc` is modelled as failing, and `should_trim` and the `release_checks` countdown as doing nothing, which is what they do on one segment supplied by the caller.
- FOOTERS, INSECURE, PROCEED_ON_ERROR and Win32 variants; the RTCHECK conditions hold by the proofs, so their error branches are not modelled. The `dl*` copies of the mspace routines, `mspace_calloc`, the independent allocations, statistics and tuning.
- The x86 assembly form of compute_tree_index, which truncates size / 256 to 32 bits, and the assembly and ffs forms of compute_bit2idx.
- A base address or a capacity that is not a multiple of 8; with such a capacity the size of top would collide with its flag bits.
- The fields of malloc_state that the model keeps as class fields rather than as words: smallmap, treemap, dv, top and their sizes; magic, footprint, segment record and mutex are not modelled.
- Mspaces.Mspace.CopyPayload: copies whole words; the source's memcpy counts bytes, and on that path the count is always the whole old payload, a multiple of 8.
- Head-word flag tests and shifts of sizes are written as arithmetic on unbounded integers, with wrap-around explicit where the source relies on it.
- Machine-code effects of several threads in the allocator: one caller at a time, under the lock.
- The khash set variant without values, iteration, and the string and integer hash functions: the hash is any function, key equality is equality, and shrinking reallocations succeed, as the source assumes.
- KHashes.KHash.Put: asks that the table can keep its load bound (`KHash.HasRoom`), which fewer than 2^30 pairs ensure; past that the source goes on filling a table that it cannot double, and the model does not follow it.
- Lock progress, which the code does not provide, and fairness beyond `Lock.ArrivalOrder`; agreement of the PEs on the owner of a lock, and PE numbers below 2^15, which it assumes; argument checks, logging and context selection.
- SpinLocks.StepInv: assumes that no thread nests 2^32 deep, where the 32-bit count wraps, and that thread ids are distinct and not zero; the yield in the spinning loop is a step without effect. Loads and stores are sequentially consistent: what a weaker memory order would let the unsynchronised read of threadid see is not modelled.
- Team contexts, pSync buffers, configuration, names, destruction, and allocation failure of team records; the start and stride fields beyond what `TeamMaps.Spans` says; C int overflow for teams near 2^31 PEs.
