# Verified model of OPAL containers, datatypes and the TCP transport

This project models the parts of the Open Portable Access Layer (OPAL) that other layers lean on without
looking inside, and proves that they do what their callers assume.

* **Lock-free containers.** `opal_fifo` and both variants of `opal_lifo` are written as interleaved atomic
  memory accesses of any number of threads (`Fifo`, `LifoCounted`, `LifoLocked`). `ContainerSpec` is the
  atomic queue or stack that callers may assume, down to what a push returns. Every run of the concrete containers
  is shown to be a run of the atomic one, and operations that run alone are shown to end with the right answer.
* **Derived datatypes.** A description is a small loop language of data elements, LOOP and END_LOOP entries
  (`Description`). Its meaning is the type map of section 4.1 of MPI 3.0: byte displacements in order. A
  CONTIGUOUS loop can be read by its body, as packing may, or as the block its END_LOOP records, as copying
  does (`Soundness` says when the two agree). The builder (`Build`), the optimizer (`Optimize`), committing
  (`Commit`) and the three stack machines for packing (`Pack`), seeking (`Position`, `Convertors`) and copying
  (`Copy`) are related to that meaning; `Engine` is what the machines share. `Transfer` puts them together, and
  `Merging` is a datatype that packing misreads.
* **Red-black tree** with a root sentinel and a shared nill node (`RbShape`, `RbTree`, `RbRuns`). Memory is a
  map from node pointers to nodes, the tree that is stored is a ghost value beside it, and freed nodes go back to
  a pool from which later inserts take theirs.
* **Hash table** with linear probing, rehashing on removal and growth, and the two-level table of process
  names built on it (`HashTable`, `ProcTable`, `TableRuns`).
* **TCP transport.** Fragments are framed into a byte stream that `writev` and `readv` may cut anywhere, with a
  read-ahead cache on the receiving side, from submission while still connecting to delivery (`Framing`); two
  peers set up a connection at the same time (`Connect`); local and peer interfaces are paired by exhaustive search (`Interfaces`).
* **Graph and tree.** Shortest distances with 32-bit weights (`Dijkstra`) and the bracketed stream that a
  general tree is sent in (`Trees`).

Code that works in place is imperative here too: objects are classes whose methods update their fields, the
buffers of the datatype engine, of the interface search and of the distance queue are arrays, and each method is
proved against a function of the state before it. The slots of the hash table are a sequence and the memories of the
red-black tree and of the general tree are maps, reassigned at each write. The lock-free containers and the
connection set-up are state machines, because their promises are about every interleaving.

Four properties that one might expect turn out not to hold, and are replaced by the exact condition:

* `opal_fifo_push_atomic` returns the previous tail so that a caller can tell that the list was empty. A pop that
  has emptied the head but not yet settled the tail makes it return an item although the list is empty
  (`Fifo.PushMayMissEmpty`); `Fifo.PushReportsFirst` says exactly when the sentinel is returned.
* A gapped CONTIGUOUS loop whose first block is merged into the data before it is written with a displaced END_LOOP
  around an element that stays where it was (opal_datatype_optimize.c, lines 157-164). The copy engine reads
  such a loop by its END_LOOP and is right. Packing enters it when a block does not fit, and then reads other bytes.
  `Transfer.PackExact`: packing yields the type map for every list of calls if and only if the type has no such
  loop (`Optimize.Merges`); otherwise there are calls, and a memory, for which the bytes differ
  (`Transfer.PackWrong`). One buffer that holds everything is still packed right (`Transfer.SendingWhole`).
  `Merging.PackTen` builds, commits and packs a type of five ints
  for which one buffer of ten bytes is enough (`Merging.TenBytes`).
* `mca_btl_tcp2_frag_send` and `mca_btl_tcp2_frag_recv` compare what was transferred with the length cast to `int`
  (btl_tcp2_frag.c, lines 134 and 226). The answer that a fragment is complete is right for every write
  (`Framing.DoneExact`), and for every sequence of reads (`Framing.ReadExact`), if and only if the payload is at most
  0x7fffffff bytes; a longer one counts as complete far too early (`Framing.TooLong`, `Framing.ReadTooLong`).
* `opal_graph_dijkstra` adds distances in 32-bit words. A run of it ends with shortest distances if and only if none of
  its sums wraps (`Dijkstra.RunExact`). Among graphs with weights up to w, every run returns shortest distances if and
  only if w is at most 0x80000000 (`Dijkstra.WeightBound`); for every larger w there is a graph of three vertices on
  which every run returns a wrong distance (`Dijkstra.HeavyWrong`).

## Model

| member | source | states |
|---|---|---|
| ContainerSpec.BehaviourConserves | opal/class/opal_fifo.h:85-178 | in every run of the atomic container each item is in exactly one place: with callers, in the container once, or held by one operation |
| Fifo.StepKeeps | opal/class/opal_fifo.h:85-178 | every atomic access of every thread keeps the invariant of links, ends, counters, ownership and what each thread knows |
| Fifo.Implements | opal/class/opal_fifo.h:85-178 | every run has an abstract run with the same calls, returns and results, whose states are the abstract queues of the memory all along |
| Fifo.Linearizable | opal/class/opal_fifo.h:85-178 | for any number of threads and every interleaving callers see an atomic queue, results included: push takes effect at its tail CAS and returns the tail found there, pop at its head CAS, NULL only when empty |
| Fifo.RepairFindsSentinel | opal/class/opal_fifo.h:161-171 | a pop that repairs the head finds the sentinel there, as its assertion says |
| Fifo.WaitHasWriter | opal/class/opal_fifo.h:154-157 | a pop that spins for the successor of its item waits for a push that is about to write it |
| Fifo.PushReportsFirst | opal/class/opal_fifo.h:85-111 | over whole runs, at the return: push returns the tail that its CAS found, and the sentinel exactly if the queue was empty then and no pop was still emptying it |
| Fifo.PushMayMissEmpty | opal/class/opal_fifo.h:85-111 | a concrete run in which push meets an empty list and returns an item |
| Fifo.PopClears | opal/class/opal_fifo.h:116-178 | an item that a pop returns points nowhere |
| Fifo.EndsAlone | opal/class/opal_fifo.h:85-178 | progress at any point of any run: a push that runs alone ends within five steps, and so does a pop within nine unless another thread owes the list a link or a repair; a pop that starts then returns the front, NULL only if there is none |
| LifoCounted.CasUndisturbed | opal/class/opal_lifo.h:134-156 | when the CAS of a pop succeeds, its item is the top, its next pointer is current and the change count is that of its read |
| LifoCounted.StepKeeps | opal/class/opal_lifo.h:114-156 | every atomic access keeps the invariant, although push leaves the counter alone |
| LifoCounted.Linearizable | opal/class/opal_lifo.h:114-156 | every run is a run of an atomic stack |
| LifoCounted.PopUndisturbed | opal/class/opal_lifo.h:134-156 | over whole runs: from the read of the item to the successful CAS the stack does not change at all, and the true successor is installed |
| LifoCounted.PushReportsTop | opal/class/opal_lifo.h:114-130 | push returns the item that was on top at its CAS, the sentinel exactly if the stack was empty |
| LifoCounted.PopClears | opal/class/opal_lifo.h:134-156 | an item that a pop returns points nowhere |
| LifoCounted.EndsAlone | opal/class/opal_lifo.h:114-156 | an operation that runs alone ends within eight steps whatever the others have left undone, with the right answer |
| LifoLocked.StepKeeps | opal/class/opal_lifo.h:164-215 | every atomic access keeps the invariant of the item_free variant |
| LifoLocked.CasTakesTop | opal/class/opal_lifo.h:186-215 | a successful pop removes the top and installs its successor |
| LifoLocked.Linearizable | opal/class/opal_lifo.h:164-215 | every run is a run of an atomic stack, so no item is popped twice |
| LifoLocked.LockDiscipline | opal/class/opal_lifo.h:164-215 | an item that was ever on the stack and is unlocked is on the stack; an item on the stack is locked exactly if a thread holds it; a held item is on the stack and held by one thread |
| LifoLocked.HeldStable | opal/class/opal_lifo.h:164-215 | no step of another thread changes the next pointer of a held item or unlocks it |
| LifoLocked.PushReportsTop | opal/class/opal_lifo.h:164-181 | push returns the item that was on top at its CAS, the sentinel exactly if the stack was empty |
| LifoLocked.PopClears | opal/class/opal_lifo.h:186-215 | an item that a pop returns points nowhere |
| LifoLocked.EndsAlone | opal/class/opal_lifo.h:164-215 | a push that runs alone ends within six steps, and so does a pop within nine unless another thread holds an item; one that starts then returns the top, NULL only if there is none |
| Soundness.EitherReading | opal/datatype/opal_datatype_internal.h:158-217 | if CONTIGUOUS loops record the block of their body, reading them by body or as blocks gives the same bytes |
| Soundness.SameReading | opal/datatype/opal_datatype_internal.h:158-217 | the converse: if the bodies of CONTIGUOUS loops are data only and both readings give the same bytes, every CONTIGUOUS loop records the block of its body |
| Optimize.OptimizeShort | opal/datatype/opal_datatype_optimize.c:44-253 | the output, at most as long as the input and within the 2*used+1 entries, denotes the same ordered bytes under the block reading; read by body, its bytes are those of the input if and only if no gapped loop is merged |
| Optimize.WriteContig | opal/datatype/opal_datatype_optimize.c:104-167 | what is written for a CONTIGUOUS loop and what stays pending, without and with gaps |
| Optimize.WriteSmall | opal/datatype/opal_datatype_optimize.c:168-196 | a small loop becomes a strided element or is unrolled |
| Optimize.WriteEnd | opal/datatype/opal_datatype_optimize.c:76-95 | closing a loop writes its END_LOOP and patches the item count of its LOOP |
| Optimize.WriteData | opal/datatype/opal_datatype_optimize.c:207-242 | a data entry joins the pending run or starts a new one |
| Optimize.RunJoins | opal/datatype/opal_datatype_optimize.c:44-253 | any number of contiguous entries each of which starts where the one before ends become one entry at the same place |
| Optimize.LoopAlone | opal/datatype/opal_datatype_optimize.c:44-253 | a plain loop around one entry becomes a strided entry, is unrolled, or stays a loop; one without gaps becomes a run of bytes |
| Commit.Commit | opal/datatype/opal_datatype_optimize.c:255-308 | for every datatype built from basic types: the description is closed with its size and first displacement, and truthful; the optimized one denotes the same bytes by block, has the same size by body, and denotes the same bytes by body exactly if nothing was merged |
| Pack.Fit | opal/datatype/opal_datatype_pack.h:29-73 | the number of pieces packed is the largest that fits |
| Pack.PackData | opal/datatype/opal_datatype_pack.h:29-73 | as many elements as fit are packed, in order, and the rest of the buffer is untouched |
| Pack.PackBlocks | opal/datatype/opal_datatype_pack.h:75-102 | the same for the blocks of a CONTIGUOUS loop |
| Pack.StepVisits | opal/datatype/opal_datatype_pack.c:303-384 | one turn of the machine, on any committed description, visits the next elements, packs as many bytes as they have, and packs exactly their bytes if blocks are truthful; if it stops, the next element does not fit |
| Pack.PacksBehind | opal/datatype/opal_datatype_pack.c:270-395 | the same for a whole iovec: the machine terminates and the number of bytes packed is that of the elements passed, whether or not a loop was merged |
| Pack.PacksExactly | opal/datatype/opal_datatype_pack.c:270-395 | if the space is that of the next element, the machine enters the loop and packs that element by its own displacement |
| Pack.PackInto | opal/datatype/opal_datatype_pack.c:270-395 | one iovec holds what the machine packs into its length, and no byte beyond it is changed; nothing is asked of the description beyond what committing gives |
| Convertors.Convertor.constructor | opal/datatype/opal_convertor.c:490-629 | for every committed description, merged loops included: a prepared convertor stands at the start of count instances, and is completed at once exactly if there is nothing to send |
| Convertors.Convertor.Pack | opal/datatype/opal_datatype_pack.c:270-395 | the iovecs together hold what the machine packs into their lengths, each up to an element boundary; bConverted counts the bytes and reaches local_size exactly on completion; if blocks are truthful these are the next elements of the stream |
| Convertors.SentOn | opal/datatype/opal_datatype_pack.c:270-395 | over any list of iovec lengths: elements are passed in order, the bytes packed have their total size, and are their bytes if blocks are truthful |
| Convertors.SentEntering | opal/datatype/opal_datatype_pack.c:357-371 | for every stream of elements, a first iovec without space and then one for each element make the machine enter every loop and pack the map by body |
| Convertors.PackCalls | opal/datatype/opal_datatype_pack.c:270-395 | chunking independence: any sequence of calls packs what one call with all the iovecs would, and with truthful blocks a prefix of the flattened type map of count instances, all of it on completion |
| Convertors.Convertor.SetPosition | opal/datatype/opal_convertor.h:288-320 | seeking, forward or by rollback, ends at the last element boundary at or before the target |
| Convertors.Seek | opal/datatype/opal_datatype_position.c:106-253 | the seek machine, with its skip of whole instances, stops at that boundary and reports how far into the element the target is |
| Convertors.SeekAndPack | opal/datatype/opal_convertor.c:417-451 | seeking equals packing and discarding: later packing yields the stream from that boundary, and completes exactly when everything from there on is out |
| Position.WalkElem | opal/datatype/opal_datatype_position.c:56-78 | elements wholly before the target are skipped |
| Position.WalkLoop | opal/datatype/opal_datatype_position.c:80-98 | blocks of a CONTIGUOUS loop are skipped while they fit, the rest is entered |
| Position.Walk | opal/datatype/opal_datatype_position.c:144-253 | the walk ends when everything is behind it or the next element reaches beyond the target |
| Position.SkipTodo | opal/datatype/opal_datatype_position.c:121-142 | skipping n instances on the stack skips exactly their elements and bytes |
| Copy.CopyStrided | opal/datatype/opal_datatype_copy.h:36-113 | count elements or blocks a stride apart are copied and nothing else |
| Copy.CopyWalk | opal/datatype/opal_datatype_copy.h:176-249 | the stack machine writes exactly the type map of count instances, terminates, and ends with the length counter at zero |
| Copy.CopyContent | opal/datatype/opal_datatype_copy.h:115-249 | so does the whole function, on its CONTIGUOUS shortcuts too |
| Build.AddedProper | opal/datatype/opal_datatype_add.c:103-375 | adding keeps a type proper: size is the length of its map, its bytes lie within the true bounds and touch both, and CONTIGUOUS means exactly the bytes from true_lb on |
| Build.ContiguousExact | opal/datatype/opal_datatype_add.c:356-371 | a type stays CONTIGUOUS exactly if both types are, an empty one takes copies whose bytes start at their own origin, and the bytes lie in order without a gap |
| Build.BasicEntries | opal/datatype/opal_datatype_add.c:275-302 | the entries added for copies of a basic type denote the shifted replicas |
| Build.DerivedEntries | opal/datatype/opal_datatype_add.c:303-349 | the entries added for copies of a derived type denote the shifted replicas |
| Build.Datatype.Add | opal/datatype/opal_datatype_add.c:103-375 | the map of the base is followed by count shifted replicas, the counters count them, and the bounds take them in; the extent is the least multiple of the alignment that does; too many components are refused without a change |
| Build.FirstByte | opal/datatype/opal_datatype_internal.h:465-476 | the first byte of a built type is where its first data entry is |
| Build.Datatype.Create | opal/datatype/opal_datatype_create.c:31-58 | a new datatype is proper and empty |
| Transfer.CopyType | opal/datatype/opal_datatype_copy.h:115-249 | copying any built datatype through its optimized description writes exactly its own type map |
| Transfer.PackType | opal/datatype/opal_datatype_pack.c:270-395 | packing any built datatype through its optimized description packs what the machine reads there, as many bytes as the type map has exactly on completion, and a prefix of its own type map if nothing was merged |
| Transfer.PackExact | opal/datatype/opal_datatype_pack.c:270-395 | every list of calls packs a prefix of the type map if and only if no gapped loop of the type is merged |
| Transfer.SendingRight | opal/datatype/opal_datatype_pack.c:270-395 | without a merged loop every list of calls reads the type map in order |
| Transfer.SendingWrong | opal/datatype/opal_datatype_pack.c:357-371 | with one, some list of calls completes and reads other displacements than the type map |
| Transfer.SendingWhole | opal/datatype/opal_datatype_pack.c:357-364 | one buffer that holds all instances is packed with the type map, merged loops or not |
| Transfer.PackWrong | opal/datatype/opal_datatype_pack.c:357-371 | with one, some list of calls packs other bytes for some memory |
| Merging.Make | opal/datatype/opal_datatype_add.c:103-375 | three additions build a type of an int and four ints eight bytes apart right behind it |
| Merging.HasMerging | opal/datatype/opal_datatype_optimize.c:125-165 | its loop is one that the optimizer merges |
| Merging.Optimizes | opal/datatype/opal_datatype_optimize.c:125-165 | committing that type gives, entry by entry, the merged description |
| Merging.MergedMap | opal/datatype/opal_datatype_optimize.c:125-165 | the merged description denotes the type map by block and not by body |
| Merging.TenBytes | opal/datatype/opal_datatype_pack.c:357-371 | of the merged description, a buffer of ten bytes takes displacements 0 to 7, 4 and 5, where the type map goes on with 12 and 13 |
| Merging.PackTen | opal/datatype/opal_datatype_pack.c:270-395 | the type built, committed and packed into one buffer of ten bytes: the buffer holds bytes 0 to 7, 4 and 5 of memory |
| RbShape.RaiseInserting | opal/class/opal_rb_tree.c:145-149 | recolouring under a red uncle moves the only red-red edge up two levels and keeps black heights |
| RbShape.RedSiblingDeleting | opal/class/opal_rb_tree.c:364-369 | the case of a red sibling keeps the missing black where it is |
| RbShape.PassUpDeleting | opal/class/opal_rb_tree.c:370-372 | two black nephews pass the missing black up |
| RbShape.FarRedDone | opal/class/opal_rb_tree.c:380-385 | a red far nephew restores equal black heights |
| RbTree.RotateStored | opal/class/opal_rb_tree.c:483-536 | the pointer assignments of a rotation store the rotated tree, with all parent links |
| RbTree.RedBlackTree.constructor | opal/class/opal_rb_tree.c:81-116 | an initialized tree is valid and empty |
| RbTree.RedBlackTree.Insert | opal/class/opal_rb_tree.c:120-180 | the tree stays valid and the entry is put into the in-order sequence before those with an equal key |
| RbTree.RedBlackTree.FixDelete | opal/class/opal_rb_tree.c:357-416 | the fixup loop terminates in a tree with the same entries, no red-red edge and equal black heights |
| RbTree.RedBlackTree.Delete | opal/class/opal_rb_tree.c:226-273 | succeeds exactly if an equal key is stored; then exactly one such entry goes, the tree stays valid, and the freed node held an entry before and holds none now |
| RbTree.RedBlackTree.Find | opal/class/opal_rb_tree.c:183-223 | succeeds exactly if an equal key is stored, with the value of such an entry |
| RbTree.RedBlackTree.Successor | opal/class/opal_rb_tree.c:297-318 | the next node in order, or nill after the last: the leftmost of the right subtree, or the first ancestor reached from its left side |
| RbRuns.Run | opal/class/opal_rb_tree.c:120-273 | every run of inserts, deletes and finds, with freed nodes taken again, answers like a bag of entries and ends in a valid tree that holds and counts that bag |
| HashTable.Probe | opal/class/opal_hash_table.c:333-366 | probing from the home slot terminates at the slot of the key or, if it is absent, at a free slot |
| HashTable.RemoveAt | opal/class/opal_hash_table.c:263-315 | rehashing moves the hole along the cluster until every entry is reachable again, and exactly one key is gone |
| HashTable.MoveScan | opal/class/opal_hash_table.c:263-315 | moving an entry into the hole keeps everything reachable but for the new hole |
| HashTable.Regrow | opal/class/opal_hash_table.c:208-256 | growing re-enters every entry: the map is the same and every entry reachable |
| HashTable.Table.constructor | opal/class/opal_hash_table.c:160-181 | an empty table whose capacity is the least number that is 1 mod 30 and above the estimate divided by the density |
| HashTable.Table.Get | opal/class/opal_hash_table.c:333-366 | the value in the map, or none |
| HashTable.Table.Set | opal/class/opal_hash_table.c:369-413 | the map is updated and a slot stays free; the capacity grows by the growth factor, rounded, exactly if a new key reaches the trigger |
| HashTable.Table.Remove | opal/class/opal_hash_table.c:416-447 | the key leaves the map; the answer tells whether it was there |
| HashTable.Table.NextFrom | opal/class/opal_hash_table.c:758-773 | the next full slot, with none skipped |
| TableRuns.Run | opal/class/opal_hash_table.c:161-447 | every run of set, get and remove answers like a finite map |
| ProcTable.Procs.Set | opal/class/opal_hash_table.c:916-936 | the two-level map is updated, with a new inner table if the job has none |
| ProcTable.Procs.Remove | opal/class/opal_hash_table.c:938-951 | the name is gone, and its job with it if that was its last |
| ProcTable.Procs.Next | opal/class/opal_hash_table.c:969-993 | the stored pair that follows in slot order, across inner tables |
| ProcTable.Procs.AllNames | opal/class/opal_hash_table.c:953-993 | first and next visit every stored pair exactly once |
| ProcTable.MapLaws | opal/class/opal_hash_table.c:904-951 | looking up after storing or removing behaves as a map on pairs |
| TableRuns.NameRun | opal/class/opal_hash_table.c:904-951 | every run on pairs of jobid and vpid answers like a finite map and never keeps an empty inner table |
| Framing.HeaderRoundTrip | contrib/build-mca-comps-outside-of-tree/btl_tcp2_hdr.h:38-56 | tag, type and size come back from the header |
| Framing.NetworkOrder | contrib/build-mca-comps-outside-of-tree/btl_tcp2_hdr.h:38-56 | the size is in network byte order: sizes compare as their bytes do |
| Framing.AdvanceIov | contrib/build-mca-comps-outside-of-tree/btl_tcp2_frag.c:131-146 | with lengths cast to int, and a last iovec of any length: as many iovecs count as complete as Passed says; what is left holds exactly the bytes not yet written unless a too long one was passed |
| Framing.DoneExact | contrib/build-mca-comps-outside-of-tree/btl_tcp2_frag.c:131-146 | the fragment counts as complete exactly if all of it was written, for every write, if and only if the payload is at most 0x7fffffff bytes |
| Framing.TooLong | contrib/build-mca-comps-outside-of-tree/btl_tcp2_frag.c:131-146 | a longer one counts as complete after any transfer of at least the header |
| Framing.AdvanceRecv | contrib/build-mca-comps-outside-of-tree/btl_tcp2_frag.c:222-240 | the same loop on the receiving side, for any lengths: as many count as complete as Passed says; for lengths an int can say, what is missing and what goes to the cache add up, and nothing is missing exactly if enough was read |
| Framing.ReadExact | contrib/build-mca-comps-outside-of-tree/btl_tcp2_frag.c:222-240 | a payload counts as complete exactly if enough was read, for every sequence of reads, if and only if it is at most 0x7fffffff bytes |
| Framing.ReadTooLong | contrib/build-mca-comps-outside-of-tree/btl_tcp2_frag.c:222-240 | a longer one counts as complete at the first read |
| Framing.Sender.FragSend | contrib/build-mca-comps-outside-of-tree/btl_tcp2_frag.c:101-147 | writes a prefix of the fragment and reports it complete exactly if the loop passes all its iovecs; with iovecs an int can measure, what was written and what is left is the fragment, and complete means all of it |
| Framing.Sender.Send | contrib/build-mca-comps-outside-of-tree/btl_tcp2.c:359-389 | for any payload a header can announce, connected or not, and whether or not it is tried at once: as long as no payload exceeds 0x7fffffff bytes, what was written and what is pending is the stream of the messages submitted |
| Framing.Sender.Connected | contrib/build-mca-comps-outside-of-tree/btl_tcp2_endpoint.c:413-432 | fragments queued while connecting become pending in order, none lost |
| Framing.Sender.SendHandler | contrib/build-mca-comps-outside-of-tree/btl_tcp2_endpoint.c:760-803 | the same after any number of pending fragments went out; it goes on until nothing is pending or the socket takes less than it is offered |
| Framing.Receiver.FragRecv | contrib/build-mca-comps-outside-of-tree/btl_tcp2_frag.c:149-285 | a fragment is complete exactly when its header and the payload it announces are there, cache or not, and the payload stays within the receive fragment; it reads unless something is cached, and stops short only if the socket gives nothing or not enough |
| Framing.Receiver.RecvHandler | contrib/build-mca-comps-outside-of-tree/btl_tcp2_endpoint.c:686-736 | delivers the next messages and returns with an empty cache; it reads at least once, and stops short only if the socket gives nothing or not enough |
| Framing.Run | contrib/build-mca-comps-outside-of-tree/btl_tcp2_frag.c:101-285 | for any submissions of payloads that a receive fragment holds, before or after the connection is up, any socket events and any cuts of the bytes, the delivered tags and payloads are a prefix of the submitted ones, and all of them once connected and drained |
| Framing.Flush | contrib/build-mca-comps-outside-of-tree/btl_tcp2_endpoint.c:760-803 | more Writable events than there are bytes write everything submitted, if the socket never refuses to take any |
| Framing.Drain | contrib/build-mca-comps-outside-of-tree/btl_tcp2_endpoint.c:686-736 | as many Readable events as there are bytes deliver every message that lies wholly in what was sent, if the socket never refuses bytes that are there |
| Framing.Settle | contrib/build-mca-comps-outside-of-tree/btl_tcp2_endpoint.c:686-803 | from any state of a connected pair enough events deliver everything submitted, if the socket always moves something when it can |
| Connect.AcceptInv | contrib/build-mca-comps-outside-of-tree/btl_tcp2_endpoint.c:338-381 | accepting or rejecting keeps the relation between endpoints and connections |
| Connect.SameConnection | contrib/build-mca-comps-outside-of-tree/btl_tcp2_endpoint.c:338-381 | in every reachable state two CONNECTED endpoints hold the two open ends of one connection |
| Connect.LowerWins | contrib/build-mca-comps-outside-of-tree/btl_tcp2_endpoint.c:338-381 | the higher-named peer never rejects a live connection of the lower-named one |
| Connect.StaysConnected | contrib/build-mca-comps-outside-of-tree/btl_tcp2_endpoint.c:439-465 | no CONNECTED endpoint finds its connection closed by the peer |
| Connect.Settles | contrib/build-mca-comps-outside-of-tree/btl_tcp2_endpoint.c:473-605 | once a connection was started, the peers come to rest only when both are CONNECTED |
| Connect.StepMeasure | contrib/build-mca-comps-outside-of-tree/btl_tcp2_endpoint.c:338-605 | every action other than a start decreases a measure, and a start adds at most five to it |
| Connect.ComesToRest | contrib/build-mca-comps-outside-of-tree/btl_tcp2_endpoint.c:338-605 | in every run the other actions number at most five for each start, so the peers come to rest |
| Interfaces.Search.Evaluate | contrib/build-mca-comps-outside-of-tree/btl_tcp2_proc.c:174-204 | the placed assignment is recorded with its rating exactly if it is rated higher than the recorded one |
| Interfaces.Search.Visit | contrib/build-mca-comps-outside-of-tree/btl_tcp2_proc.c:206-220 | the first of the highest rated completions is recorded if it is rated higher than what is recorded, and the array is restored |
| Interfaces.Search.Choose | contrib/build-mca-comps-outside-of-tree/btl_tcp2_proc.c:578-594 | the recorded permutation is rated highest of all, first by cardinality and then by total weight, and the first of those in the order of the search |
| Dijkstra.Adjacent | opal/class/opal_graph.c:387-430 | the weight of the first edge to the second vertex in the first adjacency list of the first one, 0 for equal vertices, infinity if there is no such edge or a vertex is not in the graph |
| Dijkstra.RelaxFrom | opal/class/opal_graph.c:729-742 | every item behind the settled ones takes the smaller of its weight and the 32-bit sum through the item settled last; nothing else changes, for every graph and queue |
| Dijkstra.SumsExact | opal/class/opal_graph.c:729-742 | the 32-bit sum with an edge is exact for every distance up to infinity if and only if the edge weighs at most 0x80000000 |
| Dijkstra.RelaxedGood | opal/class/opal_graph.c:729-742 | if no sum of the round wraps, relaxing from the nearest unsettled vertex keeps settled distances shortest and the others least over settled vertices |
| Dijkstra.WrapShows | opal/class/opal_graph.c:729-742 | a sum that wraps makes an item lighter than every walk to its vertex, and no later round repairs that |
| Dijkstra.RunExact | opal/class/opal_graph.c:677-754 | for every graph and every run, items of equal weight sorted in any order: the distances are shortest if and only if no sum of the run wraps |
| Dijkstra.SomeSearch | opal/class/opal_graph.c:677-754 | every graph with the source in it has a run |
| Dijkstra.HeavyWrong | opal/class/opal_graph.c:677-754 | two vertices that the source does not reach, joined by an edge of more than 0x80000000: every run returns a wrong distance |
| Dijkstra.WeightBound | opal/class/opal_graph.c:677-754 | every run on every graph with weights up to w returns shortest distances if and only if w is at most 0x80000000 |
| Dijkstra.Appended | opal/class/opal_graph.c:746-753 | at the end of every run each vertex but the source is behind it once |
| Dijkstra.Distances | opal/class/opal_graph.c:677-754 | what is appended is the end of a run: the vertices other than the source, once each; with edges of at most 0x80000000, each with the smaller of infinity and the least walk length |
| Trees.AttachLinked | opal/class/opal_tree.c:184-217 | linking an item appends it to the children of its parent and keeps all parent, sibling and child links |
| Trees.Tree.constructor | opal/class/opal_tree.c:82-111 | a constructed tree is linked and empty, and its sentinel counts -1 ancestors |
| Trees.Tree.AddChild | opal/class/opal_tree.c:184-217 | the item becomes the last child and the tree counts one more |
| Trees.Tree.PackItems | opal/class/opal_tree.c:402-445 | the bracketed stream of the item, and below the top of its later siblings too |
| Trees.Tree.Serialize | opal/class/opal_tree.c:450-465 | the stream of the subtree and the end mark |
| Trees.Tree.UnpackItems | opal/class/opal_tree.c:467-515 | reads exactly one subtree, level by level, and appends it |
| Trees.Tree.Deserialize | opal/class/opal_tree.c:520-530 | the subtree of a stream is appended below the item given and the size grows by its size |
| Trees.RoundTrip | opal/class/opal_tree.c:402-530 | a subtree sent and rebuilt below any item of any tree has the same shape, order and data, is made of new items, and nothing else changes |

## Left out

- Sockets, the event library, thread locks, malloc failure, logging and parameters: `writev` and `readv` are arbitrary transfers of bytes, and events come in any order.
- Weak memory and word size of the lock-free containers: accesses are sequentially consistent, a counted pointer is compared and set as a whole, and its counter does not wrap.
- The FIFO without 128-bit compare-and-set (opal_fifo.h, lines 185-254) and the single-threaded variants.
- Callers of the containers push only items they own; taking items from elsewhere is not modelled.
- Progress of the containers under contention: operations are shown to end when they run alone (Fifo.EndsAlone, LifoCounted.EndsAlone, LifoLocked.EndsAlone).
- CUDA, checksums, heterogeneous conversion, iovecs with a NULL base, the unpack driver and the receive-side partial element.
- Convertors.PackCalls: is about the stack machine; the shortcut for contiguous convertors, which returns before that is set up, is not modelled.
- opal_datatype_get_count, opal_datatype_resize, LB and UB markers, and the counters of basic types.
- Integer widths of the datatype engine: counts and displacements are unbounded.
- Build.Datatype.Add: asks that the bounds of the copies lie in the range of a long, because beyond it the signed arithmetic of the source is undefined, and that the type added holds data: a fresh type has the extremes of that range as its bounds, whose difference overflows, and a type without data gets bounds of its own only from opal_datatype_resize or the LB and UB markers, which are not modelled.
- Copying between overlapping buffers.
- Order of keys in the red-black tree is that of integers, which stand for places in the order of the comparison function; traversal and destruction are not modelled.
- Other key types of the hash table (64-bit and pointer keys differ only in hash and comparison), removing all entries, and the wrap of 32-bit keys.
- PUT and GET fragments, socket errors, failure and retry of connections, zero-copy use of cached payload, and the acceptance of a connection by address.
- Weighting of interface pairs by network class, and the choice made from the recorded assignment.
- Dijkstra.Distances: promises shortest distances only if no edge weighs more than 0x80000000, because that is exactly how far every run does (Dijkstra.WeightBound); the graph is a value because the search only reads it.
- Framing.Run: is about payloads that the receive fragment holds and of at most 0x7fffffff bytes; longer ones are lost track of by the source (Framing.TooLong, Framing.ReadTooLong) or written past the fragment. Headers are in network byte order.
- Framing.Receiver.FragRecv: asks that announced payloads fit the receive fragment, because the source writes past it otherwise.
- Framing.AdvanceIov: lets only the last iovec be longer than 0x7fffffff bytes, as Framing.Sender.FragSend and Framing.Sender.Send do, because behind an earlier one the source moves a pointer by a meaningless count.
- A tree's own serialize and deserialize functions: one token stands for what they write and read for an item.
- Trees.Tree.UnpackItems: reads only streams that serialize writes, and so does Trees.Tree.Deserialize; the source does not check for others.
- opal_tree_find_with, removal of tree items and subtrees, sibling ranks.
- Remaining classes (hotel, ring buffer, value and pointer arrays, list, object system, free list): they would add only easy members.
