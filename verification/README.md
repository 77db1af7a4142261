# Two profilers, a debuginfo server and a checkpoint protocol, in Dafny

A model, with proofs, of the stateful parts of the two Valgrind 3.13 profilers
that the repository carries (Cachegrind and Callgrind), of the frames of
Valgrind's debuginfo server, and of the project's own checkpoint protocol.
Code that updates state in place is modelled by classes and methods that update
fields and arrays in place. Each such method is proved against functions on
values, and the properties of whole runs are proved about those functions.

`dafny verify dfyconfig.toml` checks everything.

## The parts

| files | what they model |
|---|---|
| `avl_tree`, `avl_map`, `iterator_stack`, `word_fm` | the WordFM finite map: AVL nodes relinked in place, and the iterator with its fixed stack |
| `profile_text`, `profile`, `profile_lines`, `profile_roundtrip`, `profile_merge`, `profile_files`, `profile_order`, `listings` | profile files: parsing, printing, merging, with one array of counts for each line |
| `qsort_spec`, `qsort_agree`, `dump_sort`, `bbcc_order` | the Bentley-McIlroy quicksort of the dump pass and its comparison |
| `lru_set`, `cache_sim`, `cache_access`, `write_back`, `cache_use` | the cache simulators: recency shuffles, accesses over two lines, dirty bits, slot pointers packed into tags |
| `events`, `event_counts`, `instrument`, `block_accesses` | the instrumentation event queue of Cachegrind, the helper calls it becomes, and what the counters then hold |
| `costs`, `call_state`, `call_runs`, `call_costs`, `call_unwind`, `block_setup`, `call_stack`, `jump_calls`, `activations`, `call_return`, `skipped_callers`, `skipped_return` | Callgrind's shadow stack, contexts and inclusive costs, from one push to the whole start of a basic block |
| `jcc_table` | the hash table of call arcs, with its two shortcuts and its resizing |
| `adler`, `frames` | Adler-32 with deferred reductions in 32-bit arithmetic, and the frames it protects |
| `checkpoint_wire`, `checkpoint` | the transfer of directories, and the protocol of snapshots around it |
| `wrappers`, `arithmetic` | `Option` and `Result`; quotients and remainders |

## What the proofs found

Where the code and what it says of itself differ, the model follows the code.

- The iterator stack of 32 slots is said to do for 2^32 entries
  (`cg_merge.c:994`). It does for every map of fewer than 9,227,464 entries, and
  `IteratorStack.SmallestOverflow` gives a run of insertions after which the
  iteration over a map of exactly that many overflows. The exact condition for
  any tree is `IteratorStack.StackSufficesIff`, and every AVL search tree is the
  result of some run (`AvlMap.EveryAvlIsReached`).
- The block swaps of the quicksort (`dump.c:974-977`) take no minimum with the
  size of the neighbouring region. The result is sorted if and only if
  `QsortSpec.SwapsFit` holds of the input; it does if no two elements tie.
  Ties are not excluded: `cs_addPtr` (`dump.c:1063-1085`) can enter a cost
  centre twice, and `BbccOrder.TiesCanBreakTheSort` gives seven cost centres
  that come out unsorted. The permutation needs no condition on ties.
- The comparison of that sort narrows differences to `int` (`dump.c:853-877`).
  The sort puts all arrays of different cost centres of a set in order if and
  only if the sign of every difference that decides survives
  (`BbccOrder.SortsAllIff`). `BbccOrder.NoOrderFits` gives three blocks of one
  function, in code that belongs to no object file, which the comparison puts in
  a circle, so that no arrangement of them is sorted.
- With `skip_direct_recursion`, a direct recursion toggles collection at only
  one of its two ends. `CallRuns.CollectParity` says exactly when a run leaves
  collection as it was, and `CallRuns.CollectCanFlip` is a run that does not;
  without the option every run does.
- The assertion at `bbcc.c:719` can fail: `SkippedReturn.AssertionCanFail` is a
  run of four blocks. It holds on every run from the start of a thread in which
  no return is taken for one from an unknown call while the top frame is a call
  into a skipped function (`SkippedCallers.RunRemembers`). Just such a return
  forgets who called the skipped function (`SkippedCallers.StepRemembers`), and
  `SkippedCallers.AssertionFailsIff` says from which states the assertion can
  fail next. The assertions after it hold from every state that keeps the
  invariant.
- A call that leaves the first known function alone on the function stack, as a
  recursive call of it or a call from it into a skipped function does, is not
  undone by its return: that is taken for a return from an unknown call, and the
  frame stays. Every other call is undone by its return
  (`CallReturn.ReturnUndoesCall`, an equivalence). The numbers of activations are
  restored, too, unless one of the two blocks counts a function anew that was
  counted zero times (`CallReturn.ReturnRestoresDepths`, an equivalence).
- Activation counts are those of the shadow stack, and every recursion level is
  right, on exactly those runs in which no return is taken for one from an unknown
  call, by another function than the first known one, while a frame with an arc is
  there (`Activations.RunFaithful`, with direct recursions counted). A recursive
  call of the first known function that returns to another one is such a case
  (`Activations.RecursionStrands`): a frame is left that holds the context of a
  function no longer on the function stack.
- `push_cxt` looks at the group of the function at the top of the function
  stack, which is a null pointer if the stack is empty (`context.c:292-293`).
  The model stops there. `CallStack.Thread.SetupBbcc` gets past this place and
  past the assertion of line 719 exactly if the first function, or a caller that
  is first seen by a return, is in no function group, and the assertion holds;
  `BlockSetup.StartsUngrouped` and `BlockSetup.GroupCanFail` are about a new
  thread.
- Counts and line numbers are printed as signed numbers (`cg_merge.c:398-439`)
  but parsed as unsigned ones, and a profile without events prints lines that
  cannot be parsed. `ProfileRoundtrip.RoundTrip` has both as an exact condition.
- A file that ends after its description lines makes the parser compare a null
  line (`cg_merge.c:658`). The model gives this the error `NullLine`, which comes
  exactly of files of nothing but description lines
  (`ProfileRoundtrip.NullLineIff`).
- `ensure_stack_size(i)` (`callstack.c:88-112`) leaves no room for entry `i`
  exactly if `i` is the size before, doubled once or more: 1000, say, for the
  initial 500 (`CallStack.NoRoomFor1000`). Its only caller asks for at most the
  size before, for which there is room.
- The server sends frames of any length, but frames of more than 4 MiB are never
  accepted by its receiving code (`valgrind-di-server.c:709`).
- A transfer that breaks after the name of a file has come leaves a truncated
  file in place of the old one; one that breaks before leaves the old one
  (`CheckpointWire.BrokenTransfer`). So a break there, and only there, loses even
  a file that both ends had (`CheckpointWire.OldFileLost`).

## Model

| member | source | states |
|---|---|---|
| AvlTree.Insert | valgrind-3.13.0/cachegrind/cg_merge.c:1064-1159 | the new subtree keeps exact balances; the reported growth is the change of its height, and an insert that reports growth leaves the root of a non-empty subtree in place, so the caller need not relink it |
| AvlTree.InsertListing | valgrind-3.13.0/cachegrind/cg_merge.c:1064-1159 | whatever rotations happen, the in-order listing after an insert is the sorted insertion into the listing before, and the displaced value is the one search finds |
| AvlTree.Remove | valgrind-3.13.0/cachegrind/cg_merge.c:1164-1249 | the new subtree keeps exact balances and the reported shrinkage is the change of its height |
| AvlTree.RemoveRoot | valgrind-3.13.0/cachegrind/cg_merge.c:1254-1288 | the same for the removal of a root, whose place its neighbour in key order takes |
| AvlTree.RemoveListing | valgrind-3.13.0/cachegrind/cg_merge.c:1164-1288 | whatever rotations happen, the listing after a removal is the listing before without the key |
| AvlTree.LiftLeftRestores | valgrind-3.13.0/cachegrind/cg_merge.c:1091-1105 | a left subtree two higher is repaired to exact balances, and the height drops by one unless the higher child was level |
| AvlTree.LiftRightRestores | valgrind-3.13.0/cachegrind/cg_merge.c:1124-1138 | the mirror image of it |
| AvlTree.LiftLeftKeepsListing | valgrind-3.13.0/cachegrind/cg_merge.c:1010-1049 | rotations and the double rotation keep the key order |
| AvlMap.InsertRefines | valgrind-3.13.0/cachegrind/cg_merge.c:1450-1464 | insertion keeps an AVL search tree, updates one binding of the map, and reports the old one |
| AvlMap.RemoveRefines | valgrind-3.13.0/cachegrind/cg_merge.c:1467-1479 | deletion keeps an AVL search tree and removes the one binding |
| AvlMap.RunRefinesMap | valgrind-3.13.0/cachegrind/cg_merge.c:1450-1479 | every run of insertions and deletions, under every lawful key order, keeps an AVL search tree that denotes the finite map of the same run |
| AvlMap.FindIsLookup | valgrind-3.13.0/cachegrind/cg_merge.c:1290-1301 | binary search finds exactly the bindings of the map |
| AvlMap.SizeAtLeastFib | valgrind-3.13.0/cachegrind/cg_merge.c:1064-1288 | a tree of height h that satisfies the balance invariant has at least Fib(h + 2) - 1 entries |
| AvlMap.ThinnestIsAvl | valgrind-3.13.0/cachegrind/cg_merge.c:1064-1288 | the Fibonacci bound is reached at every height, by an AVL search tree with different keys |
| AvlMap.EveryAvlIsReached | valgrind-3.13.0/cachegrind/cg_merge.c:1450-1464 | every AVL search tree is the result of some run of insertions, so what is shown of trees is shown of runs |
| WordFM.SwingLeft | valgrind-3.13.0/cachegrind/cg_merge.c:1010-1017 | the pointer rotation has exactly the effect of the rotation of trees, with the same nodes |
| WordFM.SwingRight | valgrind-3.13.0/cachegrind/cg_merge.c:1020-1027 | the same for the right rotation |
| WordFM.Nasty | valgrind-3.13.0/cachegrind/cg_merge.c:1030-1049 | the balances after a double rotation |
| WordFM.InsertWrk | valgrind-3.13.0/cachegrind/cg_merge.c:1064-1159 | insertion by pointer updates refines the insertion into trees: same tree, same growth report, same displaced value, no node lost or shared |
| WordFM.InsertBelowLeft | valgrind-3.13.0/cachegrind/cg_merge.c:1088-1108 | the link to a non-empty left subtree need not be rewritten when that subtree grew |
| WordFM.RemoveWrk | valgrind-3.13.0/cachegrind/cg_merge.c:1164-1249 | removal by pointer updates refines the removal from trees, and the removed node is unreachable |
| WordFM.RemoveRoot | valgrind-3.13.0/cachegrind/cg_merge.c:1254-1288 | the neighbour is found, removed from the tree, and given the fields of the root |
| WordFM.FindNode | valgrind-3.13.0/cachegrind/cg_merge.c:1290-1301 | the loop returns the node that search in the tree finds |
| WordFM.WordFM.constructor | valgrind-3.13.0/cachegrind/cg_merge.c:1397-1418 | a new map is empty |
| WordFM.WordFM.AddToFM | valgrind-3.13.0/cachegrind/cg_merge.c:1450-1464 | updates exactly one binding of the map that the object denotes |
| WordFM.WordFM.DelFromFM | valgrind-3.13.0/cachegrind/cg_merge.c:1467-1479 | removes exactly one binding, and returns its value or that there was none |
| WordFM.WordFM.LookupFM | valgrind-3.13.0/cachegrind/cg_merge.c:1482-1492 | returns the binding of the key, if there is one |
| WordFM.WordFM.StackPush | valgrind-3.13.0/cachegrind/cg_merge.c:1316-1324 | never finds the stack full in an iteration over a tree whose LeftDepth is at most 32 |
| WordFM.WordFM.StackPop | valgrind-3.13.0/cachegrind/cg_merge.c:1326-1341 | returns the top entry, with its node still in the tree |
| WordFM.WordFM.InitIterFM | valgrind-3.13.0/cachegrind/cg_merge.c:1501-1507 | everything is still to be yielded |
| WordFM.WordFM.NextIterFM | valgrind-3.13.0/cachegrind/cg_merge.c:1511-1543 | yields the first of the bindings still to come and leaves the others to come; none exactly when there is none left |
| WordFM.WordFM.Bindings | valgrind-3.13.0/cachegrind/cg_merge.c:1501-1548 | a whole iteration yields every binding once, in strictly ascending key order |
| IteratorStack.StackSufficesIff | valgrind-3.13.0/cachegrind/cg_merge.c:1501-1543 | the 32 slots suffice for a whole iteration if and only if the LeftDepth of the tree is at most 32 |
| IteratorStack.SmallMapsIterate | valgrind-3.13.0/cachegrind/cg_merge.c:994 | every map of fewer than 9,227,464 entries can be iterated |
| IteratorStack.SmallestOverflow | valgrind-3.13.0/cachegrind/cg_merge.c:994 | the bound is exact: there is a run of insertions whose map has 9,227,464 entries and whose tree needs a 33rd slot, so the comment "at most 2**32 entries" promises too much |
| IteratorStack.TurnKeepsPending | valgrind-3.13.0/cachegrind/cg_merge.c:1518-1540 | a pass of the loop that yields nothing loses and reorders nothing, makes progress, and stays within the slots |
| ProfileText.ParseULong | valgrind-3.13.0/cachegrind/cg_merge.c:464-481 | reads the longest number after white space, modulo 2^64, or fails at the first other character |
| ProfileText.SplitUp | valgrind-3.13.0/cachegrind/cg_merge.c:488-521 | succeeds on exactly the lines that hold nothing but numbers, with those numbers |
| ProfileText.ReadLine | valgrind-3.13.0/cachegrind/cg_merge.c:158-192 | returns the next line without its end, or nothing exactly at the end of the file |
| ProfileText.LinesOfText | valgrind-3.13.0/cachegrind/cg_merge.c:158-192 | lines that are written are read back |
| ProfileText.NumbersOfDecimal | valgrind-3.13.0/cachegrind/cg_merge.c:464-481 | a number below 2^64 that was printed is read back |
| ProfileRoundtrip.HandleCountsWhole | valgrind-3.13.0/cachegrind/cg_merge.c:550-604 | a line of counts keeps every cost array at the right length and the summary equal to the sum of all lines modulo 2^64; with fewer counts than events the line is refused |
| ProfileRoundtrip.ParseWhole | valgrind-3.13.0/cachegrind/cg_merge.c:612-765 | every profile that is parsed has well-formed lines and a summary that is, for every event, the sum of all lines modulo 2^64 |
| ProfileLines.ParseOkIff | valgrind-3.13.0/cachegrind/cg_merge.c:612-765 | a file is read without an error if and only if it consists of description lines, the command, the events, lines that name a file or function or have one count for every event, and at its end the right summary |
| ProfileLines.ParseSays | valgrind-3.13.0/cachegrind/cg_merge.c:699-720 | every count of every line of every function is, modulo 2^64, the sum of those in the count lines with that number after which file and function were last named so; a line is there exactly if there are such |
| ProfileLines.EventsCounted | valgrind-3.13.0/cachegrind/cg_merge.c:666-690 | as many events as the line names |
| ProfileLines.CountsLineIff | valgrind-3.13.0/cachegrind/cg_merge.c:488-521 | a line is one of numbers exactly if there are only digits and white space in it |
| ProfileLines.SpacedRead | valgrind-3.13.0/cachegrind/cg_merge.c:488-521 | numbers with spaces between them are read as they are |
| ProfileRoundtrip.NullLineIff | valgrind-3.13.0/cachegrind/cg_merge.c:631-659 | a null line is compared if and only if there are description lines and nothing else |
| ProfileRoundtrip.NullLineRead | valgrind-3.13.0/cachegrind/cg_merge.c:631-659 | such a file |
| ProfileRoundtrip.RoundTrip | valgrind-3.13.0/cachegrind/cg_merge.c:406-439 | a printed profile parses back to itself, with its summary check passing, if and only if it has an event and all line numbers, counts and totals are below 2^63; if it parses at all it parses to itself |
| ProfileRoundtrip.TextRoundTrip | valgrind-3.13.0/cachegrind/cg_merge.c:406-439 | the same through the text of the file, split into lines |
| ProfileRoundtrip.NoEventsFail | valgrind-3.13.0/cachegrind/cg_merge.c:612-765 | without an event nothing that is printed can be read |
| ProfileRoundtrip.CountsRead | valgrind-3.13.0/cachegrind/cg_merge.c:398-404 | printed counts are read back if and only if all are below 2^63, as they are printed signed |
| ProfileOrder.CmpFileFnLawful | valgrind-3.13.0/cachegrind/cg_merge.c:443-451 | the order of files and functions is a strict total order in which only equal pairs compare equal |
| ProfileOrder.CmpUnboxedUWordLawful | valgrind-3.13.0/cachegrind/cg_merge.c:453-460 | so is the order of line numbers |
| ProfileOrder.IterationLists | valgrind-3.13.0/cachegrind/cg_merge.c:406-439 | what the two iterators yield is a listing of the profile in the sense of the round trip |
| ProfileMerge.MergeAdds | valgrind-3.13.0/cachegrind/cg_merge.c:768-848 | after a merge every count of every file, function, line and event is the sum of the two before, modulo 2^64, and a line is there exactly if it was in one of them |
| ProfileMerge.MergeTotal | valgrind-3.13.0/cachegrind/cg_merge.c:768-848 | the total of a merge is the sum of the totals, for every event modulo 2^64 |
| ProfileMerge.MergeWhole | valgrind-3.13.0/cachegrind/cg_merge.c:768-848 | merging keeps the summary equal to the sum of all lines |
| ProfileMerge.MergeCommutes | valgrind-3.13.0/cachegrind/cg_merge.c:768-848 | the order of two merged files changes nothing but the description and command |
| ProfileMerge.MergeAssociates | valgrind-3.13.0/cachegrind/cg_merge.c:768-848 | the grouping of merges changes nothing |
| ProfileFiles.AddCounts | valgrind-3.13.0/cachegrind/cg_merge.c:523-530 | adds the counts of one array to another in place, modulo 2^64, and leaves the other alone |
| ProfileFiles.CopyCounts | valgrind-3.13.0/cachegrind/cg_merge.c:280-340 | the copy is a new array with the same counts |
| ProfileFiles.CacheProfFile.AddCountsToMap | valgrind-3.13.0/cachegrind/cg_merge.c:532-548 | adds to the line of a function or stores the array itself; says which, and changes nothing else |
| ProfileFiles.CacheProfFile.HandleCounts | valgrind-3.13.0/cachegrind/cg_merge.c:550-604 | reads a line of counts in place exactly as the function on values does, errors included |
| ProfileFiles.CacheProfFile.MergeFunction | valgrind-3.13.0/cachegrind/cg_merge.c:813-835 | adds or copies every line of a function that both profiles have |
| ProfileFiles.CacheProfFile.CopyFunction | valgrind-3.13.0/cachegrind/cg_merge.c:363-367 | a function that only the source has is copied into arrays of its own |
| ProfileFiles.MergeCacheProfInfo | valgrind-3.13.0/cachegrind/cg_merge.c:768-848 | the in-place merge is the merge on values, fails exactly if the events differ, leaves the source as it was, and shares no counts with it |
| ProfileFiles.ReadDesc | valgrind-3.13.0/cachegrind/cg_merge.c:629-644 | collects the leading description lines and the line after them |
| ProfileFiles.CountEvents | valgrind-3.13.0/cachegrind/cg_merge.c:678-683 | counts the places where a letter follows a space |
| ProfileFiles.ReadBody | valgrind-3.13.0/cachegrind/cg_merge.c:695-723 | reads file, function and count lines up to the summary |
| ProfileFiles.CheckSummaryLine | valgrind-3.13.0/cachegrind/cg_merge.c:733-750 | accepts a summary exactly if its numbers are the accumulated totals and nothing follows |
| ProfileFiles.ParseCacheProfFile | valgrind-3.13.0/cachegrind/cg_merge.c:612-765 | the in-place parser returns the profile or the error of the reference parser, in arrays that nothing else uses |
| QsortSpec.Qsort | valgrind-3.13.0/callgrind/dump.c:910-1010 | ends and permutes its input for every comparison that finds an element equal to itself |
| QsortSpec.PivotLeftOut | valgrind-3.13.0/callgrind/dump.c:1008-1009 | the two parts that are sorted next are together smaller than the whole |
| QsortSpec.SortsIffSwapsFit | valgrind-3.13.0/callgrind/dump.c:910-1010 | for every total preorder the result is sorted if and only if, at every level, the keys equal to the pivot at the left end are no more than the smaller ones, or there are no smaller ones |
| QsortSpec.SortsWithoutTies | valgrind-3.13.0/callgrind/dump.c:910-1010 | if no two elements compare equal the result is sorted |
| QsortSpec.FlipMoves | valgrind-3.13.0/callgrind/dump.c:974-977 | exactly where the cells of the swapped blocks go, also when the blocks overlap |
| QsortSpec.FlipRest | valgrind-3.13.0/callgrind/dump.c:974-977 | even overlapping blocks keep the low part together as a multiset |
| DumpSort.Med3Cells | valgrind-3.13.0/callgrind/dump.c:901-906 | the position of the median |
| DumpSort.InsertionSort | valgrind-3.13.0/callgrind/dump.c:916-924 | the in-place insertion sort of short arrays refines its specification |
| DumpSort.PartitionCells | valgrind-3.13.0/callgrind/dump.c:943-972 | the four-pointer loop refines the partition of the specification and touches no other cell |
| DumpSort.FlipCells | valgrind-3.13.0/callgrind/dump.c:974-977 | the in-place block swap refines its specification |
| DumpSort.Qsort | valgrind-3.13.0/callgrind/dump.c:910-1010 | the in-place sort computes the specified result in its range of the array and touches no other cell |
| BbccOrder.MyCmp | valgrind-3.13.0/callgrind/dump.c:842-879 | the lexicographic comparison of objects, files, functions, recursion level, callers and offset, narrowed to an int |
| BbccOrder.CompareIsOrder | valgrind-3.13.0/callgrind/dump.c:842-879 | without the narrowing the comparison is a total preorder |
| BbccOrder.CompareDecides | valgrind-3.13.0/callgrind/dump.c:842-879 | object, file, function, recursion level and then the objects and functions of the callers decide in the order of words, and after them the offset |
| BbccOrder.DumpGroups | valgrind-3.13.0/callgrind/dump.c:1130-1138 | in a sorted dump each object, each file in it, and each function stand together |
| BbccOrder.TiesAreEqual | valgrind-3.13.0/callgrind/dump.c:842-879 | if a function lies in one file, only equal cost centres tie |
| BbccOrder.SortForDump | valgrind-3.13.0/callgrind/dump.c:1095-1139 | the dump pass gets a permutation of its cost centres; if the signs of all deciding differences survive the narrowing, it is in order if and only if the block swaps fit, and so if no cost centre was entered twice |
| BbccOrder.SortedForDump | valgrind-3.13.0/callgrind/dump.c:1130-1138 | if all signs survive, the result is in order under the narrowed comparison exactly if it is under the true one, and exactly if the block swaps fit |
| BbccOrder.AgreeIffKept | valgrind-3.13.0/callgrind/dump.c:842-879 | the narrowed comparison says the same as the true order if and only if the signs of all deciding differences survive |
| BbccOrder.SortsAllIff | valgrind-3.13.0/callgrind/dump.c:1130-1138 | every array of different cost centres from a set is put in order if and only if all signs between them survive |
| BbccOrder.NoOrderFits | valgrind-3.13.0/callgrind/dump.c:842-879 | three blocks of one function outside all object files of which no arrangement is sorted |
| QsortAgree.QsortAgrees | valgrind-3.13.0/callgrind/dump.c:910-1011 | the sort, and whether it goes right, depend on nothing but the signs of the comparisons between elements of its input |
| BbccOrder.TiesCanBreakTheSort | valgrind-3.13.0/callgrind/dump.c:974-977 | seven cost centres, four of them equal, that the sort leaves unsorted |
| LruSet.SetIsRecencyPrefix | valgrind-3.13.0/cachegrind/cg_sim.c:88-122 | after any trace of non-zero tags a set of n ways holds the n most recently used distinct tags, in recency order, padded with zeros |
| LruSet.MissIffReuseDistance | valgrind-3.13.0/cachegrind/cg_sim.c:88-122 | a reference misses if and only if its tag is new or at least n other distinct tags were used since |
| CacheSim.BlockMissIff | valgrind-3.13.0/cachegrind/cg_sim.c:88-163 | the same in a whole cache, for the blocks that map to the same set |
| CacheSim.MoreWaysMissLess | valgrind-3.13.0/cachegrind/cg_sim.c:88-163 | on every trace, an access that hits with some associativity hits with any larger one, so misses never rise with associativity |
| CacheSim.ShortAccessFits | valgrind-3.13.0/cachegrind/cg_sim.c:125-163 | an access no longer than a line reaches the panic exactly if it runs over the end of the address space |
| CacheSim.ShuffleTags | valgrind-3.13.0/cachegrind/cg_sim.c:98-120 | the shuffle loop moves the cells before a way up one place and puts the tag in front |
| CacheSim.Cache.constructor | valgrind-3.13.0/cachegrind/cg_sim.c:54-80 | a new cache holds zero tags |
| CacheSim.Cache.SetrefIsMiss | valgrind-3.13.0/cachegrind/cg_sim.c:88-122 | the in-place reference is the move to the front of one set, leaves the others alone, and reports a miss exactly if the tag was not there |
| CacheSim.Cache.RefIsMiss | valgrind-3.13.0/cachegrind/cg_sim.c:125-163 | an access to one or two adjacent blocks, or the panic |
| CacheSim.DorefGen | valgrind-3.13.0/cachegrind/cg_sim.c:178-222 | the second level is asked exactly when the first one misses, and both counters follow |
| CacheSim.DorefNoX | valgrind-3.13.0/cachegrind/cg_sim.c:190-204 | the same for the path that looks at one block only |
| CacheSim.NoXIsGeneric | valgrind-3.13.0/cachegrind/cg_sim.c:178-234 | the fast path equals the generic one whenever the test made at instrumentation time holds |
| CacheAccess.AccessMissIff | valgrind-3.13.0/cachegrind/cg_sim.c:125-163 | an access misses if and only if the block of its first byte is missing by reuse distance, or that of its last byte is missing once the first has been referenced; both are then referenced in this order |
| CacheAccess.AccessPanicsIff | valgrind-3.13.0/cachegrind/cg_sim.c:125-163 | an access panics exactly if it covers more than two blocks |
| CacheAccess.TwoLevelMisses | valgrind-3.13.0/cachegrind/cg_sim.c:178-222 | an access misses the last level if and only if it misses the first, and the last after all accesses that got there |
| WriteBack.ErasureSteps | valgrind-3.13.0/callgrind/sim.c:248-389 | with dirty bits erased, one write-back reference is one plain reference, hit for hit |
| WriteBack.ErasureRuns | valgrind-3.13.0/callgrind/sim.c:248-389 | so are whole runs |
| WriteBack.DirtyIffWritten | valgrind-3.13.0/callgrind/sim.c:354-389 | on every run a resident line is marked dirty if and only if it was written since it was last brought in, judged by the plain cache |
| WriteBack.WriteBackIffWritten | valgrind-3.13.0/callgrind/sim.c:354-389 | a miss reports a write-back exactly if the line it throws out was written since it was brought in |
| WriteBack.DirtConserved | valgrind-3.13.0/callgrind/sim.c:354-389 | on every run dirty lines now resident plus write-backs are exactly the dirty lines at the start plus the writes that dirtied a clean line, which are at most all writes |
| WriteBack.SetrefWb | valgrind-3.13.0/callgrind/sim.c:354-389 | the in-place write-back reference refines the step on one set |
| CacheUse.ShufflePermuted | valgrind-3.13.0/callgrind/sim.c:719-746 | moving packed tags keeps the slot pointers of a set a permutation of 0 to assoc - 1 |
| CacheUse.SameHits | valgrind-3.13.0/callgrind/sim.c:687-746 | collecting use statistics does not change which references hit |
| CacheUse.UsesConserved | valgrind-3.13.0/callgrind/sim.c:937-974 | a reference is counted once, in the line it touches, and a line thrown out takes its count along |
| CacheUse.RunUseCounts | valgrind-3.13.0/callgrind/sim.c:685-974 | on every run a set hits as the plain cache does, every memory line recorded in a slot carries the tag of the one way that points there, and every reference is counted once, in a resident line or in one handed over |
| CacheUse.RunAttributes | valgrind-3.13.0/callgrind/sim.c:685-974 | on every run from unused lines, a resident line has counted exactly the references to it since it was brought in, with the union of the parts they used |
| CacheUse.UseCache.constructor | valgrind-3.13.0/callgrind/sim.c:154-171 | the cleared cache has its pointers in order and its statistics empty |
| CacheUse.UseCache.Install | valgrind-3.13.0/callgrind/sim.c:738-746 | a miss takes over the slot of the last way; the pointers stay a permutation and the other sets stay as they are |
| CacheUse.UseCache.Reference | valgrind-3.13.0/callgrind/sim.c:687-746 | hit and miss on packed tags refine the step on lines that carry their own statistics |
| CacheUse.UseCache.CountUse | valgrind-3.13.0/callgrind/sim.c:710-735 | the count and mask of the touched line, and of no other, are brought up to date |
| Events.FastIsGeneric | valgrind-3.13.0/cachegrind/cg_main.c:339-380 | a fast instruction read of a sound call counts like a generic one |
| Events.CallRunsItsOps | valgrind-3.13.0/cachegrind/cg_main.c:303-436 | running a helper call for one, two or three events is simulating these events one at a time through the generic path |
| EventCounts.AccessesCounted | valgrind-3.13.0/cachegrind/cg_main.c:303-436 | whatever runs to its end: for every line the counters of instruction reads, loads and stores grow, modulo 2^64, by the number of such accesses whose guards hold |
| EventCounts.MissesCounted | valgrind-3.13.0/cachegrind/cg_main.c:303-436 | with caches simulated, the caches have then seen exactly these accesses in order, and the counters of misses grow by the numbers of those that miss the first and the last level by reuse distance |
| EventCounts.BranchesSeen | valgrind-3.13.0/cachegrind/cg_main.c:443-462 | every branch reaches the predictors once, in order, with its condition or target |
| EventCounts.NoCachesNoMisses | valgrind-3.13.0/cachegrind/cg_main.c:303-337 | without caches an instruction read counts no miss |
| Instrument.ChoiceIsFaithful | valgrind-3.13.0/cachegrind/cg_main.c:730-860 | the call that is chosen stands for exactly the events it takes from the queue, and takes the fast path only where the test held |
| Instrument.MergedInode | valgrind-3.13.0/cachegrind/cg_main.c:732-768 | an instruction read is merged only with data of its own instruction, so the assertions there never fail |
| Instrument.CgState.FlushEvents | valgrind-3.13.0/cachegrind/cg_main.c:693-873 | the calls emitted and the requests made so far stay the same sequence of operations, and the queue is empty |
| Instrument.CgState.AddEventIr | valgrind-3.13.0/cachegrind/cg_main.c:875-892 | queues one instruction read |
| Instrument.CgState.AddEventDr | valgrind-3.13.0/cachegrind/cg_main.c:894-912 | queues one load if caches are simulated |
| Instrument.CgState.AddEventDw | valgrind-3.13.0/cachegrind/cg_main.c:914-949 | queues one store, or makes the load of the same instruction, address and size just before it a modify |
| Instrument.CgState.AddEventDGuarded | valgrind-3.13.0/cachegrind/cg_main.c:951-994 | a guarded access comes after everything queued before it, under its guard |
| Instrument.CgInstrument | valgrind-3.13.0/cachegrind/cg_main.c:1040-1351 | the output keeps the original statements in order, stands for exactly the operations of the block, and before every exit for exactly those of the statements up to it |
| Instrument.OutRunsItsTrace | valgrind-3.13.0/cachegrind/cg_main.c:303-436 | running sound output simulates exactly the operations it stands for |
| Instrument.InstrumentedBlockSimulates | valgrind-3.13.0/cachegrind/cg_main.c:1040-1351 | on every machine state the instrumented block leaves caches, counters and predictor inputs as simulating its requests one at a time does, at its end and at every exit |
| BlockAccesses.BlockCounts | valgrind-3.13.0/cachegrind/cg_main.c:1040-1351 | a block asks for exactly the accesses of its statements: one read for each mark, a load for each statement that reads, a store for each that writes, unless it modifies what was just read |
| BlockAccesses.InstrumentedBlockCounts | valgrind-3.13.0/cachegrind/cg_main.c:1040-1351 | an instrumented block that runs to its end has counted these |
| BlockAccesses.BlockBranches | valgrind-3.13.0/cachegrind/cg_main.c:1040-1351 | a block hands over the branches of its exits, in order, and then that at its end |
| BlockAccesses.ClippedTo | valgrind-3.13.0/cachegrind/cg_main.c:1040-1351 | an access of a helper is no larger than any line |
| Costs.AddDiffCostLz | valgrind-3.13.0/callgrind/events.c:377-400 | adds the progress since the last reading modulo 2^64, brings the reading up to date, allocates on first use, and says whether there was any |
| Costs.CopyCostLz | valgrind-3.13.0/callgrind/events.c:254-271 | afterwards the counters read as those of the source, where a missing array reads as zero; allocates only if there is something to copy |
| CallRuns.Run | valgrind-3.13.0/callgrind/callstack.c:186-401 | every balanced run restores frames, function stack, context, skipped caller and all activation counts, with or without direct recursion counted, through skipped calls and dumps |
| CallRuns.EnterLeaves | valgrind-3.13.0/callgrind/context.c:274-331 | a call leaves one frame that remembers the context, the height of the function stack and the skipped caller |
| CallRuns.ReturnRestores | valgrind-3.13.0/callgrind/callstack.c:314-401 | the matching return finds the assertions true and undoes the call |
| CallRuns.CollectParity | valgrind-3.13.0/callgrind/callstack.c:117-173 | after a balanced run collection is on as before if and only if the number of direct recursions toggled at one end only is even |
| CallRuns.RecursionFlips | valgrind-3.13.0/callgrind/callstack.c:117-173 | with direct recursion not counted, a first call of a toggling function that calls itself once always leaves collection switched over |
| CallRuns.CollectCanFlip | valgrind-3.13.0/callgrind/callstack.c:117-173 | such a run, from a thread that collects |
| CallRuns.CollectRestored | valgrind-3.13.0/callgrind/callstack.c:117-173 | if direct recursion is counted like other calls, collection is always restored |
| CallCosts.CostsTelescope | valgrind-3.13.0/callgrind/callstack.c:213-217 | on every run, however many dumps there are, what is booked for an arc is the cost of its finished activations from call to return plus the progress of the active ones, for every event modulo 2^64 |
| CallCosts.AllCostsBooked | valgrind-3.13.0/callgrind/callstack.c:346-355 | a thread that returns from all its calls has booked exactly the cost of its activations |
| CallCosts.DumpWritesAll | valgrind-3.13.0/callgrind/dump.c:1035-1139 | after a dump no arc holds a cost back |
| CallCosts.RunRecords | valgrind-3.13.0/callgrind/dump.c:1035-1139 | the test by which dumps choose cost centres misses none that holds a cost, on every run |
| CallUnwind.UnwindExact | valgrind-3.13.0/callgrind/callstack.c:407-437 | pops exactly the frames below the stack pointer, and of those equal to it as many as are still asked for |
| CallUnwind.UnwindStops | valgrind-3.13.0/callgrind/callstack.c:407-437 | what stays is not below the stack pointer, and still ordered |
| BlockSetup.Step | valgrind-3.13.0/callgrind/bbcc.c:561-917 | the start of a block, from any state that satisfies the invariant and past the assertion of line 719: the invariant holds again |
| BlockSetup.StepParts | valgrind-3.13.0/callgrind/bbcc.c:730-917 | the step taken apart: a return that is not past the first function pops at least one frame, as asserted, and a call that is pushed has its context saved and its source known |
| BlockSetup.StackPointersDescend | valgrind-3.13.0/callgrind/bbcc.c:743-785 | over every run of a thread without signals the stack pointers of the shadow stack never increase toward the top, and only one function can be without a known caller |
| BlockSetup.NewThreadInv | valgrind-3.13.0/callgrind/callstack.c:48-66 | a new thread satisfies the invariant |
| BlockSetup.StartsUngrouped | valgrind-3.13.0/callgrind/context.c:291-293 | a new thread gets past its first block if and only if its function is in no group |
| BlockSetup.GroupCanFail | valgrind-3.13.0/callgrind/context.c:291-293 | a first block that does not get past |
| BlockSetup.UnderflowResult | valgrind-3.13.0/callgrind/bbcc.c:487-552 | a return past the first function leaves the frames as they were, the caller as the only function, one activation more of it and one fewer of the function that was left |
| BlockSetup.NotEmulated | valgrind-3.13.0/callgrind/bbcc.c:639-726 | a call, and a return from the top frame, are never taken for anything else |
| JumpCalls.PopCountIff | valgrind-3.13.0/callgrind/bbcc.c:641-675 | a return leaves no frame exactly if the stack is below the top frame, or at it with no frame there that returns to the address; otherwise it leaves those down to the topmost that does |
| JumpCalls.JumpFrames | valgrind-3.13.0/callgrind/bbcc.c:561-917 | entering a block, other than by a return that leaves a frame, adds one frame if and only if the block is called, is the start of a function, lies in another section or object, or is reached by a return that leaves none, and no frame was below the stack; the new frame has the arc from the caller to the new cost centre, the return address and the context to go back to; otherwise just the frames below the stack are gone |
| JumpCalls.LeavesFirst | valgrind-3.13.0/callgrind/bbcc.c:700-721 | a jump that leaves its function first comes from the caller, without the top frame |
| JumpCalls.ReturnFrames | valgrind-3.13.0/callgrind/bbcc.c:746-780 | a return leaves the frames below the stack, or those down to the topmost one at the stack that returns to the address |
| JumpCalls.UnseenCallBooked | valgrind-3.13.0/callgrind/bbcc.c:487-552 | a return from a call that was not seen books what was spent since the last dump on the arc from the unseen caller, and nothing else |
| JumpCalls.ContextListed | valgrind-3.13.0/callgrind/context.c:168-265 | a context is the top of the function stack and the nearest callers, as many as the top wants and there are |
| Activations.PushSwitches | valgrind-3.13.0/callgrind/callstack.c:117-173 | collection is switched over once for every toggling function that is active, which a call keeps |
| Activations.PopSwitches | valgrind-3.13.0/callgrind/callstack.c:117-173 | and so does a return |
| Activations.StepFaithful | valgrind-3.13.0/callgrind/bbcc.c:788-858 | from a state in which activation counts are the calls on the shadow stack plus the first function and contexts are of the function on top, a block setup takes the cost centre for just that number of activations, and leads to such a state if and only if it strands no frame |
| Activations.RunFaithful | valgrind-3.13.0/callgrind/bbcc.c:561-917 | so over every run: right throughout if and only if no return strands a frame |
| Activations.RecursionStrands | valgrind-3.13.0/callgrind/bbcc.c:746-760 | a recursive call of the first known function that returns to another one strands its frame |
| CallReturn.ReturnUndoesCall | valgrind-3.13.0/callgrind/bbcc.c:561-917 | a call, skipped or not, and then the matching return, through the whole block setup, bring back frames, context, function stack and skipped caller if and only if the call did not leave the first known function alone on the function stack; otherwise the frame of the call stays |
| CallReturn.ReturnRestoresDepths | valgrind-3.13.0/callgrind/bbcc.c:561-917 | where the frame does not stay, a call and the matching return restore the number of activations of every function if and only if neither block counts its function anew |
| SkippedCallers.PopRemembers | valgrind-3.13.0/callgrind/callstack.c:314-401 | a pop keeps that the caller of every skipped function on the shadow stack is remembered |
| SkippedCallers.UnwindRemembers | valgrind-3.13.0/callgrind/callstack.c:407-437 | so does unwinding |
| SkippedCallers.PushRemembers | valgrind-3.13.0/callgrind/callstack.c:186-306 | a push keeps it, and never brings it about |
| SkippedCallers.StepRemembers | valgrind-3.13.0/callgrind/bbcc.c:561-917 | a whole block setup keeps it if and only if it is not a return taken for one from an unknown call with a skipped call on top |
| SkippedCallers.RememberedAsserts | valgrind-3.13.0/callgrind/bbcc.c:715-721 | as long as it holds the assertion that a skipped caller is remembered holds, whatever block comes next |
| SkippedCallers.RunRemembers | valgrind-3.13.0/callgrind/bbcc.c:561-917 | over every run: the callers are remembered throughout if and only if no such return happens, and then the assertion never fails |
| SkippedCallers.AssertionFailsIff | valgrind-3.13.0/callgrind/bbcc.c:678-721 | exactly the states from which some next block makes the assertion fail |
| SkippedReturn.AssertionCanFail | valgrind-3.13.0/callgrind/bbcc.c:719 | on a run of four blocks, each admissible, the assertion fails: a return from a skipped function into the first function forgets the caller that a later jump asks for |
| CallStack.Thread.constructor | valgrind-3.13.0/callgrind/callstack.c:48-66 | a new thread |
| CallStack.Thread.EnsureStackSize | valgrind-3.13.0/callgrind/callstack.c:88-112 | reallocation keeps all entries and doubles the size until it is at least i; there is room for entry i afterwards if and only if i is not the size before doubled once or more |
| CallStack.DoubledFitsIff | valgrind-3.13.0/callgrind/callstack.c:88-112 | a size doubled until it is not below i exceeds i if and only if i is none of the doubled sizes |
| CallStack.NoRoomFor1000 | valgrind-3.13.0/callgrind/callstack.c:88-112 | a request that the loop does not meet |
| CallStack.Thread.GetCxt | valgrind-3.13.0/callgrind/context.c:168-265 | reads the context off the function stack, as many callers as the top function wants |
| CallStack.Thread.PushCxt | valgrind-3.13.0/callgrind/context.c:274-331 | the in-place form refines the function on states, through the reallocation of the function stack; it stops exactly where the group of a function that is not there is looked at |
| CallStack.Thread.PushCallStack | valgrind-3.13.0/callgrind/callstack.c:186-306 | the in-place push refines the push on states |
| CallStack.Thread.PopCallStack | valgrind-3.13.0/callgrind/callstack.c:314-401 | the in-place pop refines the pop on states |
| CallStack.Thread.UnwindCallStack | valgrind-3.13.0/callgrind/callstack.c:407-437 | the loop refines the unwinding on states and returns how many frames it popped |
| CallStack.Thread.AddCounts | valgrind-3.13.0/callgrind/dump.c:1035-1061 | charges every active frame up to now |
| CallStack.Thread.PopcountOnReturn | valgrind-3.13.0/callgrind/bbcc.c:641-675 | how many frames a return leaves at least, and that it is not a return if none |
| CallStack.Thread.MakePlan | valgrind-3.13.0/callgrind/bbcc.c:639-729 | classifies the jump, and leaves the current function first if that is asked for; stops exactly where the assertion of line 719 fails |
| CallStack.Thread.HandleUnderflow | valgrind-3.13.0/callgrind/bbcc.c:487-552 | the in-place form refines the function on states, or stops with the function stack empty exactly if the caller is in a group |
| CallStack.Thread.LandOn | valgrind-3.13.0/callgrind/bbcc.c:746-780 | unwinds, handles underflow, and finds that a jump with frames popped was no call; the assertion that a return pops something holds; stops exactly if an unknown caller is in a group |
| CallStack.Thread.FindCentre | valgrind-3.13.0/callgrind/bbcc.c:788-858 | the cost centre of the block at its recursion level |
| CallStack.Thread.SetupBbcc | valgrind-3.13.0/callgrind/bbcc.c:561-917 | the in-place start of a block refines the step on states; it stops, and in which state, exactly if the assertion of line 719 fails or a group is looked at through a null pointer |
| JccTable.HashIdx | valgrind-3.13.0/callgrind/jumps.c:77-80 | the bucket is in the table |
| JccTable.FileOne | valgrind-3.13.0/callgrind/jumps.c:83-182 | a node put in front of its bucket is filed once and under its hash |
| JccTable.JccHash.constructor | valgrind-3.13.0/callgrind/jumps.c:39-53 | an empty table |
| JccTable.JccHash.Resize | valgrind-3.13.0/callgrind/jumps.c:83-129 | every node is moved to its bucket in a table of twice the size and three; none is lost |
| JccTable.JccHash.MoveChain | valgrind-3.13.0/callgrind/jumps.c:100-116 | the relinking loop moves a whole bucket |
| JccTable.JccHash.Search | valgrind-3.13.0/callgrind/jumps.c:211-219 | the walk along a bucket finds the arc exactly if it is in the table |
| JccTable.JccHash.AddToList | valgrind-3.13.0/callgrind/jumps.c:155-167 | the new arc goes in front of the list of its exit; the lists still partition the table |
| JccTable.JccHash.NewJcc | valgrind-3.13.0/callgrind/jumps.c:136-182 | one arc more, after a resize when the table is more than eight tenths full |
| JccTable.JccHash.GetJcc | valgrind-3.13.0/callgrind/jumps.c:186-233 | one node per arc, the same ever after, whether found by a shortcut, by search or made new; nothing else changes |
| Adler.FoldConcat | valgrind-3.13.0/auxprogs/valgrind-di-server.c:249-356 | checksumming chunks in turn is checksumming their concatenation |
| Adler.FoldSums | valgrind-3.13.0/auxprogs/valgrind-di-server.c:249-356 | both sums in closed form modulo 65521 |
| Adler.NmaxIsLargest | valgrind-3.13.0/auxprogs/valgrind-di-server.c:253-255 | 5552 is the largest number of bytes for which the second sum must fit 32 bits |
| Adler.BoundedFits | valgrind-3.13.0/auxprogs/valgrind-di-server.c:253-255 | up to there neither sum overflows |
| Adler.ModBy | valgrind-3.13.0/auxprogs/valgrind-di-server.c:265-292 | the chain of conditional subtractions is the remainder by 65521 |
| Adler.AddBytes | valgrind-3.13.0/auxprogs/valgrind-di-server.c:257-261 | the unrolled additions step the two sums without overflow |
| Adler.OneBlock | valgrind-3.13.0/auxprogs/valgrind-di-server.c:328-353 | up to 5552 bytes, sixteen at a time and the rest singly, then one reduction |
| Adler.Adler32 | valgrind-3.13.0/auxprogs/valgrind-di-server.c:249-356 | for any valid running value and any length the result is that of the byte-at-a-time definition in section 2.2 of RFC 1950 |
| Frames.WriteLe | valgrind-3.13.0/auxprogs/valgrind-di-server.c:375-402 | writes the bytes of a number, least significant first, and no others |
| Frames.ReadLe | valgrind-3.13.0/auxprogs/valgrind-di-server.c:384-413 | reads the number of the bytes there |
| Frames.ReadWritten | valgrind-3.13.0/auxprogs/valgrind-di-server.c:375-413 | what is written is read back |
| Frames.WriteRead | valgrind-3.13.0/auxprogs/valgrind-di-server.c:375-413 | what is read is written back |
| Frames.SendFrame | valgrind-3.13.0/auxprogs/valgrind-di-server.c:880-903 | length, checksum of length and data, data |
| Frames.ReceiveFrame | valgrind-3.13.0/auxprogs/valgrind-di-server.c:700-726 | length test, checksum test, and the data |
| Frames.SentIsReceived | valgrind-3.13.0/auxprogs/valgrind-di-server.c:700-903 | a sent frame arrives, whatever follows it, if and only if it is at most 4 MiB |
| Frames.WireSums | valgrind-3.13.0/auxprogs/valgrind-di-server.c:880-903 | the bytes of a frame: both sums over length and data in closed form, the length, and the data |
| Frames.FourBytes | valgrind-3.13.0/auxprogs/valgrind-di-server.c:375-382 | the bytes of a number |
| Frames.DamagePassesIff | valgrind-3.13.0/auxprogs/valgrind-di-server.c:700-726 | data that was replaced by other data of the same length passes if and only if both sums agree modulo 65521 |
| Frames.DamageNoticed | valgrind-3.13.0/auxprogs/valgrind-di-server.c:700-726 | no damage to a single byte passes |
| Frames.ExchangeNoticed | valgrind-3.13.0/auxprogs/valgrind-di-server.c:700-726 | no exchange of two different neighbours passes |
| Frames.ReceivedWasSent | valgrind-3.13.0/auxprogs/valgrind-di-server.c:700-726 | whatever is received is what a sender of the same data would have sent |
| Frames.ParseAsciiz | valgrind-3.13.0/auxprogs/valgrind-di-server.c:438-461 | recognizes exactly the frames built from a string, and returns that string |
| Frames.ParseNumbersIff | valgrind-3.13.0/auxprogs/valgrind-di-server.c:464-500 | taking a frame of numbers apart yields some numbers exactly if it was built from them |
| Frames.UlongAt | valgrind-3.13.0/auxprogs/valgrind-di-server.c:464-500 | where the bytes of each number are |
| CheckpointWire.CopyThroughBuffer | src/CheckPoint/CPClient.cpp:250-265 | a file goes through the 256-byte buffer unchanged |
| CheckpointWire.SendFile | src/CheckPoint/CPClient.cpp:225-267 | the header, name, length and contents of one file |
| CheckpointWire.MessageParts | src/CheckPoint/CPClient.cpp:225-267 | which bytes of a message are header, name length, length, name and contents |
| CheckpointWire.SendFiles | src/CheckPoint/CPClient.cpp:210-275 | every file of the directory once, and the end; whoever receives this, and whatever follows, has his files of the same names overridden and the others kept |
| CheckpointWire.ReceiveFiles | src/CheckPoint/CPServer.cpp:150-283 | the header loop and the file transfer of the receiving end, which truncates a file as soon as its name is known |
| CheckpointWire.ReceiveFile | src/CheckPoint/CPServer.cpp:250-283 | writes full buffers as they come, so that a broken transfer leaves a multiple of 256 bytes |
| CheckpointWire.BrokenTransfer | src/CheckPoint/CPServer.cpp:150-283 | a transfer that breaks some bytes into the message of one file leaves exactly the files before, that file cut to full buffers if its name has come and the old one if not, and all others as they were |
| CheckpointWire.BrokenEnd | src/CheckPoint/CPServer.cpp:150-283 | one that breaks in the end mark leaves all files complete |
| CheckpointWire.EveryCut | src/CheckPoint/CPServer.cpp:150-283 | every break is one of these two |
| CheckpointWire.OldFileLost | src/CheckPoint/CPServer.cpp:257-283 | a file that both ends had is lost if and only if the break comes after its name |
| CheckpointWire.TransferOverrides | src/CheckPoint/CPClient.cpp:73-153 | a completed transfer overrides the directory of the receiver with exactly the files of the sender, in whatever order the directory is read |
| Checkpoint.StepKeeps | src/CheckPoint/CPServer.cpp:150-184 | every event of the protocol keeps the invariant about directories under transfer and what was sent last |
| Checkpoint.RunKeeps | src/CheckPoint/CPServer.cpp:150-325 | so does every run |
| Checkpoint.TransfersComplete | src/CheckPoint/CPClient.cpp:73-153 | in every run a transfer that ends, in either direction, has overridden the receiver with exactly the files of the sender |
| Checkpoint.LastSetStays | src/CheckPoint/CPServer.cpp:285-325 | whatever happens in between, what the last completed SET sent stays on the server until the next one starts |
| Checkpoint.RestoreBringsBack | src/ProgIntel.cpp:285-319 | after a completed SET, the revert of the machine to its snapshot, and a completed GET of the resumed client, every file of that SET is back with its contents |
| Checkpoint.SnapshotTaken | src/CheckPoint/CPServer.cpp:285-325 | in every run there is a snapshot exactly if the user had asked when a request was served, and it is the machine when that last happened |
| Checkpoint.RunPlaces | src/CheckPoint/CPClient.cpp:73-153 | in every run a checkpointed client asks for no second checkpoint, and one that is not does not fetch, send or ask to be taken back |
| Checkpoint.CheckpointedSince | src/ProgIntel.cpp:285-319 | a client that is not taken back counts as checkpointed exactly from the first time it was told so or waited for the answer in vain |
| Checkpoint.AnsweredFetches | src/ProgIntel.cpp:285-319 | after either of the two it does nothing else until it has fetched the files of the server |

## Left out

- CacheSim.Cache.constructor: configurations are positive numbers; `initcache` computes shifts and masks from powers of two, which the model writes as divisions and remainders.
- LruSet.SetIsRecencyPrefix: tags are not zero, because a set starts with zero tags and would report a hit on them.
- CacheUse.UseCache.Reference: works on sets and tags, because `tag_mask` is computed in 32 bits (`sim.c:187`) and addresses are turned into sets and tags before; the merging of uses into the LL cache (`dep_use`) and the loss figures are not modelled, only the counts handed over.
- CacheUse.UsesConserved: the count of a line that is thrown out is always handed over; `sim.c:937-974` books it only while costs are collected.
- CacheUse.UseCache.CountUse: a miss clears the slot and then counts the first use, which the source does in one assignment.
- WriteBack.SetrefWb: compares single flat caches; in the hierarchy a write hit in D1 still touches LL (`sim.c:448-457`), so whole hierarchies differ. Tags have a clear lowest bit, which holds the dirty bit.
- Events.CallRunsItsOps: the branch predictors see the sequence of branches they are given; their tables are not modelled.
- Instrument.CgInstrument: starts at the first instruction mark of a block and knows the statements by their effect on the event queue.
- CallStack.Thread.PushCxt: contexts are values, so the context hash, which relies on hashes not colliding, is not modelled; activation counts are unbounded integers.
- CallStack.Thread.SetupBbcc: one thread and no signals; a cost centre is its block, context and recursion level, so the hash of cost centres is not modelled; skipped costs, dump and zero triggers, execution counters and jump arcs are left out.
- CallStack.Thread.HandleUnderflow: the block of the unseen caller is a parameter; its execution counter and the array of its recursion levels are left out.
- CallStack.Thread.FindCentre: a cost centre is a value, so neither the hash of cost centres nor the shortcut to the last one nor the cloning into other recursion levels is modelled.
- CallStack.Thread.EnsureStackSize: sizes are unbounded integers.
- CallCosts.CostsTelescope: without cost zeroing in between.
- JccTable.JccHash.GetJcc: the caller is known; the list of spontaneous calls is reached by no caller of `get_jcc`, which reads the shortcut of the caller.
- BbccOrder.MyCmp: objects, files and functions are known by integer addresses, in units of their size.
- BbccOrder.SortForDump: where a sign does not survive the narrowing only the permutation is promised for the array at hand; what is lost is said for sets of cost centres (`BbccOrder.SortsAllIff`).
- ProfileFiles.MergeCacheProfInfo: the WordFM objects inside a profile are maps, and the two loops take the remaining keys in any order.
- ProfileFiles.ParseCacheProfFile: text without NUL characters; allocation failures, file names and line numbers of error messages are left out.
- Adler.Adler32: the two halves of the running value are below 65521, as every checksum's are; the split and the recombination by shifts are written with division and addition.
- Frames.ReceiveFrame: reads deliver all bytes that were sent; the poll loop, CRC-32, LZO compression and the requests themselves are left out.
- CheckpointWire.SendFiles: file names of at most 255 bytes and files of less than 4 GiB, which is what the format has room for.
- Checkpoint.RunKeeps: sockets and `select` are left out; the answer to a checkpoint request, its timeout and the order of files are arbitrary; a snapshot is the state of the client, and a revert brings it back.
- The cache tweak of `cg_arch.c` and the event-set tables of `events.c` are not modelled.
- `dopyFM`, `sizeFM`, deallocation, the walk of `cg_merge` over its arguments, option parsing, and the TensorFlow and Python glue are not modelled.
