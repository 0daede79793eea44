# Super Scalar String Sample Sort: a Dafny model

This project models the string sorters S^5 and pS^5, sequential and parallel, together with the
concurrent runtime under them: the job queue, the ticketed queue that carries its jobs, and the
event-count monitor. The sorters are proved for all inputs and all sample choices, the concurrent
parts for all interleavings of the atomic steps named below.

Strings are sequences over 1..255 with an implicit terminator. Keys are eight bytes read as a
base-256 number, padded with zeros behind the terminator. The random number generator is an
arbitrary index, `has_idle` an arbitrary answer, the library sort its specification; tree size,
thresholds, rollout width, number of parts, threads and items per page are parameters. Every sorter
assumes what the original assumes: the strings agree on the first `depth` characters.

## How it fits together

**Sequential sample sort.** `Bits`, `Strings` and `Keys` say what a comparison of packed keys means
for the strings behind them. `SplitterTree`, `TreeBuilder` and `Classifier` build the level-order
tree, its LCP bytes and its done marks from a sorted sample, and show that every form of the descent
returns the bucket of the binary search; `SplitterSpread` shows that the splitters cut the sample evenly;
`EqualDescent` does the same for the early-exit forms.
`Permute` is the in-place permutation by walking cycles, also used by `RadixSort`. `Buckets` and
`SampleSort` put this together; `EntryPoints` states the result in the caller's terms.

**Sorting with LCPs.** `LcpOutput` defines what an LCP-producing sorter delivers: a sorted permutation,
the exact LCP and distinguishing character of every position but the first, and no write elsewhere.
A set of open positions says which boundaries are still owed; each is closed by exactly one owner.
`LcpInsertionSort`, `FatPartition`, `Mkqs`, `MkqsSort`, `OutOfPlace`, `BucketLcps` and `LcpSampleSort`
meet that specification one on top of the other.

**Parallel sample sort.** `Distribution` gives every string its place independently of scheduling, and
`ParallelStep` is the state machine of the count and distribute jobs with one atomic action per step.
`TwoStacks` is the control of a job: its two stacks, the parts it gives away at idle polls, its substep
counter, and substep_all_done; a parallel step is the job that gives all its buckets away at once.
`WorkSharing` says what it can give away when a worker is idle.
`SharedMemory` and `Tasks` say what a worker finds in its range of the shared arrays (both string
arrays, LCPs, characters, cached keys), how a range is split, and what is left behind. `WorkTree` is the
machine of all workers on that memory: between taking up a task and completing an operation a worker
may write anything anywhere in its range, one write at a time, interleaved with all others.
`TaskOps` shows that the real operations do what the tasks ask for; they are verified on arrays that
hold exactly the range, so the index checks of the verifier are the proof that they read and write
nothing else. `ParallelSort` puts jobs and memory together: its steps ask for no order beyond the
control of each job, and the theorem is that the order is right and the result sorted with exact LCPs.
`Ownership` adds who owns what while that goes on, `Attainable` that every operation can keep its promise,
and `Completion` concludes that no run of the parallel sorter gets stuck: from every state that can be
reached there is a continuation to the end. `SortSteps` is the tree of substep counters by itself.

**Runtime.** `JobQueue` is termination detection by an idle count. `ConcurrentQueue` is the queue of
eight lanes with tickets, pages and presence bits; `QueueOrder` shows that it is a first-in first-out
queue to its users, as `JobQueue` takes it to be, and that no waiting is in vain; `QueueEnds` says with
what its operations return and that they can, `QueuePages` that no page is lost. `Monitor` is the event
count, with its wait set as a sequence; `Notifications` says whom each kind of notification reaches,
`WaitsEnd` that every wait can return, and `WaitRing` is the circular list that implements such a sequence.
For each of these machines the safety results are invariants of every run, and none of them can get stuck:
from every state that can be reached there is a continuation to the end.

**Nested trees.** The variant with trees hanging below equal buckets, end to end: `SubtreeBuilder` builds
them from the samples of a run, `Subtrees` fills their caches, `SubtreeSizes` counts their buckets,
`SubtreePermute` distributes stably, tree by tree, `SubtreeOrder` says what that order means, and
`SubtreeSort` is the sorter with its recursion.

**Departures.** `Departures` treats three members of the repository whose intended property fails:
each comes with a concrete input and with the exact condition under which the property does hold.

## Findings

- With the recursive builders, the in-place sample sort is correct for all inputs although splitters
  may repeat, sub-ranges of the sample may be empty and buckets may be full on arrival.
- A worker of the job queue can return while another one holds a job it has popped but not yet
  decremented the idle count for (`JobQueue.EarlyLeaver`); the queue is nevertheless empty, and every
  job has run, when all have returned.
- `TreeBuilderPreorder` (src/sequential/bingmann-sample_sort_tree_builder.hpp:38-60) never sets the done
  mark that `sample_sort_generic` looks at (src/sequential/bingmann-sample_sort.cpp:124). The sorter then
  keeps its own precondition if and only if no splitter with the terminator has two or more strings in
  its equal bucket (`Departures.PreorderCalls`); two or more copies of one string break it whatever the
  size of the tree (`Departures.FailingArray`). The end-to-end theorems are therefore about the recursive builders.
- The splitter lookup of the early-exit classifiers omits the correction by one
  (src/sequential/bingmann-sample_sortBTCE.hpp:89-94). For the first splitter it violates the assertion of
  the index function; for any other it is right if and only if the splitter equals its predecessor
  (`Departures.SplitterBefore`). The LCP results are therefore stated for the other classifiers.
- `check_order` (src/tools/stringset.hpp:283) passes the second iterator twice and accepts everything
  (`Departures.AcceptsEverything`).
- The comment at the equal-area LCP speaks of one more for the termination byte
  (src/parallel/bingmann-parallel_sample_sort.hpp:911); the code adds nothing, and the code is right.

## Model

| member | source | states |
|---|---|---|
| `EntryPoints.WholeSorted` | src/tools/stringptr.hpp:979-1026 | What the index-wise output specification of all LCP-producing sorters means for the whole array: sorted permutation, exact LCPs, first entry kept |
| `EntryPoints.SampleSortGeneric` | src/sequential/bingmann-sample_sort.cpp:40-145 | For every string array, common prefix depth, classifier variant, tree size, base-case threshold and sample choice: the array ends sorted and is a permutation of the input; termination is proved |
| `EntryPoints.SampleSortLcp` | src/parallel/bingmann-parallel_sample_sort.hpp:497-611 | Sequential: a small sort job that nobody interrupts, delivering in place; sorted permutation, every lcp[i] with i >= 1 the exact LCP of neighbours i-1 and i, lcp[0] unchanged, termination |
| `EntryPoints.SampleSortOut` | src/parallel/bingmann-parallel_sample_sort.hpp:497-611 | Sequential: the same with delivery into the shadow array, and with the exact distinguishing character of every position |
| `Keys.KeysDiffer` | src/tools/stringset.hpp:200-230 | Behind a common prefix, different 8-byte keys decide the string order both ways, and the number of equal leading key bytes is the LCP of the remaining strings |
| `Keys.KeysEqualLong` | src/parallel/bingmann-parallel_sample_sort.hpp:587 | Equal keys without terminator: the strings share eight more characters |
| `Keys.KeysEqualShort` | src/parallel/bingmann-parallel_sample_sort.hpp:576-582 | Equal keys with a zero low byte: the strings are equal and lcpKeyDepth tells their length |
| `Keys.KeysBetween` | src/parallel/bingmann-parallel_sample_sort.hpp:567-568 | Strings with keys strictly between two sample keys share the leading bytes those two have in common, and these bytes are characters |
| `Keys.LcpKeyTypeIsFirstDiff` | src/parallel/bingmann-parallel_sample_sort.hpp:209-214 | lcpKeyType (exclusive or, count high zero bits, divide by 8) is the index of the first differing byte, 8 for equal keys |
| `Keys.LcpOfDifferentKeys` | src/parallel/bingmann-parallel_sample_sort.hpp:209-214 | lcpKeyType of different keys is below 8 |
| `Keys.KeyDepthIsChars` | src/parallel/bingmann-parallel_sample_sort.hpp:216-221 | lcpKeyDepth of a key is the number of characters in it; the low byte is zero exactly when the string ends inside the key |
| `Keys.GetCharOfVal` | src/parallel/bingmann-parallel_sample_sort.hpp:223-228 | getCharAtDepth is the byte of the key at that index |
| `Keys.GetCharSimple` | src/tools/stringset.hpp:200-230 | The bytewise extractor, which stops at the terminator, returns the zero-padded big-endian key |
| `Keys.MaskedLoadAgrees` | src/tools/stringset.hpp:66-84 | The masked word load returns the same key whatever bytes stand behind the terminator |
| `Bits.XorAgreesAbove` | src/parallel/bingmann-parallel_sample_sort.hpp:212-213 | The exclusive or is below 2^k exactly when the words agree above bit k |
| `Bits.HighZeroBitsBound` | src/tools/stringtools.hpp:278-283 | The count of high zero bits is at least m exactly when the word is below 2^(w-m), zero included |
| `Bits.LowZeroBitsLocal` | src/tools/stringtools.hpp:310-315 | The count of low zero bits only depends on the low part with a one bit in it |
| `SplitterTree.InOrderSorted` | src/sequential/bingmann-sample_sort_tree_builder.hpp:103-147 | The splitters the recursive builders select are non-decreasing in order and come from the given sample range, with duplicates and empty sub-ranges |
| `SplitterSpread.UncutIsShort` | src/sequential/bingmann-sample_sort_tree_builder.hpp:103-147 | In the range a subtree is built from, samples that stand together with no splitter of the subtree at or between them are at most the 2^h-th part of the range: each of the h levels halves what can stay uncut, whatever repeats and whichever sub-ranges are empty |
| `SplitterSpread.GapsEven` | src/sequential/bingmann-sample_sort_tree_builder.hpp:97-147 | Of n sorted samples at most n / 2^k lie strictly between two neighbouring splitters, below the first, or above the last |
| `SplitterSpread.FrequentIsSplitter` | src/sequential/bingmann-sample_sort_tree_builder.hpp:110-114 | A value that more than n / 2^k of n samples have is a splitter, so its strings get a bucket of their own |
| `SplitterSpread.RootIsMedian` | src/sequential/bingmann-sample_sort_tree_builder.hpp:106-107 | The root is the middle sample: at most half of the samples are smaller, at most half larger |
| `TreeBuilder.Builder.Recurse` | src/sequential/bingmann-sample_sort_tree_builder.hpp:103-147 | One call fills exactly the nodes of its subtree, the matching stretch of the splitter array and of the LCP bytes (predecessor LCP in bytes, done mark on terminated keys) with the splitters that SplitterSpread shows to cut the range evenly, reads samples only inside the sample array, and returns the last key |
| `TreeBuilder.Builder.FindRun` | src/sequential/bingmann-sample_sort_tree_builder.hpp:111-115 | The run of samples equal to the middle one, with the source's stop one before the upper end |
| `TreeBuilder.LcpByte` | src/sequential/bingmann-sample_sort_tree_builder.hpp:127-130 | LCP and done mark occupy disjoint parts of the byte, so masking recovers both |
| `TreeBuilder.BuiltNode` | src/sequential/bingmann-sample_sort_tree_builder.hpp:119-133 | Left subtree, node and right subtree written one after the other make the subtree of the node |
| `Classifier.ClassifyTree.Build` | src/sequential/bingmann-sample_sort_tree_builder.hpp:77-96 | From any non-empty sorted sample: level-order tree and sorted splitter array agree, and splitter_lcp holds exact predecessor LCPs and done marks, with both sentinels |
| `SplitterTree.LeafSplits` | src/sequential/bingmann-sample_sortBTC.hpp:51-66 | A descent below any node separates the splitters of its subtree into those below the key and the others |
| `SplitterTree.DescentCounts` | src/sequential/bingmann-sample_sortBTC.hpp:45-72 | A full descent ends at 2^k plus the number of splitters below the key |
| `SplitterTree.BucketMeaning` | src/sequential/bingmann-sample_sortBTC.hpp:66-71 | An odd bucket holds keys equal to its splitter, an even one keys strictly between its two splitters |
| `SplitterTree.BucketOrder` | src/sequential/bingmann-sample_sortBTC.hpp:45-72 | Buckets are monotone: a smaller bucket number means a smaller key |
| `SplitterTree.BucketFromBelow` | src/sequential/bingmann-sample_sortBTC.hpp:68-69 | The equality test on one splitter completes the bucket number although splitters may repeat |
| `Classifier.ClassifyTree.FindBkt` | src/sequential/bingmann-sample_sortBTC.hpp:45-72 | The simple descent returns 2 * (splitters below the key) + [the key is a splitter] |
| `Classifier.ClassifyTree.FindBktUnroll` | src/sequential/bingmann-sample_sortBTC.hpp:197-228 | The unrolled descent returns the same bucket |
| `Classifier.ClassifyTree.FindBktInterleaved` | src/sequential/bingmann-sample_sortBTC.hpp:275-341 | Interleaved descents return the same bucket for each of their keys |
| `Classifier.ClassifyTree.GetSplitterCalc` | src/sequential/bingmann-sample_sortBTCT.hpp:97-101 | The splitter recovered from the tree by index arithmetic is the one at that place in order |
| `Classifier.ClassifyTree.FindBktCalc` | src/sequential/bingmann-sample_sortBTCT.hpp:44-70 | The descent without a splitter array returns the same bucket |
| `Classifier.FindBktBinsearch` | src/sequential/bingmann-sample_sortBS.cpp:35-64 | The binary search on the splitter array returns the same bucket |
| `SplitterTree.LevelOfPre` | src/tools/stringtools.hpp:325-349 | level_to_preorder undoes pre_to_levelorder on 1..2^k-1 |
| `SplitterTree.PreOfLevel` | src/tools/stringtools.hpp:325-349 | pre_to_levelorder undoes level_to_preorder on 1..2^k-1 |
| `SplitterTree.SplitterByIndex` | src/tools/stringtools.hpp:338-349 | pre_to_levelorder finds the node of the i-th splitter in order |
| `Classify.ClassifyAll` | src/sequential/bingmann-sample_sortBTC.hpp:345-385 | Whatever the variant and interleaving width, the cache ends with the bucket of every string |
| `EqualDescent.EqualDescentFinds` | src/sequential/bingmann-sample_sortBTCE.hpp:43-62 | The early-exit descent returns an equal bucket of a splitter equal to the key if there is one, and otherwise the bucket between its neighbours; a repeated splitter is never missed |
| `EqualDescent.NodeBucket` | src/sequential/bingmann-sample_sortBTCE.hpp:51-52 | The bucket computed from a node number is the equal bucket of the splitter at that node |
| `EqualDescent.BucketForUnique` | src/sequential/bingmann-sample_sortBTCE.hpp:43-62 | Without repeated splitters the early-exit bucket is that of the other classifiers |
| `EqualDescent.TwoBucketsFor` | src/sequential/bingmann-sample_sortBTCE.hpp:43-62 | With repeated splitters it need not be: a concrete tree of three splitters on which the descent returns bucket 3 and the other classifiers bucket 1 |
| `EqualDescent.BucketForOrder` | src/sequential/bingmann-sample_sortBTCE.hpp:43-62 | Early-exit buckets are in the order of the keys |
| `EqualDescent.FindBktEqual` | src/sequential/bingmann-sample_sortBTCE.hpp:43-62 | The loop with early return computes that descent |
| `EqualDescent.FindBktEqualUnroll` | src/sequential/bingmann-sample_sortBTCE.hpp:244-289 | The unrolled form computes the same |
| `Permute.CountBuckets` | src/sequential/bingmann-sample_sort.cpp:73-77 | Counting yields the multiplicity of every bucket number |
| `Permute.PrefixSum` | src/sequential/bingmann-sample_sort.cpp:79-86 | The inclusive prefix sum gives bucket ends, and the last non-empty bucket is identified |
| `Permute.StepBounds` | src/sequential/bingmann-sample_sort.cpp:95-99 | While a cycle is walked, the next place is free, inside the bucket of the string in hand, and inside the array |
| `Permute.WalkStep` | src/sequential/bingmann-sample_sort.cpp:95-99 | Placing one string keeps the walk's invariant |
| `Permute.WalkEnd` | src/sequential/bingmann-sample_sort.cpp:95-102 | The walk ends only with a string of the current bucket in hand, and that bucket is then complete |
| `Permute.WalkCycle` | src/sequential/bingmann-sample_sort.cpp:92-102 | One cycle: terminates, keeps strings and cached buckets paired and the multiset unchanged, completes the current bucket |
| `Permute.LastBucketInPlace` | src/sequential/bingmann-sample_sort.cpp:90 | Stopping before the last non-empty bucket is enough |
| `Permute.PermuteInPlace` | src/sequential/bingmann-sample_sort.cpp:89-103 | The in-place permutation terminates and leaves the strings in contiguous ascending buckets, none lost, nothing outside the range changed |
| `SampleSort.BucketDeeper` | src/sequential/bingmann-sample_sort.cpp:112-128 | Strings of one open bucket agree on as many more characters as the recursion skips |
| `SampleSort.BucketDone` | src/sequential/bingmann-sample_sort.cpp:124 | Strings of an equal bucket with done mark are equal |
| `SampleSort.BucketSmaller` | src/sequential/bingmann-sample_sort.cpp:56-64 | Because splitters are keys of strings being sorted, no less or greater bucket holds all strings |
| `SampleSort.LcpEntry` | src/sequential/bingmann-sample_sort.cpp:117 | The low bits of the splitter byte are the extra common prefix of both buckets next to it |
| `SampleSort.KeyBucketOrdered` | src/sequential/bingmann-sample_sort.cpp:68-71 | Strings in different buckets are in the order of their buckets |
| `SampleSort.Distribute` | src/sequential/bingmann-sample_sort.cpp:48-105 | Sampling, building, classifying, counting and permuting establish everything the recursion needs |
| `SampleSort.SampleSort` | src/sequential/bingmann-sample_sort.cpp:40-145 | Sorted permutation of the range, nothing outside written; the measure (remaining characters, number of strings) decreases in every recursive call |
| `SampleSort.RecurseBuckets` | src/sequential/bingmann-sample_sort.cpp:107-140 | Visiting the buckets in order leaves the whole range sorted |
| `Buckets.Finished` | src/sequential/bingmann-sample_sort.cpp:107-140 | Sorted buckets in ascending order of keys make a sorted range |
| `RadixSort.Run` | src/sequential/bingmann-radix_sort.hpp:56-93 | msd_CI2_run distributes by the character at depth, in place |
| `RadixSort.MsdCI2` | src/sequential/bingmann-radix_sort.hpp:95-112 | The radix sort returns a sorted permutation of its range for every threshold; termination by remaining characters |
| `RadixSort.EndedBucketSorted` | src/sequential/bingmann-radix_sort.hpp:104-105 | The skipped bucket of ended strings holds equal strings |
| `RadixSort.DeeperPrefix` | src/sequential/bingmann-radix_sort.hpp:105-109 | Strings with the same nonzero character share one more character |
| `InsertionSort.LeqFrom` | src/sequential/inssort.hpp:42-45 | The comparison loop behind a common prefix decides the string order and never reads past a terminator |
| `InsertionSort.Inssort` | src/sequential/inssort.hpp:33-50 | Insertion sort returns a sorted permutation of its range |
| `LcpInsertionSort.DecideLower` | src/sequential/bingmann-lcp_inssort.hpp:66-73 | A smaller LCP decides that the left string is smaller, without comparing characters |
| `LcpInsertionSort.DecideHigher` | src/sequential/bingmann-lcp_inssort.hpp:99 | A larger LCP decides that the left string is larger |
| `LcpInsertionSort.DecideEqual` | src/sequential/bingmann-lcp_inssort.hpp:74-82 | Equal LCPs are a common prefix to start comparing behind |
| `LcpInsertionSort.Compare` | src/sequential/bingmann-lcp_inssort.hpp:59-99 | One round of the inner loop takes the right one of the three decisions |
| `LcpInsertionSort.Insert` | src/sequential/bingmann-lcp_inssort.hpp:110-114 | Putting the string down makes all entries up to it exact again |
| `LcpInsertionSort.LcpInssort` | src/sequential/bingmann-lcp_inssort.hpp:36-186 | Sorted permutation; lcp[1..n) and the characters exact; lcp[0] and everything at or beyond n untouched |
| `LcpOutput.Boundary` | src/parallel/bingmann-parallel_sample_sort.hpp:362-364 | Between different keys, lcpKeyType and getCharAtDepth give the exact LCP and distinguishing character |
| `LcpOutput.EqualKeys` | src/parallel/bingmann-parallel_sample_sort.hpp:745-754 | Strings of one key either share eight more characters or are equal with known length |
| `LcpOutput.OneMorePart` | src/parallel/bingmann-parallel_sample_sort.hpp:997-1060 | Parts sorted by themselves, one behind the other, leave exactly their first positions open |
| `LcpOutput.CopyBack` | src/tools/stringptr.hpp:692-702 | copy_back moves the strings to the output array exactly when they are not there yet |
| `LcpOutput.FillLcp` | src/tools/stringptr.hpp:726-732 | fill_lcp makes every inner position of a range of equal strings exact and leaves the first alone |
| `LcpOutput.SetKeyBoundary` | src/parallel/bingmann-parallel_sample_sort.hpp:347-350 | set_lcp and set_cache at one boundary make it exact |
| `LcpOutput.DeliveredSorted` | src/tools/stringptr.hpp:979-1020 | Exact neighbours make a sorted sequence with an exact LCP array |
| `FatPartition.Med3` | src/parallel/bingmann-parallel_sample_sort.hpp:680-696 | med3 returns an index whose key is a median of the three |
| `FatPartition.LeftEqual` | src/parallel/bingmann-parallel_sample_sort.hpp:837-841 | The left scan keeps the five zones and the extremes when it meets the pivot |
| `FatPartition.Exchange` | src/parallel/bingmann-parallel_sample_sort.hpp:872-875 | Exchanging a larger and a smaller key keeps the zones and extremes |
| `FatPartition.Collected` | src/parallel/bingmann-parallel_sample_sort.hpp:885-896 | Exchanging equal blocks with the smaller neighbour block puts the pivot keys into the middle |
| `Mkqs.ScanBoth` | src/parallel/bingmann-parallel_sample_sort.hpp:824-876 | The main loop compares every key, swaps strings and keys alike, stays in bounds and ends with five known zones |
| `Mkqs.Collect` | src/parallel/bingmann-parallel_sample_sort.hpp:877-896 | Three contiguous parts of the computed sizes: smaller, equal, larger |
| `Mkqs.SaveLcps` | src/parallel/bingmann-parallel_sample_sort.hpp:898-920 | The saved boundary bytes are those of the extremes and the pivot |
| `Mkqs.NewStep` | src/parallel/bingmann-parallel_sample_sort.hpp:793-923 | For every input of at least three strings: strings and keys stay paired and permuted, three parts with non-empty middle, the pivot a median of nine keys, max_lt and min_gt attained extremes, boundary LCPs saved for them |
| `Mkqs.PivotIsAmongNine` | src/parallel/bingmann-parallel_sample_sort.hpp:808-812 | The pivot is one of the nine keys looked at; at least four of them are no larger, and at least four no smaller |
| `MkqsSort.InsertionSortCacheBlock` | src/parallel/bingmann-parallel_sample_sort.hpp:698-717 | Insertion sort by cached keys: keys sorted, strings move along |
| `MkqsSort.InsertionSortCache` | src/parallel/bingmann-parallel_sample_sort.hpp:719-776 | The base case: sorted with exact LCPs and characters, keys loaded or not |
| `MkqsSort.SortGroup` | src/parallel/bingmann-parallel_sample_sort.hpp:738-755 | One group of equal keys: its border entry and its inside become exact |
| `MkqsSort.LastKey` | src/parallel/bingmann-parallel_sample_sort.hpp:903-909 | After sorting, the last smaller string carries max_lt |
| `MkqsSort.FirstKey` | src/parallel/bingmann-parallel_sample_sort.hpp:914-920 | After sorting, the first larger string carries min_gt |
| `MkqsSort.CalculateLcp` | src/parallel/bingmann-parallel_sample_sort.hpp:925-938 | The saved LCPs close exactly the two borders left open |
| `OutOfPlace.Distribute` | src/parallel/bingmann-parallel_sample_sort.hpp:447-475 | Counting, inclusive sum and out-of-place moves: ascending buckets, none lost, bkt ends as exclusive boundaries |
| `BucketLcps.KeysAscend` | src/parallel/bingmann-parallel_sample_sort.hpp:339-369 | The string in front of a non-empty bucket has a smaller key than the bucket's first |
| `BucketLcps.FirstNonEmpty` | src/parallel/bingmann-parallel_sample_sort.hpp:305-337 | The search loop finds the first non-empty bucket and the key at its end |
| `BucketLcps.EndKey` | src/parallel/bingmann-parallel_sample_sort.hpp:352-353 | The key at the end of a bucket, taken from the splitter for equal buckets, is that of its last string |
| `BucketLcps.SampleSortLcp` | src/parallel/bingmann-parallel_sample_sort.hpp:295-370 | sample_sort_lcp makes every open bucket boundary exact and writes nothing else |
| `LcpSampleSort.BucketReady` | src/parallel/bingmann-parallel_sample_sort.hpp:549-569 | Every bucket, seen through the flipped arrays, meets the sorters' precondition at its depth |
| `LcpSampleSort.DoneBucket` | src/parallel/bingmann-parallel_sample_sort.hpp:576-584 | An equal bucket with done mark is copied back and filled with its common length |
| `LcpSampleSort.SortBucket` | src/parallel/bingmann-parallel_sample_sort.hpp:545-595 | One more bucket is delivered; buckets not yet visited still stand in the shadow array |
| `LcpSampleSort.FinishStep` | src/parallel/bingmann-parallel_sample_sort.hpp:482-486 | After all buckets, calculate_lcp closes the boundaries |
| `MkqsSort.SortMkqsCache` | src/parallel/bingmann-parallel_sample_sort.hpp:967-1077 | Sequential: multikey quicksort with LCPs that no idle poll interrupts; sorted permutation, exact LCPs and characters, first entry and outside untouched, termination |
| `LcpSampleSort.SortRange` | src/parallel/bingmann-parallel_sample_sort.hpp:530-611 | Sequential: sample sort over flipping arrays with multikey quicksort below, no idle poll in between; sorted permutation in the output, exact LCPs and characters, first entry untouched, both arrays unchanged outside the range |
| `Distribution.DestInjective` | src/parallel/bingmann-parallel_sample_sort.hpp:1346-1347 | No two strings of any two parts get the same place |
| `Distribution.DestInBucket` | src/parallel/bingmann-parallel_sample_sort.hpp:1313-1321 | Every string gets a place inside its bucket |
| `Distribution.BorderInclusive` | src/parallel/bingmann-parallel_sample_sort.hpp:1313-1321 | The running sum over buckets and parts is the end of each part's share of each bucket |
| `Distribution.BorderExclusive` | src/parallel/bingmann-parallel_sample_sort.hpp:1365-1367 | When everything has been moved, the boundaries of part 0 are the starts of the buckets |
| `Distribution.BorderStep` | src/parallel/bingmann-parallel_sample_sort.hpp:1346-1347 | Moving a string lowers its bucket's boundary to its place |
| `Distribution.ScatteredOnto` | src/parallel/bingmann-parallel_sample_sort.hpp:1346-1347 | Injective places inside the array take every slot |
| `Distribution.ScatteredBuckets` | src/parallel/bingmann-parallel_sample_sort.hpp:1332-1356 | Strings scattered to such places are a permutation in ascending buckets |
| `ParallelStep.StepInv` | src/parallel/bingmann-parallel_sample_sort.hpp:1286-1356 | Every atomic step of any count or distribute job keeps the invariant |
| `ParallelStep.RunInv` | src/parallel/bingmann-parallel_sample_sort.hpp:1286-1356 | The invariant holds in every state of every interleaving |
| `ParallelStep.Finished` | src/parallel/bingmann-parallel_sample_sort.hpp:1307-1367 | In every interleaving, when distribute_finished starts, count_finished and distribute_finished have been entered once, every shadow slot was written, the result is the input in ascending buckets, and bkt[0] holds the exclusive boundaries |
| `ParallelStep.Progress` | src/parallel/bingmann-parallel_sample_sort.hpp:1303-1355 | Until then some job can always go on, so no boundary underflows |
| `ParallelStep.StepLeft` | src/parallel/bingmann-parallel_sample_sort.hpp:1286-1356 | Whichever job goes on, its step leaves less to do, so no job can be kept from its end |
| `ParallelStep.EveryRunArrives` | src/parallel/bingmann-parallel_sample_sort.hpp:1240-1367 | No run is longer than parts * (2n + 4) + 3 states, and one that cannot go on has all strings distributed: count and distribute come to their end in every order of the jobs |
| `ParallelStep.SourceCutsOk` | src/parallel/bingmann-parallel_sample_sort.hpp:1244-1248 | The part limits of the source, with short and empty last parts, cover every string once |
| `ParallelStep.SourceCutsEven` | src/parallel/bingmann-parallel_sample_sort.hpp:1244-1248 | No part has more than n / parts strings, rounded up |
| `ParallelStep.EveryConfig` | src/parallel/bingmann-parallel_sample_sort.hpp:1240-1252 | The theorem applies to every string set, bucket assignment and number of parts |
| `SortSteps.StepInv` | src/parallel/bingmann-parallel_sample_sort.hpp:190-203 | Every add, create, release and notify keeps: counter = substeps alive or announced + anonymous handle |
| `SortSteps.OnceAndLast` | src/parallel/bingmann-parallel_sample_sort.hpp:198-203 | substep_all_done runs at most once per step, only after all steps below have completed, and never notifies a deleted parent |
| `SortSteps.CompletedBelow` | src/parallel/bingmann-parallel_sample_sort.hpp:1436-1447 | When a step has completed, everything below it is gone |
| `SortSteps.FiresWithTheLast` | src/parallel/bingmann-parallel_sample_sort.hpp:198-203 | A step that has released its handle has run substep_all_done if and only if no substep of it is left |
| `SortSteps.SomethingMoves` | src/parallel/bingmann-parallel_sample_sort.hpp:190-203 | As long as a step is left, some step can be started, can create the substep it counted, release its handle or finish, and leaves less to do by it: no counter gets stuck |
| `SortSteps.AllComplete` | src/parallel/bingmann-parallel_sample_sort.hpp:1369-1429 | When no thread can make a step, every step has completed exactly once: no completion is lost |
| `SortSteps.CanSplit` | src/parallel/bingmann-parallel_sample_sort.hpp:190-194 | A running step can add a substep, which is counted before it is created |
| `SortSteps.CanComplete` | src/parallel/bingmann-parallel_sample_sort.hpp:198-203 | Every run has a continuation at whose end every step has completed exactly once |
| `TwoStacks.RunInv` | src/parallel/bingmann-parallel_sample_sort.hpp:497-1145 | The invariant of both stacks, the log of parts, the jobs given away and the counter holds in every reachable state, for every answer of has_idle and every order in which other jobs notify |
| `TwoStacks.EntryAssertions` | src/parallel/bingmann-parallel_sample_sort.hpp:985-986 | The entry assertions of sort_mkqs_cache hold when it is called from the sample sort loop |
| `TwoStacks.LcpAfterParts` | src/parallel/bingmann-parallel_sample_sort.hpp:596-605 | At every calculate_lcp, of a step popped at the back or at the front, every part of the step has been sorted on the spot, has become a step whose LCPs are calculated, or was given to a job that has notified; and it is the first call for that step |
| `TwoStacks.AllDoneOnce` | src/parallel/bingmann-parallel_sample_sort.hpp:197-203 | substep_all_done is entered only when the loops have ended and no given part is open, never twice, and every decrement finds a positive counter |
| `TwoStacks.EachOnce` | src/parallel/bingmann-parallel_sample_sort.hpp:530-1145 | When the job has completed, every part of every step was dealt with exactly once, every given part has been notified, and the LCPs of every step were calculated exactly once |
| `WorkSharing.GiveStepAway` | src/parallel/bingmann-parallel_sample_sort.hpp:623-674 | The bottom step of a stack deals with every part it has left: those with something to sort are counted and given away, the others dealt with on the spot; then it is popped at the front, and every other step of both stacks stays as it is |
| `WorkSharing.SharesWork` | src/parallel/bingmann-parallel_sample_sort.hpp:607-674 | When the poll finds a worker idle, the job can do so with its lowest sample sort step, or, when none is left, with its lowest quicksort steps, min(8, all of them); it then goes on with its loop |
| `Tasks.PieceOk` | src/parallel/bingmann-parallel_sample_sort.hpp:549-593 | Every bucket, and every part around a pivot, is work of the same kind: its strings agree on the depth handed on, the marked ones to their end |
| `Tasks.PieceReady` | src/parallel/bingmann-parallel_sample_sort.hpp:551 | After a split every piece finds its strings, and its cached keys, in its part of the range |
| `Tasks.Closable` | src/parallel/bingmann-parallel_sample_sort.hpp:1438-1442 | When every piece is sorted in its own part of the range, exactly the boundaries between the pieces are owed, and everything their calculation relies on holds |
| `Tasks.Closed` | src/parallel/bingmann-parallel_sample_sort.hpp:1438-1442 | With the boundaries calculated the whole range is sorted with exact LCPs |
| `WorkTree.LiveApart` | src/parallel/bingmann-parallel_sample_sort.hpp:549-551 | Ranges that anyone may be at work on do not overlap |
| `WorkTree.StepInv` | src/parallel/bingmann-parallel_sample_sort.hpp:1130-1447 | Any write by any worker into the range it works on, and any completed operation, keeps: what waits stands where its worker will look for it, what is done stays done |
| `WorkTree.RunInv` | src/parallel/bingmann-parallel_sample_sort.hpp:1130-1447 | The same in every reachable state, for every interleaving of single writes |
| `WorkTree.RootDone` | src/parallel/bingmann-parallel_sample_sort.hpp:1480-1496 | When the whole range is done: sorted permutation, exact LCPs and characters, first entries as they were |
| `TaskOps.LeafByInsertion` | src/parallel/bingmann-parallel_sample_sort.hpp:719-776 | insertion_sort_cache on arrays that hold exactly the range, so that it reads and writes nothing else, sorts the range |
| `TaskOps.LeafOfEquals` | src/parallel/bingmann-parallel_sample_sort.hpp:576-582 | copy_back and fill_lcp, likewise, for strings of a key with terminator |
| `TaskOps.EqualPiece` | src/parallel/bingmann-parallel_sample_sort.hpp:574-583 | The marked equal bucket and the pivot's part without recursion are such strings |
| `TaskOps.SplitBySamples` | src/parallel/bingmann-parallel_sample_sort.hpp:417-480 | The constructor of the sequential sample sort step splits the range into its buckets |
| `TaskOps.SplitByPivot` | src/parallel/bingmann-parallel_sample_sort.hpp:793-923 | The constructor of the quicksort step splits the range into its three parts |
| `TaskOps.SplitInParallel` | src/parallel/bingmann-parallel_sample_sort.hpp:1258-1367 | Any interleaving of the count and distribute jobs splits the range into its buckets |
| `TaskOps.CloseBuckets` | src/parallel/bingmann-parallel_sample_sort.hpp:295-370 | sample_sort_lcp closes a range split into buckets |
| `TaskOps.CloseThirds` | src/parallel/bingmann-parallel_sample_sort.hpp:925-938 | calculate_lcp closes a range split around a pivot |
| `ParallelSort.CloseIsWork` | src/parallel/bingmann-parallel_sample_sort.hpp:1133-1145 | In every reachable state of the whole sorter, calculate_lcp begins only on a range whose pieces are all done, although its guard asks for nothing but the place of the job's control |
| `ParallelSort.NotifyEnabled` | src/parallel/bingmann-parallel_sample_sort.hpp:198-203 | A job that is over finds the counter of the job that gave it away positive |
| `ParallelSort.SysRunInv` | src/parallel/bingmann-parallel_sample_sort.hpp:1450-1496 | Every step of every job of the tree keeps the link between controls, tasks and memory |
| `ParallelSort.ParallelSampleSort` | src/parallel/bingmann-parallel_sample_sort.hpp:1480-1563 | For every run of the tree of sample sort steps and small sort jobs, every interleaving of single writes, every answer of has_idle and every order of jobs: when the first job has completed, the strings are sorted, none is lost, lcp[i] is exact for i >= 1 with its character, and lcp[0] is unchanged |
| `ParallelSort.OneJobRun` | src/parallel/bingmann-parallel_sample_sort.hpp:1480-1496 | Such runs exist: whatever one operation makes of all strings is reached by a run that completes |
| `Ownership.PartFree` | src/parallel/bingmann-parallel_sample_sort.hpp:549-606 | Every task belongs to at most one step: a part that has not been dealt with is nobody's |
| `Ownership.StepOwners` | src/parallel/bingmann-parallel_sample_sort.hpp:1450-1496 | Every step of every job keeps: tasks belong to at most one step, a step whose task is being closed has dealt with all its parts, a part that is waited for is being sorted by a job that has not ended, and splits have the kind and number of pieces that the control of the job expects |
| `Ownership.RunOwners` | src/parallel/bingmann-parallel_sample_sort.hpp:1450-1496 | The same in every reachable state |
| `Attainable.LeafExists` | src/parallel/bingmann-parallel_sample_sort.hpp:719-776 | Whatever a worker finds, the range can be left sorted with exact LCPs |
| `Attainable.CloseExists` | src/parallel/bingmann-parallel_sample_sort.hpp:295-370 | Whenever all pieces of a range are done, the LCPs between them can be completed |
| `Completion.NotWaiting` | src/parallel/bingmann-parallel_sample_sort.hpp:190-203 | The job with the highest number that has not ended does not wait for another one |
| `Completion.Continues` | src/parallel/bingmann-parallel_sample_sort.hpp:596-670 | In every reachable state in which the first job has not ended, something can be done that leaves less to do |
| `Completion.CanComplete` | src/parallel/bingmann-parallel_sample_sort.hpp:1480-1563 | However far a run has come, whatever has been written, split and given away, it can be continued until the first job has completed |
| `JobQueue.StepInv` | src/tools/jobqueue.hpp:144-177 | Every step of every worker keeps: the idle count is right, jobs are conserved, a non-empty queue has a busy worker or one about to pop |
| `JobQueue.RunInv` | src/tools/jobqueue.hpp:144-177 | The invariant holds in every reachable state |
| `JobQueue.QuietState` | src/tools/jobqueue.hpp:144-177 | When no worker is busy, the queue is empty and every job ever enqueued has run exactly once |
| `JobQueue.AllReturned` | src/tools/jobqueue.hpp:196 | The assertion behind the parallel region: all workers returned, the queue is empty, every job ran exactly once |
| `JobQueue.Effect` | src/tools/jobqueue.hpp:144-177 | Every step of a worker takes the first job of the queue in hand, records the job in hand as run, appends a new job, or leaves the jobs alone |
| `JobQueue.PopMisses` | src/tools/jobqueue.hpp:152-172 | A worker comes away from a pop without a job if and only if the queue is empty; the idle count follows its place |
| `JobQueue.LeavingState` | src/tools/jobqueue.hpp:160-168 | Whichever step brings a worker to its return: everyone counts as idle, so nobody is about to pop at the top, running a job or about to increment; a non-empty queue is owed to a worker that holds a job and has yet to decrement; without such a worker every job has run exactly once |
| `JobQueue.LeavesLast` | src/tools/jobqueue.hpp:160-168 | The same between any two neighbouring states of any run |
| `JobQueue.AlwaysGoes` | src/tools/jobqueue.hpp:144-177 | A worker that has not returned can always make a step and move on: nobody waits for another |
| `JobQueue.CanReturn` | src/tools/jobqueue.hpp:144-196 | Every run has a continuation, without further jobs, in which all workers return; every job has then run exactly once |
| `JobQueue.DecrementSafe` | src/tools/jobqueue.hpp:171-172 | The idle count never falls below zero |
| `JobQueue.EarlyLeaver` | src/tools/jobqueue.hpp:160-175 | A concrete run in which one worker has returned while another holds a popped job |
| `ConcurrentQueue.TicketBijection` | minitbb/tbb/internal/_concurrent_queue_impl.h:233 | A ticket is determined by its lane and its rounded value |
| `ConcurrentQueue.TicketInverse` | minitbb/tbb/internal/_concurrent_queue_impl.h:420-422 | Every lane and rounded value belongs to a ticket: 3k mod 8 deals the tickets round |
| `ConcurrentQueue.LinkChain` | minitbb/tbb/internal/_concurrent_queue_impl.h:251-258 | Appending a page keeps the lane's chain of pages in use |
| `ConcurrentQueue.UnlinkChain` | minitbb/tbb/internal/_concurrent_queue_impl.h:390-397 | Unlinking the finished page keeps the chain |
| `ConcurrentQueue.BumpLane` | minitbb/tbb/internal/_concurrent_queue_impl.h:268 | Raising the lane's tail counter publishes the item |
| `ConcurrentQueue.PopPageLane` | minitbb/tbb/internal/_concurrent_queue_impl.h:280-284 | The head page is the page of the ticket whose turn it is |
| `ConcurrentQueue.PopFinds` | minitbb/tbb/internal/_concurrent_queue_impl.h:290-292 | The presence bit is set and the item is the one pushed with the same ticket |
| `ConcurrentQueue.StepInv` | minitbb/tbb/internal/_concurrent_queue_impl.h:229-298 | Every atomic step of any push or pop keeps the invariant |
| `ConcurrentQueue.RunInv` | minitbb/tbb/internal/_concurrent_queue_impl.h:484-565 | The invariant holds in every reachable state, for any number of producers and consumers |
| `ConcurrentQueue.TicketsMatch` | minitbb/tbb/internal/_concurrent_queue_impl.h:539-565 | A pop delivers the item pushed with the same ticket; the head never passes the tail |
| `ConcurrentQueue.TakenOnce` | minitbb/tbb/internal/_concurrent_queue_impl.h:288-297 | No ticket is delivered twice |
| `ConcurrentQueue.PagesInUse` | minitbb/tbb/internal/_concurrent_queue_impl.h:388-402 | Whoever touches a page finds it allocated; a pop never meets a missing item |
| `ConcurrentQueue.Quiescent` | minitbb/tbb/internal/_concurrent_queue_impl.h:484-565 | When no operation is under way, exactly the tickets below the head have been delivered and those between head and tail stand on their pages |
| `QueueOrder.RefinesFifo` | minitbb/tbb/internal/_concurrent_queue_impl.h:484-565 | Every atomic step is one operation of a first-in first-out queue, or none: a push takes effect when it takes its ticket, a successful pop at its compare-and-swap; a pop without a ticket returns only by the step that finds the queue empty |
| `QueueEnds.Beginning` | minitbb/tbb/internal/_concurrent_queue_impl.h:484-489 | An operation begins with the ticket at the tail, or with the head counter as it is |
| `QueueEnds.Seeking` | minitbb/tbb/internal/_concurrent_queue_impl.h:544-564 | A pop without a ticket returns from an empty queue, goes on to its exchange, gets the ticket at the head, or, if another thread has taken that, tries again with the head counter as it is now |
| `QueueEnds.PushReturns` | minitbb/tbb/internal/_concurrent_queue_impl.h:229-271 | A push keeps its ticket and returns only when its item stands on its page, marked present, behind a raised tail counter |
| `QueueEnds.PopReturns` | minitbb/tbb/internal/_concurrent_queue_impl.h:274-297 | A pop keeps its ticket and returns only when the item pushed with that ticket has been delivered |
| `QueueEnds.Returns` | minitbb/tbb/internal/_concurrent_queue_impl.h:484-565 | All three along a run: what holds whenever any operation returns |
| `QueueEnds.CanFinish` | minitbb/tbb/internal/_concurrent_queue_impl.h:229-298 | Every run has a continuation, in which no operation is begun, to a state in which all operations have returned |
| `QueuePages.PagePasses` | minitbb/tbb/internal/_concurrent_queue_impl.h:229-401 | A page is on the chain of its lane or in the hands of the one operation that has yet to link or to free it; every step hands it on |
| `QueuePages.PagesAtRest` | minitbb/tbb/internal/_concurrent_queue_impl.h:388-401 | When no operation is under way, the allocated pages of a lane are exactly those from the next item to the last one: pages whose items are all taken have been freed |
| `QueueOrder.WaitingEnds` | minitbb/tbb/internal/_concurrent_queue_impl.h:229-298 | In every reachable state with an operation under way, some operation under way can make a step |
| `Monitor.StepInv` | minitbb/src/tbb/concurrent_monitor.cpp:36-110 | Every locked section and every semaphore operation keeps the token invariant; what a notification does is Notifications.NotifyOne, NotifyAll and NotifySome |
| `Monitor.RunInv` | minitbb/src/tbb/concurrent_monitor.cpp:36-110 | The invariant holds in every reachable state |
| `Monitor.OneToken` | minitbb/src/tbb/concurrent_monitor.cpp:54-69 | A waiter has one token, given or on its way, exactly when a notifier has taken it off and it has not consumed it; a context that left wait() is never signalled |
| `Monitor.NobodySleepsOn` | minitbb/src/tbb/concurrent_monitor.h:191-205 | When the condition was set first and notify_all is over, every committed waiter has its token |
| `Monitor.WokenOutside` | minitbb/src/tbb/concurrent_monitor.h:144-145 | A waiter that wakes has left the wait set |
| `Notifications.NotifyOne` | minitbb/src/tbb/concurrent_monitor.cpp:71-87 | Under the lock, notify_one takes exactly the first waiter off the wait set, to be signalled, and advances the epoch |
| `Notifications.NotifyAll` | minitbb/src/tbb/concurrent_monitor.cpp:90-107 | notify_all empties the wait set; everyone in it is notified and will be signalled in its order |
| `Notifications.NotifySome` | minitbb/src/tbb/concurrent_monitor.h:208-232 | notify takes off exactly the waiters its predicate accepts, to be signalled from the last to the first; the others stay in their order |
| `Notifications.DroppedOnlyEmpty` | minitbb/src/tbb/concurrent_monitor.cpp:72-73 | A notification is dropped if and only if it finds the wait set empty |
| `Notifications.FirstComeFirstServed` | minitbb/src/tbb/concurrent_monitor.cpp:46-67 | A waiter joins behind everyone; its coming and its going leave the others in their order |
| `Notifications.Delivered` | minitbb/src/tbb/concurrent_monitor.cpp:71-107 | Along a run: when a notification is over, the semaphore of everyone it was for has been raised, the first waiter for notify_one, all for notify_all, those accepted for notify |
| `Notifications.SleepsUnnotified` | minitbb/src/tbb/concurrent_monitor.h:139-152 | A waiter that has announced itself and found its condition false goes to sleep if and only if the number of notifications under the lock since then is a multiple of 2^32 |
| `WaitsEnd.NotifierGoes` | minitbb/src/tbb/concurrent_monitor.cpp:71-107 | A notification under way never has to wait |
| `WaitsEnd.WaiterGoes` | minitbb/src/tbb/concurrent_monitor.h:192-205 | When the condition is set and the notifications are over, every waiter can go on towards its return |
| `WaitsEnd.CanEnd` | minitbb/src/tbb/concurrent_monitor.h:192-205 | Every run with a notifier has a continuation in which the condition is set and every wait returns |
| `WaitRing.Ring.Add` | minitbb/src/tbb/concurrent_monitor.h:57-64 | add appends to the ring, which stays linked both ways |
| `WaitRing.Ring.Remove` | minitbb/src/tbb/concurrent_monitor.h:66-71 | remove takes the node out of the ring wherever it stands |
| `WaitRing.Ring.FlushTo` | minitbb/src/tbb/concurrent_monitor.h:73-83 | flush_to moves all elements in order to the other ring and empties this one |
| `WaitRing.Unlink` | minitbb/src/tbb/concurrent_monitor.h:69-70 | Two link writes bypass one node and keep the other links |
| `WaitRing.Rehead` | minitbb/src/tbb/concurrent_monitor.h:77-81 | Four link writes exchange the sentinel |
| `Subtrees.ClassifyString` | src/sequential/bingmann-sample_sortRBTCE.cpp:406-427 | One string leaves its bucket number in every tree on its path and in no other |
| `Subtrees.ClassifyStrings` | src/sequential/bingmann-sample_sortRBTCE.cpp:400-428 | All caches hold the bucket numbers of the strings that came through, in their order |
| `Subtrees.OneBranch` | src/sequential/bingmann-sample_sortRBTCE.cpp:126-133 | A tree lies below at most one of the trees attached to the same tree |
| `Subtrees.PassesBucket` | src/sequential/bingmann-sample_sortRBTCE.cpp:416-427 | Exactly the strings of an equal bucket go on to the tree attached to it |
| `Subtrees.CacheOfBucket` | src/sequential/bingmann-sample_sortRBTCE.cpp:416-427 | At every nesting level, entry k of a tree's cache belongs to string k of the equal bucket above it |
| `Subtrees.OwnCache` | src/sequential/bingmann-sample_sortRBTCE.cpp:411-426 | A tree's cache has one entry, its bucket, for each of its strings |
| `SubtreePermute.SizesAndIndex` | src/sequential/bingmann-sample_sortRBTCE.cpp:262-274 | calc_bktsize_prefixsum yields bucket sizes and exclusive starts |
| `SubtreePermute.DealOne` | src/sequential/bingmann-sample_sortRBTCE.cpp:281-282 | Dealing one string keeps every bucket in input order |
| `SubtreePermute.Deal` | src/sequential/bingmann-sample_sortRBTCE.cpp:279-284 | The out-of-place distribution is stable |
| `SubtreePermute.FitBelow` | src/sequential/bingmann-sample_sortRBTCE.cpp:305 | The size assertion: the attached tree's cache has as many entries as the equal bucket, and belongs to it |
| `SubtreePermute.PermuteAttached` | src/sequential/bingmann-sample_sortRBTCE.cpp:299-308 | The recursive call puts the equal bucket into the order of the attached tree and touches nothing else |
| `SubtreePermute.RecursivePermute` | src/sequential/bingmann-sample_sortRBTCE.cpp:276-313 | Permutation of the input in which strings stand in the order of their routes through all trees |
| `SubtreePermute.ClassifyAndPermute` | src/sequential/bingmann-sample_sortRBTCE.cpp:400-441 | Classification, sizes and recursive permutation together, from the trees alone |
| `SubtreeOrder.RouteDecides` | src/sequential/bingmann-sample_sortRBTCE.cpp:400-441 | Strings in route order either share their leaf or really are in string order |
| `SubtreeOrder.LeafPrefix` | src/sequential/bingmann-sample_sortRBTCE.cpp:316-360 | Strings of one leaf agree on the depth handed to the recursive sort, or are equal where it is skipped |
| `SubtreeBuilder.InOrderMoved` | src/sequential/bingmann-sample_sortRBTCE.cpp:137-165 | Which splitters are selected from a range of the samples depends on nothing outside it, although other ranges have been overwritten with deeper keys in the meantime |
| `SubtreeBuilder.Builder.Deepen` | src/sequential/bingmann-sample_sortRBTCE.cpp:121-126 | The samples of a run get the keys of their next eight characters and are sorted |
| `SubtreeBuilder.Builder.KeyNode` | src/sequential/bingmann-sample_sortRBTCE.cpp:107-135 | The byte of one splitter, and, if its run is long enough, not terminated and the list not full, a tree of the run, numbered by its place in the list and attached to this splitter |
| `SubtreeBuilder.Builder.Recurse` | src/sequential/bingmann-sample_sortRBTCE.cpp:137-165 | One call fills its subtree and its stretch of bytes and attached trees, and overwrites no sample outside its range |
| `SubtreeBuilder.BuildTree` | src/sequential/bingmann-sample_sortRBTCE.cpp:76-98 | A new tree and all trees below it: sorted splitters that are keys of strings with the common prefix, exact LCP bytes, and every attached tree attached once, deeper by eight |
| `SubtreeSizes.ViaAttached` | src/sequential/bingmann-sample_sortRBTCE.cpp:415-427 | The strings of an attached tree are those of the equal bucket it hangs below, in their order |
| `SubtreeSizes.AllSizes` | src/sequential/bingmann-sample_sortRBTCE.cpp:430-437 | The bucket sizes of all trees, each for the strings that come through it |
| `SubtreeSizes.AscendingPlaces` | src/sequential/bingmann-sample_sortRBTCE.cpp:321-363 | Strings in ascending order of their buckets stand exactly where the sizes put them |
| `SubtreeSort.BucketShares` | src/sequential/bingmann-sample_sortRBTCE.cpp:325-357 | Strings of a bucket of any of the trees agree as far as the recursion skips, with repeated splitters and early exits included |
| `SubtreeSort.SegmentAttached` | src/sequential/bingmann-sample_sortRBTCE.cpp:340-349 | After the permutation, the equal bucket with an attached tree is that tree's range in its order |
| `SubtreeSort.FirstSmaller` | src/sequential/bingmann-sample_sortRBTCE.cpp:382-391 | No bucket between splitters of the first tree takes all strings |
| `SubtreeSort.GrowTrees` | src/sequential/bingmann-sample_sortRBTCE.cpp:374-397 | From any samples, the list of trees with everything known of them |
| `SubtreeSort.ClassifyCountPermute` | src/sequential/bingmann-sample_sortRBTCE.cpp:399-444 | With the trees built from the samples: all caches, all sizes, and the permutation |
| `SubtreeSort.SortEqual` | src/sequential/bingmann-sample_sortRBTCE.cpp:333-357 | An equal bucket is left alone if marked, left to its tree, or sorted eight characters further on |
| `SubtreeSort.RecursiveSort` | src/sequential/bingmann-sample_sortRBTCE.cpp:316-364 | All buckets of one tree and of the trees below it: the range is sorted, nothing else is touched |
| `SubtreeSort.Sort` | src/sequential/bingmann-sample_sortRBTCE.cpp:369-448 | End to end, for every choice of samples: the strings of the range are sorted, none is lost, nothing else is touched, and the recursion ends |
| `Departures.BuildPreorder` | src/sequential/bingmann-sample_sort_tree_builder.hpp:38-60 | The preorder builder: equidistant samples as splitters, sorted, with exact predecessor LCPs; its bytes are the table of the other builders if and only if none of these samples contains the terminator |
| `Departures.EquidistantSpread` | src/sequential/bingmann-sample_sort_tree_builder.hpp:44-54 | The equidistant splitters are as far apart as equal steps allow: at most half a step below the first, and half a step and the remainder above the last |
| `Departures.MarksMissing` | src/sequential/bingmann-sample_sort_tree_builder.hpp:45-59 | The same of the finished table |
| `Departures.UnmarkedDepth` | src/sequential/bingmann-sample_sort.cpp:124-128 | For strings of one key: the depth passed on without a mark lies inside them if and only if the key does not contain the terminator |
| `Departures.PreorderCalls` | src/sequential/bingmann-sample_sort.cpp:107-138 | With the preorder table, every recursive call that sample_sort_generic makes, under its size guards, keeps the precondition if and only if no splitter with the terminator has two or more strings in its equal bucket |
| `Departures.FailingArray` | src/sequential/bingmann-sample_sort.cpp:122-129 | Two or more copies of any string, sorted with a preorder tree of any size at any depth from which the rest of the string fits into a key: the sorter makes a recursive call behind the end of the strings |
| `Departures.SplitterBefore` | src/sequential/bingmann-sample_sortBTCE.hpp:89-94 | For every splitter number: the lookup without the correction by one keeps the assertion of the index function and returns the splitter asked for if and only if the number is not zero and the splitter equals its predecessor |
| `Departures.WrongSplitter` | src/sequential/bingmann-sample_sortBTCE.hpp:89-94 | A tree of three different splitters for which the lookup returns the wrong one |
| `Departures.OwnIterators` | src/tools/stringset.hpp:126-135 | The intended comparison, each string at its own iterator, is the string order |
| `Departures.AcceptsEverything` | src/tools/stringset.hpp:272-287 | Record of a defect: check_order compares the second string with itself and accepts every pair, among them a pair in the wrong order |
| `Departures.CheckOrder` | src/tools/stringset.hpp:289-301 | Record of a defect: so the check of a whole set always succeeds |

## Left out

- Strings are values: moving a string copies the value, so identity and aliasing of character arrays are not captured. The string, LCP, character, key and index arrays are real arrays updated in place.
- Integer widths: sizes, indices, tickets and counters are unbounded. Keys are bounded by 2^64, node numbers live in 32-bit words and the epoch of the monitor wraps as in the source; wrap-around of 64-bit tickets is not modelled. The LCP byte is exact: LCP at most 8, mark 0x80.
- Parameters: tree size is 1 to 15 levels, which is the range of the unrolled descents; the multikey quicksort threshold is at least 3, because the median of nine reads index n - 3.
- Memory order: all shared accesses are sequentially consistent atomic steps; a section under page_mutex or mutex_ec is one step. Semaphores are abstract and binary.
- ParallelStep.Finished: a part's classification is one lookup per string in the finished classifier, which the sequential modules build; sampling of the parallel step is not repeated as a job of its own.
- ParallelSort.ParallelSampleSort: which jobs run is not decided by a queue but by any step of any job; that the queue runs every job once is JobQueue.AllReturned. A task is finished by any operation that keeps its promise; that the operations of the source do is TaskOps. Allocation of caches, of bucket arrays and of the shadow array is not modelled; the cached keys of a task stand in an array of their own at the task's range.
- WorkSharing.SharesWork: which parts have something to sort is a parameter, any set of parts; a single poll is described, not how often workers are idle.
- QueueEnds.CanFinish: some order of the operations under way brings all of them to their end; that one thread's compare-and-swap always wins in the end is not claimed, and is not so.
- WaitsEnd.CanEnd: some order of steps; fairness of the scheduler and of the semaphores is not modelled.
- Completion.CanComplete: every run can be completed, but a worker may go on writing for ever, so not every run is complete.
- TwoStacks.EachOnce: mkqs_free_work has no part index of its own for a step it gives away; the model counts the index of the step up instead.
- EntryPoints.SampleSortLcp: sequential, without idle polls; ParallelSort has the jobs, the polls and the work given away.
- EntryPoints.SampleSortOut: sequential, like EntryPoints.SampleSortLcp.
- LcpSampleSort.SortRange: sequential, the explicit stack appears as recursion; TwoStacks and ParallelSort have the stack and its polls.
- MkqsSort.SortMkqsCache: sequential, the explicit stack appears as recursion, as in LcpSampleSort.SortRange. It models the default way of saving boundary LCPs during partitioning, not the alternative that recomputes them afterwards.
- InsertionSort.Inssort: models the form over plain strings; the generic form needs at least one string and is only called with some.
- LcpInsertionSort.LcpInssort: one body serves both copies of the inner loop, whose bounds tests cannot fail in the first copy; the form without character output is the same loop with the character writes dropped.
- Classifier.ClassifyTree.Build: the unrolled forms loop where the source switches over the number of levels.
- SubtreePermute.RecursivePermute: sizes of a tree are counted once more when it is permuted; SubtreeSizes counts them for all trees, as the recursion into the buckets needs them. Each tree has the depth of its keys recorded with it, which the original finds by counting attachments.
- SubtreeBuilder.BuildTree: the strings are read as a value; the list of trees is passed on and returned; trees have at least two levels, so that a run long enough for a tree is not empty. The original fixes the number of levels by its cache size.
- Monitor.NobodySleepsOn: covers notify_all for a condition that stays set; notify_one and notify by predicate are in Notifications; abort is not modelled.
- ConcurrentQueue.RunInv: allocation succeeds and copying an item does not throw, so there are no invalid pages or invalid entries; bounded capacity, iterators, copying and clearing are not modelled.
- JobQueue.AllReturned: assist does nothing in the default group and is omitted; try_run and the NUMA loops are not modelled.
- SortSteps.AllComplete: logical completion only, not the release of the memory of steps, bucket arrays and jobs.
- Variants with the same ideas: the binary search and tree variants without index cache, the assembler descents, 16-, 32- and 128-bit keys, suffix and std::string sets, the string pointer types without LCPs.
- Plumbing: random number generator constants, statistics, memory binding, thread creation, lazy size counters, debug output.
