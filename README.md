# algo2: knapsack and k-clustering, modelled in Dafny

This project models three crates of the `algo2` repository of algorithm exercises:

- `knapsack_big` is a memoized 0/1 knapsack solver.
  - `Item::new` is the constructor of the datatype `KnapsackBig.Item`.
  - `Item::from_line` reads an item from a line of text.
  - `caching_knapsack` recurses over item prefixes. It caches results per prefix length and residual capacity, in an array of hash maps that it updates in place. The model has a method over an `array<map<nat, int>>`, proved to return the value of the function `Recurrence`. Lemmas prove that `Recurrence` is always achieved by a selection that fits. When the first item's value is not negative, they also prove it optimal and monotone in capacity; without that condition the one-item base case breaks both (see "## Findings"). Further lemmas give the answer at capacity 0 and the concrete answers of the crate's two in-memory tests.
  - `knapsack` allocates the caches and calls `caching_knapsack`.
- `knapsack` has the same `Item::from_line`, with an `i32` weight, and a `knapsack` that is still a stub returning 2.
- `k_clusterings` does single-link clustering in Kruskal style.
  - `Graph` is a class whose vertex list `build` extends in place.
  - `split_line` parses a line of numbers.
  - Edges are ordered and compared by cost alone.
  - `update_leaders` relabels in place, recursively.
  - `cluster_spacing` collects the edges, sorts them stably, and scans them while merging clusters in a forest `t`.

The Rust `str` operations these crates use are modelled in `RustStr`: `split(" ")`, `trim()` and `parse::<i32>()`. That module also holds the decimal rendering of an `i32`, which serves as the inverse of parsing.

A panic is modelled as an `Err` result naming its kind:
- a token that fails to parse;
- an index past the end of a vector;
- a `usize` subtraction below zero;
- recursion that never ends.

Integer widths:
- `i32` and `usize` values are unbounded integers and naturals.
- The casts that matter are written out: `i32 as usize` wraps modulo 2^64 and `usize as i32` takes the low 32 bits.

The recursion of `update_leaders` has no visited check. Each call is therefore given a depth bound equal to the number of vertices of the forest (`fuel`). Running out of that bound stands for the stack overflow of a recursion that follows a cycle.

Module `SingleLink` holds the clustering the scan evidently intends, with one leader per vertex. Module `SpacingExamples` holds a five-vertex graph on which the code as written and the intended clustering disagree; see "## Findings".

The memoized solver departs from the textbook 0/1 knapsack in four ways:
- An empty catalogue does not answer 0: `items.len() - 1` underflows and panics. The model follows the code.
- The recursion runs over prefixes, and the cache slot for a prefix of length `k` is `k - 1`. The model follows the code.
- Values are summed as `i32`. The model adds unbounded integers instead (see "## Left out").
- A negative weight is not rejected: `from_line` casts it to a huge `usize`. The model follows the code.

## Model

| member | source | states |
|---|---|---|
| RustStr.JoinSplit | knapsack/src/lib.rs:10 | splitting on a character loses nothing: joining the pieces with it gives the line back |
| RustStr.SplitJoin | k_clusterings/src/lib.rs:60 | pieces free of the separator, joined and split again, come back unchanged |
| RustStr.Trim | k_clusterings/src/lib.rs:62 | `trim` gives a contiguous part of the string with only whitespace before and after it, and no whitespace at either of its ends, so exactly the leading and trailing whitespace is removed; a string without whitespace is kept as it is |
| RustStr.Split | knapsack/src/lib.rs:10 | `split(" ")` gives at least one piece, and no piece holds the separator |
| RustStr.ParseI32 | knapsack/src/lib.rs:12 | `parse::<i32>` yields only values in the `i32` range, and only for a non-empty token that starts with a digit or a sign |
| RustStr.ParseI32Accepts | knapsack/src/lib.rs:12 | an optional `+` or `-` followed by one or more ASCII digits parses to the signed value of the digits when that is an `i32`, and fails otherwise |
| RustStr.ParseI32Rejects | knapsack/src/lib.rs:12 | an empty token, a bare sign, or a token with a non-digit after its optional sign does not parse |
| RustStr.ParseI32PlusExample | knapsack/src/lib.rs:12 | "+5" parses to 5 |
| RustStr.ParseI32ZerosExample | knapsack/src/lib.rs:12 | "007" parses to 7 |
| RustStr.ParseI32MinusExample | knapsack/src/lib.rs:12 | "-12" parses to -12 |
| RustStr.ParseI32RejectedExamples | knapsack/src/lib.rs:12 | " 5", "-" and "1x" do not parse |
| RustStr.ParseFormatI32 | knapsack/src/lib.rs:12 | parsing undoes the decimal rendering for every `i32` |
| Knapsack.FromLine | knapsack/src/lib.rs:9-16 | succeeds exactly when the line has at least two space-separated pieces and both of the first two parse; the item holds their values. A lone number panics on the missing `ns[1]` (index error); every other failure is a bad field, which panics with "Invalid input" |
| Knapsack.FromLineRoundTrip | knapsack/src/lib.rs:9-16 | two rendered `i32`s separated by a space read back as value and weight, whatever further pieces follow |
| Knapsack.FromLineSingleField | knapsack/src/lib.rs:15 | a line holding one number panics on the index `ns[1]` |
| Knapsack.FromLineBadFirstField | knapsack/src/lib.rs:12 | a first field that does not parse panics with the invalid-input error, whatever follows |
| Knapsack.FromLineFirstExample | knapsack/src/lib.rs:28-37 | "10 12" reads as value 10, weight 12 |
| Knapsack.FromLineSecondExample | knapsack/src/lib.rs:28-37 | "923 2006" reads as value 923, weight 2006 |
| Knapsack.Knapsack | knapsack/src/lib.rs:19-21 | the stub answers 2 for every catalogue and capacity |
| KnapsackBig.UsizeOfI32 | knapsack_big/src/lib.rs:25 | `ns[1] as usize` is congruent to the `i32` modulo 2^64, below 2^64, and unchanged when not negative |
| KnapsackBig.FromLine | knapsack_big/src/lib.rs:19-26 | same outcome and panics as the `knapsack` crate's parser; the weight is the parsed `i32` taken modulo 2^64, a value below 2^64 |
| KnapsackBig.FromLineRoundTrip | knapsack_big/src/lib.rs:19-26 | a rendered value and non-negative weight read back as the item |
| KnapsackBig.FromLineNegativeWeight | knapsack_big/src/lib.rs:25 | a negative weight `w` becomes 2^64 + w |
| KnapsackBig.FromLineExamples | knapsack_big/src/lib.rs:94-103 | the two lines of the `representation` test read as (10, 12) and (923, 2006) |
| KnapsackBig.Recurrence | knapsack_big/src/lib.rs:61-81 | the value `caching_knapsack` computes for a prefix and a capacity: at least the first item's value when that item fits, and never negative when that value is not |
| KnapsackBig.RecurrenceAchieved | knapsack_big/src/lib.rs:61-81 | the value computed is the value of a selection of items whose weight fits the capacity |
| KnapsackBig.RecurrenceOptimal | knapsack_big/src/lib.rs:61-81 | when the first item's value is not negative, no selection that fits is worth more |
| KnapsackBig.RecurrenceMonotone | knapsack_big/src/lib.rs:61-81 | more capacity never lowers the value (first item's value not negative) |
| KnapsackBig.RecurrenceTakesAll | knapsack_big/src/lib.rs:61-81 | with room for every item and no negative value, the answer is the sum of all values |
| KnapsackBig.OnlySelected | knapsack_big/src/lib.rs:61-81 | the selection of one item weighs and is worth exactly that item |
| KnapsackBig.SelectedAtMostTotal | knapsack_big/src/lib.rs:61-81 | with no negative value, no selection is worth more than all the items |
| KnapsackBig.RecurrenceZeroCapacity | knapsack_big/src/lib.rs:61-81 | with no negative value, the answer at capacity 0 is the total value of the items that weigh nothing |
| KnapsackBig.SingleItem | knapsack_big/src/lib.rs:61-66 | one item (10, 12) is worth 0 at capacity 5, where it does not fit, and 10 at capacity 12 |
| KnapsackBig.RecurrenceBounds | knapsack_big/src/lib.rs:61-81 | with no negative value, the answer is at most the sum of all values and at least any single item that fits |
| KnapsackBig.BestAchieved | knapsack_big/src/lib.rs:61-81 | corrected recurrence (empty prefix as base case): achieved by a selection that fits |
| KnapsackBig.BestOptimal | knapsack_big/src/lib.rs:61-81 | corrected recurrence: no selection that fits beats it, whatever the signs of the values |
| KnapsackBig.RecurrenceIsBest | knapsack_big/src/lib.rs:61-81 | the code's recurrence and the corrected one agree whenever the first item's value is not negative |
| KnapsackBig.NegativeFirstItemTaken | knapsack_big/src/lib.rs:61-66 | for one item of value -1 and weight 0 at capacity 0, the code answers -1 while taking nothing is worth 0, the corrected value |
| KnapsackBig.Knapsack1 | knapsack_big/src/lib.rs:105-113 | four items at capacity 5 give 13 |
| KnapsackBig.Knapsack2 | knapsack_big/src/lib.rs:115-125 | ten items at capacity 40 give 45 |
| KnapsackBig.CacheAgreesPrefix | knapsack_big/src/lib.rs:68-71 | a cache right for all the items is right for any prefix of them |
| KnapsackBig.CacheAgreesInsert | knapsack_big/src/lib.rs:79 | storing the right value in the slot of the whole prefix keeps the cache right |
| KnapsackBig.CachingKnapsack | knapsack_big/src/lib.rs:56-86 | returns the recurrence's value. A cache hit in slot `len - 1` answers the stored entry and changes nothing. Otherwise, for two or more items, slot `len - 1` gains exactly `weight ↦ result`. Lower slots only gain entries, all agreeing with the recurrence. Higher slots are untouched |
| KnapsackBig.Knapsack | knapsack_big/src/lib.rs:45-54 | no items: the subtraction `items.len() - 1` underflows and panics; otherwise the recurrence's value over all items |
| KClusterings.Cmp | k_clusterings/src/lib.rs:27-37 | edges compare `Less` exactly when cheaper and `Greater` exactly when dearer, by cost alone |
| KClusterings.EdgeEq | k_clusterings/src/lib.rs:39-43 | two edges are equal exactly when `cmp` answers `Equal`: by cost, ignoring head and tail |
| KClusterings.CmpIsTotalOrder | k_clusterings/src/lib.rs:27-45 | comparing the other way round reverses the answer, `Equal` coincides with `eq` (cost only), and the order is transitive |
| KClusterings.Graph.constructor | k_clusterings/src/lib.rs:49-51 | a new graph has no vertices |
| KClusterings.Graph.Build | k_clusterings/src/lib.rs:53-57 | appends vertices 0 to size-1, each labelled and led by its index, unexplored and edgeless; a size of 0 or less appends nothing |
| KClusterings.FreshVertices | k_clusterings/src/lib.rs:53-57 | `build(size)` makes `size` vertices (none when `size` is 0 or less), vertex `i` labelled and led by `i`, unexplored and without edges |
| KClusterings.Graph.SplitLine | k_clusterings/src/lib.rs:59-69 | succeeds exactly when every space-separated piece, trimmed, parses as an `i32`, and then yields those numbers in order; otherwise panics with "Invalid" |
| KClusterings.SplitLineRoundTrip | k_clusterings/src/lib.rs:59-69 | a line of rendered `i32`s separated by single spaces reads back as the same numbers |
| KClusterings.ItWorks | k_clusterings/src/lib.rs:151-165 | the `it_works` test: after `build(2)` and an edge of cost 10 each way, vertex 1 has label and leader 1, and the first edge of vertex 0 costs 10 and leads to the vertex labelled 1 |
| KClusterings.ParsesToUnique | k_clusterings/src/lib.rs:59-69 | the pieces determine the numbers they parse to |
| KClusterings.RelabelFrom | k_clusterings/src/lib.rs:101-109 | `update_leaders` on values, the depth bound standing for the call stack: on success the vertex list keeps its length; what it changes is stated by RelabelFromReaches |
| KClusterings.UpdateLeaders | k_clusterings/src/lib.rs:101-109 | the in-place recursion succeeds, fails with the same panic, and leaves the vertex list RelabelFrom describes |
| KClusterings.RelabelAll | k_clusterings/src/lib.rs:106-108 | the `for t in tails` loop, one recursive call per tail in order: on success the vertex list keeps its length; what it changes is stated by RelabelAllReaches |
| KClusterings.RelabelAllFailureStays | k_clusterings/src/lib.rs:106-108 | once a recursive call for a tail fails, the loop over the tails fails with that panic |
| KClusterings.TwoCycleOverflows | k_clusterings/src/lib.rs:101-109 | two vertices whose edges lead only to each other exhaust any depth: the recursion never returns |
| KClusterings.RelabelFromReaches | k_clusterings/src/lib.rs:101-109 | on success exactly the vertices reachable from `start` along edge tails get the new leader, and nothing else changes |
| KClusterings.RelabelAllReaches | k_clusterings/src/lib.rs:106-108 | the loop over the tails relabels exactly what is reachable from some tail |
| KClusterings.ReachFromSameEdges | k_clusterings/src/lib.rs:104 | what is reachable depends on the edge lists only, not on the leaders |
| KClusterings.RelabelledTwice | k_clusterings/src/lib.rs:106-108 | relabelling two sets in turn with the same leader relabels their union |
| KClusterings.RelabelFromKeepsEdges | k_clusterings/src/lib.rs:101-109 | `update_leaders` never changes an edge list |
| KClusterings.AllEdges | k_clusterings/src/lib.rs:119-123 | the graph's edges vertex by vertex, each vertex's in storage order; its properties are stated by AllEdgesMembers and CollectEdges |
| KClusterings.AllEdgesMembers | k_clusterings/src/lib.rs:119-123 | an edge is collected exactly when some vertex stores it |
| KClusterings.AddEdge | k_clusterings/src/lib.rs:138 | the push onto the head's edge list: the list gains the edge at its end, and nothing else changes (every vertex keeps its label, explored flag and leader, every other vertex its edge list, and the vertex list its length) |
| KClusterings.AllEdgesAddEdge | k_clusterings/src/lib.rs:138 | pushing an edge onto its head's list adds exactly that edge to the graph's edges |
| KClusterings.AllEdgesFresh | k_clusterings/src/lib.rs:117 | the forest `build` makes has no edges |
| KClusterings.CollectEdges | k_clusterings/src/lib.rs:119-123 | the copy holds every edge of the graph, vertex by vertex, in storage order |
| KClusterings.SortByCost | k_clusterings/src/lib.rs:125 | the stable `sort_by` keeps the number of edges; sortedness, permutation and stability are SortByCostSorted, SortByCostPermutes and SortByCostStable |
| KClusterings.SortByCostSorted | k_clusterings/src/lib.rs:125 | the sorted edges are in non-decreasing order of cost |
| KClusterings.SortByCostPermutes | k_clusterings/src/lib.rs:125 | sorting neither loses nor invents edges (same multiset) |
| KClusterings.SortByCostStable | k_clusterings/src/lib.rs:125 | `sort_by` is stable: edges of equal cost keep their relative order |
| KClusterings.UsizeAsI32 | k_clusterings/src/lib.rs:117 | `clusters as i32` is in the `i32` range, congruent modulo 2^32, and unchanged when small |
| KClusterings.Scan | k_clusterings/src/lib.rs:127-141 | the `for e in &edges` loop from edge `i` on: on success the forest keeps its size, and an early stop lies at or after `i`, at an edge that exists |
| KClusterings.Clustering | k_clusterings/src/lib.rs:111-141 | the scan `cluster_spacing` runs over the sorted edges from the forest `build` makes: it never ends with more clusters than vertices, and an early stop is at one of the graph's edges |
| KClusterings.Spacing | k_clusterings/src/lib.rs:111-144 | the value `cluster_spacing` returns: 0 for an empty graph, and any other answer is the cost of an edge of the graph |
| KClusterings.ScanMerges | k_clusterings/src/lib.rs:133-139 | a merge step adds one edge to the forest and removes one cluster |
| KClusterings.ScanCountsMerges | k_clusterings/src/lib.rs:127-141 | along the scan, clusters plus edges of the forest stay constant |
| KClusterings.ScanStops | k_clusterings/src/lib.rs:127-141 | the count never rises and never drops below `groups`. An early stop leaves exactly `groups` clusters, or the starting count if that was not above `groups` |
| KClusterings.ClusteringMerges | k_clusterings/src/lib.rs:111-144 | the forest holds one edge per merge. An early stop leaves `groups` clusters, or all vertices apart when `groups` is not below their number |
| KClusterings.SpacingIsNextEdge | k_clusterings/src/lib.rs:127-143 | the result is 0 when the edges run out. Otherwise it is the cost of an edge of the graph at least as dear as every edge scanned before it |
| KClusterings.SpacingWithoutMerges | k_clusterings/src/lib.rs:127-131 | with at least as many groups as vertices, the result is the cheapest edge of the graph |
| KClusterings.ClusterSpacing | k_clusterings/src/lib.rs:111-144 | the imperative `cluster_spacing` (build, collect, sort, scan with break) returns Spacing of the graph, panics included; `g` is only read |
| SingleLink.Scan | k_clusterings/src/lib.rs:127-141 | corrected scan: an internal edge is skipped before the count is looked at, a merge relabels the whole absorbed cluster; on success the leaders keep their number and an early stop lies at or after `i` |
| SingleLink.Spacing | k_clusterings/src/lib.rs:111-144 | corrected spacing: 0 for an empty graph, and any other answer is the cost of an edge of the graph |
| SingleLink.MergeLeaderSet | k_clusterings/src/lib.rs:133-139 | corrected merge: the whole absorbed cluster takes the new leader, so exactly one leader disappears |
| SingleLink.MergeKeepsInternal | k_clusterings/src/lib.rs:133-139 | corrected merge: an edge inside a cluster stays inside one |
| SingleLink.SingletonsLeaderSet | k_clusterings/src/lib.rs:117 | `build(n)` starts with n distinct leaders |
| SingleLink.ScanInvariant | k_clusterings/src/lib.rs:127-141 | corrected scan: the count equals the number of distinct leaders, and every edge passed lies inside a cluster. The edge it stops at joins two clusters |
| SingleLink.CrossingAfterStop | k_clusterings/src/lib.rs:125-131 | in sorted order, an edge between clusters costs at least the edge the scan stops at |
| SingleLink.StoppedWithGroups | k_clusterings/src/lib.rs:127-131 | corrected scan: when it stops, the distinct leaders number `groups`, or all vertices when they are no more than `groups` |
| SingleLink.SpacingIsCrossingEdge | k_clusterings/src/lib.rs:127-131 | corrected spacing: the cost of an edge of the graph between two clusters |
| SingleLink.NoCheaperCrossingEdge | k_clusterings/src/lib.rs:127-131 | corrected spacing: no edge between two clusters is cheaper |
| SingleLink.SpacingWhenEdgesRunOut | k_clusterings/src/lib.rs:127-143 | corrected scan out of edges: no edge joins two clusters and the result is 0 |
| SpacingExamples.ExampleSortedEdges | k_clusterings/src/lib.rs:119-125 | the example's edges, collected and sorted, come in cost order 1, 2, 3, 5, 7 |
| SpacingExamples.AsWrittenFirstMerges | k_clusterings/src/lib.rs:133-139 | as written, merging along edge 2 -> 1 relabels only vertex 1, so vertex 0 keeps its old leader |
| SpacingExamples.AsWrittenThirdMerge | k_clusterings/src/lib.rs:133-139 | as written, the edge 1 -> 0, inside a cluster, is counted as a merge and closes the cycle 0 -> 1 -> 0 in the forest |
| SpacingExamples.Forest3Overflows | k_clusterings/src/lib.rs:101-109 | the next merge enters that cycle and `update_leaders` never returns |
| SpacingExamples.AsWrittenReportsInternalEdge | k_clusterings/src/lib.rs:128-131 | for 3 groups the code returns 3, the cost of an edge inside a cluster; the corrected spacing is 5 |
| SpacingExamples.AsWrittenMiscounts | k_clusterings/src/lib.rs:133-139 | for 2 groups the code returns 5; the corrected spacing is 7 |
| SpacingExamples.AsWrittenNeverReturns | k_clusterings/src/lib.rs:101-109 | for 1 group the code overflows the stack; the corrected scan joins everything and returns 0 |

## Left out

- `items_from_file` and `Graph::from_file` read files. Their line parsing is modelled by `from_line` and `split_line`; the file I/O is not.
- The tests `knapsack3` and `knapsack4` of `knapsack_big`, and `representation`, `execute` and `simple1` of `k_clusterings`, read data files that are not part of this model. `knapsack4` also calls `knapsack` with three arguments, which does not compile against the two-argument `knapsack`.
- `i32` overflow is not modelled. The sums in `caching_knapsack`, the vertex labels, and the edge endpoints computed in `from_file` are unbounded integers here.
- KClusterings.RelabelFrom: Rust's stack depth is replaced by a bound of one nested call per vertex of the forest. A repeating path is the reason that bound runs out, but the model does not prove it; a deep enough acyclic forest could also overflow the real stack.
- KnapsackBig.CachingKnapsack: requires the cache to agree with the recurrence on entry and to have a slot for every prefix. `knapsack` establishes both, and the source does not check either.
- KClusterings.Graph.SplitLine: modelled for `T = i32` only, the one instance the crate uses.
- Panic messages (`"Invalid: {:?}"`, `"Invalid input"`) are not modelled; only the kind of panic is.
- The `explored` field of a vertex is carried but never read, as in the source.
- `cluster_spacing` takes `g` as `&mut Graph` but only reads it, so the model passes it as read-only.
- Vertices are modelled as values in a sequence field of `Graph`, so the model does not capture references into the vector.
- The other crates of the repository are not part of this model: all-pairs shortest paths, travelling salesman, minimum spanning tree, and weighted scheduling.

## Findings

| source | as written | input that shows it | evidently intended | confidence | as-written member | corrected member |
|---|---|---|---|---|---|---|
| knapsack_big/src/lib.rs:61-66 | the base case at one item returns that item's value whenever it fits, even if negative | one item of value -1, weight 0, capacity 0: answer -1 | taking nothing (value 0) is allowed, so the base case is the empty prefix | not executed | KnapsackBig.NegativeFirstItemTaken | KnapsackBig.BestOptimal |
| k_clusterings/src/lib.rs:128-131 | once few enough clusters remain, the cost of the next sorted edge is returned even when both ends are already in one cluster | the five-vertex graph of SpacingExamples with 3 groups: answer 3 | the spacing is the cheapest edge between two clusters: 5 | not executed | SpacingExamples.AsWrittenReportsInternalEdge | SingleLink.NoCheaperCrossingEdge |
| k_clusterings/src/lib.rs:101-109 | a merge relabels only the vertices reachable from the edge's tail along forest edges, not the whole absorbed cluster; an edge inside a cluster can then count as a merge | the same graph with 2 groups: answer 5 | the whole cluster takes the new leader, and with 2 groups the spacing is 7 | not executed | SpacingExamples.AsWrittenMiscounts | SingleLink.StoppedWithGroups |
| k_clusterings/src/lib.rs:133-139 | the miscounted merge adds an edge that closes a cycle in the forest, and `update_leaders` has no visited check | the same graph with 1 group: the recursion never returns | every vertex joins one cluster and the result is 0 | not executed | SpacingExamples.AsWrittenNeverReturns | SingleLink.SpacingWhenEdgesRunOut |
