# A verified model of the course-work core

This project models in Dafny the algorithmic core of a collection of C++ course assignments, and it
proves properties of that model. The parts modelled are:

- the JSON library: the lexer, the recursive-descent parser, the value classes and the API;
- the calculator's lexer and parser;
- grep's argument parser and its line processor;
- a red-black-tree set;
- the bookkeeping of a memory pool;
- an `Optional<T>`;
- the element-wise vector pairs of the lazy-evaluation exercise;
- the navigator's Bellman-Ford and A* path reconstruction;
- Kruskal's minimum spanning tree with union-find, and the file-extension helper of its `main`;
- the board rules of the 2048 game;
- the IPv4 text-to-integer conversion;
- three first-semester exercises: binary search, left rotation and the hourglass sum.

There is one Dafny module per source file or per tightly coupled pair:

| file | module | source |
|---|---|---|
| common.dfy | `Common` | shared `Option`, `Result`, sum, reverse |
| cstd.dfy | `CStd` | the C library pieces the sources call: `isspace`, `tolower`, `std::stoi`, truncating `/` and `%`, and the range check of `std::stod` |
| homework.dfy | `BinarySearch`, `LeftRotation`, `HourglassArray` | HomeWork/ |
| ip.dfy | `IpValidator` | IpValidator/validator.cpp |
| lazy.dfy | `Lazy` | Lazy/lazy_evaluation.cpp, .hpp |
| optional.dfy | `OptionalValue` | Optional/Optional.cpp, .hpp |
| navigator.dfy | `Navigation` | Navigator/Navigator.cpp |
| graph.dfy | `GraphModel` | GraphCourseWork/Graph.cpp |
| graph_main.dfy | `GraphMain` | GraphCourseWork/main.cpp |
| game.dfy, game_window.dfy | `Game2048`, `GameState` | Game/Game/GameWindow.cpp |
| json_value.dfy, json_lexer.dfy, json_parser.dfy, json_parser_class.dfy, json_parser_props.dfy, json_roundtrip.dfy, json_object.dfy, json_array.dfy, json_scalars.dfy, json_api.dfy | `JsonValues`, `JsonLexing`, `JsonParsing`, `JsonParserClass`, `JsonParserProps`, `JsonRoundTrip`, `JsonObjects`, `JsonArrays`, `JsonScalars`, `JsonApi` | json/ |
| calc_lexer.dfy, calc_parser.dfy | `CalcLexing`, `CalcParsing` | Calculator/src/lexer, parser |
| grep_args.dfy, grep_lines.dfy | `GrepArgs`, `GrepLines` | grep/src/arg_parser.cpp, line_processor.cpp |
| rbtree.dfy, rbset.dfy | `RbTree`, `RbSet` | Set/set.cpp |
| pool.dfy | `Pool` | Pool/Pool.cpp |

Where the source works by changing state, the model does too. The JSON lexer, the grep line
processor, the set, the pool, the optional and the game window are classes whose methods update
fields. Loops are `while` or `for` loops with invariants. Each such method is proved against a
pure specification function, or it states outright what the source promises. Pure code is written
as functions and lemmas.

Three conventions run through the model:

- A C++ `int` is a Dafny `int`. Where the source could overflow, either the code's own range check is modelled or the range is a `requires`, except where "## Left out" says otherwise: the 2048 tiles and score, the `VectorPairOps` arithmetic, and the grep and pool counters.
- A `size_t` or `uint32_t` that can wrap is reduced modulo its width explicitly.
- A thrown exception is the `Err` case of a `Result`, carrying the exception's message or kind.

## Model

| member | source | states |
|---|---|---|
| BinarySearch.Search | HomeWork/BinarySerach.cpp:7-24 | The result is -1 or an index in [left, right] that holds the target. When the range is sorted and holds the target, the result is not -1. |
| LeftRotation.RotLeft | HomeWork/LeftRotation.cpp:7-17 | For a length, shift and every sum i + d within the int range, the output has the input's length, and position i holds a[(i + d) % n], using C++'s remainder. For d ≥ 0 the output is the rotation `Rotated(a, d)`. |
| LeftRotation.RotatedIsSplit | HomeWork/LeftRotation.cpp:12-14 | Rotating by d is the suffix from d % n followed by the prefix before it. |
| LeftRotation.RotatedIsPermutation | HomeWork/LeftRotation.cpp:12-14 | The rotation is a permutation of the input. |
| LeftRotation.RotateByMultiple | HomeWork/LeftRotation.cpp:12-14 | A shift by a multiple of the length gives back the input. |
| LeftRotation.RotateBack | HomeWork/LeftRotation.cpp:12-14 | Rotating by d and then by n - d % n restores the input. |
| HourglassArray.HourglassSum | HomeWork/2DArray.cpp:8-22 | The result is at least every one of the 16 hourglass sums, equals one of them, and is an `int`; the cells and every left-to-right partial sum of the seven additions must be `int`s, as the source's `int` arithmetic demands. |
| IpValidator.IpToInt | HomeWorks2dSemester/IpValidator/validator.cpp:8-27 | The loop computes `IpToIntSpec`, the field-by-field reading. The result, when there is one, is below 2^32. |
| IpValidator.ReadField | HomeWorks2dSemester/IpValidator/validator.cpp:14-23 | One loop turn cuts the field up to the next '.' or the end, reads it with std::stoi and ORs it in at the current shift; `ans` stays a uint32. |
| IpValidator.Shifted | HomeWorks2dSemester/IpValidator/validator.cpp:20-21 | `byte << shift` on a uint32 is below 2^32. |
| IpValidator.ShiftFor | HomeWorks2dSemester/IpValidator/validator.cpp:11-22 | The shift starts at 24 and drops by 8 per turn, so it is always one of 24, 16, 8, 0. |
| IpValidator.TurnsAgree | HomeWorks2dSemester/IpValidator/validator.cpp:13-24 | After n turns, the loop and the field-by-field reading agree on the value so far and on what is left to read. |
| IpValidator.TurnsAgreeStep | HomeWorks2dSemester/IpValidator/validator.cpp:13-24 | Agreement after n - 1 turns carries over the n-th turn. |
| IpValidator.TurnStep | HomeWorks2dSemester/IpValidator/validator.cpp:14-23 | One loop turn is one step of the field-by-field reading: it throws what that step throws, or both go on from the same position and value. |
| IpValidator.TurnField | HomeWorks2dSemester/IpValidator/validator.cpp:20-23 | The field cut by a turn is read by std::stoi; its exception is rethrown, or the value is OR-ed in and reading resumes after the dot. |
| IpValidator.TurnFieldOk | HomeWorks2dSemester/IpValidator/validator.cpp:20-23 | A field std::stoi accepts is OR-ed in at the turn's shift, and `start` moves past the dot. |
| IpValidator.TurnsThrow | HomeWorks2dSemester/IpValidator/validator.cpp:13-24 | A turn that throws ends ipToInt with that exception. |
| IpValidator.TurnsFinish | HomeWorks2dSemester/IpValidator/validator.cpp:13-26 | After four turns that do not throw, ipToInt returns the accumulated value. |
| IpValidator.ConvertHead | HomeWorks2dSemester/IpValidator/validator.cpp:14-23 | A field followed by a '.' is read with std::stoi, and reading resumes after the dot. |
| IpValidator.ConvertLast | HomeWorks2dSemester/IpValidator/validator.cpp:15-20 | A last field without a dot ends at the end of the text; a further turn starts past the end, where `substr` throws. |
| IpValidator.DottedFields | HomeWorks2dSemester/IpValidator/validator.cpp:8-27 | Four dot-free fields that std::stoi accepts are read left to right and packed with shifts 24, 16, 8 and 0. |
| IpValidator.DottedOctets | HomeWorks2dSemester/IpValidator/validator.cpp:8-27 | Four fields that read as octets a, b, c, d give a·2^24 + b·2^16 + c·2^8 + d. |
| IpValidator.DottedQuad | HomeWorks2dSemester/IpValidator/validator.cpp:8-27 | The decimal text "a.b.c.d" of four octets converts to the big-endian number a·2^24 + b·2^16 + c·2^8 + d. |
| IpValidator.IgnoresAfterFourthDot | HomeWorks2dSemester/IpValidator/validator.cpp:13 | Only four fields are read: whatever follows a fourth '.' is ignored. |
| IpValidator.ThreeFieldsThrow | HomeWorks2dSemester/IpValidator/validator.cpp:20 | With only three fields, the fourth `substr` starts past the end and throws out_of_range. |
| IpValidator.EmptyFieldThrows | HomeWorks2dSemester/IpValidator/validator.cpp:20 | An empty field makes std::stoi throw invalid_argument. |
| IpValidator.NoRangeCheck | HomeWorks2dSemester/IpValidator/validator.cpp:20-21 | No field is range-checked: a field above 255 spills into the neighbouring octet, so "0.0.0.256" reads as "0.0.1.0". |
| IpValidator.ReadsWideField | HomeWorks2dSemester/IpValidator/validator.cpp:20-21 | "0.0.0.256" converts to 256. |
| IpValidator.ReadsOneZero | HomeWorks2dSemester/IpValidator/validator.cpp:20-21 | "0.0.1.0" converts to 256. |
| IpValidator.BitOrBound | HomeWorks2dSemester/IpValidator/validator.cpp:21 | OR-ing two numbers below 2^k stays below 2^k, so `ans` remains a uint32. |
| IpValidator.BitOrDisjoint | HomeWorks2dSemester/IpValidator/validator.cpp:21 | OR-ing a number below 2^k into a multiple of 2^k is addition. |
| Lazy.MakePair | HomeWorks2dSemester/Lazy/lazy_evaluation.cpp:6-19 | Both constructors succeed exactly when the vectors have equal sizes, and then keep both vectors; otherwise they throw invalid_argument. |
| Lazy.ElementSum | HomeWorks2dSemester/Lazy/lazy_evaluation.cpp:23-25 | Succeeds exactly for an index below the size, with the value left[i] + right[i]; otherwise `at` throws out_of_range. |
| Lazy.ElementDiff | HomeWorks2dSemester/Lazy/lazy_evaluation.cpp:28-30 | Succeeds exactly for an index below the size, with the value left[i] − right[i]; otherwise `at` throws out_of_range. |
| Lazy.ElementProduct | HomeWorks2dSemester/Lazy/lazy_evaluation.cpp:33-35 | Succeeds exactly for an index below the size, with the value left[i] × right[i]; otherwise `at` throws out_of_range. |
| Lazy.ElementDivision | HomeWorks2dSemester/Lazy/lazy_evaluation.cpp:38-44 | Succeeds exactly for an index in range with a non-zero divisor. A zero divisor throws domain_error and a bad index out_of_range. The quotient truncates toward zero: left = q·right + the C++ remainder. |
| Lazy.CombineVectors | HomeWorks2dSemester/Lazy/lazy_evaluation.hpp:48-53 | The result has the pair's size, and element i is `op(left[i], right[i])`. |
| Lazy.ContainerOfSums | HomeWorks2dSemester/Lazy/lazy_evaluation.cpp:61-67 | The result has the pair's size, and element i is what `element_sum(i)` returns. |
| Lazy.ContainerOfDifferences | HomeWorks2dSemester/Lazy/lazy_evaluation.cpp:70-76 | The result has the pair's size, and element i is what `element_diff(i)` returns. |
| Lazy.ContainerOfMax | HomeWorks2dSemester/Lazy/lazy_evaluation.cpp:79-88 | The result has the pair's size, and element i is the larger of left[i] and right[i]: at least both, and equal to one of them. |
| Lazy.Empty | HomeWorks2dSemester/Lazy/lazy_evaluation.cpp:97-99 | True exactly when the pair's size is 0. |
| Lazy.ContainersAreCombinations | HomeWorks2dSemester/Lazy/lazy_evaluation.cpp:61-88 | The three containers are `combine_vectors` with plus, minus and max. |
| Lazy.SumOfContainerOfSums | HomeWorks2dSemester/Lazy/lazy_evaluation.cpp:48-67 | Adding up the container of sums gives `sum_of_elements`. |
| Lazy.SumOfContainerOfDifferences | HomeWorks2dSemester/Lazy/lazy_evaluation.cpp:54-76 | Adding up the container of differences gives `difference_of_elements`. |
| Lazy.SwapSymmetry | HomeWorks2dSemester/Lazy/lazy_evaluation.cpp:28-88 | Swapping the two vectors leaves sums, products and maxima alone and negates every difference and the difference of the totals. |
| OptionalValue.Optional.Disengaged | HomeWorks2dSemester/Optional/Optional.cpp:12 | Construction from `nullopt`, or default construction, gives a disengaged optional. |
| OptionalValue.Optional.Of | HomeWorks2dSemester/Optional/Optional.cpp:15-17 | Construction from a value gives an engaged optional that holds it. |
| OptionalValue.Optional.CopyOf | HomeWorks2dSemester/Optional/Optional.cpp:20-24 | The copy has the source's engagement and value, and the source is unchanged. |
| OptionalValue.Optional.MoveFrom | HomeWorks2dSemester/Optional/Optional.cpp:27-32 | The new optional takes the source's engagement and value, and the source is left disengaged. |
| OptionalValue.Optional.Destroy | HomeWorks2dSemester/Optional/Optional.cpp:4-9 | Afterwards the optional is disengaged. |
| OptionalValue.Optional.CopyAssign | HomeWorks2dSemester/Optional/Optional.cpp:35-46 | Afterwards engagement and value equal the right-hand side's; a self-assignment changes nothing. |
| OptionalValue.Optional.MoveAssign | HomeWorks2dSemester/Optional/Optional.cpp:49-59 | Engagement and value move over and the right-hand side becomes disengaged; a self-assignment changes nothing. |
| OptionalValue.Optional.HasValue | HomeWorks2dSemester/Optional/Optional.cpp:65 | True exactly when a value is held. |
| OptionalValue.Optional.AsBool | HomeWorks2dSemester/Optional/Optional.cpp:68 | `operator bool` always agrees with `has_value()`. |
| OptionalValue.Optional.Deref | HomeWorks2dSemester/Optional/Optional.cpp:71-92 | `operator*` and `operator->` succeed exactly when engaged, with the held value; otherwise they throw logic_error. |
| OptionalValue.Optional.ValueOr | HomeWorks2dSemester/Optional/Optional.cpp:96-104 | The held value when engaged, else the default. |
| Navigation.Initial | HomeWorks2dSemester/Navigator/Navigator.cpp:10-11 | After reset_distances and `dist[source] = 0`, the source is at 0 and every other vertex is at infinity. |
| Navigation.StableTriangle | HomeWorks2dSemester/Navigator/Navigator.cpp:25-35 | When the final check finds nothing to relax, each edge u→v with finite dist[u] has finite dist[v] ≤ dist[u] + w. |
| Navigation.RelaxListMonotone | HomeWorks2dSemester/Navigator/Navigator.cpp:15-21 | Relaxing the edges of a list never raises a distance and never turns a finite one infinite. |
| Navigation.SoundInitial | HomeWorks2dSemester/Navigator/Navigator.cpp:10-11 | The initial table is sound: the only finite entry, 0 at the source, is the weight of the empty walk. |
| Navigation.SoundRelaxEdge | HomeWorks2dSemester/Navigator/Navigator.cpp:16-20 | One relaxation keeps the table sound: the new dist[v] is the weight of a walk to u extended by the edge. |
| Navigation.SoundRelaxList | HomeWorks2dSemester/Navigator/Navigator.cpp:15-21 | Relaxing any prefix of a vertex's list keeps the table sound. |
| Navigation.SoundVertices | HomeWorks2dSemester/Navigator/Navigator.cpp:14-22 | One round over the vertices keeps the table sound. |
| Navigation.SoundRounds | HomeWorks2dSemester/Navigator/Navigator.cpp:13-23 | Any number of rounds keeps the table sound. |
| Navigation.RelaxEdgeBound | HomeWorks2dSemester/Navigator/Navigator.cpp:18-19 | Relaxing an edge whose tail is finite leaves its head finite and at most the tail's distance plus the weight. |
| Navigation.RelaxListFrom | HomeWorks2dSemester/Navigator/Navigator.cpp:15-21 | Relaxing further edges of a list never raises any distance. |
| Navigation.RelaxVerticesFrom | HomeWorks2dSemester/Navigator/Navigator.cpp:14-22 | Relaxing the lists of further vertices never raises any distance. |
| Navigation.SourceAtMostZero | HomeWorks2dSemester/Navigator/Navigator.cpp:10-23 | However many rounds run, the source's distance stays finite and at most 0. |
| Navigation.RoundsBoundWalks | HomeWorks2dSemester/Navigator/Navigator.cpp:13-23 | After r rounds, the end of every walk from the source with at most r edges has a finite distance no larger than the walk's weight. |
| Navigation.FinalSound | HomeWorks2dSemester/Navigator/Navigator.cpp:13-23 | A finite entry after the |V|−1 rounds is the weight of a walk from the source. |
| Navigation.StableWalk | HomeWorks2dSemester/Navigator/Navigator.cpp:25-35 | When the check finds nothing to relax, the distance at the end of any walk is finite and at most the start's distance plus the walk's weight. |
| Navigation.StableLeast | HomeWorks2dSemester/Navigator/Navigator.cpp:25-35 | When nothing is left to relax and the source is at most 0, every vertex reachable from the source has a finite distance no larger than any walk's weight. |
| Navigation.StableNoNegativeCycle | HomeWorks2dSemester/Navigator/Navigator.cpp:25-35 | When nothing is left to relax, no closed walk through a vertex reachable from the source has negative weight. |
| Navigation.CutCycle | HomeWorks2dSemester/Navigator/Navigator.cpp:13 | A walk of |V| or more edges repeats a vertex. Without a reachable negative cycle, cutting out the closed part leaves a shorter walk to the same end that is no heavier. |
| Navigation.ShortWalk | HomeWorks2dSemester/Navigator/Navigator.cpp:13 | Without a reachable negative cycle, every walk from the source has a walk to the same end with at most |V|−1 edges and no greater weight, so |V|−1 rounds suffice. |
| Navigation.SettledEdge | HomeWorks2dSemester/Navigator/Navigator.cpp:25-35 | Without a reachable negative cycle, no edge can still be relaxed after the |V|−1 rounds. |
| Navigation.RoundsSettle | HomeWorks2dSemester/Navigator/Navigator.cpp:13-35 | Without a reachable negative cycle, the final check finds nothing to relax. |
| Navigation.BellmanFordVerdict | HomeWorks2dSemester/Navigator/Navigator.cpp:9-36 | After the |V|−1 rounds, nothing is left to relax exactly when no negative cycle is reachable from the source, in both directions. |
| Navigation.RelaxKeepsPrev | HomeWorks2dSemester/Navigator/Navigator.cpp:59-62 | Recording u as v's predecessor along an edge u→v with a finite distance keeps every predecessor finite and joined by an edge, and keeps the source as the only finite vertex without one. |
| Navigation.PathBack | HomeWorks2dSemester/Navigator/Navigator.cpp:67-73 | The walk back along `prev` from the target, reversed, ends at the target and follows edges. It is just [target] when the target is unreached and starts at the source when the target is reached. It is None when the walk would pass |V| nodes. |
| Navigation.Navigator.constructor | HomeWorks2dSemester/Navigator/Navigator.cpp:3 | n empty adjacency lists and n infinite distances. |
| Navigation.Navigator.AddEdge | HomeWorks2dSemester/Navigator/Navigator.cpp:5-7 | Only u's list changes: (v, w) is appended to it, and the distances stay as they were. |
| Navigation.Navigator.ResetDistances | HomeWorks2dSemester/Navigator/Navigator.cpp:97-99 | Every distance becomes infinite, the number of vertices stays the same and the edges are untouched. |
| Navigation.Navigator.RelaxRound | HomeWorks2dSemester/Navigator/Navigator.cpp:14-22 | One round: the table becomes the lists of all vertices relaxed in the source's vertex and edge order. |
| Navigation.Navigator.NothingToRelax | HomeWorks2dSemester/Navigator/Navigator.cpp:25-35 | True exactly when no edge with a finite tail can still be relaxed. |
| Navigation.Navigator.BellmanFord | HomeWorks2dSemester/Navigator/Navigator.cpp:9-36 | The table is exactly |V|−1 rounds of relaxation in the source's vertex and edge order, starting from the initial table. The answer is true exactly when no edge can still be relaxed, and exactly when no negative cycle is reachable from the source. |
| Navigation.Navigator.RelaxOut | HomeWorks2dSemester/Navigator/Navigator.cpp:56-64 | Relaxing u's edges keeps the prev table sound and every queued entry a vertex. The source stays the only finite vertex without a predecessor. |
| Navigation.Navigator.AStar | HomeWorks2dSemester/Navigator/Navigator.cpp:38-74 | A returned path is non-empty, ends at the target, and consists of vertices joined by edges of the graph. When the target was reached, the path starts at the source. When it stayed unreached, the path is just [target]. |
| Navigation.Navigator.DistanceBetween | HomeWorks2dSemester/Navigator/Navigator.cpp:87-95 | The result is dist[target] after Bellman-Ford when no negative cycle was detected, and infinity otherwise. A finite result is the weight of a real walk from the source to the target. Without a reachable negative cycle, a reachable target gets a finite result no larger than any walk's weight, so the result is the least walk weight. With such a cycle, the result is infinity. |
| GraphModel.Grown | GraphCourseWork/Graph.cpp:71-73 | `resize` keeps the existing lists and appends empty ones up to the new size, and never shrinks. |
| GraphModel.LinkedSymmetric | GraphCourseWork/Graph.cpp:77-78 | Pushing v onto adj_[u] and u onto adj_[v] keeps the adjacency symmetric and in range. |
| GraphModel.LinkedEntry | GraphCourseWork/Graph.cpp:77-78 | After linking u and v, each entry of each list is a vertex whose own list names the entry's owner. |
| GraphModel.Graph.constructor | GraphCourseWork/Graph.cpp:10 | No lists, no edges, max_vertex_ = 0. |
| GraphModel.Graph.AddEdge | GraphCourseWork/Graph.cpp:66-80 | Rejects the edge with "non-negative" exactly when u, v or the weight is negative, and then changes nothing. Otherwise it grows the lists, links both ends, appends the edge and raises max_vertex_ to max(u, v). The graph's invariant is kept. |
| GraphModel.Graph.FromEdges | GraphCourseWork/Graph.cpp:59-64 | Succeeds exactly when every triple is non-negative. The new graph then holds exactly those edges in order, and validate_graph finds nothing wrong with it. The validation is the corrected one, so an empty edge list gives an empty graph (see Findings). |
| GraphModel.Graph.ValidateUpTo | GraphCourseWork/Graph.cpp:137-151 | Reports no error exactly when every neighbour of the scanned vertices is within 0..max_vertex_ and lists the vertex back, and every edge is non-negative. |
| GraphModel.Graph.ValidateGraphAsWritten | GraphCourseWork/Graph.cpp:137-151 | The scan of vertices 0..max_vertex_, which needs those lists to exist; its verdict is the same iff as ValidateUpTo's. |
| GraphModel.Graph.ValidateGraph | GraphCourseWork/Graph.cpp:137-151 | The same checks, with the scan limited to the lists that exist, so an empty graph is accepted. |
| GraphModel.ValidPassesChecks | GraphCourseWork/Graph.cpp:56-63 | A graph built only through add_edge passes every check of validate_graph. |
| GraphModel.EmptyGraphScanOutOfRange | GraphCourseWork/Graph.cpp:138-139 | For a graph with no edges, the as-written scan's first index, adj_[0], is out of range. |
| GraphModel.InsertKeepsSorted | GraphCourseWork/Graph.cpp:106 | Inserting an edge into a list sorted by weight keeps it sorted. |
| GraphModel.SortByWeight | GraphCourseWork/Graph.cpp:106 | The sorted edges are a permutation of the input, ordered by weight: `operator<` compares weights only. |
| GraphModel.RootOf | GraphCourseWork/Graph.cpp:90-94 | The walk up the parent links ends at a root, a vertex that is its own parent. |
| GraphModel.Find | GraphCourseWork/Graph.cpp:90-94 | The `find` loop ends, and returns the root of x. |
| GraphModel.JoinStep | GraphCourseWork/Graph.cpp:96-111 | One turn of the loop: `unite` on edges[i] answers true exactly when its endpoints had different roots, and then the first root is hung under the second and nothing else changes; otherwise the parent vector is unchanged. Exactly one root is lost when it answers true, and the loop's invariant (`KruskalSoFar`) holds one edge further on, with the edge kept exactly when `unite` answered true. |
| GraphModel.KeptEdge | GraphCourseWork/Graph.cpp:108-111 | Keeping the current edge preserves the loop's invariant: the kept edges are a sub-multiset of the edges seen so far, sorted by weight, and none is heavier than an edge still to come. |
| GraphModel.SkippedEdge | GraphCourseWork/Graph.cpp:108-111 | Skipping the current edge keeps the same invariant one edge further on. |
| GraphModel.Unite | GraphCourseWork/Graph.cpp:96-103 | Returns true exactly when x and y had different roots. Then the parent vector is the old one with x's root pointing at y's root; otherwise it is unchanged. The parent links still form a forest. |
| GraphModel.Range | GraphCourseWork/Graph.cpp:87-88 | The initial roots of `iota`: exactly the vertices 0..n-1, n of them. |
| GraphModel.RootAfterLink | GraphCourseWork/Graph.cpp:96-103 | Hanging root rx under root ry moves exactly the vertices whose root was rx to root ry; every other vertex keeps its root. |
| GraphModel.ConnectedSameRoot | GraphCourseWork/Graph.cpp:96-111 | Vertices connected by a walk along kept edges share their union-find root, so `unite` answering true means the edge's endpoints were not yet connected. |
| GraphModel.LinkTracks | GraphCourseWork/Graph.cpp:108-111 | When a kept edge's endpoints had different roots: they were not connected before, and after the union the trees are again the components of the kept edges, pairs that shared a root still do, and the endpoints now do. |
| GraphModel.AcyclicGrows | GraphCourseWork/Graph.cpp:108-111 | Appending an edge whose endpoints the kept edges do not connect keeps the kept edges a forest. |
| GraphModel.KruskalStart | GraphCourseWork/Graph.cpp:87-88 | After `iota` every vertex is its own tree, so with no kept edge the loop's invariant holds before the first turn. |
| GraphModel.KeptTurn | GraphCourseWork/Graph.cpp:108-111 | A turn where `unite` answers true keeps the loop's invariant with the edge appended. |
| GraphModel.SkippedTurn | GraphCourseWork/Graph.cpp:108-111 | A turn where `unite` answers false keeps the loop's invariant with nothing appended. |
| GraphModel.KruskalDone | GraphCourseWork/Graph.cpp:108-114 | After the last turn the kept edges are a sorted sub-multiset of the edges without self-loops, a forest, and they connect the endpoints of every edge. |
| GraphModel.JoinTrees | GraphCourseWork/Graph.cpp:108-112 | The kept edges are a sub-multiset of the sorted edges, still sorted by weight, fewer than the vertices, and none is a self-loop. They form a forest: no kept edge joins two vertices that the edges kept before it already connect. They span: the endpoints of every input edge are connected by kept edges. |
| GraphModel.MinimumSpanningTree | GraphCourseWork/Graph.cpp:82-115 | No edges give an empty tree. Otherwise the tree is a sub-multiset of the graph's edges, sorted by weight, with at most max_vertex_ edges and no self-loop. It is a forest (no edge closes a cycle with the edges before it) and it connects the endpoints of every edge of the graph. |
| GraphMain.LastDot | GraphCourseWork/main.cpp:25-26 | `find_last_of('.')`: the index of a dot with no dot after it, or none when the name has no dot. |
| GraphMain.Lowered | GraphCourseWork/main.cpp:28 | Same length, with every character mapped through `tolower`. |
| GraphMain.GetFileExtension | GraphCourseWork/main.cpp:24-30 | "" when there is no dot; otherwise the lower-cased text after the last dot. |
| GraphMain.ExtensionIsLastComponent | GraphCourseWork/main.cpp:24-30 | The extension never holds a dot or an upper-case letter. |
| GraphMain.ExtensionOfNameDotExt | GraphCourseWork/main.cpp:24-30 | For any base name, `base.ext` with a dot-free ext gives ext lower-cased. |
| GraphMain.UpperCaseExtension | GraphCourseWork/main.cpp:41-42 | "graph.TXT" is accepted as a text file. |
| GraphMain.CheckInputPath | GraphCourseWork/main.cpp:36-51 | An empty path is refused, and so is any extension other than txt or json. An accepted path is read as JSON exactly when its extension is json. |
| Game2048.NonZeros | Game/Game/GameWindow.cpp:121-125 | The collected tiles are non-zero and there are no more of them than cells. Their sum is the line's sum (see SumNonZeros). |
| Game2048.MergeLine | Game/Game/GameWindow.cpp:127-139 | The merging pass yields no more tiles than it was given, and never a zero tile from non-zero tiles. |
| Game2048.Slide | Game/Game/GameWindow.cpp:141-143 | The slid line has the line's length. |
| Game2048.SlideAndMerge | Game/Game/GameWindow.cpp:120-147 | The loops compute exactly the merged-and-padded line and the gain of its merges. `changed` is true exactly when the result differs from the line. |
| Game2048.CollectNonZeros | Game/Game/GameWindow.cpp:121-125 | The first loop keeps exactly the tiles of the line, in order. |
| Game2048.MergePairs | Game/Game/GameWindow.cpp:127-140 | The merge loop builds the merged line and adds up the value of every merged tile. |
| Game2048.PadWithZeros | Game/Game/GameWindow.cpp:142-144 | The padding loop appends exactly enough zeros to reach the line's length. |
| Game2048.SlideZerosLast | Game/Game/GameWindow.cpp:141-143 | After a slide, every zero comes after every tile. |
| Game2048.SumNonZeros | Game/Game/GameWindow.cpp:123-125 | Dropping zeros keeps the sum of a line. |
| Game2048.SumMergeLine | Game/Game/GameWindow.cpp:128-139 | Merging keeps the sum, since a merged pair becomes its double. |
| Game2048.SumZeros | Game/Game/GameWindow.cpp:141-143 | Zero padding adds nothing. |
| Game2048.SlideKeepsSum | Game/Game/GameWindow.cpp:120-147 | A slide keeps the sum of a line: no tile value is created or lost. |
| Game2048.GainIffMerge | Game/Game/GameWindow.cpp:129-133 | With positive tiles the gain is non-negative, and it is zero exactly when no pair merged. |
| Game2048.FourTwos | Game/Game/GameWindow.cpp:129-138 | The `merged` flag blocks the pair after a merge: [2,2,2,2] slides to [4,2,2,0] and earns 4. |
| Game2048.TwoPairs | Game/Game/GameWindow.cpp:129-138 | [2,2,4,4] slides to [4,4,4,0] and earns 4. |
| Game2048.MergedTileStays | Game/Game/GameWindow.cpp:129-132 | A tile made by a merge is not merged again in the same move: [2,2,4] slides to [4,4,0]. |
| Game2048.NonZerosOfFull | Game/Game/GameWindow.cpp:123-125 | A line with no zero is its own list of non-zero tiles. |
| Game2048.MergeLineOfBlocked | Game/Game/GameWindow.cpp:128-139 | Tiles with no equal neighbours pass through unchanged and earn nothing. |
| Game2048.BlockedLineStays | Game/Game/GameWindow.cpp:120-147 | A full line with no equal neighbours does not change and earns nothing. |
| Game2048.DirectionOf | Game/Game/GameWindow.cpp:149-183 | W and Up select up, S and Down down, A and Left left, D and Right right. Every other key selects no move. |
| Game2048.LineOf | Game/Game/GameWindow.cpp:149-183 | The line a direction hands to slideAndMerge has the board's size: a column read top-down or bottom-up, or a row read left-right or right-left. |
| Game2048.CellOnLine | Game/Game/GameWindow.cpp:149-183 | Every cell lies on exactly one line of each direction, at a position within the line. |
| Game2048.CellOnRow | Game/Game/GameWindow.cpp:163-182 | Moving left or right, cell (i, j) lies on row i, read forwards or backwards. |
| Game2048.CellOnColumn | Game/Game/GameWindow.cpp:149-162 | Moving up or down, cell (i, j) lies on column j, read downwards or upwards. |
| Game2048.Moved | Game/Game/GameWindow.cpp:149-183 | The moved board is a board of the same size. |
| Game2048.MovedCell | Game/Game/GameWindow.cpp:149-183 | Each cell of the moved board holds the slid value at its place on its line. |
| Game2048.MovesIffChanges | Game/Game/GameWindow.cpp:145-185 | A move changes the board exactly when some line's slide changed that line: `moved`. |
| Game2048.ChangedLineChangesBoard | Game/Game/GameWindow.cpp:145 | If some line changes, the board changes. |
| Game2048.StillLinesKeepBoard | Game/Game/GameWindow.cpp:185-201 | If no line changes, the moved board is the old board. |
| Game2048.CellAt | Game/Game/GameWindow.cpp:149-183 | Every position of every line is some cell of the board. |
| Game2048.GameOverNoMove | Game/Game/GameWindow.cpp:282-298 | When isGameOver holds, no direction changes any line or the board, and no points are earned. |
| Game2048.OverLineBlocked | Game/Game/GameWindow.cpp:282-298 | When isGameOver holds, every line of every direction is full and has no equal neighbours. |
| Game2048.GainsOfStill | Game/Game/GameWindow.cpp:131 | Lines that earn nothing add nothing to the score. |
| Game2048.EmptyInRowSound | Game/Game/GameWindow.cpp:100-102 | Every entry of a row's list is an empty cell of that row, within the scanned columns. |
| Game2048.EmptyBeforeSound | Game/Game/GameWindow.cpp:99-103 | Every entry of the list is an empty cell of the rows scanned so far. |
| Game2048.EmptyInRowComplete | Game/Game/GameWindow.cpp:100-102 | Every empty cell of the scanned part of the row is collected, at a position the lemma returns. |
| Game2048.EmptyBeforeComplete | Game/Game/GameWindow.cpp:99-103 | Every empty cell of the scanned rows is collected, at a position the lemma returns. |
| Game2048.EmptyCellsExact | Game/Game/GameWindow.cpp:98-103 | A cell is in the list addRandomTile draws from exactly when it is on the board and empty. |
| Game2048.EmptyBoard | Game/Game/GameWindow.cpp:85 | An n×n board of zeros. |
| Game2048.Put | Game/Game/GameWindow.cpp:108 | Only cell (i, j) changes, to v. |
| Game2048.RandomTile | Game/Game/GameWindow.cpp:105-108 | The chosen cell is one of the empty cells, and the new tile is 2 or 4. With one empty cell the same draw gives index 0, which is even, so the tile is 2. |
| Game2048.WithRandomTile | Game/Game/GameWindow.cpp:97-110 | addRandomTile's result is still an n×n board. |
| Game2048.RandomTilePlaced | Game/Game/GameWindow.cpp:97-110 | A full board is left alone. Otherwise exactly one formerly empty cell becomes 2 or 4 and every other cell keeps its value. |
| Game2048.WriteLine | Game/Game/GameWindow.cpp:154-180 | Writing a line back changes exactly the cells of that line. |
| Game2048.UntouchedLine | Game/Game/GameWindow.cpp:149-183 | A line not yet processed still reads as in the old board, because every loop turn writes only its own line. |
| Game2048.MoveBoard | Game/Game/GameWindow.cpp:149-183 | The line loop yields the moved board, the total gain of all lines, and whether the board changed. |
| Game2048.MoveLine | Game/Game/GameWindow.cpp:150-155 | One turn of the loop extends the moved part by line k, adds its gain and records whether it changed. |
| Game2048.TotalsStep | Game/Game/GameWindow.cpp:131-145 | The score and `moved` accumulate line by line. |
| Game2048.MovesStep | Game/Game/GameWindow.cpp:145 | Some line among the first k + 1 changes exactly when one of the first k does or line k does. |
| Game2048.AllLinesMoved | Game/Game/GameWindow.cpp:149-183 | Once every line is processed, the new board is the moved board. |
| Game2048.WriteMovedLine | Game/Game/GameWindow.cpp:153-154 | Writing the slid line k extends the moved part of the board by that line. |
| Game2048.SettledGameOver | Game/Game/GameWindow.cpp:282-298 | A board whose every cell passes isGameOver's three tests is game over. |
| GameState.GameWindow.constructor | Game/Game/GameWindow.cpp:8-66 | A fresh game of the given size with score 0, no history and both flags off. The board is an empty board after two random-tile placements with the given draws. The best scores are the saved ones after recording score 0 for this size. |
| GameState.GameWindow.UpdateMaxScore | Game/Game/GameWindow.cpp:270-280 | The best scores become `Recorded(old, size, score)`: the score replaces this size's best exactly when it beats it. Afterwards the best is at least the score and never lower than before. |
| GameState.Recorded | Game/Game/GameWindow.cpp:270-280 | After recording a score, this size's best is the larger of the score and the saved best, and every other size keeps its entry. |
| GameState.CollectEmpty | Game/Game/GameWindow.cpp:98-103 | The scan lists exactly the empty cells, in row-major order. |
| GameState.CollectRow | Game/Game/GameWindow.cpp:100-102 | Scanning one row appends its empty cells, left to right. |
| GameState.GameWindow.AddRandomTile | Game/Game/GameWindow.cpp:97-110 | The board becomes addRandomTile's result for the given draws. |
| GameState.GameWindow.InitializeBoard | Game/Game/GameWindow.cpp:84-95 | Score 0, empty history, no undo, reached2048 cleared. The board is an empty board after two random-tile placements with the given draws, and the best scores are the old ones after recording score 0. |
| GameState.GameWindow.ClearState | Game/Game/GameWindow.cpp:85-90 | The board is all zeros, the score 0, the history empty and both flags off. |
| GameState.GameWindow.MoveTiles | Game/Game/GameWindow.cpp:112-204 | Returns true exactly when the move changes the board. Then: the board is the moved board plus a random tile, the score gains every merge, the history holds exactly the state before the move, undo is on, the new score is recorded in the best scores, and reached2048 is set exactly when it was or the new board holds 2048. Otherwise: board, score, best scores and reached2048 are unchanged, the history is empty and undo is off. |
| GameState.GameWindow.DiscardSaved | Game/Game/GameWindow.cpp:198-201 | Popping the one saved state leaves the history empty, and undo is off. |
| GameState.GameWindow.CommitMove | Game/Game/GameWindow.cpp:185-193 | Takes the new board and score, turns undo on and adds a random tile; the new score is recorded in the best scores, and reached2048 is set exactly when it was or the board holds 2048. |
| GameState.GameWindow.IsGameOver | Game/Game/GameWindow.cpp:282-298 | The scan answers exactly GameOver: no empty cell and no equal neighbours below or to the right. |
| GameState.GameWindow.CheckFor2048 | Game/Game/GameWindow.cpp:236-255 | reached2048 becomes true exactly when it already was or some tile is 2048. |
| GameState.GameWindow.UndoLastMove | Game/Game/GameWindow.cpp:257-268 | With undo on and a saved state, the board and score are restored, the entry is popped, undo turns off and the restored score is recorded in the best scores. Otherwise nothing changes. reached2048 is never touched. |
| GameState.GameWindow.KeyPress | Game/Game/GameWindow.cpp:300-325 | The whole new state for every key. A move key on a live board makes the move: a changing move gives the moved board plus a random tile, the merge gain, the pre-move state as the only history entry, undo on, the score recorded and reached2048 updated; a move that changes nothing leaves everything but the history (now empty) and undo (now off). On a game-over board a move key restarts: two random tiles on an empty board, score 0, no history, no undo, reached2048 off, score 0 recorded. U pops and restores the saved state when undo is on, and otherwise changes nothing, like any other key. |
| JsonValues.ExactlyOneTag | HomeWorks2dSemester/json/json_value.cpp:3-25 | Each `is_*` test recognises exactly its own kind of value, and exactly one of the six holds for any value. |
| JsonValues.TagsHolding | HomeWorks2dSemester/json/json_value.cpp:3-25 | At most six of the tests hold; exactly one does, see ExactlyOneTag. |
| JsonValues.Spaces | HomeWorks2dSemester/json/json_array.cpp:44-46 | `std::string(n, ' ')`: n characters, all of them blanks. |
| JsonValues.Present | HomeWorks2dSemester/json/json_object.cpp:52 | The keys visited by the range-for are keys of the map, and every key of the map is visited when the order lists it. |
| JsonValues.Join | HomeWorks2dSemester/json/json_array.cpp:53-62 | No parts give "" and one part gives that part. |
| JsonValues.DumpAll | HomeWorks2dSemester/json/json_array.cpp:54 | One dump per element. |
| JsonValues.ElementsJoin | HomeWorks2dSemester/json/json_array.cpp:53-62 | The element loop writes the element dumps, each at current_indent + indent, separated by a comma and (when pretty) a newline, with a newline after the last one. |
| JsonValues.MembersJoin | HomeWorks2dSemester/json/json_object.cpp:51-70 | The member loop writes one `"key": value` entry per visited key, separated by a comma and (when pretty) a newline, with a newline after the last one. |
| JsonValues.CompactArrayDump | HomeWorks2dSemester/json/json_array.cpp:42-70 | `dump(-1)` of an array is `[`, the compact element dumps joined by commas, then `]`. An empty array dumps as `[]`. |
| JsonValues.PrettyArrayDump | HomeWorks2dSemester/json/json_array.cpp:42-70 | A pretty array dump is: the padding, `[`, a newline, the elements at the deeper indentation each followed by a newline and separated by commas, then the padding and `]`. |
| JsonValues.PrettyArrayExample | HomeWorks2dSemester/json/json_array.cpp:42-70 | `[1,"two"]` with indent 4 dumps as `[\n    1,\n    "two"\n]`. |
| JsonValues.CompactObjectDump | HomeWorks2dSemester/json/json_object.cpp:43-80 | `dump(-1)` of an object is `{`, one `"key":value` per visited key joined by commas, then `}`. Keys are written unescaped, and an empty object dumps as `{}`. |
| JsonObjects.JsonObject.constructor | HomeWorks2dSemester/json/json_object.cpp:4 | An empty object. |
| JsonObjects.JsonObject.FromMap | HomeWorks2dSemester/json/json_object.cpp:6-16 | Copy construction: the new object holds exactly the given entries. |
| JsonObjects.JsonObject.CopyEntries | HomeWorks2dSemester/json/json_object.cpp:7-9 | The set_value loop over deep copies rebuilds exactly the source map, whatever order the keys are visited in. |
| JsonObjects.JsonObject.CopyAssign | HomeWorks2dSemester/json/json_object.cpp:20-29 | Afterwards the object holds exactly the other object's entries; self-assignment changes nothing. |
| JsonObjects.JsonObject.MoveAssign | HomeWorks2dSemester/json/json_object.cpp:31-37 | The object takes over the other object's entries. |
| JsonObjects.JsonObject.Clone | HomeWorks2dSemester/json/json_object.cpp:82-84 | The clone is an object value with the same entries. |
| JsonObjects.JsonObject.Dump | HomeWorks2dSemester/json/json_object.cpp:43-80 | The dump is the tree dump of the clone. In compact form it is `{`, the entries joined by commas, then `}`. |
| JsonObjects.JsonObject.SetValue | HomeWorks2dSemester/json/json_object.cpp:90-92 | The key now holds the new value; every other key is present as before, with its old value. |
| JsonObjects.JsonObject.RemoveKey | HomeWorks2dSemester/json/json_object.cpp:98-100 | The key is gone; every other entry stays, and erasing an absent key changes nothing. |
| JsonObjects.JsonObject.Index | HomeWorks2dSemester/json/json_object.cpp:102-109 | An existing key returns its value and changes nothing. A missing key is inserted with null, and null is returned. |
| JsonObjects.JsonObject.At | HomeWorks2dSemester/json/json_object.cpp:111-117 | Succeeds exactly for a present key, with its value. Otherwise it fails with "Key not found: " + key. |
| JsonArrays.JsonArray.constructor | HomeWorks2dSemester/json/json_array.cpp:3 | An empty array. |
| JsonArrays.JsonArray.FromSeq | HomeWorks2dSemester/json/json_array.cpp:5-15 | Copy construction: the same elements in the same order. |
| JsonArrays.JsonArray.CopyElements | HomeWorks2dSemester/json/json_array.cpp:6-8 | The add_value loop over deep copies rebuilds exactly the source sequence. |
| JsonArrays.JsonArray.CopyAssign | HomeWorks2dSemester/json/json_array.cpp:19-28 | Afterwards the array holds exactly the other array's elements; self-assignment changes nothing. |
| JsonArrays.JsonArray.MoveAssign | HomeWorks2dSemester/json/json_array.cpp:30-36 | The array takes over the other array's elements. |
| JsonArrays.JsonArray.Clone | HomeWorks2dSemester/json/json_array.cpp:72-74 | The clone is an array value with the same elements. |
| JsonArrays.JsonArray.Dump | HomeWorks2dSemester/json/json_array.cpp:42-70 | The dump is the tree dump of the clone, in the compact and pretty forms of CompactArrayDump and PrettyArrayDump. |
| JsonArrays.JsonArray.AddValue | HomeWorks2dSemester/json/json_array.cpp:80-82 | The value is appended and the earlier elements stay. |
| JsonArrays.JsonArray.At | HomeWorks2dSemester/json/json_array.cpp:84-98 | Succeeds exactly when index < size(), with that element; otherwise out_of_range for that index. |
| JsonScalars.JsonString.constructor | HomeWorks2dSemester/json/json_string.cpp:4 | Holds the given text. |
| JsonScalars.JsonString.Assign | HomeWorks2dSemester/json/json_string.cpp:10-24 | Copy and move assignment take over the other string's text. |
| JsonScalars.JsonString.Clone | HomeWorks2dSemester/json/json_string.cpp:38-40 | A string value holding the same text. |
| JsonScalars.JsonString.Dump | HomeWorks2dSemester/json/json_string.cpp:28-36 | The text between quotes, unescaped, after current_indent blanks when pretty; this equals the tree dump. |
| JsonScalars.JsonBoolean.constructor | HomeWorks2dSemester/json/json_bool.cpp:3 | Holds the given value. |
| JsonScalars.JsonBoolean.Move | HomeWorks2dSemester/json/json_bool.cpp:7-9 | The new object takes the value and the source is reset to false. |
| JsonScalars.JsonBoolean.CopyAssign | HomeWorks2dSemester/json/json_bool.cpp:11-17 | The value is copied and the source is unchanged. |
| JsonScalars.JsonBoolean.MoveAssign | HomeWorks2dSemester/json/json_bool.cpp:19-26 | The value is taken and the source reset to false; self-assignment changes nothing. |
| JsonScalars.JsonBoolean.Clone | HomeWorks2dSemester/json/json_bool.cpp:36-38 | A boolean value with the same truth value. |
| JsonScalars.JsonBoolean.Dump | HomeWorks2dSemester/json/json_bool.cpp:32-34 | "true" or "false", after current_indent blanks when pretty; this equals the tree dump. |
| JsonScalars.JsonNull.Clone | HomeWorks2dSemester/json/json_null.cpp:34-36 | A value whose type() is Null. |
| JsonScalars.JsonNull.Dump | HomeWorks2dSemester/json/json_null.cpp:30-32 | "null", after current_indent blanks when pretty; this equals the tree dump. |
| JsonScalars.JsonNull.AssignFrom | HomeWorks2dSemester/json/json_null.cpp:21-26 | Succeeds exactly for a non-null pointer to a null value. Otherwise it fails with "Cannot assign non-null value to JsonNull". |
| JsonLexing.SkipWs | HomeWorks2dSemester/json/json_lexer.cpp:40-44 | Stops at the end of the input or at the first character that is not std::isspace, and never moves backwards. |
| JsonLexing.ScanString | HomeWorks2dSemester/json/json_lexer.cpp:46-76 | On success the position after the closing quote is past the start and within the input. |
| JsonLexing.NumberEnd | HomeWorks2dSemester/json/json_lexer.cpp:78-107 | The end of the lex_number lexeme lies within the input, at or after its start. |
| JsonLexing.LexToken | HomeWorks2dSemester/json/json_lexer.cpp:12-29 | A token read from a character consumes at least that character and is never End. |
| JsonLexing.Lex | HomeWorks2dSemester/json/json_lexer.cpp:6-30 | End is returned only at the end of the input; any other token moves the cursor forward. |
| JsonLexing.EndIffBlank | HomeWorks2dSemester/json/json_lexer.cpp:7-10 | next_token returns End exactly when only blanks are left. |
| JsonLexing.EndIsFinal | HomeWorks2dSemester/json/json_lexer.cpp:7-10 | After End, every further call returns End again. |
| JsonLexing.PunctuationToken | HomeWorks2dSemester/json/json_lexer.cpp:14-19 | Each of `{ } [ ] : ,` after blanks is a one-character token of its own kind. |
| JsonLexing.EscapeLetter | HomeWorks2dSemester/json/json_lexer.cpp:53-63 | Each escape letter decodes back to its character, and `"` and `\` always need one. |
| JsonLexing.ScanOne | HomeWorks2dSemester/json/json_lexer.cpp:48-68 | lex_string reads the escaped form of one character as that character. |
| JsonLexing.ScanEscaped | HomeWorks2dSemester/json/json_lexer.cpp:46-76 | Scanning an escaped text followed by a quote decodes it back exactly, stopping after the quote. |
| JsonLexing.ScanPlain | HomeWorks2dSemester/json/json_lexer.cpp:46-76 | A text without `"` or `\`, followed by a quote, is read as it is. |
| JsonLexing.StringRoundTrip | HomeWorks2dSemester/json/json_lexer.cpp:46-76 | Lexing the quoted escaped form of any string yields a String token holding exactly that string. |
| JsonLexing.MissingQuote | HomeWorks2dSemester/json/json_lexer.cpp:70-72 | Without a closing quote, lex_string fails with "Unterminated string". |
| JsonLexing.BackslashAtEnd | HomeWorks2dSemester/json/json_lexer.cpp:51 | A backslash as the last character fails with "Incomplete escape sequence". |
| JsonLexing.UnicodeEscapeRejected | HomeWorks2dSemester/json/json_lexer.cpp:62 | `\u0041` fails with "Invalid escape sequence": `\u` escapes are not decoded. |
| JsonLexing.StringToken | HomeWorks2dSemester/json/json_lexer.cpp:46-76 | After blanks, a quoted text without quote or backslash is one String token holding that text. |
| JsonLexing.LoneMinus | HomeWorks2dSemester/json/json_lexer.cpp:78-107 | A lone minus sign is a Number token. |
| JsonLexing.TrailingDot | HomeWorks2dSemester/json/json_lexer.cpp:88-93 | "1." is one Number token. |
| JsonLexing.EmptyExponent | HomeWorks2dSemester/json/json_lexer.cpp:95-104 | "1e" is one Number token. |
| JsonLexing.KeywordToken | HomeWorks2dSemester/json/json_lexer.cpp:109-128 | A run of letters is read whole, and succeeds exactly when it is true, false or null. Otherwise it fails with "Invalid keyword: " + the run. |
| JsonLexing.NumberEndLocal | HomeWorks2dSemester/json/json_lexer.cpp:78-107 | A number lexeme followed by a delimiter is read whole, wherever it is written. |
| JsonLexing.NumberToken | HomeWorks2dSemester/json/json_lexer.cpp:78-107 | A number lexeme followed by a delimiter is one Number token. |
| JsonLexing.Tokens | HomeWorks2dSemester/json/json_lexer.cpp:6-30 | Repeated next_token calls give tokens that end with End, and End occurs nowhere else. |
| JsonLexing.TokensStep | HomeWorks2dSemester/json/json_lexer.cpp:6-30 | The token sequence is the first token followed by the tokens after it. |
| JsonLexing.TenTokens | HomeWorks2dSemester/json/json_lexer.cpp:6-128 | `{"age": 25.8, "name": "John"}` lexes to exactly its ten tokens, End included. |
| JsonLexing.JsonLexer.constructor | HomeWorks2dSemester/json/json_lexer.cpp:4 | The lexer holds the input, with the cursor at 0. |
| JsonLexing.JsonLexer.Peek | HomeWorks2dSemester/json/json_lexer.cpp:32-34 | The character under the cursor, or NUL past the end. |
| JsonLexing.JsonLexer.Consume | HomeWorks2dSemester/json/json_lexer.cpp:36-38 | The character under the cursor, which then moves one step; NUL past the end, where the cursor stays. |
| JsonLexing.JsonLexer.SkipWhitespace | HomeWorks2dSemester/json/json_lexer.cpp:40-44 | The cursor moves to SkipWs of its old value. |
| JsonLexing.JsonLexer.LexString | HomeWorks2dSemester/json/json_lexer.cpp:46-76 | The result and new cursor are those of ScanString from the old cursor. |
| JsonLexing.JsonLexer.LexDigits | HomeWorks2dSemester/json/json_lexer.cpp:84-86 | Reads the run of digits, which is exactly the text passed over. |
| JsonLexing.JsonLexer.LexFraction | HomeWorks2dSemester/json/json_lexer.cpp:88-93 | Reads the optional fraction, which is exactly the text passed over. |
| JsonLexing.JsonLexer.LexExponent | HomeWorks2dSemester/json/json_lexer.cpp:95-104 | Reads the optional exponent, which is exactly the text passed over. |
| JsonLexing.JsonLexer.LexNumber | HomeWorks2dSemester/json/json_lexer.cpp:78-107 | A Number token whose lexeme is exactly the text from the old cursor to NumberEnd. |
| JsonLexing.JsonLexer.LexKeyword | HomeWorks2dSemester/json/json_lexer.cpp:109-128 | Reads the whole run of letters and classifies it as Keyword does. |
| JsonLexing.JsonLexer.NextToken | HomeWorks2dSemester/json/json_lexer.cpp:6-30 | The token and new cursor are exactly those of Lex at the old cursor. |
| JsonParsing.LexerSound | HomeWorks2dSemester/json/json_lexer.cpp:6-30 | What the parser relies on from next_token holds for the real lexer: the cursor stays within the input, End comes only at the end and stays there, and every other token moves forward. |
| JsonParsing.Pull | HomeWorks2dSemester/json/json_parser.cpp:16-18 | A pulled token leaves a state the parser can be in, and moves forward unless it is End. |
| JsonParsing.Advance | HomeWorks2dSemester/json/json_parser.cpp:16-18 | Passing any token but End strictly shrinks what is left to read, so the recursive descent ends. |
| JsonParsing.Close | HomeWorks2dSemester/json/json_parser.cpp:67-68 | Passing the closing token delivers the value and shrinks what is left. |
| JsonParsing.ParseValue | HomeWorks2dSemester/json/json_parser.cpp:20-31 | A token that cannot start a value fails with "Invalid JSON value". A success consumes input. No failure is an "Expected …" error, because the dispatch always calls the matching parser. |
| JsonParsing.ParseObject | HomeWorks2dSemester/json/json_parser.cpp:33-69 | A success is an object and consumes input. Started on `{`, it never fails with "Expected '{'". |
| JsonParsing.ParseMembers | HomeWorks2dSemester/json/json_parser.cpp:40-68 | A success is an object and consumes input. A failure is one of the member loop's own errors or a nested one. |
| JsonParsing.ParseArray | HomeWorks2dSemester/json/json_parser.cpp:71-98 | A success is an array and consumes input. Started on `[`, it never fails with "Expected '['". |
| JsonParsing.ParseElements | HomeWorks2dSemester/json/json_parser.cpp:80-97 | A success is an array that extends the elements read so far by at least one element. |
| JsonParsing.ParseString | HomeWorks2dSemester/json/json_parser.cpp:100-108 | Succeeds exactly on a String token whose successor can be lexed, with the token's decoded text. |
| JsonParsing.ParseNumber | HomeWorks2dSemester/json/json_parser.cpp:110-121 | On a Number token it succeeds exactly when std::stod accepts the lexeme and the next token can be lexed, keeping the lexeme. stod accepts when a digit comes before or right after the point and the value is within a double's range (`CStd.StodInRange`); otherwise it throws invalid_argument or out_of_range. Every failure is reported as "Invalid number format: " + lexeme. |
| JsonParsing.ParseBoolean | HomeWorks2dSemester/json/json_parser.cpp:123-134 | Succeeds exactly on true or false whose successor can be lexed, with that truth value. |
| JsonParsing.ParseNull | HomeWorks2dSemester/json/json_parser.cpp:136-143 | Succeeds exactly on null whose successor can be lexed, with the null value. |
| JsonParsing.Parse | HomeWorks2dSemester/json/json_parser.cpp:3-14 | A whole-text parse never fails with an "Expected …" error. |
| JsonParsing.ParseFrom | HomeWorks2dSemester/json/json_parser.cpp:3-14 | The same for any lexer that keeps the promises of LexerSound. |
| JsonParsing.ParseAll | HomeWorks2dSemester/json/json_parser.cpp:7-14 | One value followed by anything but End fails with "Unexpected token after JSON value". |
| JsonParsing.ScalarStep | HomeWorks2dSemester/json/json_parser.cpp:24-28 | A scalar token is a whole value, read by passing that one token. |
| JsonParsing.EmptyArrayStep | HomeWorks2dSemester/json/json_parser.cpp:71-97 | `[` directly followed by `]` is the empty array. |
| JsonParsing.ArrayStep | HomeWorks2dSemester/json/json_parser.cpp:77-81 | `[` followed by anything else starts the element loop. |
| JsonParsing.LastElementStep | HomeWorks2dSemester/json/json_parser.cpp:81-97 | An element followed by `]` ends the array with that element appended. |
| JsonParsing.NextElementStep | HomeWorks2dSemester/json/json_parser.cpp:81-89 | An element followed by `,` is appended, and the loop continues. |
| JsonParsing.EmptyObjectStep | HomeWorks2dSemester/json/json_parser.cpp:33-68 | `{` directly followed by `}` is the empty object. |
| JsonParsing.ObjectStep | HomeWorks2dSemester/json/json_parser.cpp:37-41 | `{` followed by anything else starts the member loop. |
| JsonParsing.LastMemberStep | HomeWorks2dSemester/json/json_parser.cpp:41-68 | `"k" : v }` ends the object with obj[k] = v. |
| JsonParsing.NextMemberStep | HomeWorks2dSemester/json/json_parser.cpp:41-60 | `"k" : v ,` assigns obj[k] = v, and the loop continues. |
| JsonParserProps.ArrayTrailingComma | HomeWorks2dSemester/json/json_parser.cpp:85-89 | `[ …, v, ]` is rejected with "Invalid JSON value". |
| JsonParserProps.ObjectTrailingComma | HomeWorks2dSemester/json/json_parser.cpp:41-60 | `{ …, "k": v, }` is rejected with "Expected string key". |
| JsonParserProps.RepeatedKeyLaterWins | HomeWorks2dSemester/json/json_parser.cpp:51 | With a repeated key, the later value replaces the earlier one. |
| JsonParserProps.MembersKeepKeys | HomeWorks2dSemester/json/json_parser.cpp:40-61 | A key read earlier is never dropped by the member loop. |
| JsonParserClass.JsonParser.constructor | HomeWorks2dSemester/json/json_parser.cpp:3-5 | The parser over a lexer whose first token has been pulled. |
| JsonParserClass.JsonParser.NextToken | HomeWorks2dSemester/json/json_parser.cpp:16-18 | The new current token and lexer cursor are exactly Advance of the old state. A lexer error is reported as such. |
| JsonParserClass.JsonParser.Parse | HomeWorks2dSemester/json/json_parser.cpp:7-14 | Returns exactly ParseAll of the state before the call. |
| JsonParserClass.JsonParser.ParseValue | HomeWorks2dSemester/json/json_parser.cpp:20-31 | The result and the state it leaves are exactly ParseValue of the state before the call. |
| JsonParserClass.JsonParser.ParseObject | HomeWorks2dSemester/json/json_parser.cpp:33-69 | The result and the state it leaves are exactly ParseObject of the state before the call; the member loop is a while loop. |
| JsonParserClass.JsonParser.ParseArray | HomeWorks2dSemester/json/json_parser.cpp:71-98 | The result and the state it leaves are exactly ParseArray of the state before the call; the element loop is a while loop. |
| JsonParserClass.JsonParser.ParseString | HomeWorks2dSemester/json/json_parser.cpp:100-108 | Exactly ParseString of the state before the call. |
| JsonParserClass.JsonParser.ParseNumber | HomeWorks2dSemester/json/json_parser.cpp:110-121 | Exactly ParseNumber of the state before the call. |
| JsonParserClass.JsonParser.ParseBoolean | HomeWorks2dSemester/json/json_parser.cpp:123-134 | Exactly ParseBoolean of the state before the call. |
| JsonParserClass.JsonParser.ParseNull | HomeWorks2dSemester/json/json_parser.cpp:136-143 | Exactly ParseNull of the state before the call. |
| JsonRoundTrip.RoundTrip | HomeWorks2dSemester/json/json_parser.cpp:7-14 | For every printable value (no quote or backslash in a string or key, and a number formatter that writes lexemes lex_number reads whole and std::stod accepts, in range included), parsing the compact dump gives back exactly that value. |
| JsonRoundTrip.ValueAt | HomeWorks2dSemester/json/json_parser.cpp:20-31 | A printable value's compact text, written anywhere and followed by a delimiter, is parsed back exactly, and parsing stops right after it. |
| JsonRoundTrip.ScalarValueAt | HomeWorks2dSemester/json/json_parser.cpp:100-143 | The same for scalars: null, booleans, numbers and strings. |
| JsonRoundTrip.CompactScalar | HomeWorks2dSemester/json/json_null.cpp:30-32 | The compact dump of a printable scalar is a text the lexer reads back as that scalar. |
| JsonRoundTrip.ItemsReadAs | HomeWorks2dSemester/json/json_array.cpp:53-62 | Each element's compact text reads back as that element, wherever it is written. |
| JsonRoundTrip.ArrayRead | HomeWorks2dSemester/json/json_parser.cpp:71-98 | `[`, element texts joined by commas, then `]`, is parsed as the array of those elements. |
| JsonRoundTrip.ArrayAt | HomeWorks2dSemester/json/json_array.cpp:42-70 | The compact dump of a printable array is parsed back as that array. |
| JsonRoundTrip.ElementsChained | HomeWorks2dSemester/json/json_parser.cpp:80-90 | The element loop reads the elements in order and appends them to what was read before. |
| JsonRoundTrip.ArrayParsed | HomeWorks2dSemester/json/json_parser.cpp:71-98 | parse_array over the tokens of `[`, the elements and `]` gives the array of those elements. |
| JsonRoundTrip.ListingCovers | HomeWorks2dSemester/json/json_object.cpp:52 | Inserting the visited keys with their values, in visit order, rebuilds the map: the dump lists every member once. |
| JsonRoundTrip.InsertCovers | HomeWorks2dSemester/json/json_parser.cpp:51 | After the member loop's assignments, the keys are the earlier keys plus the keys read, and each key holds its latest value. |
| JsonRoundTrip.ObjectCompact | HomeWorks2dSemester/json/json_object.cpp:43-80 | The compact dump of an object is `{`, the `"key":value` texts joined by commas, then `}`. |
| JsonRoundTrip.MembersReadAs | HomeWorks2dSemester/json/json_object.cpp:51-70 | Each member's text reads back as that member's value. |
| JsonRoundTrip.ObjectRead | HomeWorks2dSemester/json/json_parser.cpp:33-69 | `{`, member texts joined by commas, then `}`, is parsed as the object built by assigning the members in order. |
| JsonRoundTrip.ObjectAt | HomeWorks2dSemester/json/json_object.cpp:43-80 | The compact dump of a printable object is parsed back as that object. |
| JsonRoundTrip.MembersChained | HomeWorks2dSemester/json/json_parser.cpp:40-61 | The member loop reads the members in order and assigns each into the map. |
| JsonRoundTrip.ObjectParsed | HomeWorks2dSemester/json/json_parser.cpp:33-69 | parse_object over the tokens of `{`, the members and `}` gives the object built from those members. |
| JsonApi.Parse | HomeWorks2dSemester/json/json_api.cpp:9-12 | Returns exactly what JsonParser(input).parse() computes, including its errors, among them the "Invalid number format" of a number outside a double's range. |
| JsonApi.Remove | HomeWorks2dSemester/json/json_api.cpp:33-35 | The key is gone and `has` answers as before for every other key. |
| JsonApi.Member | HomeWorks2dSemester/json/json_api.cpp:47-55 | Not an object: "JSON value is not an object". Missing key: "Key not found: " + key. Otherwise the member's value. |
| JsonApi.GetNumber | HomeWorks2dSemester/json/json_api.cpp:45-61 | Succeeds exactly when the member exists and is a number, and then gives its lexeme. A member of another kind fails with "Value is not a number"; otherwise Member's error. |
| JsonApi.GetString | HomeWorks2dSemester/json/json_api.cpp:63-79 | Succeeds exactly when the member exists and is a string, and then gives its text. A member of another kind fails with "Value is not a string"; otherwise Member's error. |
| JsonApi.GetBool | HomeWorks2dSemester/json/json_api.cpp:81-97 | Succeeds exactly when the member exists and is a boolean, and then gives its value. A member of another kind fails with "Value is not a boolean"; otherwise Member's error. |
| JsonApi.SetNumber | HomeWorks2dSemester/json/json_api.cpp:99-102 | The key holds the new number, and get<double> reads it back. |
| JsonApi.SetString | HomeWorks2dSemester/json/json_api.cpp:104-107 | The key holds the new string, and get<std::string> reads it back. |
| JsonApi.SetBool | HomeWorks2dSemester/json/json_api.cpp:109-112 | The key holds the new boolean, and get<bool> reads it back. |
| JsonApi.SetKeepsOthers | HomeWorks2dSemester/json/json_api.cpp:45-112 | A set under one key leaves every getter for every other key answering as before. |
| CalcLexing.NumberEnd | HomeWorks2dSemester/Calculator/src/lexer/lexer.cpp:20-42 | A number run ends at the end of the input or at a character that is neither a digit nor a dot; every character it covers is a digit or a dot. A second dot in one run is the "Invalid number format" error. |
| CalcLexing.NameEnd | HomeWorks2dSemester/Calculator/src/lexer/lexer.cpp:59-66 | A name run ends at the end of the input or at the first character the name rule rejects; every character before that is accepted by the rule. |
| CalcLexing.Lexer.ReadNumber | HomeWorks2dSemester/Calculator/src/lexer/lexer.cpp:20-42 | The loop over digits and dots stops where NumberEnd says, or reports the second dot as "Invalid number format". |
| CalcLexing.Lexer.ReadName | HomeWorks2dSemester/Calculator/src/lexer/lexer.cpp:59-66 | The loop over letters stops where NameEnd says for the letters-only rule. |
| CalcLexing.Lexer.Tokenize | HomeWorks2dSemester/Calculator/src/lexer/lexer.cpp:11-80 | The tokenizer loop returns exactly the tokens, or the first error, of the recursive tokenizer definition: spaces skipped, numbers checked by stod (a digit present and the value within a double's range, so out_of_range is "Invalid number: " too), the five operators, parentheses, known function names, and "Invalid character" for anything else. |
| CalcLexing.NoSpace | HomeWorks2dSemester/Calculator/src/lexer/lexer.cpp:16-19 | The input with its spaces removed holds no space. |
| CalcLexing.SpellingAppend | HomeWorks2dSemester/Calculator/src/lexer/lexer.cpp:11-80 | Spelling out two token lists one after the other is spelling out their concatenation. |
| CalcLexing.NoSpaceRun | HomeWorks2dSemester/Calculator/src/lexer/lexer.cpp:20-74 | A run without spaces is kept whole when the spaces are removed from the input from its start. |
| CalcLexing.ScanSingle | HomeWorks2dSemester/Calculator/src/lexer/lexer.cpp:44-58 | An operator or parenthesis becomes one single-character token and scanning continues right after it. |
| CalcLexing.ScanNumber | HomeWorks2dSemester/Calculator/src/lexer/lexer.cpp:20-42 | An accepted number run becomes one number token spelling the run, and scanning continues after it. |
| CalcLexing.ScanName | HomeWorks2dSemester/Calculator/src/lexer/lexer.cpp:59-74 | A known function name becomes one function token spelling the name, and scanning continues after it. |
| CalcLexing.SpellStep | HomeWorks2dSemester/Calculator/src/lexer/lexer.cpp:11-80 | One token spelling its run followed by tokens spelling the rest spells the whole remaining input without its spaces. |
| CalcLexing.SpellFrom | HomeWorks2dSemester/Calculator/src/lexer/lexer.cpp:11-80 | From a non-space position of a successful scan, the next token ends further on and the tokens from there spell the remaining input without spaces. |
| CalcLexing.TokensSpellInput | HomeWorks2dSemester/Calculator/src/lexer/lexer.cpp:11-80 | When tokenizing succeeds, the token values written one after the other are the input with its spaces removed: no character is lost, added or reordered. |
| CalcLexing.FunctionTokensAreLetters | HomeWorks2dSemester/Calculator/src/lexer/lexer.cpp:59-74 | Every function token the tokenizer produces is made of letters only. |
| CalcLexing.LogNamesUnreachable | HomeWorks2dSemester/Calculator/src/lexer/lexer.cpp:7-9 | As written: no input yields a "log2" or "log10" function token, although both are listed as valid functions, because a name run stops at the digit. |
| CalcLexing.LogTwoRejected | HomeWorks2dSemester/Calculator/src/lexer/lexer.cpp:59-74 | As written: "log2(8)" is rejected as the unknown function "log". |
| CalcLexing.LogTwoIntended | HomeWorks2dSemester/Calculator/src/lexer/lexer.cpp:7-9 | Corrected: with names that may continue with digits, "log2(8)" tokenizes as the function log2, "(", 8, ")". |
| CalcLexing.SecondDotRejected | HomeWorks2dSemester/Calculator/src/lexer/lexer.cpp:24-27 | "1.2.3" is the "Invalid number format" error. |
| CalcLexing.LoneDotRejected | HomeWorks2dSemester/Calculator/src/lexer/lexer.cpp:34-39 | A lone "." is rejected by the number conversion as the invalid number ".". |
| CalcLexing.OutOfRangeRejected | HomeWorks2dSemester/Calculator/src/lexer/lexer.cpp:34-39 | A run of digits whose value is outside a double's range makes stod throw out_of_range, which the lexer reports as the invalid number itself. |
| CalcParsing.Expression | HomeWorks2dSemester/Calculator/src/parser/parser.cpp:20-31 | A parsed sum or difference consumes at least one token and ends within the token list. |
| CalcParsing.ExpressionRest | HomeWorks2dSemester/Calculator/src/parser/parser.cpp:22-29 | The loop over "+" and "-" never moves backwards and ends within the token list. |
| CalcParsing.Term | HomeWorks2dSemester/Calculator/src/parser/parser.cpp:33-44 | A parsed product or quotient consumes at least one token and ends within the token list. |
| CalcParsing.TermRest | HomeWorks2dSemester/Calculator/src/parser/parser.cpp:35-42 | The loop over "*" and "/" never moves backwards and ends within the token list. |
| CalcParsing.Power | HomeWorks2dSemester/Calculator/src/parser/parser.cpp:46-57 | A parsed power consumes at least one token and ends within the token list. |
| CalcParsing.PowerRest | HomeWorks2dSemester/Calculator/src/parser/parser.cpp:48-55 | The loop over "^" never moves backwards and ends within the token list. |
| CalcParsing.Factor | HomeWorks2dSemester/Calculator/src/parser/parser.cpp:59-97 | A parsed factor consumes at least one token; at the end of the tokens it is the "Unexpected end of expression" error. |
| CalcParsing.ParseAll | HomeWorks2dSemester/Calculator/src/parser/parser.cpp:6-18 | An empty token list is the "No valid tokens" error. |
| CalcParsing.Parser.Parse | HomeWorks2dSemester/Calculator/src/parser/parser.cpp:6-18 | The parser's entry point gives the recursive definition's tree or error, including "Unexpected tokens after expression" when tokens are left over. |
| CalcParsing.Parser.ParseExpression | HomeWorks2dSemester/Calculator/src/parser/parser.cpp:20-31 | The loop that folds "+" and "-" to the left gives the recursive definition's tree and position. |
| CalcParsing.Parser.ParseTerm | HomeWorks2dSemester/Calculator/src/parser/parser.cpp:33-44 | The loop that folds "*" and "/" to the left gives the recursive definition's tree and position. |
| CalcParsing.Parser.ParsePower | HomeWorks2dSemester/Calculator/src/parser/parser.cpp:46-57 | The loop that folds "^" to the left gives the recursive definition's tree and position. |
| CalcParsing.Parser.ParseFactor | HomeWorks2dSemester/Calculator/src/parser/parser.cpp:59-97 | Numbers, parenthesised expressions and function calls with a parenthesised argument are read as the recursive definition says, with the same errors for a missing ")" or "(" and for an unexpected token. |
| CalcParsing.Tokens | HomeWorks2dSemester/Calculator/src/parser/parser.cpp:59-97 | Writing a tree out with full parentheses gives at least one token. |
| CalcParsing.LoneFactor | HomeWorks2dSemester/Calculator/src/parser/parser.cpp:20-57 | A factor followed by ")" or by nothing is passed up unchanged by the power, term and expression levels. |
| CalcParsing.OperationInside | HomeWorks2dSemester/Calculator/src/parser/parser.cpp:20-57 | A factor, one operator and a factor followed by ")" parse, at the expression level, as that single operation, whichever of the five operators it is. |
| CalcParsing.PlacedPart | HomeWorks2dSemester/Calculator/src/parser/parser.cpp:59-97 | A slice of tokens placed in the token list is placed at the matching offset. |
| CalcParsing.PlacedAt | HomeWorks2dSemester/Calculator/src/parser/parser.cpp:59-97 | Each token of a placed list is at its offset in the token list. |
| CalcParsing.OperationLayout | HomeWorks2dSemester/Calculator/src/parser/parser.cpp:70-79 | The fully parenthesised tokens of an operation are "(", the left operand's tokens, the operator, the right operand's tokens, ")". |
| CalcParsing.CallLayout | HomeWorks2dSemester/Calculator/src/parser/parser.cpp:80-94 | The tokens of a call are the function name, "(", the argument's tokens, ")". |
| CalcParsing.FactorReadsTokens | HomeWorks2dSemester/Calculator/src/parser/parser.cpp:59-97 | Wherever the tokens of a well-formed tree stand in a token list, one factor read from there is that tree and ends right after them. |
| CalcParsing.OperationPlaced | HomeWorks2dSemester/Calculator/src/parser/parser.cpp:70-79 | Where an operation's tokens stand, its operands' tokens stand inside the parentheses on either side of the operator. |
| CalcParsing.OperationReadsTokens | HomeWorks2dSemester/Calculator/src/parser/parser.cpp:70-79 | A parenthesised operation is read back as one factor ending after its ")". |
| CalcParsing.CallPlaced | HomeWorks2dSemester/Calculator/src/parser/parser.cpp:80-94 | Where a call's tokens stand, the name and "(" come first and the argument's tokens follow, closed by ")". |
| CalcParsing.CallReadsTokens | HomeWorks2dSemester/Calculator/src/parser/parser.cpp:80-94 | A call is read back as one factor ending after its ")". |
| CalcParsing.ParenStep | HomeWorks2dSemester/Calculator/src/parser/parser.cpp:70-79 | "(" followed by an expression and ")" is one factor ending after the ")". |
| CalcParsing.ParseTokensRoundTrip | HomeWorks2dSemester/Calculator/src/parser/parser.cpp:6-97 | Parsing the fully parenthesised tokens of any well-formed tree gives that tree back, so the parser builds exactly the structure the parentheses spell. |
| CalcParsing.NumberPower | HomeWorks2dSemester/Calculator/src/parser/parser.cpp:46-57 | A number not followed by "^" is a power by itself, one token long. |
| CalcParsing.NumberTerm | HomeWorks2dSemester/Calculator/src/parser/parser.cpp:33-44 | A number followed by neither "^", "*" nor "/" is a term by itself, one token long. |
| CalcParsing.PowerLeftAssociative | HomeWorks2dSemester/Calculator/src/parser/parser.cpp:46-57 | As the code is written, a ^ b ^ c groups as (a ^ b) ^ c. |
| CalcParsing.MinusLeftAssociative | HomeWorks2dSemester/Calculator/src/parser/parser.cpp:20-31 | a - b - c groups as (a - b) - c. |
| CalcParsing.ProductBindsTighter | HomeWorks2dSemester/Calculator/src/parser/parser.cpp:20-44 | a + b * c groups as a + (b * c). |
| CalcParsing.MissingOperand | HomeWorks2dSemester/Calculator/src/parser/parser.cpp:59-62 | "a +" with nothing after the operator is the "Unexpected end of expression" error. |
| CalcParsing.NoUnaryMinus | HomeWorks2dSemester/Calculator/src/parser/parser.cpp:95-96 | A leading "-" is not a factor: the parser reports the unexpected token "-". |
| CalcParsing.TrailingTokens | HomeWorks2dSemester/Calculator/src/parser/parser.cpp:13-15 | Two numbers in a row leave a token over and are the "Unexpected tokens after expression" error. |
| GrepArgs.Prefix | HomeWorks2dSemester/grep/src/arg_parser.cpp:36 | substr(0, n) has n characters, or the whole string when it is shorter. |
| GrepArgs.Suffix | HomeWorks2dSemester/grep/src/arg_parser.cpp:58 | substr(n) is what follows the first n characters. |
| GrepArgs.Extension | HomeWorks2dSemester/grep/src/arg_parser.cpp:58-61 | An extension starting with "*" loses exactly that one "*"; any other extension, including the empty one, is kept as it is. |
| GrepArgs.Count | HomeWorks2dSemester/grep/src/arg_parser.cpp:36-55 | With no argument after -A, -B or -C, the result is the "requires a number" error for that option. Otherwise it succeeds exactly when std::stoi accepts the next argument, and gives stoi's value. |
| GrepArgs.SetFlag | HomeWorks2dSemester/grep/src/arg_parser.cpp:12-35 | Exactly the eight flag options set a flag, and none of them touches the pattern or the paths. |
| GrepArgs.SetCount | HomeWorks2dSemester/grep/src/arg_parser.cpp:36-55 | A count never touches the pattern or the paths, and -C sets the before and after context to the same number. |
| GrepArgs.Step | HomeWorks2dSemester/grep/src/arg_parser.cpp:10-69 | One option moves the index forward, by two for a count option, without passing the end of the arguments. The pattern and paths are left alone. |
| GrepArgs.Options | HomeWorks2dSemester/grep/src/arg_parser.cpp:9-70 | The option loop stops at the end of the arguments or at the first argument not starting with "-", and never sets the pattern or the paths. |
| GrepArgs.Validate | HomeWorks2dSemester/grep/src/arg_parser.cpp:90-100 | No error exactly when the settings are consistent. A negative context is reported first, then -l with -c, then -w with -E. |
| GrepArgs.Operands | HomeWorks2dSemester/grep/src/arg_parser.cpp:72-87 | With nothing left after the options, the result is "Pattern required". A success is consistent, its pattern is the first argument after the options, and its paths are the rest, or "." when there is none. |
| GrepArgs.ParseWith | HomeWorks2dSemester/grep/src/arg_parser.cpp:3-88 | With fewer than two arguments, the result is the usage error naming the program. A success is consistent, and its pattern is a non-option argument with the paths after it. |
| GrepArgs.Parse | HomeWorks2dSemester/grep/src/arg_parser.cpp:3-88 | The parsing loop gives the definition's result, with the nine-character --include= comparison the code has. |
| GrepArgs.ReadOperands | HomeWorks2dSemester/grep/src/arg_parser.cpp:72-87 | The code after the option loop gives Operands' result. |
| GrepArgs.PushPaths | HomeWorks2dSemester/grep/src/arg_parser.cpp:81-83 | The loop appends the remaining arguments to the paths, in order. |
| GrepArgs.ReadOption | HomeWorks2dSemester/grep/src/arg_parser.cpp:11-69 | One pass of the option loop gives Step's result. |
| GrepArgs.ContextBoth | HomeWorks2dSemester/grep/src/arg_parser.cpp:50-55 | -C sets the before and after context to the same number, and without a following argument it is "-C requires a number". |
| GrepArgs.UnknownOption | HomeWorks2dSemester/grep/src/arg_parser.cpp:65-67 | An option that matches no branch is the "Unknown option: " error, followed by the option. |
| GrepArgs.IncludeNeverMatches | HomeWorks2dSemester/grep/src/arg_parser.cpp:57 | As written: every --include=EXT option is rejected as an unknown option, because a nine-character prefix never equals the ten-character literal. |
| GrepArgs.IncludeIntended | HomeWorks2dSemester/grep/src/arg_parser.cpp:57-63 | Corrected: comparing ten characters, --include=EXT appends EXT, with one leading "*" dropped, to the extensions, and moves to the next argument. |
| GrepArgs.PatternThenPaths | HomeWorks2dSemester/grep/src/arg_parser.cpp:9-84 | After a run of flags, the pattern is the first argument not starting with "-". The paths are "." when nothing follows it, and otherwise exactly the remaining arguments, in order. |
| GrepArgs.FlagsThenStop | HomeWorks2dSemester/grep/src/arg_parser.cpp:10-70 | The option loop consumes a run of flags and stops at the first non-option argument. |
| GrepLines.AsSize | HomeWorks2dSemester/grep/src/line_processor.cpp:19 | static_cast<size_t> of an int is below 2^64 and keeps every non-negative value. |
| GrepLines.LineProcessor.Emit | HomeWorks2dSemester/grep/src/line_processor.cpp:22-27 | A for-each over the window prints at most one line per window line, each for the file being processed. |
| GrepLines.LineProcessor.Leave | HomeWorks2dSemester/grep/src/line_processor.cpp:20-42 | A non-matching front line prints at most itself. Everything printed is for the file being processed. |
| GrepLines.LineProcessor.Evict | HomeWorks2dSemester/grep/src/line_processor.cpp:19-45 | The window left holds at most before + after + 1 lines. A window already within that size is untouched and nothing is printed. |
| GrepLines.LineProcessor.constructor | HomeWorks2dSemester/grep/src/line_processor.cpp:3-5 | A new processor keeps the matcher, the contexts and the three flags, with an empty window, no counts, no match seen and nothing printed. |
| GrepLines.LineProcessor.Process | HomeWorks2dSemester/grep/src/line_processor.cpp:7-46 | A matching line adds one to its file's count and marks the file as having matches. Under -c, or -l with a non-matching line, nothing else changes. Otherwise the line is pushed and the window evicted as Evict says. |
| GrepLines.LineProcessor.Push | HomeWorks2dSemester/grep/src/line_processor.cpp:18-45 | The push and the while loop leave the window and the printed lines Evict gives for the window with the new line. |
| GrepLines.LineProcessor.EvictFront | HomeWorks2dSemester/grep/src/line_processor.cpp:20-44 | One pass prints what Leave says for the front line and drops exactly that line; the loop's remaining work is unchanged by it. |
| GrepLines.LineProcessor.FindMatchAhead | HomeWorks2dSemester/grep/src/line_processor.cpp:30-36 | The loop with a break answers whether a matching line stands among the next after-context lines of the window. |
| GrepLines.LineProcessor.EmitLines | HomeWorks2dSemester/grep/src/line_processor.cpp:60-65 | The for-each prints exactly the lines Emit selects. |
| GrepLines.LineProcessor.Report | HomeWorks2dSemester/grep/src/line_processor.cpp:53-66 | Under -c only the count is printed. Under -l, with a match in the file, only the file name is. No summary line comes from this part. |
| GrepLines.LineProcessor.Flushed | HomeWorks2dSemester/grep/src/line_processor.cpp:48-66 | A summary comes first exactly when the count is positive. Under -c the output ends with the count, and under -l with a match it ends with the file name. |
| GrepLines.LineProcessor.FlushFile | HomeWorks2dSemester/grep/src/line_processor.cpp:48-70 | Flushing prints what Flushed says, empties the window and clears the match flag. Reading the count through operator[] adds the file with 0 when it was missing. |
| GrepLines.LineProcessor.ReportFile | HomeWorks2dSemester/grep/src/line_processor.cpp:53-66 | The if-chain prints exactly what Report says. |
| GrepLines.LineProcessor.GetCounts | HomeWorks2dSemester/grep/src/line_processor.cpp:72-74 | The map returned holds exactly the files processed or flushed, each with its count. |
| GrepLines.EvictKeepsTail | HomeWorks2dSemester/grep/src/line_processor.cpp:19-45 | Lines leave the window only from the front, so what is left is a tail of the window. |
| GrepLines.SuffixAscending | HomeWorks2dSemester/grep/src/line_processor.cpp:18-45 | Every tail of a window in ascending line order is ascending. |
| GrepLines.PushAscending | HomeWorks2dSemester/grep/src/line_processor.cpp:18 | A line numbered above every line of an ascending window keeps it ascending when pushed. |
| GrepLines.ArrivalOrder | HomeWorks2dSemester/grep/src/line_processor.cpp:7-46 | Lines arriving in increasing order leave the window ascending after any eviction. |
| GrepLines.MatchedLinePrinted | HomeWorks2dSemester/grep/src/line_processor.cpp:21-27 | When a matching line leaves the window, it is printed first, with its own number. |
| GrepLines.LeadingLine | HomeWorks2dSemester/grep/src/line_processor.cpp:22-27 | A front line within the bound is the first line the for-each prints. |
| RbTree.WithChild | HomeWorks2dSemester/Set/set.cpp:110-155 | Replacing one child of a node keeps the node's colour, key and other child. |
| RbTree.RotL | HomeWorks2dSemester/Set/set.cpp:110-131 | rotate_left brings the right child up: the old node becomes its left child, keeping its colour and left subtree, and the keys stay in the same order. |
| RbTree.RotR | HomeWorks2dSemester/Set/set.cpp:134-155 | rotate_right brings the left child up: the old node becomes its right child, keeping its colour and right subtree, and the keys stay in the same order. |
| RbTree.Turn | HomeWorks2dSemester/Set/set.cpp:110-155 | The rotation that moves a node down on one side keeps the in-order keys, and the child that comes up keeps its colour. |
| RbTree.LookupStep | HomeWorks2dSemester/Set/set.cpp:19-30 | Following one more link from a position reaches that child of the node there. |
| RbTree.AtStep | HomeWorks2dSemester/Set/set.cpp:19-30 | One step down from a node is a valid position holding that child. |
| RbTree.ParentPos | HomeWorks2dSemester/Set/set.cpp:158-209 | Every non-root position has a parent node, and the position holds that parent's child on its side. |
| RbTree.LookupAppend | HomeWorks2dSemester/Set/set.cpp:289-296 | Following a path and then another is following the second path from the subtree the first reaches. |
| RbTree.AtPut | HomeWorks2dSemester/Set/set.cpp:299-313 | After a pointer assignment at a position, that position holds the new subtree. |
| RbTree.LookupPutBelow | HomeWorks2dSemester/Set/set.cpp:299-313 | Below the assigned position, the tree is the new subtree. |
| RbTree.PutSplit | HomeWorks2dSemester/Set/set.cpp:299-313 | Assigning at a deep position is assigning, at an ancestor, that ancestor's subtree updated below it. |
| RbTree.PutRoot | HomeWorks2dSemester/Set/set.cpp:158-286 | An assignment strictly below the root keeps the root's colour and key. |
| RbTree.PutPut | HomeWorks2dSemester/Set/set.cpp:299-313 | Of two assignments at one position, the second wins. |
| RbTree.InOrderPut | HomeWorks2dSemester/Set/set.cpp:299-313 | After an assignment at a position, the keys are those left of it, the new subtree's keys, and those right of it. |
| RbTree.InOrderPutStep | HomeWorks2dSemester/Set/set.cpp:299-313 | The step of InOrderPut, from the walk through the parent to the walk through the child. |
| RbTree.InOrderSplit | HomeWorks2dSemester/Set/set.cpp:17-106 | The keys of a tree are the keys left of any position, the subtree there, and the keys right of it. |
| RbTree.InOrderReplace | HomeWorks2dSemester/Set/set.cpp:110-155 | Putting in a subtree with the same keys, such as a rotated one, leaves the keys of the whole tree unchanged. |
| RbTree.BeforeLeftSpine | HomeWorks2dSemester/Set/set.cpp:289-296 | Going down left children adds no keys on the left. |
| RbTree.PutChild | HomeWorks2dSemester/Set/set.cpp:299-313 | Assigning a node's child is assigning the node with that child replaced. |
| RbTree.InOrderWithChild | HomeWorks2dSemester/Set/set.cpp:110-155 | Replacing a child by one with the same keys keeps the node's keys. |
| RbTree.SortedParts | HomeWorks2dSemester/Set/set.cpp:17-44 | Both halves of a sorted key sequence are sorted, and every key of the left half is at most every key of the right. |
| RbTree.SortedInsert | HomeWorks2dSemester/Set/set.cpp:17-44 | A key placed after every key not above it and before every key above it keeps the sequence sorted. |
| RbTree.SortedRemove | HomeWorks2dSemester/Set/set.cpp:47-106 | Dropping one key keeps a sorted sequence sorted. |
| RbTree.AtFirstStep | HomeWorks2dSemester/Set/set.cpp:48-63 | A path starting with a side is the rest of the path in that child. |
| RbTree.SearchSorted | HomeWorks2dSemester/Set/set.cpp:48-63 | In a sorted node, the search finds the key exactly when the key is in it, given the same for both children. |
| RbTree.SearchFinds | HomeWorks2dSemester/Set/set.cpp:48-63 | The search of remove() lands on a node holding the key. In a sorted tree, it lands somewhere exactly when the key is present. |
| RbTree.LeftSpineMin | HomeWorks2dSemester/Set/set.cpp:289-296 | The node min_value_node reaches holds the smallest key of the subtree. |
| RbTree.DescendKeeps | HomeWorks2dSemester/Set/set.cpp:19-30 | One step of insert()'s descent keeps every key left of the new place at most the new key, and every key right of it above. |
| RbTree.DescendLeft | HomeWorks2dSemester/Set/set.cpp:24-25 | Going left past a larger key keeps that key and its right subtree above the new key. |
| RbTree.DescendRight | HomeWorks2dSemester/Set/set.cpp:27-28 | Going right past a key not above the new one keeps that key and its left subtree below it. |
| RbTree.SpliceMinKeys | HomeWorks2dSemester/Set/set.cpp:80-100 | Taking the successor out of the right subtree and putting it in the removed node's place leaves the keys without the removed one, in order. |
| RbTree.SpliceMinPos | HomeWorks2dSemester/Set/set.cpp:80-100 | Where the successor's right subtree ends up after the splice. |
| RbSet.Set.constructor | HomeWorks2dSemester/Set/set.cpp:9 | A new set is an empty tree. |
| RbSet.Set.Insert | HomeWorks2dSemester/Set/set.cpp:17-44 | The key goes in after every key not above it and before every key above it, so the keys stay sorted (duplicates kept), the root ends black, and nothing else changes. |
| RbSet.Set.FindLeaf | HomeWorks2dSemester/Set/set.cpp:19-30 | The descent stops at an empty place. Every key before it is at most the new key, and every key after it is above. |
| RbSet.Set.FixInsert | HomeWorks2dSemester/Set/set.cpp:158-209 | Recolouring and rotating up from the new node keeps the keys in order and leaves the root black. |
| RbSet.Set.InsertRecolor | HomeWorks2dSemester/Set/set.cpp:168-173 | The red-uncle case turns the grandparent red and keeps the keys. |
| RbSet.Set.InsertRotate | HomeWorks2dSemester/Set/set.cpp:174-204 | The black-uncle case rotates (twice for an inner node), keeps the keys and leaves the root black. |
| RbSet.Set.SwapColors | HomeWorks2dSemester/Set/set.cpp:182 | Swapping the colours of a node and its child keeps the keys and the black root. |
| RbSet.Set.RotateLeft | HomeWorks2dSemester/Set/set.cpp:110-131 | The subtree at the position becomes its left rotation; the keys stay in order and a non-root rotation keeps the root's colour. |
| RbSet.Set.RotateRight | HomeWorks2dSemester/Set/set.cpp:134-155 | The subtree at the position becomes its right rotation; the keys stay in order and a non-root rotation keeps the root's colour. |
| RbSet.Set.Rotate | HomeWorks2dSemester/Set/set.cpp:110-155 | Rotating a node down on a side puts the rotated subtree in its place and keeps the keys. At the root, the new root has the colour of the child that came up. |
| RbSet.Set.FindLast | HomeWorks2dSemester/Set/set.cpp:48-63 | The search loop gives the last node on the search path that holds the key. |
| RbSet.Set.MinValueNode | HomeWorks2dSemester/Set/set.cpp:289-296 | The loop follows left children only, to a node without a left child that holds the smallest key of the subtree. |
| RbSet.Set.Transplant | HomeWorks2dSemester/Set/set.cpp:299-313 | The new subtree takes the node's place; the keys are those left of it, the new subtree's and those right of it. |
| RbSet.Set.Lift | HomeWorks2dSemester/Set/set.cpp:72-79 | A node with at most one child is replaced by that child, using `transplant`. The keys become those before the node, the child's keys and those after it, and the root keeps its colour unless it is the node replaced. |
| RbSet.Set.Unlink | HomeWorks2dSemester/Set/set.cpp:70-100 | Unlinking the node leaves exactly its keys out: those before it, its left subtree, its right subtree and those after it. A node without a left child is replaced by its right subtree, and its colour is the one removed. |
| RbSet.Set.UnlinkTwoChildren | HomeWorks2dSemester/Set/set.cpp:80-100 | With two children, the successor takes the node's place, and the keys lose exactly the removed one. |
| RbSet.Set.FixDelete | HomeWorks2dSemester/Set/set.cpp:212-286 | The repair keeps the keys in order. As written, starting from an empty child it dereferences null; reading an empty child as a black leaf, it never dereferences a null node (set.cpp:213, 285). A null sibling, which a balanced tree never has, still ends as `Crashed(NilSibling)` (see the RbSet.Set.Valid line under "## Left out"). |
| RbSet.Set.DeleteCase1 | HomeWorks2dSemester/Set/set.cpp:216-221 | A red sibling: recolour and rotate, keeping the keys; the parent is now red with the node below it. |
| RbSet.Set.DeleteCase2 | HomeWorks2dSemester/Set/set.cpp:223-227 | A sibling with two black children turns red; the keys and the parent's colour are unchanged. |
| RbSet.Set.DeleteCase3 | HomeWorks2dSemester/Set/set.cpp:229-237 | The sibling's far child black: rotate the sibling, keeping the keys. |
| RbSet.Set.DeleteCase4 | HomeWorks2dSemester/Set/set.cpp:239-246 | The sibling takes the parent's colour and the parent rotates down, keeping the keys and a black root. |
| RbSet.Set.RemoveFound | HomeWorks2dSemester/Set/set.cpp:70-106 | Once the key's node is found, it never reports the key as missing. A removal drops exactly one occurrence of the key, and the other keys keep their order. With an empty child read as black it never dereferences a null node (set.cpp:213, 285). Without that, removing the only key of a one-node tree does. A null sibling, which a balanced tree never has, still ends as `Crashed(NilSibling)` (see the RbSet.Set.Valid line under "## Left out"). |
| RbSet.Set.RemoveWith | HomeWorks2dSemester/Set/set.cpp:47-106 | An absent key changes nothing and is reported. Otherwise one occurrence of the key is dropped and the keys stay sorted. Removing the only key crashes exactly when an empty child is not read as black. |
| RbSet.Set.Remove | HomeWorks2dSemester/Set/set.cpp:47-106 | As written: an absent key changes nothing; a successful removal drops one occurrence and keeps the keys sorted; removing the only key of the set dereferences a null node. |
| RbSet.Set.RemoveCorrected | HomeWorks2dSemester/Set/set.cpp:47-106 | Corrected: the same removal, and it never dereferences a null node (set.cpp:213, 285); removing the only key empties the set. A null sibling, which a balanced tree never has, still ends as `Crashed(NilSibling)` (see the RbSet.Set.Valid line under "## Left out"). |
| RbSet.InsertedAt | HomeWorks2dSemester/Set/set.cpp:17-44 | The place insert() stops at splits the keys at an index with every earlier key at most the new key and every later key above it. |
| RbSet.RemovedAt | HomeWorks2dSemester/Set/set.cpp:70-100 | Unlinking a node drops the key at its in-order index and keeps the rest in order. |
| RbSet.SearchStep | HomeWorks2dSemester/Set/set.cpp:48-63 | One step of the search loop keeps the result of the whole search. |
| Pool.SizeSumConcat | HomeWorks2dSemester/Pool/Pool.cpp:30 | The bytes of two block lists together are the sum of their bytes. |
| Pool.DropMatching | HomeWorks2dSemester/Pool/Pool.cpp:54 | Removing matching blocks from two lists with the same blocks leaves lists with the same blocks. |
| Pool.SizeSumAt | HomeWorks2dSemester/Pool/Pool.cpp:81-83 | The bytes of a block list are the bytes without one block plus that block's size. |
| Pool.SizeSumPerm | HomeWorks2dSemester/Pool/Pool.cpp:81-83 | Block lists with the same blocks in another order have the same bytes, so moving a block between lists keeps the byte counter right. |
| Pool.IdsMembers | HomeWorks2dSemester/Pool/Pool.cpp:72-74 | An address is in a list's addresses exactly when some block of the list has it. |
| Pool.IssuedMembers | HomeWorks2dSemester/Pool/Pool.cpp:28 | A list counts as issued exactly when every block in it has an address above 0 and below the next address to be handed out. |
| Pool.IdsBound | HomeWorks2dSemester/Pool/Pool.cpp:72-74 | A list has at most as many distinct addresses as blocks. |
| Pool.OwnedOnce | HomeWorks2dSemester/Pool/Pool.cpp:54 | In a list with distinct addresses, each block occurs at most once, so erasing a found block removes one entry. |
| Pool.OwnedPerm | HomeWorks2dSemester/Pool/Pool.cpp:91-93 | Reordering the blocks keeps them owned once each and keeps their bytes. |
| Pool.OwnedPush | HomeWorks2dSemester/Pool/Pool.cpp:28-29 | A block with a fresh address keeps the blocks owned once each and adds its size to the bytes. |
| Pool.FreePush | HomeWorks2dSemester/Pool/Pool.cpp:29 | A fresh block pushed onto the free list keeps every block owned once and adds its size to the bytes. |
| Pool.TakeFree | HomeWorks2dSemester/Pool/Pool.cpp:53-59 | Moving a free block to the used list removes exactly one free entry and keeps the same blocks overall. |
| Pool.UsedToFree | HomeWorks2dSemester/Pool/Pool.cpp:81-83 | Moving a used block to the free list keeps every block owned once and keeps the bytes. |
| Pool.Fresh | HomeWorks2dSemester/Pool/Pool.cpp:27-31 | expandPool's loop makes as many blocks as it was asked for. |
| Pool.FirstFit | HomeWorks2dSemester/Pool/Pool.cpp:114-122 | The search finds the first free block at least as large as required, and none before it is large enough. With no such block it finds none. |
| Pool.Without | HomeWorks2dSemester/Pool/Pool.cpp:54 | Erasing a block by std::remove leaves every other block with its count and no copy of that block. |
| Pool.InsertByAddressPerm | HomeWorks2dSemester/Pool/Pool.cpp:91-93 | Inserting a block into a list gives the list's blocks plus that block. |
| Pool.InsertByAddressOrdered | HomeWorks2dSemester/Pool/Pool.cpp:91-93 | Inserting a block into a list ordered by address keeps it ordered, with the smaller of the two fronts first. |
| Pool.SortByAddressOrdered | HomeWorks2dSemester/Pool/Pool.cpp:91-93 | The sort by address gives a list ordered by address. |
| Pool.SortByAddressPerm | HomeWorks2dSemester/Pool/Pool.cpp:91-93 | The sort by address keeps exactly the same blocks. |
| Pool.MemoryPool.constructor | HomeWorks2dSemester/Pool/Pool.cpp:4-13 | As written: the pool starts with initialSize free blocks of the given size and nothing in use. The reported capacity is twice the blocks the pool owns, because poolSize_ starts at initialSize and expandPool adds initialSize again. |
| Pool.MemoryPool.WithCapacity | HomeWorks2dSemester/Pool/Pool.cpp:4-13 | Corrected: the same pool, with the reported capacity equal to the blocks the pool owns. |
| Pool.MemoryPool.ExpandPool | HomeWorks2dSemester/Pool/Pool.cpp:22-38 | The pool gains that many fresh free blocks of the requested size, or of the default size for 0. The capacity and byte counter grow accordingly, and the gap between capacity and blocks owned stays the same. |
| Pool.MemoryPool.PushFresh | HomeWorks2dSemester/Pool/Pool.cpp:28-30 | One pass of expandPool's loop appends one fresh free block and adds its size to the bytes allocated. |
| Pool.MemoryPool.FindSuitableNode | HomeWorks2dSemester/Pool/Pool.cpp:114-122 | Returns the first free block large enough, or the null block when there is none. |
| Pool.MemoryPool.UpdateStats | HomeWorks2dSemester/Pool/Pool.cpp:125-128 | One more allocation is counted, and the peak becomes the larger of the old peak and the blocks in use. |
| Pool.MemoryPool.TakeNew | HomeWorks2dSemester/Pool/Pool.cpp:48-51 | With no fit, the pool grows by one fresh block of the size needed and takes exactly that block. |
| Pool.MemoryPool.TakeFit | HomeWorks2dSemester/Pool/Pool.cpp:53-55 | The first fitting free block is taken off the free list, and only it. |
| Pool.MemoryPool.Allocate | HomeWorks2dSemester/Pool/Pool.cpp:42-67 | A non-null address comes back. It is the first free block that fits, moved to the used list, or else a fresh block made for the request, with capacity +1. The allocation count goes up by one, the peak is kept, and every block stays owned once. |
| Pool.MemoryPool.Deallocate | HomeWorks2dSemester/Pool/Pool.cpp:70-85 | An address not in use is "Invalid block pointer" and changes nothing. Otherwise that block moves from the used list to the end of the free list and one more deallocation is counted. Capacity, bytes and allocations are unchanged. |
| Pool.MemoryPool.Defragment | HomeWorks2dSemester/Pool/Pool.cpp:88-94 | The free list becomes the same blocks sorted by address; nothing else changes. |

## Left out

- Integer widths: a C++ `int` is an unbounded `int`. In the homework exercises, where a sum could overflow, the range is stated in a `requires` (as in `LeftRotation.RotLeft`, and for every cell and partial sum in `HourglassArray.HourglassSum`), and `size_t` and `uint32_t` wrap-around is written out where the code can reach it. A `double` is never modelled as a floating-point value.
- Game2048.MergeLine: tiles and the score are unbounded integers. The game doubles a tile and adds it to an `int` score (GameWindow.cpp:130-131). On the 6×6 to 8×8 boards the game offers, a tile or the score can pass INT_MAX. That overflow is not modelled, so `MergeLine`, `SlideAndMerge`, `MoveBoard` and the `GameState` score fields hold the mathematical values.
- GraphModel.Graph.FromEdges: uses the corrected `validate_graph`, so `Graph({})` succeeds with an empty graph; the as-written constructor reads `adj_[0]` of an empty vector there, which is undefined behaviour and is exhibited by `GraphModel.EmptyGraphScanOutOfRange` only.
- GraphModel.SortByWeight: `std::sort` is not stable, so the order it leaves among edges of equal weight is unspecified. The model fixes one such order, the insertion order of an insertion sort. Which of several equal-weight edges the tree keeps therefore follows that order, and the other orders `std::sort` may produce are not covered.
- JSON numbers: `JsonNumber` (json_number.cpp) is not part of this model. A number is kept as its lexeme, and the text it dumps to is a parameter, because it depends on double formatting. The `stod` call of `parse_number` is modelled by which lexemes it accepts, not by the value it computes.
- JSON file I/O: `JsonApi::read`, `JsonApi::write`, the `JsonApi` file-path constructor and the json test program are not modelled.
- JSON iteration order: `unordered_map` iteration order is a parameter of the dump, so every order is covered but none is singled out.
- JsonRoundTrip.RoundTrip: holds only for values whose strings need no escaping, because `JsonString::dump` writes the characters between quotes without escaping them.
- JSON object identity: `unique_ptr` ownership and the heap identity of values are not modelled. A value is a tree, and a clone is equal to its original.
- Calculator evaluation: `expression_node`, `number_node`, `operator_node`, `function_node` and `calculator` evaluate on doubles and are not part of this model. The tree the parser builds is a datatype.
- Calculator debug output: the `std::cerr` trace in `parse_factor` is not modelled.
- Calculator number values: the lexer's number check models which texts `std::stod` accepts, not the value it computes.
- CStd.StodInRange: whether a decimal text overflows or underflows a double is not computed. Texts under 300 characters without an exponent are in range; for longer texts and texts with an exponent the verdict is an abstract set (`LongInRange`), so the model says that such a text is rejected exactly when it is out of range, but not which texts are out of range.
- grep matching: `matcher` (a `std::regex` wrapper) is an arbitrary predicate and highlighting an arbitrary function. `output` calls are records appended to a trace. `file_reader`, `output.cpp` and grep's `main` are not modelled.
- grep counts: a count is a `nat`, and the `size_t` counters never wrap in the model.
- Red-black set pointers: the set is a value tree addressed by paths, so parent pointers, node identity and the consistency of `parent` links after rotations and `transplant` are not modelled. The key orders and colours they carry are.
- RbSet.Set.Valid: states sorted keys and a black root, not the red-black balance or black-height, so the model allows fix_delete cases that a balanced tree never reaches. Such a case ends as an explicit `Crashed(NilSibling)` result instead of a null dereference, and RbSet.Set.FixDelete, RbSet.Set.RemoveFound and RbSet.Set.RemoveCorrected do not rule it out.
- Red-black mirrored branches: the left and right branches of `fix_insert` and `fix_delete` are one method with a side parameter. In case 3 the left branch paints the near child red (set.cpp:231) where the right branch paints it black (set.cpp:265). The model keeps both paints, choosing the colour by the side. Case 4 then overwrites that colour in either branch.
- Set destruction: `delete_tree` and the destructor only free memory and are not modelled.
- Pool locking and raw memory: the `std::mutex`, the `allocator_traits` calls, `cleanup`, the destructor and `printStats` are not modelled. Addresses are abstract ids handed out in increasing order, and the sort by address uses those ids.
- Pool re-locking: `allocate` calls `expandPool` while it holds the same non-recursive mutex (Pool.cpp:43, 49, 23). The model has no locks, so it does not show the deadlock.
- Pool exceptions: a throwing `construct` in `allocate` and a failing allocator in `expandPool` are not modelled.
- Pool statistics: the start time and the `size_t` width of the counters are not modelled.
- Pool.hpp's declaration of the undefined `Pointer` type is not part of this model.
- Navigator weights: `Weight` is a double with an infinity. The model uses integer weights with an explicit infinity.
- Navigation.Navigator.AStar: the priority order is not modelled. Any queued vertex may be popped, so the contract states the shape of the path and its two ends, not that it is shortest. The heuristic only orders the queue, so it is not a parameter. A `fuel` bound on the pops stands for termination, and the walk back along `prev` stops after |V| nodes, where a node would repeat and the source would loop for ever. In either case the result is None.
- Navigator printing: `print_shortest_distances` only prints and is not modelled.
- Graph loading and export: the file and JSON constructor (Graph.cpp:12-57), `export_to_dot`, `writeDOT`, the `system` call and `main`'s console dialogue are not modelled. `get_file_extension` and the extension test of `main` are.
- Lazy element type: `VectorPairOps<T>` is modelled for `T = int`, with unbounded arithmetic. Its `std::function` operations are Dafny functions.
- Game UI: the Qt widgets, the colour schemes (keys C and Q), `QSettings` persistence of the best scores, message boxes and the display refresh are not modelled. C and Q fall under the `Other` key.
- Game randomness: `rand()` in `addRandomTile` is replaced by the draws it returns, which are parameters.
- IpValidator `find`: it reads a file into a 2^32-bit set and is not modelled.
- Character classes: the C locale is assumed for `isspace`, `isdigit`, `isalpha` and `tolower`. There is no Unicode handling.

## Findings

| source | as written | input that shows it | evidently intended | confidence | as-written member | corrected member |
|---|---|---|---|---|---|---|
| HomeWorks2dSemester/Calculator/src/lexer/lexer.cpp:7-9, 59-74 | `valid_functions` lists "log2" and "log10", but a name is read over letters only, so it stops before the digit | "log2(8)" is rejected with "Unknown function: log" | the two listed functions are recognised, with a name that may continue with digits | not executed | CalcLexing.LogTwoRejected | CalcLexing.LogTwoIntended |
| HomeWorks2dSemester/grep/src/arg_parser.cpp:57 | `opt.substr(0, 9) == "--include="` compares nine characters with a ten-character literal, so it is never true | "--include=*.txt" ends in "Unknown option: --include=*.txt" | compare ten characters and record the extension ".txt" | not executed | GrepArgs.IncludeNeverMatches | GrepArgs.IncludeIntended |
| HomeWorks2dSemester/Set/set.cpp:213, 285 | `fix_delete` reads the colour of its node when it is null, which happens when the removed node had no children and was black | removing the only key of a one-element set | an empty child counts as a black leaf, so a null node is never dereferenced (a null sibling, which a balanced tree never has, is outside this row) | not executed | RbSet.Set.Remove | RbSet.Set.RemoveCorrected |
| HomeWorks2dSemester/Pool/Pool.cpp:6, 12, 33 | `poolSize_` starts at `initialSize`, and `expandPool(initialSize, …)` then adds `initialSize` again | `MemoryPool(4, 64)` reports a capacity of 8 while owning 4 blocks | the capacity equals the number of blocks the pool owns | not executed | Pool.MemoryPool.constructor | Pool.MemoryPool.WithCapacity |
| GraphCourseWork/Graph.cpp:59-63, 138-139 | `validate_graph` scans `adj_[0]` to `adj_[max_vertex_]` even when no edge was added, and `adj_` is then empty | `Graph({})`, an empty edge list, reads `adj_[0]` out of range | an empty graph is valid, and the scan covers only the lists that exist | not executed | GraphModel.EmptyGraphScanOutOfRange | GraphModel.Graph.ValidateGraph |
