# Max-flow solvers and two schedule-feasibility encoders

The system is a small collection of Python max-flow code. `dinic.py`
holds two solvers:

- Ford-Fulkerson: a residual graph that stores forward edges only,
  breadth-first search for augmenting paths that may also walk an edge
  backwards through the transposed adjacency, and the min cut read off the
  final residual graph.
- Dinic: a residual graph with an explicit reverse entry per edge,
  breadth-first levelling, and a stack-driven supply/demand blocking flow.

Two scripts use these solvers to decide whether a staffing schedule is
feasible. Each reads slot sizes, each worker's slot, and one row per period
(the period's demand and each worker's availability), encodes them as a
capacity dictionary, solves, and prints "possible" exactly when every edge
out of the source is saturated.

- `J.py` runs a copy of Dinic. It gives every worker of every period its
  own source edge.
- `JFF.py` runs a copy of Ford-Fulkerson. It sums the availabilities of a
  period's workers per slot.

The model is imperative, like the code:

- The residual dictionaries are `map` fields of two classes:
  `FordFulkerson.ResidualGraph` and `Dinic.LevelGraph`.
- The breadth-first searches, the stack loop, the transpose, the
  builders and the encoders are methods with loops and invariants.
- Every method is proved against ghost predicates and functions that
  state what the source promises: positive simple chains, reachability,
  closed cuts, breadth-first levels, the conservation of each pair
  `flow(u,v) + flow(v,u)`, and the capacity dictionary each encoder must
  produce.

Modules:

- `FlowGraph` (flow_graph.dfy): residual entries, the graph `(V, E)`,
  `transpose`, source flow and saturation.
- `Augmentation` (augmentation.dfy): augmenting steps, the bottleneck,
  and both path updates. `AddAlong` is the update as written;
  `CancelAlong` is the corrected one (see Findings).
- `FordFulkerson` (ford_fulkerson.dfy): `ford_fulkerson`,
  `find_augmenting_path`, `min_cut`.
- `Dinic` (dinic.dfy): `dinic`, `dinic_levels`, `dinic_blocking_flow`,
  and J.py's copy of `dinic_levels`.
- `Schedule` (schedule.dfy): node names, Python dictionaries with key
  order, Python indexing, and the input conditions shared by both
  encoders.
- `JSchedule` (j_schedule.dfy) and `JffSchedule` (jff_schedule.dfy): the
  two encoders and their verdicts.

Python exceptions raised by the encoders become `Result` errors:

- `EmptyRow`: a blank line.
- `SlotOutOfRange`: `qq[q]` does not exist.
- `MissingPrevious`: `c[v_]` does not exist for the slot node of the
  previous period.

The solvers' own exceptions become outcomes:

- `FordFulkerson.EmptyPath`: with `s == t` the search returns `[]` and
  `min` of no residuals raises.
- `Dinic.SourceIsSink`: with `s == t` the first frame reads `sup[None]`
  and raises.
- `NoSuchSource` (both solvers): `s` is not a key of the residual graph.
  For Ford-Fulkerson only when `s != t`: with `s == t` the search returns
  `[]` before it looks at `s`, so the run ends in `EmptyPath` whether or
  not `s` is a node.

## Model

| member | source | states |
|---|---|---|
| FlowGraph.Min | dinic.py:135 | the smaller of two residuals: a lower bound of both that equals one of them |
| FlowGraph.AppendSource | dinic.py:233-234 | appending `u` to `ET[v]` for each `v` in `E[u]` adds exactly `multiset(E[u])[v]` copies of `u` to each row and keeps the keys |
| FlowGraph.Transpose | dinic.py:229-235 | `ET` has a key for exactly the nodes of V, and `ET[v]` lists every `u` with `v` in `E[u]`, in key order of E, once per occurrence |
| FlowGraph.TransposeCounts | dinic.py:229-235 | `u` occurs in `ET[v]` exactly as often as `v` occurs in `E[u]`, so `u in ET[v] <==> v in E[u]` |
| FlowGraph.IncomingCount | dinic.py:233-234 | the occurrences of `u` among the transposed row of `v` count the occurrences of `v` in `E[u]` |
| FlowGraph.IncomingMember | dinic.py:233-234 | membership in the transposed row is membership in the forward row |
| FlowGraph.SaturatedIffFull | dinic.py:139 | with flow within capacity on each source edge, the summed source flow is at most the summed capacity, and equals it exactly when every source edge is saturated |
| FlowGraph.AllSaturated | J.py:76-80 | the for-else scan answers "possible" exactly when every source entry has flow equal to capacity; it only reads, so repeating it gives the same answer (as in JFF.py:75-79) |
| Augmentation.Bottleneck | dinic.py:135 | `b` is at most the residual of every step of the path and equals the residual of one of them |
| Augmentation.BottleneckPositive | dinic.py:135 | on a path whose steps all have positive residual, the bottleneck is positive |
| Augmentation.AddAlong | dinic.py:136 | the update as written keeps the keys of `f` |
| Augmentation.AddEach | dinic.py:136 | the loop over the path's steps computes `AddAlong` |
| Augmentation.AddAlongCount | dinic.py:136 | after the update as written, an entry keeps its capacity and gains `b` once per step of the path on that edge, forward or reverse |
| Augmentation.ReverseStepAddsFlow | dinic.py:136 | on a path with distinct edges, a reverse step increases `f[v][u].flow` by `b` |
| Augmentation.ForwardEntryRespects | dinic.py:136 | on a forward-only path with distinct edges and `0 <= b <=` every residual, an entry within capacity stays within capacity |
| Augmentation.ForwardPathRespects | dinic.py:136 | the same for the whole residual map: `0 <= flow <= capacity` is preserved by forward-only augmentation |
| Augmentation.ReverseStepOverflows | dinic.py:136 | a concrete flow within capacity, and a one-step reverse path with bottleneck 1, that the update as written pushes over capacity |
| Augmentation.CancelAlong | dinic.py:136 | the corrected update keeps every key and every capacity |
| Augmentation.CancelEach | dinic.py:136 | the loop over the path's steps computes `CancelAlong` |
| Augmentation.CancelAlongAt | dinic.py:136 | with distinct edges, the corrected update adds `b` on a forward step's edge, subtracts `b` on a reverse step's edge and leaves every other entry alone |
| Augmentation.CancelRespects | dinic.py:131-136 | the corrected update with `0 <= b <=` every residual preserves `0 <= flow <= capacity` on every entry |
| Augmentation.SimpleEdgesDistinct | dinic.py:145-149 | a chain from `s` that never re-enters a node uses each edge at most once |
| FordFulkerson.BuildResidual | dinic.py:128-130 | one entry `{capacity: c(u,v), flow: 0}` for each edge `(u,v)` and no others |
| FordFulkerson.TransposeListed | dinic.py:126-127 | forward edges are listed in the transposed rows and every transposed entry is a forward edge |
| FordFulkerson.Setup | dinic.py:126-130 | the transpose and the zero-flow residual map together, in the shape the solver relies on |
| FordFulkerson.ResidualGraph.constructor | dinic.py:126-130 | the residual graph `ford_fulkerson` starts from |
| FordFulkerson.ResidualGraph.Process | dinic.py:146-149 | a positive step to an unseen node is marked seen and queued with its extended path; reaching `t` returns an augmenting path |
| FordFulkerson.ResidualGraph.Scan | dinic.py:153-158 | after a row of forward or reverse steps, every positive step of the row leads to a seen node, or an augmenting path was returned |
| FordFulkerson.ResidualGraph.Visit | dinic.py:152-158 | after a node is dequeued and both rows are scanned, every positive step out of it leads to a seen node |
| FordFulkerson.ResidualGraph.FindAugmentingPath | dinic.py:143-159 | `[]` when `s == t`; otherwise a returned path is a positive simple chain from `s` to `t`; `None` exactly when `t` is unreachable by positive forward or reverse steps |
| FordFulkerson.ResidualGraph.ClosedReach | dinic.py:168-171 | a set closed under positive steps that holds `x` holds everything reachable from `x` |
| FordFulkerson.ResidualGraph.CutEdgesSaturated | dinic.py:131-132 | across a closed set, an edge leaving it has no residual left and an edge entering it has no flow to cancel |
| FordFulkerson.ResidualGraph.PushAlong | dinic.py:136 | the as-written update of the field: every entry keeps its capacity and gains `b` per step on its edge |
| FordFulkerson.ResidualGraph.CancelPush | dinic.py:136 | the corrected update of the field |
| FordFulkerson.ResidualGraph.Augment | dinic.py:135-136 | one augmentation adds the bottleneck `b = min(cap(*x) for x in path)` to every step's entry (`AddAlong`), or with the corrected update cancels it on reverse steps (`CancelAlong`); keys and capacities are kept; the corrected update keeps every flow within capacity |
| FordFulkerson.ResidualGraph.Solve | dinic.py:133-138 | the augmentation loop: keys and capacities never change; it ends in `EmptyPath` exactly when `s == t`, leaving `f` alone; when it stops for want of a path, `t` is unreachable; the corrected update preserves capacity respect |
| FordFulkerson.ResidualGraph.CutScan | dinic.py:165-167 | every positive step of a row out of a reachable node ends in `cut_a`, and `cut_a` holds reachable nodes only |
| FordFulkerson.ResidualGraph.CutVisit | dinic.py:169-171 | a dequeued node of `cut_a` is closed under positive steps |
| FordFulkerson.ResidualGraph.CutComplete | dinic.py:168-172 | a closed set holding `s` holds every node reachable from `s` |
| FordFulkerson.ResidualGraph.CutSaturated | dinic.py:162-172 | with flows within capacity, every edge leaving a closed set carries full capacity and every edge entering it carries none |
| FordFulkerson.ResidualGraph.CutSearch | dinic.py:164-171 | `s` is in `cut_a`, `cut_a` is closed under positive steps, and every node of `cut_a` is reachable |
| FordFulkerson.ResidualGraph.MinCut | dinic.py:162-172 | `cut_a` is exactly the nodes reachable from `s` and is closed; `cut_b` is exactly V minus `cut_a` |
| FordFulkerson.Run | dinic.py:123-140 | capacities are `c[u][v]`; `EmptyPath` exactly when `s == t`, `NoSuchSource` exactly when `s` is not a node and `s != t`; a converged run has `t` unreachable, returns the source flow and the cut; with the corrected update and non-negative capacities, flows stay within capacity and the cut is saturated |
| FordFulkerson.StartRespects | dinic.py:130 | the zero-flow start respects non-negative capacities |
| FordFulkerson.SumSourceFlow | dinic.py:139 | `max_flow` is the sum of `f[s][u].flow` over `neighbors(s)` |
| Dinic.Dedup | dinic.py:184-185 | a key list holds each element of the input once and nothing else |
| Dinic.RowEntries | dinic.py:181-182 | the row `f[u]`: its keys in first-insertion order and `{cap: c[u][v], flo: 0}` for each `v` |
| Dinic.FillRow | dinic.py:181-182 | `f[u]` is replaced by the new row and every other row is kept |
| Dinic.ForwardEntries | dinic.py:180-182 | every edge `(u,v)` of the input gets `{cap: c[u][v], flo: 0}`, and nothing else is added |
| Dinic.SetDefault | dinic.py:184-185 | `setdefault` adds `(v,u)` as `{cap: 0, flo: 0}` only when it is absent, and never overwrites an existing entry |
| Dinic.AddReverse | dinic.py:184-185 | after one row of reverse `setdefault` calls, existing entries are kept and missing reverse entries are `{cap: 0, flo: 0}` |
| Dinic.ReverseEntries | dinic.py:183-185 | every row lists forward and reverse neighbours once, and every entry is its forward value or `{cap: 0, flo: 0}` |
| Dinic.Build | dinic.py:179-185 | the residual graph `dinic` builds: `f[v][u]` exists exactly when `f[u][v]` does, real reverse edges are kept, missing ones are `{cap: 0, flo: 0}` |
| Dinic.BuiltPair | dinic.py:184-185 | an entry exists exactly for each input edge and its reverse |
| Dinic.TransferConserves | dinic.py:222 | moving `d` along `(u,v)` and back along `(v,u)` keeps each pair sum `flo(u,v) + flo(v,u)` and touches only a rising edge |
| Dinic.KidsCover | dinic.py:216-217 | every neighbour on a higher level is pushed as a child frame |
| Dinic.LevelGraph.constructor | dinic.py:179-185 | the residual graph `dinic` starts from |
| Dinic.LevelGraph.LevelsShortest | dinic.py:193-201 | no positive walk from `s` to a levelled node is shorter than its level |
| Dinic.LevelGraph.LevelsCover | dinic.py:193-201 | a node is levelled exactly when a positive walk from `s` reaches it |
| Dinic.LevelGraph.Enqueue | dinic.py:199-200 | every positive neighbour of the popped node is queued with level `n + 1`, and the queue before is kept |
| Dinic.LevelGraph.Levels | dinic.py:193-201 | `L[s] = 0`; each levelled node is reached by a walk of `L[x]` edges; every positive edge out of a levelled node leads to a levelled node at most one level further |
| Dinic.LevelGraph.PushChildren | dinic.py:214-217 | the frame is re-pushed and one child frame is pushed per neighbour on a higher level |
| Dinic.GatherStep | dinic.py:220-223 | one more neighbour of the collecting loop: a rising `v` moves `dem[v]` onto `f[u][v]`, takes it off `f[v][u]`, adds it to `dem[u]` and zeroes `dem[v]`; any other `v` changes nothing |
| Dinic.GatherAt | dinic.py:219-223 | over a row without repeats, collecting leaves `dem[u]` as the sum of the rising neighbours' demands, each of those at 0 with `+dem[v]` on `f[u][v]` and `-dem[v]` on `f[v][u]`, and every other demand and entry unchanged |
| Dinic.CollectRow | dinic.py:220-223 | the collecting loop over a row is the fold `Gather` of its steps (`GatheredTo`), keeps the residual graph's shape and every pair sum, and changes only rising entries |
| Dinic.LevelGraph.Leave | dinic.py:219-223 | `dem[u] = 0` and then the collecting loop over `f[u]` (`GatheredTo`, whose effect `GatherAt` states); only the flows of rising edges change and every pair sum is kept |
| Dinic.LevelGraph.Enter | dinic.py:209-217 | a first visit sets `sup[u] = min(sup[w], cap - flo)` when there is a parent `w` and leaves `sup` alone otherwise; the frame is re-pushed as a collecting one with one child frame per rising neighbour above it; the stack invariant is kept and the remaining work drops |
| Dinic.LevelGraph.Collect | dinic.py:218-224 | a second visit runs the collecting loop (`GatheredTo`) and then `sup[w] -= dem[u]` when there is a parent; the stack invariant and the pair sums are kept and the remaining work drops |
| Dinic.LevelGraph.BlockingFlow | dinic.py:204-224 | only `flo` fields change, each pair sum is kept, only edges with `L[v] > L[u]` change, and the stack loop terminates |
| Dinic.LevelGraph.EnqueueUnseen | J.py:24-27 | J.py's inner loop queues each unseen positive neighbour once and marks it seen |
| Dinic.LevelGraph.LevelsJ | J.py:20-28 | J.py's levelling returns exactly `{s: 0}` |
| Dinic.LevelGraph.Level | dinic.py:186-188 | the levelling a pass uses: breadth-first levels, or J.py's `{s: 0}` |
| Dinic.LevelGraph.Passes | dinic.py:186-190 | the pass loop keeps pair sums; a converged loop leaves no positive walk from `s` to `t` and returns the source flow; with J.py's levelling no flow changes |
| Dinic.Run | dinic.py:177-190 | `dinic`: capacities are those of the builder, every entry has its reverse with the opposite flow, and a converged run leaves `t` unreachable and returns the source flow |
| Dinic.RunJ | J.py:4-17 | J.py's `dinic` with `s != t` performs no pass, returns total 0 and leaves every entry as the builder made it |
| Dinic.SourceFlowZero | J.py:17 | the source flow is 0 when every source entry has flow 0 |
| Schedule.Single | J.py:62 | `{k: v}` as a one-key dictionary |
| Schedule.Put | JFF.py:63-64 | assigning a key updates its value and appends it to the key order only when it is new |
| Schedule.PyIndex | J.py:66 | Python indexing: defined for `-len <= k < len`, counting from the end for negative `k` |
| Schedule.Width | J.py:63 | `zip(data, ss)` pairs as many workers as the shorter of the two lists holds |
| Schedule.NetworkReady | J.py:73-74 | the encoded network has the shape both solvers need: E has a key per node of V and each edge has its capacity |
| Schedule.NoEdgeIntoSource | J.py:58-68 | no encoded edge enters the source |
| Schedule.UsedRow | JFF.py:65-66 | a slot node of an earlier period exists exactly when some worker of that period is on the slot |
| Schedule.RowsStop | J.py:60-61 | a blank line or a failing worker makes the input rejected |
| JSchedule.Place | J.py:64-68 | one worker step: `SlotOutOfRange` when `qq[q-1]` does not exist, `MissingPrevious` when the previous period's slot node does not exist, otherwise exactly the new rows |
| JSchedule.EncodeWorker | J.py:63-68 | a worker step succeeds exactly when the worker is well formed, and extends the encoder state: a distinct source edge of capacity `a` to `i_s{j}_q{q-1}`, that node to `i_q{q-1}` with `qq[q-1]`, `i_q{q-1}` to `i_w` with `min(qq[q-1], d)`, and the carry edge from period `i-1` |
| JSchedule.PeriodState | J.py:62 | the period step adds `i_w` with the single edge to `t` of capacity `d` |
| JSchedule.InitialState | J.py:58 | the empty dictionary with `s` and `t` is the encoder state before any period |
| JSchedule.EncodeRow | J.py:60-68 | a period succeeds exactly when all its workers do, and extends the encoder state |
| JSchedule.Encode | J.py:58-68 | the encoder succeeds exactly on well-formed input and builds exactly the capacity dictionary described by its state |
| JSchedule.VerdictJ | J.py:76-80 | with the flow J.py's `dinic` leaves, every source entry is saturated exactly when every availability is 0 |
| JSchedule.FeasibleJ | J.py:73-80 | the verdict is an error exactly on malformed input, and "possible" exactly when every availability is 0 |
| JffSchedule.TotalPast | JFF.py:61-63 | workers beyond the zipped width add nothing to a slot's sum |
| JffSchedule.TotalUnused | JFF.py:63 | a slot no visited worker is on has sum 0 |
| JffSchedule.Place | JFF.py:62-66 | one worker step: the error cases as in J.py, otherwise the source edge to `i_q{q}` grows by `a` and `c[u]`, `c[v]` and the carry edge are set |
| JffSchedule.EncodeWorker | JFF.py:61-67 | a worker step succeeds exactly when the worker is well formed, and extends the encoder state, in which `c[s][i_q{q}]` is the sum of `a` over the period's workers so far on slot `q` |
| JffSchedule.PeriodState | JFF.py:59-60 | the period step adds `i_w` with the single edge to `t` of capacity `d` |
| JffSchedule.RowEnd | JFF.py:61 | after the zipped workers the state of period `i` is the state before period `i + 1` |
| JffSchedule.InitialState | JFF.py:54-55 | the empty dictionary with `s` and `t` is the encoder state before any period |
| JffSchedule.EncodeRow | JFF.py:57-67 | a period succeeds exactly when all its workers do, and extends the encoder state |
| JffSchedule.Encode | JFF.py:54-67 | the encoder succeeds exactly on well-formed input and builds exactly the capacity dictionary described by its state |
| JffSchedule.SourceEdges | JFF.py:63 | the source's edges go exactly to the slot nodes a period uses, each with the sum of all availabilities on that slot, not the last one alone |
| JffSchedule.TotalCount | JFF.py:63 | with non-negative availabilities the summed capacity is non-negative |
| JffSchedule.CapacitiesCount | JFF.py:59-66 | with non-negative counts every encoded capacity is non-negative |
| JffSchedule.FeasibleJff | JFF.py:71-79 | the verdict is an error exactly on malformed input; the source edges are the used slot nodes with their summed capacity; "possible" exactly when every source edge is saturated; with the corrected update and non-negative counts, flows stay within capacity and "possible" means the source flow equals the summed availability |

## Left out

- `main`, the argument parser and the doctest runner (dinic.py:102-117, 239-240), and algorithms.py: command-line and test plumbing with no algorithm. algorithms.py is not part of this model.
- The `after_pass` callbacks and the commented-out `pprint` calls: observation hooks with no effect on results.
- Reading standard input and printing (J.py:54-56, 60-61, 78-80; JFF.py:50-52, 57-58, 77-79): the encoders take the parsed integers as an `Input`, and the verdict is a `Result<bool>`. `int()` failures on malformed text are outside the model; a blank line is the `EmptyRow` error.
- The string formatting of node names (`"{}_q{}"` and so on): names are the `Node` datatype, whose distinct constructors stand for distinct strings.
- JffSchedule.FeasibleJff: JFF.py:71 sorts each row of E by name before solving. The model keeps insertion order. Sorting changes which augmenting path BFS finds first. With the corrected update none of the stated properties depends on that order. With the as-written update (dinic.py:136) a different path order can give a different final flow, so the model's verdict may differ from JFF.py's on the same input.
- The dict-or-callable capacity argument of `ford_fulkerson` (dinic.py:125): capacities are always a map.
- FordFulkerson.ResidualGraph.Solve: the `while path != None` loop runs for at most `fuel` augmentations and reports `OutOfFuel` otherwise. Termination of the unbounded loop is not modelled, since the code does not guarantee it.
- Dinic.LevelGraph.Passes: the `while t in L` loop of `dinic` is likewise bounded by `fuel`. Termination of one blocking-flow pass is proved; termination of the pass loop is not.
- FordFulkerson.ResidualGraph.FindAugmentingPath: states that the path is a positive simple chain and that `None` means unreachable. It does not state that the path has the fewest edges possible (dinic.py:144). That needs a distance invariant over the path-carrying queue that no other property here uses; the same breadth-first argument is proved for Dinic's levels in Dinic.LevelGraph.LevelsShortest.
- Dinic.LevelGraph.BlockingFlow: states conservation of pair sums, that only rising edges change, and termination. The amounts moved at each step are stated by Enter, Collect and Leave. The sink step (dinic.py:210-212) is inline and not restated. It is not stated that the result blocks every level path.
- Dinic.LevelGraph.Enter, Dinic.LevelGraph.Collect: `if w:` (dinic.py:215, 224; J.py:42, 51) is modelled as `w is not None`. Python also treats a falsy label such as `0` or `""` as "no parent". With integer nodes, `s = 0` and a path `0 -> u -> t`, Python skips `sup[u] = ...` and then fails with `KeyError` when the child `t` reads `sup[u]` (dinic.py:211; dinic.py:215 for a deeper child). The model's labels are never falsy, so it does not have that failure. The nodes the encoders build are strings that are never empty.
- Max-flow optimality and max-flow/min-cut equality: the code does not guarantee them. The cut is proved saturated only for the corrected update.
- The doctest networks (dinic.py:66-70, expected flow 18 and its cut; Dinic's expected output is marked TODO) are not stated as concrete lemmas.
- Python integers are unbounded, and so are Dafny's: there is no wrap-around to model.

## Findings

| source | as written | input that shows it | evidently intended | confidence | as-written member | corrected member |
|---|---|---|---|---|---|---|
| dinic.py:136 (copied as JFF.py:17) | a reverse step `(u, v, True)` adds `b` to `f[v][u]["flow"]` | `f = {(0,1): capacity 1, flow 1}` and the path `[(1, 0, True)]`: the bottleneck is 1, and the update leaves flow 2 over capacity 1 | a reverse step cancels flow: `f[v][u]["flow"] -= b`, which keeps `0 <= flow <= capacity` | not executed | Augmentation.ReverseStepOverflows | Augmentation.CancelRespects |
| J.py:20-28 | the copied `dinic_levels` marks nodes seen but never writes `L[u]`, so it returns `{s: 0}` | any network with an edge `s -> t` of capacity 1: `t` is never levelled, `dinic` performs no pass and returns 0, and J.py prints "possible" exactly when every availability is 0 | breadth-first levels as in dinic.py:193-201, with `L[u] = n` written on the first pop | not executed | Dinic.LevelGraph.LevelsJ | Dinic.LevelGraph.Levels |
