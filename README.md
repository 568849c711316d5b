# tinygrad's Python micro-op emulator, modelled and verified in Dafny

tinygrad's `PYTHON` device does not compile kernels. It interprets the
linear micro-op list directly, in Python, one warp at a time. Every lane
of the warp holds a value in a Python list. The caller's buffers are
`memoryview`s that `STORE` writes through. This project models that
interpreter (`PythonProgram.__call__`) together with its memory helpers
(`_load`, `load`, `_store`). It proves what they compute.

The model has two layers:

- **The semantics** (`Semantics`, with `Memory`, `Casts`, `Uops`, `Grid`).
  One iteration of the interpreter loop is a pure function `Step`:
  - It gathers the operands (`inp`/`dtp`).
  - It decides on an effect (`Prepare`/`Decide`), which is where the
    errors the source raises come from.
  - It carries the effect out on the state (`Apply`).

  The state mirrors the source's local variables:
  - the program counter;
  - `ul` and `dl`;
  - the objects the lane lists live in. Every list an instruction defines
    is an object of its own. The list `VECTORIZE` builds holds its operand
    objects themselves (`Uops.Value.RefV`), and a `GEP` of such a list
    names the operand object again. So an in-place update by `ASSIGN` or
    `RANGE` is seen through every position holding that list and through
    every `VECTORIZE` list holding it. Lists nested inside a value that
    `LOAD`, `DEFINE_ACC` or `WMMA` builds are part of that value, not
    objects of their own (see "Left out");
  - `loop_ends`;
  - the buffers and scalars not yet consumed;
  - the contents of every buffer.

  `Exec` runs one global coordinate within a step budget. `RunGrid` runs
  all coordinates in order. `Invoke` is `__call__`.
- **The interpreter** (`Interpreter`). A `PythonProgram` class whose
  `Call` method runs the loops imperatively:
  - Buffers are Dafny arrays, written in place by `StoreAt`, the model of
    `_store`.
  - Locals are fresh arrays.
  - `RANGE` and `ASSIGN` update lane lists in place.

  `Call` is proved to leave the caller's buffers exactly as `Invoke`
  specifies, and to report the same outcome.

The external primitives are parameters of the model (`Semantics.Ext`):
`exec_alu`, the tensor-core model, the float truncation helpers and the
`struct` pack/unpack round trip of `BITCAST`. The model leaves `exec_alu`
uninterpreted. Only the loop theorem assumes that the ALU adds integers.

The proofs cover:

- the memory helpers: bounds, gating, vector components and image
  addressing;
- what a STORE leaves in memory: last write wins, an element no lane
  addresses keeps its value, and the value a scalar, vector or image store
  leaves in a written element;
- sharing: a `VECTORIZE` list and a `GEP` of it follow the operand objects,
  so in-place updates of those objects show through them. `Sharing` runs a
  whole program through `Exec` in which a `GEP` of a `VECTORIZE` list of a
  loop counter, read after the loop, sees the counter's last increment;
- each instruction kind's step;
- the integer wrap of `CAST`;
- the warp layout;
- a whole counting loop driven through `Exec`. For `start < bound` it runs
  the body `bound - start` times. For `start >= bound` it never stops.

## Model

| member | source | states |
|---|---|---|
| Uops.Broadcast | tinygrad/runtime/ops_python.py:89 | `[v] * n` is a list of `n` elements, each equal to `v` |
| Uops.PyIndex | tinygrad/runtime/ops_python.py:133 | list indexing succeeds exactly for `-len <= k < len` and returns the element counted from the end for negative `k` |
| Uops.TupleIndex | tinygrad/runtime/ops_python.py:87 | tuple indexing succeeds exactly within `-len..len-1`, negative indices counting from the end |
| Uops.Inc | tinygrad/runtime/ops_python.py:96 | `x += 1` adds one to an int, bool or float and fails on any other value |
| Uops.Digit | tinygrad/runtime/ops_python.py:87 | `int(c)` accepts the ASCII digits `0`..`9` and nothing else, and yields a value in 0..9 |
| Uops.ZipLen | tinygrad/runtime/ops_python.py:139 | `zip(*vs)` yields as many tuples as the shortest list |
| Uops.Column | tinygrad/runtime/ops_python.py:139 | tuple `k` of `zip(*vs)` holds element `k` of every list |
| Grid.ProductLength | tinygrad/runtime/ops_python.py:33 | `itertools.product` over ranges has as many tuples as the product of the sizes |
| Grid.Product3 | tinygrad/runtime/ops_python.py:34 | tuple `k` of the product of three ranges is the mixed-radix decomposition of `k`, last axis fastest |
| Lanes.WarpSize | tinygrad/runtime/ops_python.py:32-33 | `warp_size` is the product of the local sizes |
| Lanes.WarpLanes | tinygrad/runtime/ops_python.py:32 | lane `k` of the warp is `(k / (ly*lx), (k / lx) % ly, k % lx)` |
| Lanes.SpecialLocal | tinygrad/runtime/ops_python.py:88 | `lidx<d>` gives every lane its own local coordinate along axis `d` |
| Lanes.SpecialGlobal | tinygrad/runtime/ops_python.py:87 | `gidx<d>` broadcasts `idxs[2-d]` to every lane |
| Lanes.SpecialOther | tinygrad/runtime/ops_python.py:86-88 | a SPECIAL name beginning with neither `g` nor `l` defines nothing |
| Casts.Wrap | tinygrad/runtime/ops_python.py:110 | the wrapped value lies in the type's range and differs from the input by a multiple of `2**bits` |
| Casts.WrapInRange | tinygrad/runtime/ops_python.py:110 | the wrap is the identity on values already in range |
| Casts.WrapUnique | tinygrad/runtime/ops_python.py:110 | the wrap is the only in-range value congruent to the input |
| Casts.WrapIdempotent | tinygrad/runtime/ops_python.py:110 | wrapping twice is wrapping once |
| Casts.WrapInt8Examples | tinygrad/runtime/ops_python.py:109-110 | 130 becomes -126 as int8 and stays 130 as uint8; -1 becomes 255 as uint8 |
| Casts.PyInt | tinygrad/runtime/ops_python.py:107 | `int(x)` is defined exactly on numbers, keeps ints and truncates floats toward zero |
| Casts.CastToInt | tinygrad/runtime/ops_python.py:107-110 | an integer cast is defined exactly on numbers with a non-zero item size and yields `int(x)` wrapped to `itemsize*8` bits |
| Memory.LoadAt | tinygrad/runtime/ops_python.py:15-17 | `_load` fails with an out-of-bounds error exactly when `i < 0 or i >= len(m)` and otherwise returns `m[i]` |
| Memory.Put | tinygrad/runtime/ops_python.py:23-25 | `_store` fails exactly out of bounds; otherwise slot `i` holds `v` and every other slot and the length are unchanged |
| Memory.Deref | tinygrad/runtime/ops_python.py:17 | a buffer handle resolves exactly when it names an existing buffer |
| Memory.PutMem | tinygrad/runtime/ops_python.py:23-25 | a store through a handle replaces one element of one buffer and nothing else |
| Memory.LoadLane | tinygrad/runtime/ops_python.py:20 | one lane's `_load(m, x+j)` succeeds exactly when `x+j` lies in `m` and reads `m[x+j]` |
| Memory.GatedLanes | tinygrad/runtime/ops_python.py:20 | the gated comprehension yields one value per lane |
| Memory.GatedLanesFail | tinygrad/runtime/ops_python.py:20 | a gated load fails exactly when some lane whose gate is true reads outside its buffer |
| Memory.GatedLanesValues | tinygrad/runtime/ops_python.py:20 | a lane with a false gate yields its default with no read; a lane with a true gate yields `m[x+j]` |
| Memory.AllTrue | tinygrad/runtime/ops_python.py:50 | `[True] * n` |
| Memory.Load | tinygrad/runtime/ops_python.py:19-21 | `load` with fewer than two operands fails |
| Memory.LoadLanes | tinygrad/runtime/ops_python.py:19-21 | `load` with four operands is gated lane by lane and otherwise reads `m[x+j]` in every lane, one result per lane of the shortest operand |
| Memory.ImageLanes | tinygrad/runtime/ops_python.py:120-122 | an image component has one value per lane |
| Memory.ImageLanesOk | tinygrad/runtime/ops_python.py:120-122 | an image component fails exactly when some in-image lane reads outside its buffer |
| Memory.ImageLanesValues | tinygrad/runtime/ops_python.py:121-122 | a lane outside the image reads 0 with no access; a lane inside reads `ox*4 + oy*width*4 + j` |
| Memory.ApplyTasks | tinygrad/runtime/ops_python.py:54-64 | performing a store's writes never changes the number or the sizes of the buffers; what the elements hold afterwards is stated by `Memory.ApplyTasksLastWrite` and `Memory.ApplyTasksWritten` |
| Memory.ApplyTasksLastWrite | tinygrad/runtime/ops_python.py:54-64 | last write wins: when the writes complete, an element holds the value of the last write that targets it |
| Memory.ApplyTasksWritten | tinygrad/runtime/ops_python.py:54-64 | when the writes complete, an element that some write targets holds the value they carry, if every write to it carries the same value |
| Memory.ApplyTasksFrame | tinygrad/runtime/ops_python.py:61 | an element that no write targets keeps its value |
| Memory.ApplyTasksAppend | tinygrad/runtime/ops_python.py:54-64 | writes performed in sequence compose; a failure stops the sequence |
| Memory.LaneTask | tinygrad/runtime/ops_python.py:63-64 | a lane with a false gate writes nothing; a lane with a true gate writes `v` at `o+j` |
| Memory.LaneTasksGatedOff | tinygrad/runtime/ops_python.py:63-64 | with every gate false a store writes nothing |
| Memory.LaneTasksSound | tinygrad/runtime/ops_python.py:63-64 | every write of a lane loop comes from a lane whose gate is true, at that lane's offset, with that lane's value |
| Memory.UngatedLaneTasks | tinygrad/runtime/ops_python.py:63-64 | with every gate true a store writes every lane, in lane order |
| Memory.WithGate | tinygrad/runtime/ops_python.py:50 | a three-operand store gets an all-true gate as long as its buffer-handle list `inp[0]`; a store with more operands keeps its own |
| StoreLemmas.LaneTasksComplete | tinygrad/runtime/ops_python.py:63-64 | every lane whose gate is true and whose offset is an integer has its write in the plan |
| StoreLemmas.StopAborts | tinygrad/runtime/ops_python.py:56 | a plan holding a failure point fails, whatever memory it starts from |
| StoreLemmas.GateDefaultsTrue | tinygrad/runtime/ops_python.py:50 | a store with three operands plans exactly the same writes as the same store with an explicit all-true gate |
| StoreLemmas.ScalarPlan | tinygrad/runtime/ops_python.py:62-64 | a scalar store plans one lane loop with no component offset |
| StoreLemmas.ScalarStoreSound | tinygrad/runtime/ops_python.py:62-64 | each write of a scalar store is a gated-on lane's value at its own offset |
| StoreLemmas.ScalarStoreComplete | tinygrad/runtime/ops_python.py:62-64 | each gated-on lane with an integer offset is written |
| StoreLemmas.ScalarStoreGatedOff | tinygrad/runtime/ops_python.py:62-64 | a scalar store whose gates are all false plans nothing |
| StoreLemmas.LaneTasksSplit | tinygrad/runtime/ops_python.py:63-64 | the lane loop writes lanes `0..k-1` first, then the rest |
| StoreLemmas.LaneTasksMiss | tinygrad/runtime/ops_python.py:63-64 | when no gated-on lane from `i0` on addresses an element, the writes of those lanes do not target it |
| StoreLemmas.LaneTasksFrom | tinygrad/runtime/ops_python.py:63-64 | the writes from lane `k` on are lane `k`'s own, then those of the later lanes |
| StoreLemmas.LaneTasksLastLane | tinygrad/runtime/ops_python.py:63-64 | in a lane loop that completes, an element written by lane `k` and by no later gated-on lane holds lane `k`'s value |
| StoreLemmas.ScalarStoreLastLane | tinygrad/runtime/ops_python.py:62-64 | in a scalar store that completes, element `x` of buffer `b`, written by gated-on lane `k` and by no later gated-on lane, holds `inp[2][k]` afterwards |
| StoreLemmas.ScalarStoreFrame | tinygrad/runtime/ops_python.py:62-64 | an element that no gated-on lane of a scalar store addresses keeps its value, whether the store completes or not |
| StoreLemmas.CompTasksBlocks | tinygrad/runtime/ops_python.py:59-61 | a vector store plans one lane loop per component, in component order |
| StoreLemmas.BlocksSound | tinygrad/runtime/ops_python.py:59-61 | each write of the component loops is some component `j` of some gated-on lane, at `o+j` |
| StoreLemmas.BlocksComplete | tinygrad/runtime/ops_python.py:59-61 | component `j` of each gated-on lane is written at `o+j` |
| StoreLemmas.BlocksGatedOff | tinygrad/runtime/ops_python.py:59-61 | the component loops with every gate false plan nothing |
| StoreLemmas.VectorPlan | tinygrad/runtime/ops_python.py:58-61 | a store of a vector type plans the component loops |
| StoreLemmas.VectorStoreSound | tinygrad/runtime/ops_python.py:58-61 | each write of a vector store is component `j` of a gated-on lane at `o+j` |
| StoreLemmas.VectorStoreComplete | tinygrad/runtime/ops_python.py:58-61 | every component of every gated-on lane is written at `o+j` |
| StoreLemmas.VectorStoreGatedOff | tinygrad/runtime/ops_python.py:58-61 | a vector store whose gates are all false plans nothing |
| StoreLemmas.VectorStoreFrame | tinygrad/runtime/ops_python.py:58-61 | an element that no gated-on lane's component addresses keeps its value |
| StoreLemmas.BlocksValue | tinygrad/runtime/ops_python.py:59-61 | in component loops that complete, an element written as component `j` of lane `k` holds that value when every write to it carries the same value |
| StoreLemmas.VectorStoreValue | tinygrad/runtime/ops_python.py:58-61 | in a vector store that completes, element `o+j` written by component `j` of gated-on lane `k` holds `inp[2][j][k]` afterwards, provided every gated-on component that addresses it carries the same value |
| StoreLemmas.NoTasksNoChange | tinygrad/runtime/ops_python.py:49-66 | a store that plans no writes leaves memory unchanged |
| StoreLemmas.ImageLaneTasksLanes | tinygrad/runtime/ops_python.py:55-57 | one component's image loop fails at a lane outside the image, even when gated off, and writes a gated-on lane inside it at its texel offset |
| StoreLemmas.CompTasksImageBlocks | tinygrad/runtime/ops_python.py:54-57 | an image store plans one image loop per component |
| StoreLemmas.ImageBlocksLanes | tinygrad/runtime/ops_python.py:54-57 | across the component loops, each lane outside the image is a failure point and each gated-on lane inside is written |
| StoreLemmas.ImagePlan | tinygrad/runtime/ops_python.py:51-57 | a store to an image type plans the image component loops |
| StoreLemmas.ImageStore | tinygrad/runtime/ops_python.py:51-57 | an image store with any lane outside the image fails, gated or not; a gated-on lane inside writes component `j` at `ox*4 + oy*width*4 + j` |
| StoreLemmas.ImageLaneTasksSound | tinygrad/runtime/ops_python.py:55-57 | every write of one component's image loop comes from a gated-on lane inside the image, at its texel offset, with its value |
| StoreLemmas.ImageBlocksSound | tinygrad/runtime/ops_python.py:54-57 | every write of the image component loops is component `j` of a gated-on lane inside the image, at its texel offset |
| StoreLemmas.ImageStoreSound | tinygrad/runtime/ops_python.py:51-57 | an image store writes only texel component `ox*4 + oy*width*4 + j` of gated-on lanes inside the image, with that lane's component `j` |
| StoreLemmas.ImageStoreFrame | tinygrad/runtime/ops_python.py:51-57 | an element that no gated-on lane inside the image addresses keeps its value through an image store, whether it completes or not |
| StoreLemmas.ImageStoreValue | tinygrad/runtime/ops_python.py:51-57 | in an image store that completes, the texel component `j` of gated-on lane `k` inside the image holds `inp[2][j][k]` afterwards, provided every lane writing that element carries the same value |
| Semantics.Init | tinygrad/runtime/ops_python.py:35-40 | each coordinate starts with empty `ul`, `dl` and `loop_ends`, no objects, program counter 0, buffer parameter `k` naming memory buffer `k`, and every scalar still to be consumed |
| Semantics.Gather | tinygrad/runtime/ops_python.py:45-46 | the gathered operands are well formed for the state (every id an object, every value its current contents) and there is at most one per operand position |
| Semantics.GatherOk | tinygrad/runtime/ops_python.py:45-46 | gathering succeeds exactly when every operand position is an instruction of the program that is void or has a value, a type and a current value |
| Semantics.GatherLive | tinygrad/runtime/ops_python.py:45-46 | the gathered ids and types are `ul[v]` and `dl[v]` of the non-void operand positions `v`, in order, and the gathered values are those objects' current contents |
| Semantics.GatherFault | tinygrad/runtime/ops_python.py:45-46 | a failed gathering reports the first unreadable operand position: malformed when it is no instruction of the program, unresolved when it has no value or type yet |
| Semantics.Resolve | tinygrad/runtime/ops_python.py:45 | what a list holding other objects denotes is free of shared elements, keeps the list's length, and fails only as `Malformed` |
| Semantics.ResolveItems | tinygrad/runtime/ops_python.py:45 | the elements of such a list resolve one by one, and the list fails exactly at an element that does |
| Semantics.ResolvePlain | tinygrad/runtime/ops_python.py:45 | a value holding no other object denotes itself |
| Semantics.ResolveMore | tinygrad/runtime/ops_python.py:45 | once a value resolves, a larger bound on references in a row changes nothing |
| Semantics.ResolveExtend | tinygrad/runtime/ops_python.py:45 | creating new objects changes nothing an earlier value denotes |
| Semantics.ResolveRefs | tinygrad/runtime/ops_python.py:101 | a list holding objects `ids` resolves exactly when each of them does, component `k` being object `ids[k]`'s value |
| Semantics.Coords | tinygrad/runtime/ops_python.py:88 | `[x[k] for x in warp]` succeeds exactly when every lane has coordinate `k`, yielding one coordinate per lane |
| Semantics.CastLane | tinygrad/runtime/ops_python.py:107-110 | casting a lane to an integer type is the wrapped integer cast |
| Semantics.CastLanes | tinygrad/runtime/ops_python.py:107-113 | a cast succeeds exactly when every lane does and casts lane by lane |
| Semantics.Components | tinygrad/runtime/ops_python.py:118-123 | a multi-component value has one component per index |
| Semantics.ComponentOperands | tinygrad/runtime/ops_python.py:125 | component `j` of the operands keeps one operand per operand |
| Semantics.ComponentOperandsAt | tinygrad/runtime/ops_python.py:125 | operand `k` of component `j` is component `j` of `inp[k]` when `inp[k]` has a vector type and `inp[k]` itself otherwise; it fails exactly when some vector operand has no component `j` |
| Semantics.Bind | tinygrad/runtime/ops_python.py:141 | defining a value adds one fresh object, points the position at it and moves on, keeping memory, types and loop ends |
| Semantics.IncAll | tinygrad/runtime/ops_python.py:95-96 | incrementing every lane succeeds exactly when every lane is a number and adds one to each |
| Semantics.RangeStep | tinygrad/runtime/ops_python.py:94-100 | a RANGE revisit never changes memory |
| Semantics.AssignStep | tinygrad/runtime/ops_python.py:129-130 | an ASSIGN never changes memory |
| Semantics.Apply | tinygrad/runtime/ops_python.py:49-141 | no effect removes a buffer or changes a buffer's size |
| Semantics.Step | tinygrad/runtime/ops_python.py:42-141 | no iteration of the loop removes a buffer or changes a buffer's size |
| Semantics.Exec | tinygrad/runtime/ops_python.py:41 | a run keeps every buffer's size and ends only once the program counter has passed the last instruction |
| Semantics.ExecDone | tinygrad/runtime/ops_python.py:41 | the loop ends when the program counter passes the last instruction |
| Semantics.ExecNoFuel | tinygrad/runtime/ops_python.py:41 | a run with no budget left stops where it is |
| Semantics.ExecNext | tinygrad/runtime/ops_python.py:41 | a step that continues hands the rest of the run to the next state |
| Semantics.ExecAbort | tinygrad/runtime/ops_python.py:41 | a step that raises ends the run with its fault |
| Semantics.RunGrid | tinygrad/runtime/ops_python.py:34-40 | running every coordinate keeps the caller's buffers, their number and their sizes |
| Semantics.Reverse | tinygrad/runtime/ops_python.py:32 | `local_size[::-1]` |
| Loads.ComponentsAt | tinygrad/runtime/ops_python.py:118-123 | component `k` of a successful multi-component load is the lane list its component function yields |
| Loads.ComponentsFail | tinygrad/runtime/ops_python.py:118-123 | a multi-component load fails exactly when some component fails |
| Loads.VectorLoad | tinygrad/runtime/ops_python.py:124-125 | a vector load has `dtype.count` components, component `c` being `load` at offset `c` over component `c` of each vector operand |
| Loads.ImageLoad | tinygrad/runtime/ops_python.py:115-123 | an image load has four components, component `c` being the image lanes at texel offset `c` |
| Interpreter.StoreAt | tinygrad/runtime/ops_python.py:23-25 | `_store` in place: the array changes at `i` exactly when `i` is in bounds, as `Memory.Put` specifies |
| Interpreter.PerformTasks | tinygrad/runtime/ops_python.py:54-64 | the store loops write the buffers in place exactly as the plan specifies and report its failure |
| Interpreter.IncLanes | tinygrad/runtime/ops_python.py:95-96 | the increment loop computes `IncAll` |
| Interpreter.CopyLanes | tinygrad/runtime/ops_python.py:129 | the copy loop succeeds exactly when the source is at least as long as the destination, giving the source's prefix |
| Interpreter.RangeInPlace | tinygrad/runtime/ops_python.py:92-100 | the in-place RANGE revisit agrees with `RangeStep` |
| Interpreter.AssignInPlace | tinygrad/runtime/ops_python.py:128-130 | the in-place ASSIGN agrees with `AssignStep` |
| Interpreter.ApplyPure | tinygrad/runtime/ops_python.py:67-141 | every effect that touches no buffer is carried out as `Apply` specifies |
| Interpreter.StoreStep | tinygrad/runtime/ops_python.py:49-66 | a STORE on the buffers in place agrees with `Apply` |
| Interpreter.LocalStep | tinygrad/runtime/ops_python.py:80-83 | DEFINE_LOCAL allocates one fresh array after the existing ones, as `Apply` specifies |
| Interpreter.ExecuteStep | tinygrad/runtime/ops_python.py:41-141 | one iteration on the arrays leaves the rest of the run equal to `Exec`'s |
| Interpreter.PerformStep | tinygrad/runtime/ops_python.py:42-141 | one iteration on the arrays agrees with `Step` |
| Interpreter.RunEnds | tinygrad/runtime/ops_python.py:41 | a loop that stopped has reached the outcome `Exec` specifies |
| Interpreter.RunCoord | tinygrad/runtime/ops_python.py:35-141 | one coordinate's run leaves the caller's arrays holding what `Exec` leaves, with `Exec`'s outcome |
| Interpreter.PythonProgram.constructor | tinygrad/runtime/ops_python.py:28-29 | the program holds the decoded micro-op list |
| Interpreter.PythonProgram.Call | tinygrad/runtime/ops_python.py:30-142 | `__call__` leaves the caller's arrays exactly as `Invoke` specifies and reports the same outcome |
| Steps.StepApplies | tinygrad/runtime/ops_python.py:42-141 | once an instruction has decided on its effect, the step carries it out |
| Steps.EndRangeJumpsBack | tinygrad/runtime/ops_python.py:67-70 | ENDRANGE records `loop_ends[idp[0]] = i` and jumps back to its RANGE |
| Steps.StorePrepare | tinygrad/runtime/ops_python.py:49 | STORE decides on the writes its operands plan |
| Steps.StoreStep | tinygrad/runtime/ops_python.py:49-66 | STORE changes only memory, as its plan specifies, and moves on; a failing write aborts |
| Steps.RangeFirstVisit | tinygrad/runtime/ops_python.py:93 | the first visit of RANGE seeds a fresh counter with lane 0 of the start in every lane and enters the body with no bound test |
| Steps.RevisitPrepare | tinygrad/runtime/ops_python.py:94-100 | a RANGE revisit decides to step its counter against operand 1 |
| Steps.RangeRevisit | tinygrad/runtime/ops_python.py:94-100 | a revisit increments every lane of the counter in place, then exits past the loop's ENDRANGE and retires the counter exactly when lane 0 equals the bound, and otherwise enters the body |
| Steps.AssignInPlace | tinygrad/runtime/ops_python.py:128-130 | ASSIGN overwrites the destination's lanes in place, creates no object, and every position sharing the destination sees the new lanes |
| Steps.AccPrepare | tinygrad/runtime/ops_python.py:90-91 | DEFINE_ACC looks only at its first operand |
| Steps.AccSeedLanes | tinygrad/runtime/ops_python.py:91 | the accumulator's lanes, of every component, are lane 0 of the initial value, component 0 for a vector |
| Steps.DefineAccSeeds | tinygrad/runtime/ops_python.py:90-91 | DEFINE_ACC creates a fresh accumulator seeded in every lane from lane 0 of its first operand |
| Steps.DefineGlobalPops | tinygrad/runtime/ops_python.py:77-79 | DEFINE_GLOBAL consumes the first caller buffer not yet consumed and broadcasts its handle; with none left it raises |
| Steps.DefineVarPops | tinygrad/runtime/ops_python.py:84-85 | DEFINE_VAR consumes the first scalar not yet consumed and broadcasts it; with none left it raises |
| Steps.DefineLocalAllocates | tinygrad/runtime/ops_python.py:80-83 | DEFINE_LOCAL adds a zero-filled buffer of `arg[1]` elements after the existing ones and broadcasts its handle |
| Steps.DecideValue | tinygrad/runtime/ops_python.py:76-139 | every handler of a value-producing kind decides on an effect that leaves a value; only DEFINE_LOCAL allocates |
| Steps.ApplyValue | tinygrad/runtime/ops_python.py:140-141 | such an effect types the position, gives it a value and moves on |
| Steps.PrepareValue | tinygrad/runtime/ops_python.py:75-140 | an instruction that produces a value and does not raise has a result type and an effect that leaves a value |
| Steps.ProducesValue | tinygrad/runtime/ops_python.py:75-141 | a value-producing instruction other than RANGE aborts, or leaves a value and its type at its own position and moves on; only DEFINE_LOCAL adds memory |
| Steps.RangeProducesValue | tinygrad/runtime/ops_python.py:92-100 | RANGE aborts, enters the body with a counter at its position, or retires the counter and passes its ENDRANGE |
| Handlers.SyncAdvances | tinygrad/runtime/ops_python.py:71-74 | BARRIER, IF and ENDIF only move the program counter on |
| Handlers.MissingTypeAborts | tinygrad/runtime/ops_python.py:75 | a value-producing instruction without a result type aborts with memory unchanged |
| Handlers.NoValueChecked | tinygrad/runtime/ops_python.py:140 | an instruction that defines nothing passes only when its position already holds a value |
| Handlers.ConstBroadcasts | tinygrad/runtime/ops_python.py:89 | CONST broadcasts its literal to every lane; a CONST whose argument is not a literal is malformed, where the source would broadcast whatever its argument is |
| Handlers.VectorizePacks | tinygrad/runtime/ops_python.py:101 | VECTORIZE defines a list holding its operand objects themselves, not copies, which denotes the list of the operands' values |
| Handlers.VectorizeStep | tinygrad/runtime/ops_python.py:101 | the VECTORIZE step adds one object, the list of the operand objects, binds its position to it, leaves memory alone, and the new object denotes the operands' values |
| Handlers.PackTracks | tinygrad/runtime/ops_python.py:101 | a VECTORIZE list goes on denoting its operand objects' current values, whatever was done to them in place since |
| Handlers.PackSeesUpdate | tinygrad/runtime/ops_python.py:101 | an in-place update of an operand object shows through every VECTORIZE list holding it |
| Handlers.CounterSeenThroughPack | tinygrad/runtime/ops_python.py:94-101 | after a RANGE revisit, a VECTORIZE list holding the loop counter sees the incremented counter in every component holding it |
| Handlers.GepSelects | tinygrad/runtime/ops_python.py:131-133 | GEP succeeds exactly with a one-element argument naming an existing component of its operand; a component that is an object of its own is then named itself, not copied, and either way the position denotes that component of the operand's value |
| Handlers.GepOfPack | tinygrad/runtime/ops_python.py:131-133 | GEP of a VECTORIZE list binds its position to the packed operand object itself, creating no object and leaving memory alone |
| Handlers.WmmaDelegates | tinygrad/runtime/ops_python.py:134-135 | WMMA is the tensor-core model applied to the warp size, the operands and the device family |
| Handlers.CastNeedsFormats | tinygrad/runtime/ops_python.py:103 | CAST and BITCAST fail without a buffer format on both sides |
| Handlers.CastWraps | tinygrad/runtime/ops_python.py:106-113 | an integer CAST yields one value per lane, lane `k` being `int(x[k])` wrapped to the type's width |
| Handlers.BitcastWidths | tinygrad/runtime/ops_python.py:104-105 | BITCAST between types of different widths fails |
| Handlers.AluLanes | tinygrad/runtime/ops_python.py:137-139 | ALU succeeds exactly on lane lists of one length and, except for comparisons and select, of the result type |
| Handlers.AluLane | tinygrad/runtime/ops_python.py:139 | lane `k` of an ALU result is `exec_alu` on lane `k` of every operand |
| Loops.PrepareDecide | tinygrad/runtime/ops_python.py:75-76 | a typed, non-void instruction other than DEFINE_ACC decides on its effect from its gathered operands |
| Loops.ConstNext | tinygrad/runtime/ops_python.py:89 | a CONST step broadcasts its literal at its position |
| Loops.AddLanes | tinygrad/runtime/ops_python.py:139 | with an ALU that adds integers, adding broadcast `a` and broadcast 1 gives broadcast `a+1` |
| Loops.CloseNext | tinygrad/runtime/ops_python.py:67-70 | the loop's ENDRANGE records its position and returns to the RANGE |
| Loops.AssignNext | tinygrad/runtime/ops_python.py:128-130 | the body's ASSIGN overwrites the accumulator in place |
| Loops.RevisitNext | tinygrad/runtime/ops_python.py:94-100 | the loop's RANGE revisit increments the counter and tests it against the bound |
| Loops.ExecRevisit | tinygrad/runtime/ops_python.py:94-100 | after a revisit the loop leaves past ENDRANGE when the counter reaches the bound and otherwise re-enters the body |
| Loops.Iterate | tinygrad/runtime/ops_python.py:94-100 | from counter `c < bound` the loop runs to completion with the accumulator at `bound - start` in every lane |
| Loops.Diverge | tinygrad/runtime/ops_python.py:94-100 | once the counter is at or past the bound it never equals the bound again, and the run never ends |
| Loops.CountsToBound | tinygrad/runtime/ops_python.py:92-100 | a counting loop with `start < bound` ends with the body run `bound - start` times and memory unchanged |
| Loops.EmptyRangeNeverEnds | tinygrad/runtime/ops_python.py:92-100 | a counting loop with `start >= bound` never ends, because the first visit does not test the bound and the exit test is `==` |
| Sharing.SeedNext | tinygrad/runtime/ops_python.py:93 | the first visit of RANGE seeds a fresh counter object with lane 0 of the start |
| Sharing.PackNext | tinygrad/runtime/ops_python.py:101 | VECTORIZE of the counter twice defines a list holding the counter object itself twice |
| Sharing.CloseNext | tinygrad/runtime/ops_python.py:67-70 | ENDRANGE records its position and jumps back to the RANGE |
| Sharing.CountNext | tinygrad/runtime/ops_python.py:94-100 | a revisit raises the counter object from `c` to `c+1` in place, leaving the loop exactly when that is the bound |
| Sharing.GatherPack | tinygrad/runtime/ops_python.py:45-46 | the GEP's operand, a VECTORIZE list, denotes the current counter twice |
| Sharing.SelectNext | tinygrad/runtime/ops_python.py:131-133 | GEP component 0 of the VECTORIZE list names the counter object itself |
| Sharing.Enter | tinygrad/runtime/ops_python.py:41-101 | the first pass of the loop runs with the counter at 0 and one VECTORIZE list holding it |
| Sharing.Again | tinygrad/runtime/ops_python.py:41-101 | the second pass runs with the counter at 1 and a second VECTORIZE list holding it |
| Sharing.Leave | tinygrad/runtime/ops_python.py:94-133 | the revisit that reaches the bound leaves the loop, and the GEP ends the run naming the counter, now 2 |
| Sharing.CounterSharedThroughGep | tinygrad/runtime/ops_python.py:92-133 | the whole run ends with position 5, a GEP of a VECTORIZE list of the counter, denoting the counter's final value 2 in every lane, as the in-place increment the loop exit makes is seen through the list |

## Left out

- Timing: `time.perf_counter` and the returned duration are not modelled; `Call` returns the outcome instead.
- The `TRACE` debug print and every other `getenv` switch, including the `EMULATE_*` choices of `PythonRenderer`, are not modelled.
- `PythonRenderer`, `PythonCompiler`, `PythonAllocator` and `PythonDevice` (the pickling of the micro-op list, the allocator's `memoryview`s and the device wiring) are not part of this model; `PythonProgram` takes the decoded list directly.
- `TensorCoreLayout` and `wmma_model`, `exec_alu`, `truncate` and the `struct` round trip of BITCAST and of float casts are external code. They are parameters of the model (`Semantics.Ext`) and are not specified beyond their arguments.
- `tinygrad/dtype.py`, `tinygrad/ops.py` and `tinygrad/codegen/kernel.py` are not part of this model: a data type is reduced to its kind, item size, count, format presence and image shape.
- `memoryview.cast` formats and byte layout are not modelled. A buffer is a sequence of values, one per element, and a fresh local holds `arg[1]` zeros of its type. An item size of 0 makes an integer cast fail.
- Caller buffers that alias one another are not modelled: `Interpreter.PythonProgram.Call` requires pairwise distinct arrays.
- Handlers.GepSelects: only the components of a `VECTORIZE` list are shared objects. A list nested inside a value that `LOAD` (vector and image components), `DEFINE_ACC` of a vector type or `WMMA` builds is part of that value, so a `GEP` of it copies it, and a later `ASSIGN` into the copy is not seen through the outer list as it is in Python. The same holds for a lane that is itself a list: the seed `[inp[0][0]] * warp_size` of `DEFINE_ACC` and `RANGE`, and the nested lists `ASSIGN` copies from such a value into a vector destination, are copies and not shared references.
- Semantics.Resolve: a list that, through `VECTORIZE`, ends up containing itself has no finite value; Python can still hold and index it, but the model's operand gathering reports `Malformed` for it.
- Uops.Digit: only the ASCII digits are accepted. Python's `int()` also accepts other Unicode decimal digits (for example Arabic-Indic digits) and surrounding whitespace; the model's characters carry no Unicode categories, so a SPECIAL name ending in such a digit is `Malformed` here.
- Casts.PyInt: floating point is modelled by exact reals (`Uops.Value.FloatV`). NaN, infinities, `-0.0` and rounding are not represented, so the `ValueError` and `OverflowError` that `int()` raises on NaN and infinity cannot arise, and `Uops.Inc` on a float and every float result of `exec_alu` are exact. The same applies to the float lanes `CAST` and `BITCAST` produce.
- Termination: the interpreter loop may never end (see `Loops.EmptyRangeNeverEnds`), so every run is given a step budget and reports when the budget runs out.
- Python's duck typing is narrowed. A value of an unexpected shape or kind, for example an index that is neither int nor bool, a non-list where a lane list is expected, or a missing key, becomes the single fault `Malformed`. The error classes and messages of the source are not kept apart beyond the `Fault` kinds.
- Loads are modelled by value: when several lanes or components would fail, the model reports the first failure in comprehension order, and does not distinguish which Python exception is raised first.
- Loops.CountsToBound: assumes an ALU that adds integers exactly (`AddsInts`); int32 wrap-around of the accumulator or counter in `exec_alu` is not modelled.
- Handlers.ConstBroadcasts: the source broadcasts whatever object a CONST carries as its argument. The model broadcasts any `Lit` value, but a CONST whose argument is another kind of `Arg` (an axis name, a local buffer, an index tuple, an ALU operation, a device) is malformed instead of a list of that object.
- Loops.EmptyRangeNeverEnds: the conventional meaning of a loop over an empty range is to run the body zero times, but the code enters the body before any bound test and then exits only when the counter equals the bound. The model follows the code, so such a loop never ends.
- Memory.Load: the contract itself states only the malformed case; what each lane reads is stated by `Memory.LoadLanes` and `Memory.GatedLanesValues`.
- Semantics.Components: the contract itself states only the number of components; each component is stated by `Loads.ComponentsAt` and the failure case by `Loads.ComponentsFail`.
