/** What a STORE writes, stated over its operands: the default gate, the
    lanes and components that write and where, the lanes that do not, and
    the image address check that every lane passes through. */
module StoreLemmas {
  import opened Uops
  import opened Memory

  /** Every lane whose gate is true and whose offset is an integer writes. */
  lemma {:induction false} LaneTasksComplete(ms: seq<Value>, os: seq<Value>, vs: seq<Value>, gs: seq<Value>, j: int, k: nat)
    requires |ms| == |os| == |vs| == |gs| && k < |ms| && Truthy(gs[k]) && AsInt(os[k]).Ok?
    ensures Write(ms[k], AsInt(os[k]).value + j, vs[k]) in LaneTasks(ms, os, vs, gs, j)
    decreases |ms|
  {
    if k > 0 {
      LaneTasksComplete(ms[1..], os[1..], vs[1..], gs[1..], j, k - 1);
      assert ms[1..][k - 1] == ms[k] && os[1..][k - 1] == os[k] && vs[1..][k - 1] == vs[k];
    }
  }

  /** A task list with a failure in it fails. */
  lemma {:induction false} StopAborts(mem: seq<seq<Value>>, ts: seq<Task>, e: Fault)
    requires Stop(e) in ts
    ensures ApplyTasks(mem, ts).MemFault?
    decreases |ts|
  {
    if ts[0] != Stop(e) && ts[0].Write? {
      var p := PutMem(mem, ts[0].buf, ts[0].off, ts[0].v);
      if p.Ok? {
        assert Stop(e) in ts[1..];
        StopAborts(p.value, ts[1..], e);
      }
    }
  }

  /** The operands of an ordinary store in the usual shape: the buffer,
      offset and gate lane-vectors and every component hold `n` lanes. */
  predicate Uniform(full: seq<Value>, comps: seq<Value>, n: nat) {
    && |full| >= 4 && full[0].ListV? && full[1].ListV? && full[3].ListV?
    && |full[0].items| == n && |full[1].items| == n && |full[3].items| == n
    && Comps(comps, n)
  }

  /** `zip` over lists of one common length `n` has `n` tuples and cuts nothing. */
  lemma {:induction false} ZipUniform(cols: seq<Value>, n: nat)
    requires |cols| > 0 && AllLists(cols) && forall i :: 0 <= i < |cols| ==> |cols[i].items| == n
    ensures ZipLen(cols) == n && Prefixes(cols, n) == seq(|cols|, i requires 0 <= i < |cols| => cols[i].items)
  {
    var p := Prefixes(cols, ZipLen(cols));
    assert forall i :: 0 <= i < |cols| ==> cols[i].items[..n] == cols[i].items;
  }

  /** Task `t` is the write of lane `k` of component `j` of a vector store
      whose components, from the first on, sit at offsets `j0, j0 + 1, ...`:
      the lane's gate is true and it writes the component's lane-`k` value
      at the lane's offset plus `j0 + j`. */
  predicate CompLaneWrite(t: Task, ms: seq<Value>, os: seq<Value>, comps: seq<Value>, gs: seq<Value>, j0: int, j: int, k: int) {
    && 0 <= j < |comps| && 0 <= k < |ms| && |os| == |ms| && |gs| == |ms|
    && comps[j].ListV? && k < |comps[j].items| && Truthy(gs[k]) && AsInt(os[k]).Ok?
    && t == Write(ms[k], AsInt(os[k]).value + (j0 + j), comps[j].items[k])
  }

  /** Components of `n` lanes each. */
  predicate Comps(comps: seq<Value>, n: nat) {
    forall j :: 0 <= j < |comps| ==> comps[j].ListV? && |comps[j].items| == n
  }

  /** The writes of an ordinary vector store whose operands all hold the
      same number of lanes: component after component, each lane by lane. */
  function Blocks(ms: seq<Value>, os: seq<Value>, gs: seq<Value>, comps: seq<Value>, j0: int): seq<Task>
    requires |ms| == |os| == |gs| && Comps(comps, |ms|)
    decreases |comps|
  {
    if comps == [] then [] else LaneTasks(ms, os, comps[0].items, gs, j0) + Blocks(ms, os, gs, comps[1..], j0 + 1)
  }

  /** With operands of one common lane count, the `zip`s of a vector store
      cut nothing. */
  lemma {:induction false} CompTasksBlocks(full: seq<Value>, comps: seq<Value>, j0: int, n: nat)
    requires Uniform(full, comps, n)
    ensures CompTasks(full, comps, j0, None) == Blocks(full[0].items, full[1].items, full[3].items, comps, j0)
    decreases |comps|
  {
    if comps != [] {
      ZipUniform([full[0], full[1], comps[0], full[3]], n);
      assert Uniform(full, comps[1..], n);
      CompTasksBlocks(full, comps[1..], j0 + 1, n);
    }
  }

  /** Every write of the blocks is a lane write of some component from a
      lane whose gate is true. */
  lemma {:induction false} BlocksSound(ms: seq<Value>, os: seq<Value>, gs: seq<Value>, comps: seq<Value>, j0: int, t: Task)
    requires |ms| == |os| == |gs| && Comps(comps, |ms|)
    requires t in Blocks(ms, os, gs, comps, j0) && t.Write?
    ensures exists j, k :: CompLaneWrite(t, ms, os, comps, gs, j0, j, k)
    decreases |comps|
  {
    assert Comps(comps[1..], |ms|);
    if t in LaneTasks(ms, os, comps[0].items, gs, j0) {
      LaneTasksSound(ms, os, comps[0].items, gs, j0, t);
      var k :| LaneWrite(t, ms, os, comps[0].items, gs, j0, k);
      assert CompLaneWrite(t, ms, os, comps, gs, j0, 0, k);
    } else {
      BlocksSound(ms, os, gs, comps[1..], j0 + 1, t);
      var j, k :| CompLaneWrite(t, ms, os, comps[1..], gs, j0 + 1, j, k);
      assert comps[1..][j] == comps[j + 1];
      assert CompLaneWrite(t, ms, os, comps, gs, j0, j + 1, k);
    }
  }

  /** Every lane whose gate is true and whose offset is an integer writes
      every component. */
  lemma {:induction false} BlocksComplete(ms: seq<Value>, os: seq<Value>, gs: seq<Value>, comps: seq<Value>, j0: int, j: nat, k: nat)
    requires |ms| == |os| == |gs| && Comps(comps, |ms|)
    requires j < |comps| && k < |ms| && Truthy(gs[k]) && AsInt(os[k]).Ok?
    ensures Write(ms[k], AsInt(os[k]).value + (j0 + j), comps[j].items[k]) in Blocks(ms, os, gs, comps, j0)
    decreases |comps|
  {
    var w := Write(ms[k], AsInt(os[k]).value + (j0 + j), comps[j].items[k]);
    var head, tail := LaneTasks(ms, os, comps[0].items, gs, j0), Blocks(ms, os, gs, comps[1..], j0 + 1);
    assert Blocks(ms, os, gs, comps, j0) == head + tail;
    if j == 0 {
      LaneTasksComplete(ms, os, comps[0].items, gs, j0, k);
      assert w in head;
    } else {
      assert Comps(comps[1..], |ms|);
      BlocksComplete(ms, os, gs, comps[1..], j0 + 1, j - 1, k);
      assert comps[1..][j - 1] == comps[j];
      assert w in tail;
    }
  }

  /** `BlocksComplete` for every component and lane of a store's operands
      at once, stated of any task list `ts` equal to their blocks. */
  lemma {:induction false} BlocksCompleteAll(vals: seq<Value>, n: nat, ts: seq<Task>)
    requires |vals| >= 4 && vals[2].ListV? && Uniform(vals, vals[2].items, n)
    requires ts == Blocks(vals[0].items, vals[1].items, vals[3].items, vals[2].items, 0)
    ensures forall j, k :: 0 <= j < |vals[2].items| && 0 <= k < n && Truthy(vals[3].items[k]) && AsInt(vals[1].items[k]).Ok? ==>
      Write(vals[0].items[k], AsInt(vals[1].items[k]).value + j, vals[2].items[j].items[k]) in ts
  {
    forall j, k | 0 <= j < |vals[2].items| && 0 <= k < n && Truthy(vals[3].items[k]) && AsInt(vals[1].items[k]).Ok?
      ensures Write(vals[0].items[k], AsInt(vals[1].items[k]).value + j, vals[2].items[j].items[k]) in ts
    {
      BlocksComplete(vals[0].items, vals[1].items, vals[3].items, vals[2].items, 0, j, k);
    }
  }

  /** With every gate false the blocks are empty. */
  lemma {:induction false} BlocksGatedOff(ms: seq<Value>, os: seq<Value>, gs: seq<Value>, comps: seq<Value>, j0: int)
    requires |ms| == |os| == |gs| && Comps(comps, |ms|)
    requires forall k :: 0 <= k < |gs| ==> !Truthy(gs[k])
    ensures Blocks(ms, os, gs, comps, j0) == []
    decreases |comps|
  {
    if comps != [] {
      assert Comps(comps[1..], |ms|);
      LaneTasksGatedOff(ms, os, comps[0].items, gs, j0);
      BlocksGatedOff(ms, os, gs, comps[1..], j0 + 1);
    }
  }

  /** STORE with three operands behaves as with a fourth, all-true gate. */
  lemma {:induction false} GateDefaultsTrue(vals: seq<Value>, types: seq<DType>, gt: DType)
    requires |vals| == |types| == 3 && vals[0].ListV?
    ensures StorePlan(vals, types) == StorePlan(vals + [Broadcast(BoolV(true), |vals[0].items|)], types + [gt])
  {
    var full := vals + [Broadcast(BoolV(true), |vals[0].items|)];
    assert WithGate(vals) == Ok(full) && WithGate(full) == Ok(full);
    assert (types + [gt])[0] == types[0] && (types + [gt])[2] == types[2];
  }

  /** The writes of an ordinary scalar STORE whose operands hold `n` lanes
      each are the lane tasks of those lanes. */
  lemma {:induction false} ScalarPlan(vals: seq<Value>, types: seq<DType>, n: nat)
    requires |vals| == |types| == 4 && types[0].image.None? && types[2].count <= 1
    requires AllLists(vals) && forall i :: 0 <= i < 4 ==> |vals[i].items| == n
    ensures StorePlan(vals, types) == LaneTasks(vals[0].items, vals[1].items, vals[2].items, vals[3].items, 0)
  {
    assert WithGate(vals) == Ok(vals);
    ZipUniform(vals, n);
  }

  /** An ordinary scalar STORE writes only `_store(m, o, v)` of a lane whose
      gate is true. */
  lemma {:induction false} ScalarStoreSound(vals: seq<Value>, types: seq<DType>, n: nat)
    requires |vals| == |types| == 4 && types[0].image.None? && types[2].count <= 1
    requires AllLists(vals) && forall i :: 0 <= i < 4 ==> |vals[i].items| == n
    ensures forall t :: t in StorePlan(vals, types) && t.Write? ==>
      exists k :: LaneWrite(t, vals[0].items, vals[1].items, vals[2].items, vals[3].items, 0, k)
  {
    ScalarPlan(vals, types, n);
    forall t | t in StorePlan(vals, types) && t.Write?
      ensures exists k :: LaneWrite(t, vals[0].items, vals[1].items, vals[2].items, vals[3].items, 0, k)
    {
      LaneTasksSound(vals[0].items, vals[1].items, vals[2].items, vals[3].items, 0, t);
    }
  }

  /** In an ordinary scalar STORE every lane whose gate is true and whose
      offset is an integer writes its value at its offset. */
  lemma {:induction false} ScalarStoreComplete(vals: seq<Value>, types: seq<DType>, n: nat)
    requires |vals| == |types| == 4 && types[0].image.None? && types[2].count <= 1
    requires AllLists(vals) && forall i :: 0 <= i < 4 ==> |vals[i].items| == n
    ensures forall k :: 0 <= k < n && Truthy(vals[3].items[k]) && AsInt(vals[1].items[k]).Ok? ==>
      Write(vals[0].items[k], AsInt(vals[1].items[k]).value, vals[2].items[k]) in StorePlan(vals, types)
  {
    ScalarPlan(vals, types, n);
    forall k | 0 <= k < n && Truthy(vals[3].items[k]) && AsInt(vals[1].items[k]).Ok?
      ensures Write(vals[0].items[k], AsInt(vals[1].items[k]).value, vals[2].items[k]) in StorePlan(vals, types)
    {
      LaneTasksComplete(vals[0].items, vals[1].items, vals[2].items, vals[3].items, 0, k);
    }
  }

  /** An ordinary scalar STORE whose gates are all false writes nothing. */
  lemma {:induction false} ScalarStoreGatedOff(vals: seq<Value>, types: seq<DType>, n: nat)
    requires |vals| == |types| == 4 && types[0].image.None? && types[2].count <= 1
    requires AllLists(vals) && forall i :: 0 <= i < 4 ==> |vals[i].items| == n
    requires forall k :: 0 <= k < n ==> !Truthy(vals[3].items[k])
    ensures StorePlan(vals, types) == []
  {
    ScalarPlan(vals, types, n);
    LaneTasksGatedOff(vals[0].items, vals[1].items, vals[2].items, vals[3].items, 0);
  }

  /** The lane tasks of lanes `0 .. k-1` come first, then those of the rest. */
  lemma {:induction false} LaneTasksSplit(ms: seq<Value>, os: seq<Value>, vs: seq<Value>, gs: seq<Value>, j: int, k: nat)
    requires |ms| == |os| == |vs| == |gs| && k <= |ms|
    ensures LaneTasks(ms, os, vs, gs, j)
         == LaneTasks(ms[..k], os[..k], vs[..k], gs[..k], j) + LaneTasks(ms[k..], os[k..], vs[k..], gs[k..], j)
    decreases k
  {
    if k == 0 {
      assert ms[..0] == [] && ms[0..] == ms && os[0..] == os && vs[0..] == vs && gs[0..] == gs;
    } else {
      LaneTasksSplit(ms[1..], os[1..], vs[1..], gs[1..], j, k - 1);
      assert ms[..k][1..] == ms[1..][..k - 1] && os[..k][1..] == os[1..][..k - 1];
      assert vs[..k][1..] == vs[1..][..k - 1] && gs[..k][1..] == gs[1..][..k - 1];
      assert ms[1..][k - 1..] == ms[k..] && os[1..][k - 1..] == os[k..];
      assert vs[1..][k - 1..] == vs[k..] && gs[1..][k - 1..] == gs[k..];
    }
  }

  /** No lane from `i0` on whose gate is true targets element `x` of buffer
      `b`, so their tasks do not either. */
  lemma {:induction false} LaneTasksMiss(ms: seq<Value>, os: seq<Value>, vs: seq<Value>, gs: seq<Value>, i0: nat, b: nat, x: int)
    requires |ms| == |os| == |vs| == |gs| && i0 <= |ms|
    requires forall i :: i0 <= i < |ms| && Truthy(gs[i]) && ms[i] == BufV(b) ==> AsInt(os[i]) != Ok(x)
    ensures !Targets(LaneTasks(ms[i0..], os[i0..], vs[i0..], gs[i0..], 0), b, x)
  {
    var ts := LaneTasks(ms[i0..], os[i0..], vs[i0..], gs[i0..], 0);
    forall t | t in ts && t.Write?
      ensures !(t.buf == BufV(b) && t.off == x)
    {
      LaneTasksSound(ms[i0..], os[i0..], vs[i0..], gs[i0..], 0, t);
      var i :| LaneWrite(t, ms[i0..], os[i0..], vs[i0..], gs[i0..], 0, i);
      assert ms[i0..][i] == ms[i0 + i] && os[i0..][i] == os[i0 + i] && gs[i0..][i] == gs[i0 + i];
    }
  }

  /** The tasks from lane `k` on: lane `k`'s own, then the rest. */
  lemma {:induction false} LaneTasksFrom(ms: seq<Value>, os: seq<Value>, vs: seq<Value>, gs: seq<Value>, j: int, k: nat)
    requires |ms| == |os| == |vs| == |gs| && k < |ms|
    ensures LaneTasks(ms[k..], os[k..], vs[k..], gs[k..], j)
         == LaneTask(ms[k], os[k], vs[k], gs[k], j) + LaneTasks(ms[k + 1..], os[k + 1..], vs[k + 1..], gs[k + 1..], j)
  {
    assert ms[k..][1..] == ms[k + 1..] && os[k..][1..] == os[k + 1..];
    assert vs[k..][1..] == vs[k + 1..] && gs[k..][1..] == gs[k + 1..];
  }

  /** Last lane wins over the lanes of one component: when their tasks
      complete, an element that lane `k` writes and no later lane with a
      true gate targets holds lane `k`'s value. */
  lemma {:induction false} LaneTasksLastLane(mem: seq<seq<Value>>, ms: seq<Value>, os: seq<Value>, vs: seq<Value>, gs: seq<Value>,
                                             k: nat, b: nat, x: int)
    requires |ms| == |os| == |vs| == |gs| && b < |mem| && 0 <= x < |mem[b]|
    requires k < |ms| && Truthy(gs[k]) && ms[k] == BufV(b) && AsInt(os[k]) == Ok(x)
    requires forall i :: k < i < |ms| && Truthy(gs[i]) && ms[i] == BufV(b) ==> AsInt(os[i]) != Ok(x)
    requires ApplyTasks(mem, LaneTasks(ms, os, vs, gs, 0)).MemOk?
    ensures ApplyTasks(mem, LaneTasks(ms, os, vs, gs, 0)).mem[b][x] == vs[k]
  {
    LaneTasksSplit(ms, os, vs, gs, 0, k);
    LaneTasksFrom(ms, os, vs, gs, 0, k);
    var pre := LaneTasks(ms[..k], os[..k], vs[..k], gs[..k], 0);
    var post := LaneTasks(ms[k + 1..], os[k + 1..], vs[k + 1..], gs[k + 1..], 0);
    LaneTasksMiss(ms, os, vs, gs, k + 1, b, x);
    assert LaneTasks(ms, os, vs, gs, 0) == pre + [Write(BufV(b), x, vs[k])] + post;
    ApplyTasksLastWrite(mem, pre, b, x, vs[k], post);
  }

  /** Last lane wins: in an ordinary scalar STORE that completes, an element
      that lane `k` writes and no later lane with a true gate targets holds
      lane `k`'s value afterwards. */
  lemma {:induction false} ScalarStoreLastLane(mem: seq<seq<Value>>, vals: seq<Value>, types: seq<DType>, n: nat,
                                               k: nat, b: nat, x: int)
    requires |vals| == |types| == 4 && types[0].image.None? && types[2].count <= 1
    requires AllLists(vals) && forall i :: 0 <= i < 4 ==> |vals[i].items| == n
    requires b < |mem| && 0 <= x < |mem[b]|
    requires k < n && Truthy(vals[3].items[k]) && vals[0].items[k] == BufV(b) && AsInt(vals[1].items[k]) == Ok(x)
    requires forall i :: k < i < n && Truthy(vals[3].items[i]) && vals[0].items[i] == BufV(b) ==> AsInt(vals[1].items[i]) != Ok(x)
    requires ApplyTasks(mem, StorePlan(vals, types)).MemOk?
    ensures ApplyTasks(mem, StorePlan(vals, types)).mem[b][x] == vals[2].items[k]
  {
    ScalarPlan(vals, types, n);
    LaneTasksLastLane(mem, vals[0].items, vals[1].items, vals[2].items, vals[3].items, k, b, x);
  }

  /** An element that no lane with a true gate targets keeps its value
      through an ordinary scalar STORE, whether the store completes or not. */
  lemma {:induction false} ScalarStoreFrame(mem: seq<seq<Value>>, vals: seq<Value>, types: seq<DType>, n: nat, b: nat, x: int)
    requires |vals| == |types| == 4 && types[0].image.None? && types[2].count <= 1
    requires AllLists(vals) && forall i :: 0 <= i < 4 ==> |vals[i].items| == n
    requires b < |mem| && 0 <= x < |mem[b]|
    requires forall i :: 0 <= i < n && Truthy(vals[3].items[i]) && vals[0].items[i] == BufV(b) ==> AsInt(vals[1].items[i]) != Ok(x)
    ensures ApplyTasks(mem, StorePlan(vals, types)).mem[b][x] == mem[b][x]
  {
    var ms, os, vs, gs := vals[0].items, vals[1].items, vals[2].items, vals[3].items;
    ScalarPlan(vals, types, n);
    LaneTasksMiss(ms, os, vs, gs, 0, b, x);
    assert ms[0..] == ms && os[0..] == os && vs[0..] == vs && gs[0..] == gs;
    ApplyTasksFrame(mem, StorePlan(vals, types), b, x);
  }

  /** The writes of an ordinary vector STORE whose operands hold `n` lanes
      each are the blocks of its components. */
  lemma {:induction false} VectorPlan(vals: seq<Value>, types: seq<DType>, n: nat)
    requires |vals| == |types| == 4 && types[0].image.None? && types[2].count > 1
    requires vals[2].ListV? && Uniform(vals, vals[2].items, n)
    ensures StorePlan(vals, types) == Blocks(vals[0].items, vals[1].items, vals[3].items, vals[2].items, 0)
  {
    assert WithGate(vals) == Ok(vals);
    CompTasksBlocks(vals, vals[2].items, 0, n);
  }

  /** An ordinary vector STORE writes only component `j` of a lane whose
      gate is true, at that lane's offset plus `j`. */
  lemma {:induction false} VectorStoreSound(vals: seq<Value>, types: seq<DType>, n: nat)
    requires |vals| == |types| == 4 && types[0].image.None? && types[2].count > 1
    requires vals[2].ListV? && Uniform(vals, vals[2].items, n)
    ensures forall t :: t in StorePlan(vals, types) && t.Write? ==>
      exists j, k :: CompLaneWrite(t, vals[0].items, vals[1].items, vals[2].items, vals[3].items, 0, j, k)
  {
    var ms, os, gs, comps := vals[0].items, vals[1].items, vals[3].items, vals[2].items;
    VectorPlan(vals, types, n);
    forall t | t in Blocks(ms, os, gs, comps, 0) && t.Write?
      ensures exists j, k :: CompLaneWrite(t, ms, os, comps, gs, 0, j, k)
    {
      BlocksSound(ms, os, gs, comps, 0, t);
    }
  }

  /** In an ordinary vector STORE every lane whose gate is true and whose
      offset is an integer writes every component `j` at its offset plus `j`. */
  lemma {:induction false} VectorStoreComplete(vals: seq<Value>, types: seq<DType>, n: nat)
    requires |vals| == |types| == 4 && types[0].image.None? && types[2].count > 1
    requires vals[2].ListV? && Uniform(vals, vals[2].items, n)
    ensures forall j, k :: 0 <= j < |vals[2].items| && 0 <= k < n && Truthy(vals[3].items[k]) && AsInt(vals[1].items[k]).Ok? ==>
      Write(vals[0].items[k], AsInt(vals[1].items[k]).value + j, vals[2].items[j].items[k]) in StorePlan(vals, types)
  {
    VectorPlan(vals, types, n);
    BlocksCompleteAll(vals, n, StorePlan(vals, types));
  }

  /** An ordinary vector STORE whose gates are all false writes nothing. */
  lemma {:induction false} VectorStoreGatedOff(vals: seq<Value>, types: seq<DType>, n: nat)
    requires |vals| == |types| == 4 && types[0].image.None? && types[2].count > 1
    requires vals[2].ListV? && Uniform(vals, vals[2].items, n)
    requires forall k :: 0 <= k < n ==> !Truthy(vals[3].items[k])
    ensures StorePlan(vals, types) == []
  {
    VectorPlan(vals, types, n);
    BlocksGatedOff(vals[0].items, vals[1].items, vals[3].items, vals[2].items, 0);
  }

  /** A store that writes nothing leaves the memory as it was. */
  lemma {:induction false} NoTasksNoChange(mem: seq<seq<Value>>, vals: seq<Value>, types: seq<DType>)
    requires |vals| == |types| && StorePlan(vals, types) == []
    ensures ApplyTasks(mem, StorePlan(vals, types)) == MemOk(mem)
  {
  }

  /** An element that no lane with a true gate targets keeps its value
      through an ordinary vector STORE, whether the store completes or not:
      lane `k` targets elements `o .. o + count - 1` of its buffer only. */
  lemma {:induction false} VectorStoreFrame(mem: seq<seq<Value>>, vals: seq<Value>, types: seq<DType>, n: nat, b: nat, x: int)
    requires |vals| == |types| == 4 && types[0].image.None? && types[2].count > 1
    requires vals[2].ListV? && Uniform(vals, vals[2].items, n)
    requires b < |mem| && 0 <= x < |mem[b]|
    requires forall k :: 0 <= k < n && Truthy(vals[3].items[k]) && vals[0].items[k] == BufV(b) && AsInt(vals[1].items[k]).Ok? ==>
      !(0 <= x - AsInt(vals[1].items[k]).value < |vals[2].items|)
    ensures ApplyTasks(mem, StorePlan(vals, types)).mem[b][x] == mem[b][x]
  {
    var ts := StorePlan(vals, types);
    VectorStoreSound(vals, types, n);
    assert !Targets(ts, b, x) by {
      forall t: Task | t in ts && t.Write? ensures !(t.buf == BufV(b) && t.off == x) {
        var j, k :| CompLaneWrite(t, vals[0].items, vals[1].items, vals[2].items, vals[3].items, 0, j, k);
      }
    }
    ApplyTasksFrame(mem, ts, b, x);
  }

  /** Over the blocks of a vector store that complete: element `x` of
      buffer `b`, written as component `j` of lane `k`, holds that value
      when every write to it carries the same one. */
  lemma {:induction false} BlocksValue(mem: seq<seq<Value>>, ms: seq<Value>, os: seq<Value>, gs: seq<Value>, comps: seq<Value>,
                                       b: nat, x: int, j: nat, k: nat)
    requires |ms| == |os| == |gs| && Comps(comps, |ms|) && b < |mem| && 0 <= x < |mem[b]|
    requires j < |comps| && k < |ms| && Truthy(gs[k]) && ms[k] == BufV(b) && AsInt(os[k]) == Ok(x - j)
    requires forall c, i ::
      (0 <= c < |comps| && 0 <= i < |ms| && Truthy(gs[i]) && ms[i] == BufV(b) && AsInt(os[i]) == Ok(x - c)) ==>
      comps[c].items[i] == comps[j].items[k]
    requires ApplyTasks(mem, Blocks(ms, os, gs, comps, 0)).MemOk?
    ensures ApplyTasks(mem, Blocks(ms, os, gs, comps, 0)).mem[b][x] == comps[j].items[k]
  {
    var ts := Blocks(ms, os, gs, comps, 0);
    var v := comps[j].items[k];
    BlocksComplete(ms, os, gs, comps, 0, j, k);
    assert Write(BufV(b), x, v) in ts;
    forall t | t in ts && t.Write? && t.buf == BufV(b) && t.off == x
      ensures t.v == v
    {
      BlocksSound(ms, os, gs, comps, 0, t);
      var c, i :| CompLaneWrite(t, ms, os, comps, gs, 0, c, i);
    }
    ApplyTasksWritten(mem, ts, b, x, v);
  }

  /** In an ordinary vector STORE that completes, element `x` of buffer `b`,
      written as component `j` of lane `k`, holds that value afterwards
      provided every lane with a true gate that writes it writes the same
      value (in particular, when no other lane writes it). */
  lemma {:induction false} VectorStoreValue(mem: seq<seq<Value>>, vals: seq<Value>, types: seq<DType>, n: nat,
                                            b: nat, x: int, j: nat, k: nat)
    requires |vals| == |types| == 4 && types[0].image.None? && types[2].count > 1
    requires vals[2].ListV? && Uniform(vals, vals[2].items, n)
    requires b < |mem| && 0 <= x < |mem[b]|
    requires j < |vals[2].items| && k < n && Truthy(vals[3].items[k]) && vals[0].items[k] == BufV(b)
    requires AsInt(vals[1].items[k]) == Ok(x - j)
    requires forall c, i ::
      (0 <= c < |vals[2].items| && 0 <= i < n && Truthy(vals[3].items[i]) && vals[0].items[i] == BufV(b)
       && AsInt(vals[1].items[i]) == Ok(x - c)) ==> vals[2].items[c].items[i] == vals[2].items[j].items[k]
    requires ApplyTasks(mem, StorePlan(vals, types)).MemOk?
    ensures ApplyTasks(mem, StorePlan(vals, types)).mem[b][x] == vals[2].items[j].items[k]
  {
    VectorPlan(vals, types, n);
    BlocksValue(mem, vals[0].items, vals[1].items, vals[3].items, vals[2].items, b, x, j, k);
  }

  /** The operands of an image store in the usual shape: the buffer, the two
      address lane-vectors, the gate and every component hold `n` lanes. */
  predicate ImageUniform(full: seq<Value>, comps: seq<Value>, n: nat) {
    && |full| >= 4 && full[0].ListV? && full[1].ListV? && full[3].ListV? && |full[1].items| >= 2
    && full[1].items[0].ListV? && full[1].items[1].ListV?
    && |full[0].items| == n && |full[1].items[0].items| == n && |full[1].items[1].items| == n && |full[3].items| == n
    && Comps(comps, n)
  }

  /** One image-store component: a lane whose address lies outside the image
      fails the store whatever its gate; a lane inside whose gate is true
      writes texel component `j` at `ox*4 + oy*width*4 + j`. */
  lemma {:induction false} ImageLaneTasksLanes(ms: seq<Value>, oxs: seq<Value>, oys: seq<Value>, vs: seq<Value>,
                                               gs: seq<Value>, shape: ImageShape, j: int, k: nat)
    requires |ms| == |oxs| == |oys| == |vs| == |gs| && k < |ms| && oxs[k].IntV? && oys[k].IntV?
    ensures !InImage(shape, oxs[k].n, oys[k].n) ==> Stop(OutOfBounds) in ImageLaneTasks(ms, oxs, oys, vs, gs, shape, j)
    ensures InImage(shape, oxs[k].n, oys[k].n) && Truthy(gs[k]) ==>
      Write(ms[k], TexelOffset(shape, oxs[k].n, oys[k].n, j), vs[k]) in ImageLaneTasks(ms, oxs, oys, vs, gs, shape, j)
    decreases |ms|
  {
    if k > 0 {
      ImageLaneTasksLanes(ms[1..], oxs[1..], oys[1..], vs[1..], gs[1..], shape, j, k - 1);
      assert ms[1..][k - 1] == ms[k] && oxs[1..][k - 1] == oxs[k] && oys[1..][k - 1] == oys[k];
      assert vs[1..][k - 1] == vs[k] && gs[1..][k - 1] == gs[k];
    }
  }

  /** The tasks of an image store whose operands all hold the same number of
      lanes: component after component, each lane by lane. */
  function ImageBlocks(ms: seq<Value>, oxs: seq<Value>, oys: seq<Value>, gs: seq<Value>, comps: seq<Value>,
                       shape: ImageShape, j0: int): seq<Task>
    requires |ms| == |oxs| == |oys| == |gs| && Comps(comps, |ms|)
    decreases |comps|
  {
    if comps == [] then []
    else ImageLaneTasks(ms, oxs, oys, comps[0].items, gs, shape, j0) + ImageBlocks(ms, oxs, oys, gs, comps[1..], shape, j0 + 1)
  }

  /** With operands of one common lane count, the `zip`s of an image store
      cut nothing. */
  lemma {:induction false} CompTasksImageBlocks(full: seq<Value>, comps: seq<Value>, j0: int, shape: ImageShape, n: nat)
    requires ImageUniform(full, comps, n)
    ensures CompTasks(full, comps, j0, Some(shape))
         == ImageBlocks(full[0].items, full[1].items[0].items, full[1].items[1].items, full[3].items, comps, shape, j0)
    decreases |comps|
  {
    if comps != [] {
      ZipUniform([full[0], full[1].items[0], full[1].items[1], comps[0], full[3]], n);
      assert ImageUniform(full, comps[1..], n);
      CompTasksImageBlocks(full, comps[1..], j0 + 1, shape, n);
    }
  }

  /** Over all components: a lane outside the image stops the store; a lane
      inside whose gate is true writes every component. */
  lemma {:induction false} ImageBlocksLanes(ms: seq<Value>, oxs: seq<Value>, oys: seq<Value>, gs: seq<Value>, comps: seq<Value>,
                                            shape: ImageShape, j0: int, j: nat, k: nat)
    requires |ms| == |oxs| == |oys| == |gs| && Comps(comps, |ms|)
    requires j < |comps| && k < |ms| && oxs[k].IntV? && oys[k].IntV?
    ensures !InImage(shape, oxs[k].n, oys[k].n) ==> Stop(OutOfBounds) in ImageBlocks(ms, oxs, oys, gs, comps, shape, j0)
    ensures InImage(shape, oxs[k].n, oys[k].n) && Truthy(gs[k]) ==>
      Write(ms[k], TexelOffset(shape, oxs[k].n, oys[k].n, j0 + j), comps[j].items[k]) in ImageBlocks(ms, oxs, oys, gs, comps, shape, j0)
    decreases |comps|
  {
    assert Comps(comps[1..], |ms|);
    ImageLaneTasksLanes(ms, oxs, oys, comps[0].items, gs, shape, j0, k);
    if j > 0 {
      ImageBlocksLanes(ms, oxs, oys, gs, comps[1..], shape, j0 + 1, j - 1, k);
      assert comps[1..][j - 1] == comps[j];
    }
  }

  /** The tasks of an image STORE whose operands hold `n` lanes each are the
      image blocks of its components. */
  lemma {:induction false} ImagePlan(vals: seq<Value>, types: seq<DType>, shape: ImageShape, n: nat)
    requires |vals| == |types| == 4 && types[0].image == Some(shape) && types[2].count == 4
    requires vals[2].ListV? && ImageUniform(vals, vals[2].items, n)
    ensures StorePlan(vals, types)
         == ImageBlocks(vals[0].items, vals[1].items[0].items, vals[1].items[1].items, vals[3].items, vals[2].items, shape, 0)
  {
    assert WithGate(vals) == Ok(vals);
    CompTasksImageBlocks(vals, vals[2].items, 0, shape, n);
  }

  /** `ImageBlocksLanes` stated over a store's operands, of any task list
      `ts` equal to their image blocks. */
  lemma {:induction false} ImageLanesAt(vals: seq<Value>, n: nat, ts: seq<Task>, shape: ImageShape, j: nat, k: nat)
    requires |vals| >= 4 && vals[2].ListV? && ImageUniform(vals, vals[2].items, n) && j < |vals[2].items| && k < n
    requires vals[1].items[0].items[k].IntV? && vals[1].items[1].items[k].IntV?
    requires ts == ImageBlocks(vals[0].items, vals[1].items[0].items, vals[1].items[1].items, vals[3].items, vals[2].items, shape, 0)
    ensures var x, y := vals[1].items[0].items[k].n, vals[1].items[1].items[k].n;
      && (!InImage(shape, x, y) ==> Stop(OutOfBounds) in ts)
      && (InImage(shape, x, y) && Truthy(vals[3].items[k]) ==>
            Write(vals[0].items[k], TexelOffset(shape, x, y, j), vals[2].items[j].items[k]) in ts)
  {
    ImageBlocksLanes(vals[0].items, vals[1].items[0].items, vals[1].items[1].items, vals[3].items, vals[2].items, shape, 0, j, k);
  }

  /** An image STORE checks the address of every lane, gated or not: one
      lane outside the image fails the whole store. A lane inside whose gate
      is true writes component `j` at `ox*4 + oy*width*4 + j`. */
  lemma {:induction false} ImageStore(mem: seq<seq<Value>>, vals: seq<Value>, types: seq<DType>, shape: ImageShape, n: nat, j: nat, k: nat)
    requires |vals| == |types| == 4 && types[0].image == Some(shape) && types[2].count == 4
    requires vals[2].ListV? && ImageUniform(vals, vals[2].items, n) && j < |vals[2].items| && k < n
    requires vals[1].items[0].items[k].IntV? && vals[1].items[1].items[k].IntV?
    ensures var x, y := vals[1].items[0].items[k].n, vals[1].items[1].items[k].n;
      && (!InImage(shape, x, y) ==> ApplyTasks(mem, StorePlan(vals, types)).MemFault?)
      && (InImage(shape, x, y) && Truthy(vals[3].items[k]) ==>
            Write(vals[0].items[k], TexelOffset(shape, x, y, j), vals[2].items[j].items[k]) in StorePlan(vals, types))
  {
    ImagePlan(vals, types, shape, n);
    ImageLanesAt(vals, n, StorePlan(vals, types), shape, j, k);
    if !InImage(shape, vals[1].items[0].items[k].n, vals[1].items[1].items[k].n) {
      StopAborts(mem, StorePlan(vals, types), OutOfBounds);
    }
  }

  /** Task `t` is the write of lane `k` of an image-store component at
      texel component `j`: the lane's address lies inside the image and its
      gate is true. */
  predicate ImageLaneWrite(t: Task, ms: seq<Value>, oxs: seq<Value>, oys: seq<Value>, vs: seq<Value>, gs: seq<Value>,
                           shape: ImageShape, j: int, k: int) {
    && 0 <= k < |ms| && |oxs| == |ms| && |oys| == |ms| && |vs| == |ms| && |gs| == |ms|
    && Truthy(gs[k]) && AsInt(oxs[k]).Ok? && AsInt(oys[k]).Ok?
    && InImage(shape, AsInt(oxs[k]).value, AsInt(oys[k]).value)
    && t == Write(ms[k], TexelOffset(shape, AsInt(oxs[k]).value, AsInt(oys[k]).value, j), vs[k])
  }

  /** Task `t` is the write of lane `k` of component `j` of an image store
      whose components, from the first on, sit at texel components
      `j0, j0 + 1, ...`. */
  predicate ImageCompLaneWrite(t: Task, ms: seq<Value>, oxs: seq<Value>, oys: seq<Value>, comps: seq<Value>, gs: seq<Value>,
                               shape: ImageShape, j0: int, j: int, k: int) {
    0 <= j < |comps| && comps[j].ListV? && ImageLaneWrite(t, ms, oxs, oys, comps[j].items, gs, shape, j0 + j, k)
  }

  /** Every write of an image-store component comes from a lane inside the
      image whose gate is true. */
  lemma {:induction false} ImageLaneTasksSound(ms: seq<Value>, oxs: seq<Value>, oys: seq<Value>, vs: seq<Value>, gs: seq<Value>,
                                               shape: ImageShape, j: int, t: Task)
    requires |ms| == |oxs| == |oys| == |vs| == |gs|
    requires t in ImageLaneTasks(ms, oxs, oys, vs, gs, shape, j) && t.Write?
    ensures exists k :: ImageLaneWrite(t, ms, oxs, oys, vs, gs, shape, j, k)
    decreases |ms|
  {
    var tail := ImageLaneTasks(ms[1..], oxs[1..], oys[1..], vs[1..], gs[1..], shape, j);
    if t in tail {
      ImageLaneTasksSound(ms[1..], oxs[1..], oys[1..], vs[1..], gs[1..], shape, j, t);
      var k :| ImageLaneWrite(t, ms[1..], oxs[1..], oys[1..], vs[1..], gs[1..], shape, j, k);
      assert ImageLaneWrite(t, ms, oxs, oys, vs, gs, shape, j, k + 1);
    } else {
      assert ImageLaneWrite(t, ms, oxs, oys, vs, gs, shape, j, 0);
    }
  }

  /** Every write of the image blocks is the write of some component by a
      lane inside the image whose gate is true. */
  lemma {:induction false} ImageBlocksSound(ms: seq<Value>, oxs: seq<Value>, oys: seq<Value>, gs: seq<Value>, comps: seq<Value>,
                                            shape: ImageShape, j0: int, t: Task)
    requires |ms| == |oxs| == |oys| == |gs| && Comps(comps, |ms|)
    requires t in ImageBlocks(ms, oxs, oys, gs, comps, shape, j0) && t.Write?
    ensures exists j, k :: ImageCompLaneWrite(t, ms, oxs, oys, comps, gs, shape, j0, j, k)
    decreases |comps|
  {
    assert Comps(comps[1..], |ms|);
    if t in ImageLaneTasks(ms, oxs, oys, comps[0].items, gs, shape, j0) {
      ImageLaneTasksSound(ms, oxs, oys, comps[0].items, gs, shape, j0, t);
      var k :| ImageLaneWrite(t, ms, oxs, oys, comps[0].items, gs, shape, j0, k);
      assert ImageCompLaneWrite(t, ms, oxs, oys, comps, gs, shape, j0, 0, k);
    } else {
      ImageBlocksSound(ms, oxs, oys, gs, comps[1..], shape, j0 + 1, t);
      var j, k :| ImageCompLaneWrite(t, ms, oxs, oys, comps[1..], gs, shape, j0 + 1, j, k);
      assert comps[1..][j] == comps[j + 1];
      assert ImageCompLaneWrite(t, ms, oxs, oys, comps, gs, shape, j0, j + 1, k);
    }
  }

  /** An image STORE writes only texel components `ox*4 + oy*width*4 + j` of
      lanes inside the image whose gate is true. */
  lemma {:induction false} ImageStoreSound(vals: seq<Value>, types: seq<DType>, shape: ImageShape, n: nat)
    requires |vals| == |types| == 4 && types[0].image == Some(shape) && types[2].count == 4
    requires vals[2].ListV? && ImageUniform(vals, vals[2].items, n)
    ensures forall t :: t in StorePlan(vals, types) && t.Write? ==>
      exists j, k :: ImageCompLaneWrite(t, vals[0].items, vals[1].items[0].items, vals[1].items[1].items, vals[2].items, vals[3].items, shape, 0, j, k)
  {
    var ms, oxs, oys, gs, comps := vals[0].items, vals[1].items[0].items, vals[1].items[1].items, vals[3].items, vals[2].items;
    ImagePlan(vals, types, shape, n);
    forall t | t in StorePlan(vals, types) && t.Write?
      ensures exists j, k :: ImageCompLaneWrite(t, ms, oxs, oys, comps, gs, shape, 0, j, k)
    {
      ImageBlocksSound(ms, oxs, oys, gs, comps, shape, 0, t);
    }
  }

  /** An element that no lane inside the image with a true gate targets
      keeps its value through an image STORE, whether it completes or not. */
  lemma {:induction false} ImageStoreFrame(mem: seq<seq<Value>>, vals: seq<Value>, types: seq<DType>, shape: ImageShape, n: nat,
                                           b: nat, x: int)
    requires |vals| == |types| == 4 && types[0].image == Some(shape) && types[2].count == 4
    requires vals[2].ListV? && ImageUniform(vals, vals[2].items, n)
    requires b < |mem| && 0 <= x < |mem[b]|
    requires forall j, k ::
      (0 <= j < |vals[2].items| && 0 <= k < n && Truthy(vals[3].items[k]) && vals[0].items[k] == BufV(b)
       && AsInt(vals[1].items[0].items[k]).Ok? && AsInt(vals[1].items[1].items[k]).Ok?
       && InImage(shape, AsInt(vals[1].items[0].items[k]).value, AsInt(vals[1].items[1].items[k]).value)) ==>
      TexelOffset(shape, AsInt(vals[1].items[0].items[k]).value, AsInt(vals[1].items[1].items[k]).value, j) != x
    ensures ApplyTasks(mem, StorePlan(vals, types)).mem[b][x] == mem[b][x]
  {
    var ts := StorePlan(vals, types);
    var ms, oxs, oys, gs, comps := vals[0].items, vals[1].items[0].items, vals[1].items[1].items, vals[3].items, vals[2].items;
    ImageStoreSound(vals, types, shape, n);
    assert !Targets(ts, b, x) by {
      forall t: Task | t in ts && t.Write? ensures !(t.buf == BufV(b) && t.off == x) {
        var j, k :| ImageCompLaneWrite(t, ms, oxs, oys, comps, gs, shape, 0, j, k);
      }
    }
    ApplyTasksFrame(mem, ts, b, x);
  }

  /** In an image STORE that completes, texel component `j` of lane `k`
      (inside the image, gate true) holds that lane's component-`j` value
      afterwards, provided every lane that writes the same element writes
      the same value (in particular, when no other lane writes it). */
  lemma {:induction false} ImageStoreValue(mem: seq<seq<Value>>, vals: seq<Value>, types: seq<DType>, shape: ImageShape, n: nat,
                                           b: nat, j: nat, k: nat)
    requires |vals| == |types| == 4 && types[0].image == Some(shape) && types[2].count == 4
    requires vals[2].ListV? && ImageUniform(vals, vals[2].items, n)
    requires j < |vals[2].items| && k < n && Truthy(vals[3].items[k]) && vals[0].items[k] == BufV(b)
    requires vals[1].items[0].items[k].IntV? && vals[1].items[1].items[k].IntV?
    requires InImage(shape, vals[1].items[0].items[k].n, vals[1].items[1].items[k].n)
    requires var x := TexelOffset(shape, vals[1].items[0].items[k].n, vals[1].items[1].items[k].n, j);
      && b < |mem| && 0 <= x < |mem[b]|
      && forall c, i ::
           (0 <= c < |vals[2].items| && 0 <= i < n && Truthy(vals[3].items[i]) && vals[0].items[i] == BufV(b)
            && AsInt(vals[1].items[0].items[i]).Ok? && AsInt(vals[1].items[1].items[i]).Ok?
            && InImage(shape, AsInt(vals[1].items[0].items[i]).value, AsInt(vals[1].items[1].items[i]).value)
            && TexelOffset(shape, AsInt(vals[1].items[0].items[i]).value, AsInt(vals[1].items[1].items[i]).value, c) == x)
           ==> vals[2].items[c].items[i] == vals[2].items[j].items[k]
    requires ApplyTasks(mem, StorePlan(vals, types)).MemOk?
    ensures ApplyTasks(mem, StorePlan(vals, types)).mem[b][TexelOffset(shape, vals[1].items[0].items[k].n, vals[1].items[1].items[k].n, j)]
         == vals[2].items[j].items[k]
  {
    var ts := StorePlan(vals, types);
    var ms, oxs, oys, gs, comps := vals[0].items, vals[1].items[0].items, vals[1].items[1].items, vals[3].items, vals[2].items;
    var x := TexelOffset(shape, oxs[k].n, oys[k].n, j);
    var v := comps[j].items[k];
    ImagePlan(vals, types, shape, n);
    ImageLanesAt(vals, n, ts, shape, j, k);
    assert Write(BufV(b), x, v) in ts;
    ImageStoreSound(vals, types, shape, n);
    forall t | t in ts && t.Write? && t.buf == BufV(b) && t.off == x
      ensures t.v == v
    {
      var c, i :| ImageCompLaneWrite(t, ms, oxs, oys, comps, gs, shape, 0, c, i);
    }
    ApplyTasksWritten(mem, ts, b, x, v);
  }
}
