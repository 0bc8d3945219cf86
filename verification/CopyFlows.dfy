/**
 * Flows that set a mark share one copy flow per mark, counted by the flows that point at it
 * and by those for which it is applied.
 */
module CopyFlows {
  import opened Base
  import opened Ordering

  /** The copy flow every started device has; no flow points at it. */
  const DEFAULT_COPY_ID: nat := 0xFFFF_FFFF

  /** A flow: the copy resource it points at, whether that is applied for it, whether it is in the hardware. */
  datatype Flow = Flow(copy: Option<nat>, copyApplied: bool, installed: bool)

  /** A copy resource: its two counters, and whether its flow is in the hardware. */
  datatype Copy = Copy(refcnt: nat, appcnt: nat, installed: bool)

  type Flows = map<nat, Flow>
  type Table = map<nat, Copy>

  /** The flows that point at a copy resource. */
  function Refs(flows: Flows, mark: nat): set<nat> {
    set id | id in flows && flows[id].copy == Some(mark)
  }

  /** The flows for which a copy resource is applied. */
  function Apps(flows: Flows, mark: nat): set<nat> {
    set id | id in flows && flows[id].copy == Some(mark) && flows[id].copyApplied
  }

  /** A copy resource exists while flows point at it, counts them, and is installed while it is applied. */
  ghost predicate CopyInv(flows: Flows, table: Table, mark: nat) {
    && (mark in table <==> Refs(flows, mark) != {})
    && (mark in table ==> && table[mark].refcnt == |Refs(flows, mark)|
                          && table[mark].appcnt == |Apps(flows, mark)|
                          && (table[mark].installed <==> 0 < table[mark].appcnt))
  }

  ghost predicate Counted(flows: Flows, table: Table) {
    && (forall mark | mark != DEFAULT_COPY_ID :: CopyInv(flows, table, mark))
    && (forall id | id in flows :: flows[id].copy != Some(DEFAULT_COPY_ID))
  }

  // -------------------------------------------------- counting the flows

  /** A flow may change what has nothing to do with a mark without being counted differently. */
  lemma SameCounts(flows: Flows, id: nat, f: Flow, mark: nat)
    requires id in flows ==> (flows[id].copy == Some(mark) <==> f.copy == Some(mark))
    requires id in flows && f.copy == Some(mark) ==> f.copyApplied == flows[id].copyApplied
    requires id !in flows ==> f.copy != Some(mark)
    ensures Refs(flows[id := f], mark) == Refs(flows, mark) && Apps(flows[id := f], mark) == Apps(flows, mark)
  {
  }

  /** A flow that comes to point at a mark is counted once more. */
  lemma PointCounts(flows: Flows, id: nat, f: Flow, mark: nat)
    requires (id in flows ==> flows[id].copy.None?) && f.copy == Some(mark)
    ensures Refs(flows[id := f], mark) == Refs(flows, mark) + {id} && id !in Refs(flows, mark)
    ensures Apps(flows[id := f], mark) == if f.copyApplied then Apps(flows, mark) + {id} else Apps(flows, mark)
    ensures id !in Apps(flows, mark)
  {
  }

  /** Applying or unapplying the copy of one flow moves that flow in or out of the applied ones. */
  lemma ApplyCounts(flows: Flows, id: nat, mark: nat)
    requires id in flows && flows[id].copy == Some(mark)
    ensures Refs(flows[id := flows[id].(copyApplied := true)], mark) == Refs(flows, mark)
    ensures Refs(flows[id := flows[id].(copyApplied := false)], mark) == Refs(flows, mark)
    ensures Apps(flows[id := flows[id].(copyApplied := true)], mark) == Apps(flows, mark) + {id}
    ensures Apps(flows[id := flows[id].(copyApplied := false)], mark) == Apps(flows, mark) - {id}
    ensures id in Apps(flows, mark) <==> flows[id].copyApplied
  {
  }

  lemma UnpointCounts(flows: Flows, id: nat, mark: nat)
    requires id in flows && flows[id].copy == Some(mark) && !flows[id].copyApplied
    ensures Refs(flows[id := flows[id].(copy := None)], mark) == Refs(flows, mark) - {id} && id in Refs(flows, mark)
    ensures Apps(flows[id := flows[id].(copy := None)], mark) == Apps(flows, mark)
  {
  }

  /** A change to one flow that concerns one mark leaves the other marks as they were. */
  lemma OtherMarks(flows: Flows, table: Table, id: nat, f: Flow, mark: nat, table': Table)
    requires Counted(flows, table) && f.copy in {None, Some(mark)}
    requires id in flows ==> flows[id].copy in {None, Some(mark)}
    requires forall k | k != mark :: (k in table' <==> k in table) && (k in table ==> table'[k] == table[k])
    requires f.copy != Some(DEFAULT_COPY_ID)
    requires mark != DEFAULT_COPY_ID ==> CopyInv(flows[id := f], table', mark)
    ensures Counted(flows[id := f], table')
  {
    var after := flows[id := f];
    forall k | k != DEFAULT_COPY_ID ensures CopyInv(after, table', k) {
      if k != mark {
        assert CopyInv(flows, table, k);
        SameCounts(flows, id, f, k);
      }
    }
  }

  /** A change to the flow itself, its copy aside, changes no count. */
  lemma ReinstallKeeps(flows: Flows, table: Table, id: nat, installed: bool)
    requires Counted(flows, table) && id in flows
    ensures Counted(flows[id := flows[id].(installed := installed)], table)
  {
    var after := flows[id := flows[id].(installed := installed)];
    forall k | k != DEFAULT_COPY_ID ensures CopyInv(after, table, k) {
      assert CopyInv(flows, table, k);
      SameCounts(flows, id, flows[id].(installed := installed), k);
    }
  }

  /** A flow that points nowhere may come and go. */
  lemma UncopiedKeeps(flows: Flows, table: Table, id: nat, f: Flow)
    requires Counted(flows, table) && (id in flows ==> flows[id].copy.None?) && f.copy.None?
    ensures Counted(flows[id := f], table) && Counted(flows - {id}, table)
  {
    var with, without := flows[id := f], flows - {id};
    forall k | k != DEFAULT_COPY_ID ensures CopyInv(with, table, k) && CopyInv(without, table, k) {
      assert CopyInv(flows, table, k);
      SameCounts(flows, id, f, k);
      assert Refs(without, k) == Refs(flows, k) && Apps(without, k) == Apps(flows, k);
    }
  }

  /** One more flow points at a mark. */
  lemma PointKeeps(flows: Flows, table: Table, id: nat, f: Flow, mark: nat, c: Copy)
    requires Counted(flows, table) && mark != DEFAULT_COPY_ID
    requires (id in flows ==> flows[id].copy.None?) && f.copy == Some(mark)
    requires c.refcnt == 1 + if mark in table then table[mark].refcnt else 0
    requires c.appcnt == (if f.copyApplied then 1 else 0) + if mark in table then table[mark].appcnt else 0
    requires c.installed <==> 0 < c.appcnt
    ensures Counted(flows[id := f], table[mark := c])
  {
    PointCounts(flows, id, f, mark);
    assert CopyInv(flows, table, mark);
    if mark !in table {
      assert Refs(flows, mark) == {} && Apps(flows, mark) == {};
    }
    OtherMarks(flows, table, id, f, mark, table[mark := c]);
  }

  /** The table without one reference to a mark. */
  function Released(table: Table, mark: nat): Table
    requires mark in table && 0 < table[mark].refcnt
  {
    if table[mark].refcnt == 1 then table - {mark} else table[mark := table[mark].(refcnt := table[mark].refcnt - 1)]
  }

  /** One flow less points at a mark. */
  lemma UnpointKeeps(flows: Flows, table: Table, id: nat, mark: nat)
    requires Counted(flows, table) && id in flows && flows[id].copy == Some(mark) && !flows[id].copyApplied
    ensures mark in table && 0 < table[mark].refcnt
    ensures Counted(flows[id := flows[id].(copy := None)], Released(table, mark))
  {
    UnpointCounts(flows, id, mark);
    assert CopyInv(flows, table, mark);
    var less := Refs(flows, mark) - {id};
    assert |less| == |Refs(flows, mark)| - 1 && (|less| == 0 <==> less == {});
    OtherMarks(flows, table, id, flows[id].(copy := None), mark, Released(table, mark));
  }

  // --------------------------------------------------- the four operations

  /** What a started device does with a flow: every copy applied, every flow installed; a stopped one nothing. */
  ghost predicate Uniform(f: Flow, started: bool) {
    f.installed == started && f.copyApplied == (started && f.copy.Some?)
  }

  /** In a started device, or in a stopped one, either all users of a mark have it applied or none. */
  lemma AllApplied(flows: Flows, table: Table, mark: nat, started: bool)
    requires Counted(flows, table) && mark != DEFAULT_COPY_ID && mark in table
    requires forall id | id in flows :: flows[id].copyApplied == (started && flows[id].copy.Some?)
    ensures 0 < table[mark].refcnt
    ensures table[mark].appcnt == (if started then table[mark].refcnt else 0) && table[mark].installed == started
  {
    assert CopyInv(flows, table, mark);
    if started {
      assert Apps(flows, mark) == Refs(flows, mark);
    } else {
      assert Apps(flows, mark) == {};
    }
  }

  predicate SameDefault(a: Table, b: Table) {
    && (DEFAULT_COPY_ID in a <==> DEFAULT_COPY_ID in b)
    && (DEFAULT_COPY_ID in a ==> a[DEFAULT_COPY_ID] == b[DEFAULT_COPY_ID])
  }

  /** Which flows point where decides the whole table, the default entry aside. */
  lemma TableDetermined(flows: Flows, a: Table, b: Table)
    requires Counted(flows, a) && Counted(flows, b)
    requires SameDefault(a, b)
    ensures a == b
  {
    forall k: nat ensures (k in a <==> k in b) && (k in a ==> a[k] == b[k]) {
      if k != DEFAULT_COPY_ID {
        assert CopyInv(flows, a, k) && CopyInv(flows, b, k);
      }
    }
  }

  /** A new flow as a device makes it. */
  function NewFlow(engaged: bool, started: bool, mark: Option<nat>): Flow {
    Flow(if engaged then mark else None, started && engaged && mark.Some?, started)
  }

  /** What may go wrong while a flow is created. */
  datatype CreateOutcome = CreateOutcome(prepared: bool, copyCreated: bool, applied: bool)

  /** What may go wrong while the device is started: the default copy flow, and which flows the hardware refuses. */
  datatype StartOutcome = StartOutcome(defaultCreated: bool, copyFails: set<nat>, flowFails: set<nat>)

  /** A new flow with a mark shares the mark's copy flow, which is in the hardware exactly if the device is started. */
  lemma OneMoreUser(flows: Flows, was: Table, id: nat, mark: nat, started: bool, table: Table)
    requires Counted(flows, was) && id !in flows && mark != DEFAULT_COPY_ID
    requires forall x | x in flows :: flows[x].copyApplied == (started && flows[x].copy.Some?)
    requires Counted(flows[id := NewFlow(true, started, Some(mark))], table)
    ensures mark in table && table[mark].installed == started
    ensures table[mark].refcnt == 1 + if mark in was then was[mark].refcnt else 0
  {
    var after := flows[id := NewFlow(true, started, Some(mark))];
    PointCounts(flows, id, after[id], mark);
    assert CopyInv(flows, was, mark) && CopyInv(after, table, mark);
    AllApplied(after, table, mark, started);
  }

  class Device {
    /** The metadata registers are available and in use. */
    const engaged: bool
    var started: bool
    var flows: Flows
    var list: seq<nat>
    var table: Table

    /** The list holds the flows, and all copy resources are counted correctly. */
    ghost predicate Consistent()
      reads this
    {
      && NoDup(list) && (forall id :: id in list <==> id in flows)
      && Counted(flows, table)
      && (forall id | id in flows && flows[id].copy.None? :: !flows[id].copyApplied)
      && (!engaged ==> forall id | id in flows :: flows[id].copy.None?)
    }

    /** Between calls the flows, too, are as the device is: started or stopped. */
    ghost predicate Valid()
      reads this
    {
      && Consistent()
      && (forall id | id in flows :: Uniform(flows[id], started))
      && (DEFAULT_COPY_ID in table <==> started && engaged)
      && (DEFAULT_COPY_ID in table ==> table[DEFAULT_COPY_ID] == Copy(1, 0, true))
    }

    constructor (engaged: bool)
      ensures Valid() && !started && flows == map[] && this.engaged == engaged
    {
      this.engaged := engaged;
      started, flows, list, table := false, map[], [], map[];
    }

    // ------------------------------------------------------- copy resources

    /**
     * `flow_mreg_add_copy_action`: another reference to the copy resource of a mark, created
     * if there is none; a started device installs it at once.
     */
    method AddCopyAction(mark: nat, created: bool) returns (ok: bool)
      requires mark == DEFAULT_COPY_ID ==> mark !in table || table[mark].refcnt == 1
      modifies this`table
      ensures ok <==> mark in old(table) || created
      ensures table == if mark in old(table) && mark != DEFAULT_COPY_ID
                       then old(table)[mark := old(table)[mark].(refcnt := old(table)[mark].refcnt + 1)]
                       else if mark !in old(table) && created then old(table)[mark := Copy(1, 0, started)]
                       else old(table)
    {
      if mark in table {
        if mark != DEFAULT_COPY_ID {
          table := table[mark := table[mark].(refcnt := table[mark].refcnt + 1)];
        }
        return true;
      }
      if !created {
        return false;
      }
      table := table[mark := Copy(1, 0, started)];
      return true;
    }

    /**
     * `flow_mreg_update_copy_table` for a flow with a mark: it points at the mark's copy resource,
     * which a started device has applied for its other users already.
     */
    method UpdateCopyTable(id: nat, mark: nat, created: bool) returns (ok: bool)
      requires Counted(flows, table) && id in flows && flows[id].copy.None? && mark != DEFAULT_COPY_ID
      requires forall x | x in flows :: flows[x].copyApplied == (started && flows[x].copy.Some?)
      modifies this`table, this`flows
      ensures Counted(flows, table) && ok == (!engaged || mark in old(table) || created)
      ensures flows == if engaged && ok
              then old(flows)[id := old(flows)[id].(copy := Some(mark), copyApplied := started)] else old(flows)
      ensures SameDefault(old(table), table)
    {
      if !engaged {
        return true;
      }
      ghost var was, before := table, flows;
      if mark in table {
        AllApplied(flows, table, mark, started);
      }
      ok := AddCopyAction(mark, created);
      if !ok {
        return;
      }
      flows := flows[id := flows[id].(copy := Some(mark))];
      if started {
        table := table[mark := table[mark].(appcnt := table[mark].appcnt + 1)];
        flows := flows[id := flows[id].(copyApplied := true)];
      }
      ghost var f := before[id].(copy := Some(mark), copyApplied := started);
      assert flows == before[id := f] && table == was[mark := table[mark]];
      PointKeeps(before, was, id, f, mark, table[mark]);
    }

    /** `flow_mreg_del_copy_action`: give up a flow's reference; the last one takes the resource with it. */
    method DelCopyAction(id: nat)
      requires Counted(flows, table) && id in flows
      modifies this`table, this`flows
      ensures Counted(flows, table)
      ensures flows == if old(flows)[id].copy.Some?
              then old(flows)[id := old(flows)[id].(copy := None, copyApplied := false)] else old(flows)
      ensures SameDefault(old(table), table)
    {
      if flows[id].copy.None? {
        return;
      }
      var mark := flows[id].copy.value;
      StopCopyAction(id);
      UnpointKeeps(flows, table, id, mark);
      ghost var released := Released(table, mark);
      flows := flows[id := flows[id].(copy := None)];
      table := table[mark := table[mark].(refcnt := table[mark].refcnt - 1)];
      if table[mark].refcnt == 0 {
        table := table - {mark};
      }
      assert table == released;
    }

    /** `flow_mreg_start_copy_action`: apply a flow's copy resource; the first user installs it. */
    method StartCopyAction(id: nat, accepted: bool) returns (ok: bool)
      requires Counted(flows, table) && id in flows
      modifies this`table, this`flows
      ensures Counted(flows, table)
      ensures ok <==> (CopyDue(old(flows), id) ==> accepted)
      ensures flows == if ok && old(flows)[id].copy.Some? then old(flows)[id := old(flows)[id].(copyApplied := true)]
              else old(flows)
      ensures table.Keys == old(table).Keys
      ensures DEFAULT_COPY_ID in table ==> table[DEFAULT_COPY_ID] == old(table)[DEFAULT_COPY_ID]
    {
      if flows[id].copy.None? || flows[id].copyApplied {
        return true;
      }
      var mark := flows[id].copy.value;
      ApplyCounts(flows, id, mark);
      assert CopyInv(flows, table, mark) && id in Refs(flows, mark);
      ghost var was, before := table, flows;
      if table[mark].appcnt == 0 {
        if !accepted {
          return false;
        }
        table := table[mark := table[mark].(installed := true)];
      }
      table := table[mark := table[mark].(appcnt := table[mark].appcnt + 1)];
      flows := flows[id := flows[id].(copyApplied := true)];
      OtherMarks(before, was, id, flows[id], mark, table);
      return true;
    }

    /** `flow_mreg_stop_copy_action`: the last user removes the copy flow from the hardware. */
    method StopCopyAction(id: nat)
      requires Counted(flows, table) && id in flows
      modifies this`table, this`flows
      ensures Counted(flows, table)
      ensures flows == if old(flows)[id].copy.Some? then old(flows)[id := old(flows)[id].(copyApplied := false)]
                       else old(flows)
      ensures table.Keys == old(table).Keys
      ensures DEFAULT_COPY_ID in table ==> table[DEFAULT_COPY_ID] == old(table)[DEFAULT_COPY_ID]
    {
      if flows[id].copy.None? || !flows[id].copyApplied {
        return;
      }
      var mark := flows[id].copy.value;
      ApplyCounts(flows, id, mark);
      assert CopyInv(flows, table, mark) && id in Refs(flows, mark);
      ghost var was, before := table, flows;
      table := table[mark := table[mark].(appcnt := table[mark].appcnt - 1)];
      flows := flows[id := flows[id].(copyApplied := false)];
      if table[mark].appcnt == 0 {
        table := table[mark := table[mark].(installed := false)];
      }
      OtherMarks(before, was, id, flows[id], mark, table);
    }

    // ---------------------------------------------------------------- flows

    /**
     * `flow_list_create`: a failure at any point leaves flows, list and table exactly as they were.
     */
    method CreateFlow(id: nat, mark: Option<nat>, o: CreateOutcome) returns (ok: bool)
      requires Valid() && id !in flows && mark != Some(DEFAULT_COPY_ID)
      modifies this`flows, this`list, this`table
      ensures Valid()
      ensures ok <==> && o.prepared && (started ==> o.applied)
                      && (engaged && mark.Some? ==> mark.value in old(table) || o.copyCreated)
      ensures ok ==> flows == old(flows)[id := NewFlow(engaged, started, mark)] && list == old(list) + [id]
      ensures ok ==> flows[id].installed == started && flows[id].copy == if engaged then mark else None
      ensures ok && engaged && mark.Some? ==>
                && mark.value in table && table[mark.value].installed == started
                && table[mark.value].refcnt == 1 + if mark.value in old(table) then old(table)[mark.value].refcnt else 0
      ensures !ok ==> flows == old(flows) && list == old(list) && table == old(table)
    {
      if !o.prepared {
        return false;
      }
      ghost var before, was := flows, table;
      ok := MakeFlow(id, mark, o);
      if ok {
        list := list + [id];
        if engaged && mark.Some? {
          OneMoreUser(before, was, id, mark.value, started, table);
        }
      }
    }

    /** Give up a flow's copy, then the flow. */
    method FreeFlow(id: nat)
      requires Counted(flows, table) && id in flows
      modifies this`flows, this`table
      ensures Counted(flows, table) && flows == old(flows) - {id}
      ensures SameDefault(old(table), table)
    {
      DelCopyAction(id);
      UncopiedKeeps(flows, table, id, flows[id]);
      flows := flows - {id};
    }

    /** The steps of `flow_list_create` that touch the copy table or the hardware. */
    method FillFlow(id: nat, mark: Option<nat>, o: CreateOutcome) returns (ok: bool)
      requires Counted(flows, table) && id in flows && flows[id] == Flow(None, false, false)
      requires mark != Some(DEFAULT_COPY_ID)
      requires forall x | x in flows :: flows[x].copyApplied == (started && flows[x].copy.Some?)
      modifies this`flows, this`table
      ensures Counted(flows, table) && id in flows && flows == old(flows)[id := flows[id]]
      ensures ok <==> (started ==> o.applied) && (engaged && mark.Some? ==> mark.value in old(table) || o.copyCreated)
      ensures ok ==> flows[id] == NewFlow(engaged, started, mark)
      ensures SameDefault(old(table), table)
    {
      ok := true;
      if mark.Some? {
        ok := UpdateCopyTable(id, mark.value, o.copyCreated);
      }
      if ok && started {
        ok := o.applied;
        if ok {
          ReinstallKeeps(flows, table, id, true);
          flows := flows[id := flows[id].(installed := true)];
        }
      }
    }

    /** Make a flow, or clean up after what went wrong. */
    method MakeFlow(id: nat, mark: Option<nat>, o: CreateOutcome) returns (ok: bool)
      requires Counted(flows, table) && id !in flows && mark != Some(DEFAULT_COPY_ID)
      requires forall x | x in flows :: flows[x].copyApplied == (started && flows[x].copy.Some?)
      modifies this`flows, this`table
      ensures Counted(flows, table) && SameDefault(old(table), table)
      ensures ok <==> (started ==> o.applied) && (engaged && mark.Some? ==> mark.value in old(table) || o.copyCreated)
      ensures ok ==> flows == old(flows)[id := NewFlow(engaged, started, mark)]
      ensures !ok ==> flows == old(flows) && table == old(table)
    {
      UncopiedKeeps(flows, table, id, Flow(None, false, false));
      flows := flows[id := Flow(None, false, false)];
      ok := FillFlow(id, mark, o);
      if !ok {
        FreeFlow(id);
        assert flows == old(flows);
        TableDetermined(flows, old(table), table);
      }
    }

    /** `flow_list_destroy`. */
    method DestroyFlow(id: nat)
      requires Valid() && id in flows
      modifies this`flows, this`list, this`table
      ensures Valid() && flows == old(flows) - {id}
      ensures id in old(list) && list == RemoveAt(old(list), IndexIn(old(list), id))
    {
      RemoveMembers(list, IndexIn(list, id));
      list := RemoveAt(list, IndexIn(list, id));
      FreeFlow(id);
    }

    // ----------------------------------------------------------- the device

    method StopFlow(id: nat)
      requires Consistent() && id in flows
      modifies this`flows, this`table
      ensures Consistent() && flows == old(flows)[id := Flow(old(flows)[id].copy, false, false)]
    {
      ReinstallKeeps(flows, table, id, false);
      flows := flows[id := flows[id].(installed := false)];
      StopCopyAction(id);
    }

    /** The loop of `mlx5_flow_stop`, over the list from back to front. */
    method StopFlows()
      requires Consistent()
      modifies this`flows, this`table
      ensures Consistent() && HaltedIn(old(flows), flows, flows.Keys)
    {
      var i := |list|;
      ghost var done: set<nat> := {};
      while i > 0
        invariant 0 <= i <= |list| && Consistent()
        invariant HaltedIn(old(flows), flows, done)
        invariant forall k | i <= k < |list| :: list[k] in done
      {
        i := i - 1;
        assert list[i] in list;
        StopFlow(list[i]);
        done := done + {list[i]};
      }
      forall id | id in flows ensures id in done {
        assert id in list;
      }
    }

    /** The device stops: every flow and every copy flow leaves the hardware. */
    method Stop()
      requires Consistent()
      modifies this`started, this`flows, this`table
      ensures Valid() && !started && HaltedIn(old(flows), flows, flows.Keys)
    {
      started := false;
      StopFlows();
      if DEFAULT_COPY_ID in table {
        DefaultAside(flows, table, table - {DEFAULT_COPY_ID});
        table := table - {DEFAULT_COPY_ID};
      }
    }

    /** Install a flow, its copy flow first. */
    method StartFlow(id: nat, o: StartOutcome) returns (ok: bool)
      requires Consistent() && id in flows
      modifies this`flows, this`table
      ensures Consistent() && table.Keys == old(table).Keys
      ensures DEFAULT_COPY_ID in table ==> table[DEFAULT_COPY_ID] == old(table)[DEFAULT_COPY_ID]
      ensures flows.Keys == old(flows).Keys && flows[id].copy == old(flows)[id].copy
      ensures forall x | x in flows && x != id :: flows[x] == old(flows)[x]
      ensures ok ==> Uniform(flows[id], true)
      ensures ok <==> id !in o.flowFails && (CopyDue(old(flows), id) ==> flows[id].copy.value !in o.copyFails)
    {
      ok := StartCopyAction(id, flows[id].copy.Some? && flows[id].copy.value !in o.copyFails);
      if ok {
        ok := id !in o.flowFails;
        if ok {
          ReinstallKeeps(flows, table, id, true);
          flows := flows[id := flows[id].(installed := true)];
        }
      }
    }

    /** `mlx5_flow_start` up to the first failure. */
    method StartFlows(o: StartOutcome) returns (ok: bool)
      requires Consistent() && forall id | id in flows :: Uniform(flows[id], false)
      modifies this`flows, this`table
      ensures Consistent() && table.Keys == old(table).Keys
      ensures DEFAULT_COPY_ID in table ==> table[DEFAULT_COPY_ID] == old(table)[DEFAULT_COPY_ID]
      ensures SameCopies(old(flows), flows) && ok == Accepted(flows, flows.Keys, o)
      ensures ok ==> forall id | id in flows :: Uniform(flows[id], true)
    {
      ghost var done: set<nat> := {};
      for i := 0 to |list|
        invariant Consistent() && table.Keys == old(table).Keys
        invariant DEFAULT_COPY_ID in table ==> table[DEFAULT_COPY_ID] == old(table)[DEFAULT_COPY_ID]
        invariant StartedIn(old(flows), flows, done) && Accepted(flows, done, o)
        invariant done <= flows.Keys
        invariant forall k | 0 <= k < |list| :: list[k] in done <==> k < i
      {
        var id := list[i];
        assert id in list;
        StartDecides(old(flows), flows, done, id, o);
        ok := StartFlow(id, o);
        if !ok {
          return false;
        }
        done := done + {id};
      }
      forall id | id in flows ensures id in done {
        assert id in list;
      }
      return true;
    }

    /** The device starts: all flows get into the hardware, or none after a failure. */
    method Start(o: StartOutcome) returns (ok: bool)
      requires Valid() && !started
      modifies this`started, this`flows, this`table
      ensures Valid() && started == ok && SameCopies(old(flows), flows)
      ensures ok <==> (engaged ==> o.defaultCreated) && Accepted(flows, flows.Keys, o)
    {
      started := true;
      ok := true;
      if engaged {
        ghost var was := table;
        ok := AddCopyAction(DEFAULT_COPY_ID, o.defaultCreated);
        DefaultAside(flows, was, table);
      }
      if ok {
        ok := StartFlows(o);
      }
      if !ok {
        Stop();
      }
    }
  }

  /** A start would have to install the copy flow for this flow. */
  predicate CopyDue(flows: Flows, id: nat)
    requires id in flows
  {
    flows[id].copy.Some? && !flows[id].copyApplied && Apps(flows, flows[id].copy.value) == {}
  }

  predicate SameCopies(before: Flows, after: Flows) {
    after.Keys == before.Keys && forall id | id in after :: after[id].copy == before[id].copy
  }

  /** The hardware takes these flows and all their copy flows. */
  predicate Accepted(flows: Flows, ids: set<nat>, o: StartOutcome) {
    forall id | id in ids && id in flows ::
      id !in o.flowFails && (flows[id].copy.Some? ==> flows[id].copy.value !in o.copyFails)
  }

  /** Some of the flows were installed, together with their copies; the others are stopped. */
  ghost predicate StartedIn(before: Flows, after: Flows, done: set<nat>) {
    SameCopies(before, after) && forall id | id in after :: Uniform(after[id], id in done)
  }

  /** Whether a flow is accepted is decided at its own turn: an accepted mark was accepted for an earlier flow, too. */
  lemma StartDecides(before: Flows, flows: Flows, done: set<nat>, id: nat, o: StartOutcome)
    requires StartedIn(before, flows, done) && Accepted(flows, done, o) && id in flows && id !in done
    ensures Accepted(flows, done + {id}, o) <==>
            id !in o.flowFails && (CopyDue(flows, id) ==> flows[id].copy.value !in o.copyFails)
  {
    if flows[id].copy.Some? && !CopyDue(flows, id) {
      var x :| x in Apps(flows, flows[id].copy.value);
      assert x in done;
    }
  }

  /** Some of the flows were taken out of the hardware, together with their copies; nothing else changed. */
  ghost predicate HaltedIn(before: Flows, after: Flows, done: set<nat>) {
    && after.Keys == before.Keys
    && forall id | id in after :: after[id] == if id in done then Flow(before[id].copy, false, false) else before[id]
  }

  /** The default entry counts for nothing. */
  lemma DefaultAside(flows: Flows, a: Table, b: Table)
    requires Counted(flows, a)
    requires forall k | k != DEFAULT_COPY_ID :: (k in a <==> k in b) && (k in a ==> a[k] == b[k])
    ensures Counted(flows, b)
  {
    forall k: nat | k != DEFAULT_COPY_ID ensures CopyInv(flows, b, k) {
      assert CopyInv(flows, a, k);
    }
  }
}
