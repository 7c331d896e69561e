/** What a client of the handle table may think of: a map from live handles to entries and
    a stack of handles to issue next. No slots, no cells, no reset counts. The table refines
    it, call by call and over every script, hook calls included. */
module HandleMap {
  import opened Abi
  import opened TableSpec
  import opened TableInvariant
  import opened TableTheorems

  datatype Map<T> = Map(live: map<Handle, Entry<T>>, reusable: seq<Handle>, invalidated: bool, hooked: bool)

  datatype MapInserted<T> = MapInserted(state: Map<T>, status: Status, handle: Handle)

  datatype MapOutcome<T> = MapOutcome(state: Map<T>, status: Status, fired: bool)

  // A handle is available: a reusable one, or a fresh one below the sentinel.
  predicate MapHasRoom<T>(m: Map<T>, alloc: bool) {
    var n := |m.live| + |m.reusable|;
    m.reusable != [] || (n < UINT32_MAX && (n < CapacityFor(n) || alloc))
  }

  function MapNext<T>(m: Map<T>): Handle {
    if m.reusable != [] then m.reusable[0] else Handle(|m.live|, 1)
  }

  function MapInsert<T>(m: Map<T>, typeId: nat, token: Option<T>, hasOut: bool, alloc: bool): MapInserted<T> {
    if !hasOut || token.None? || typeId == 0 then MapInserted(m, InvalidArgument, NULL_HANDLE)
    else if m.invalidated then MapInserted(m, ContextDestroyed, NULL_HANDLE)
    else if !MapHasRoom(m, alloc) then MapInserted(m, OutOfMemory, NULL_HANDLE)
    else
      var live := m.live[MapNext(m) := Entry(token.value, typeId, 1)];
      var reusable := if m.reusable != [] then m.reusable[1..] else [];
      MapInserted(m.(live := live, reusable := reusable), Ok, MapNext(m))
  }

  function MapRetain<T>(m: Map<T>, h: Handle): MapOutcome<T> {
    if m.invalidated then MapOutcome(m, ContextDestroyed, false)
    else if h !in m.live then MapOutcome(m, InvalidHandle, false)
    else
      var e := m.live[h];
      if e.references == UINT32_MAX then MapOutcome(m, OutOfMemory, false)
      else MapOutcome(m.(live := m.live[h := e.(references := e.references + 1)]), Ok, false)
  }

  function MapRelease<T>(m: Map<T>, h: Handle): MapOutcome<T> {
    if m.invalidated then MapOutcome(m, ContextDestroyed, false)
    else if h !in m.live then MapOutcome(m, InvalidHandle, false)
    else
      var e := m.live[h];
      if e.references == 1 then
        var next := Handle(h.slot, NextGeneration(h.generation));
        MapOutcome(m.(live := m.live - {h}, reusable := [next] + m.reusable), Ok, m.hooked)
      else
        MapOutcome(m.(live := m.live[h := e.(references := e.references - 1)]), Ok, false)
  }

  function MapInvalidate<T>(m: Map<T>): Map<T> {
    m.(live := map[], reusable := [], invalidated := true)
  }

  function MapStep<T>(m: Map<T>, op: Op<T>): Map<T>
    decreases op
  {
    match op
    case OpInsert(typeId, token, hasOut, alloc) => MapInsert(m, typeId, token, hasOut, alloc).state
    case OpRetain(h) => MapRetain(m, h).state
    case OpRelease(h, hook) =>
      var o := MapRelease(m, h);
      if o.fired then MapRun(o.state, hook) else o.state
    case OpResolve(_, _, _) => m
    case OpInvalidate(_) => MapInvalidate(m)
  }

  function MapRun<T>(m: Map<T>, script: Script<T>): Map<T>
    decreases script
  {
    match script
    case Done => m
    case Then(op, rest) => MapRun(MapStep(m, op), rest)
  }

  // ----- the abstraction -----

  function LiveHandles<T>(t: Table<T>): set<Handle> {
    set i: nat | i < |t.cells| && t.cells[i].entry.Some? :: HandleAt(t, i)
  }

  function Live<T>(t: Table<T>): (m: map<Handle, Entry<T>>)
    ensures forall h :: h in m <==> Matches(t, h)
    ensures forall h :: h in m && Matches(t, h) ==> m[h] == t.cells[h.slot].entry.value
  {
    map h | h in LiveHandles(t) :: t.cells[h.slot].entry.value
  }

  function Reissue<T>(t: Table<T>, i: nat): Handle {
    if i < |t.cells| then HandleAt(t, i) else NULL_HANDLE
  }

  // What the free stack will hand out, top first. After invalidation: nothing any more.
  function Reusable<T>(t: Table<T>): seq<Handle> {
    if t.invalidated then [] else seq(|t.free|, k requires 0 <= k < |t.free| => Reissue(t, t.free[k]))
  }

  function View<T>(t: Table<T>): Map<T> {
    Map(Live(t), Reusable(t), t.invalidated, t.hooked)
  }

  // ----- counting -----

  function LiveBelow<T>(t: Table<T>, n: nat): set<Handle>
    requires n <= |t.cells|
  {
    set i: nat | i < n && t.cells[i].entry.Some? :: HandleAt(t, i)
  }

  lemma {:induction false} CountBelow<T>(t: Table<T>, n: nat)
    requires n <= |t.cells|
    ensures |LiveBelow(t, n)| == LiveCount(t.cells[..n])
    decreases n
  {
    if n > 0 {
      CountBelow(t, n - 1);
      assert t.cells[..n][..n - 1] == t.cells[..n - 1];
      var smaller := LiveBelow(t, n - 1);
      if t.cells[n - 1].entry.Some? {
        assert LiveBelow(t, n) == smaller + {HandleAt(t, n - 1)};
        assert HandleAt(t, n - 1) !in smaller;
      } else {
        assert LiveBelow(t, n) == smaller;
      }
    }
  }

  lemma LiveSize<T>(t: Table<T>)
    ensures |Live(t)| == LiveCount(t.cells)
  {
    CountBelow(t, |t.cells|);
    assert t.cells[..|t.cells|] == t.cells;
    assert Live(t).Keys == LiveBelow(t, |t.cells|);
  }

  // ----- refinement, call by call -----

  lemma SizeOfView<T>(t: Table<T>)
    requires Inv(t)
    ensures |Live(t)| + |t.free| == |t.cells| <= CapacityFor(|t.cells|)
    ensures |t.cells| <= UINT32_MAX
  {
    hide Ledger, Settled, Conserved;
    LiveSize(t);
    assert CapacityFor(0) == 0;
    if t.cells != [] { var k := CapacityShape(|t.cells|); }
  }

  // Filling an unoccupied cell adds one handle and disturbs none.
  lemma LivePut<T>(t: Table<T>, t': Table<T>, i: nat, e: Entry<T>)
    requires i <= |t.cells| && At(t.cells, i).entry.None?
    requires t'.cells == Put(t.cells, i, Cell(At(t.cells, i).resets, Some(e)))
    ensures HandleAt(t', i) !in Live(t)
    ensures Live(t') == Live(t)[HandleAt(t', i) := e]
  {
    GenerationStep(At(t.cells, i).resets);
    assert forall h :: Matches(t', h) <==> Matches(t, h) || h == HandleAt(t', i);
  }

  lemma ReusablePush<T>(t: Table<T>, t': Table<T>, i: nat, c: Cell<T>)
    requires Shape(t.cells, t.free) && !t.invalidated && !t'.invalidated && i == NextIndex(t)
    requires t'.cells == Put(t.cells, i, c) && c.resets == At(t.cells, i).resets
    requires t'.free == if t.free != [] then t.free[1..] else []
    ensures Reusable(t') == if t.free != [] then Reusable(t)[1..] else []
    ensures t.free != [] ==> Reusable(t)[0] == HandleAt(t', i)
  {
    hide Generation;
    forall k | 0 <= k < |t'.free| ensures Reusable(t')[k] == Reusable(t)[k + 1] {
      assert t'.free[k] == t.free[k + 1];
    }
  }

  lemma RoomRefines<T>(t: Table<T>, alloc: bool)
    requires Inv(t) && !t.invalidated
    ensures MapHasRoom(View(t), alloc) <==> CanReserve(t, alloc)
  {
    ViewSize(t);
    hide Inv, View, CapacityFor;
  }

  lemma ViewSize<T>(t: Table<T>)
    requires Inv(t) && !t.invalidated
    ensures |View(t).live| + |View(t).reusable| == |t.cells|
    ensures View(t).reusable == [] <==> t.free == []
    ensures |t.cells| <= CapacityFor(|t.cells|)
  {
    SizeOfView(t);
    ReusableTop(t);
    hide Inv, Live, Reusable, CapacityFor;
  }

  lemma NextRefines<T>(t: Table<T>)
    requires Inv(t) && !t.invalidated
    ensures NextIndex(t) <= |t.cells|
    ensures MapNext(View(t)) == Handle(NextIndex(t), Generation(At(t.cells, NextIndex(t)).resets))
  {
    SizeOfView(t);
    ReusableTop(t);
    hide Inv, Live, Reusable, CapacityFor, Generation;
  }

  lemma ReusableTop<T>(t: Table<T>)
    requires Inv(t)
    ensures |Reusable(t)| == if t.invalidated then 0 else |t.free|
    ensures !t.invalidated && t.free != [] ==>
              t.free[0] < |t.cells| && Reusable(t)[0] == HandleAt(t, t.free[0])
    ensures Generation(0) == 1
  {
    InvShape(t);
    hide Inv;
  }

  // Inserting: same status, same handle, the entry added under a handle not live before;
  // a refusal of any kind leaves the table as it was.
  lemma InsertRefines<T>(t: Table<T>, typeId: nat, token: Option<T>, hasOut: bool, alloc: bool)
    requires Inv(t)
    ensures var r := Insert(t, typeId, token, hasOut, alloc);
            && MapInsert(View(t), typeId, token, hasOut, alloc) == MapInserted(View(r.table), r.status, r.handle)
            && (r.status == Ok ==> r.handle !in Live(t))
            && (r.status != Ok ==> r.table == t)
  {
    var r := Insert(t, typeId, token, hasOut, alloc);
    if !t.invalidated {
      RoomRefines(t, alloc);
      NextRefines(t);
    }
    if r.status == Ok {
      InvShape(t);
      FreeIndex(t);
      var i := NextIndex(t);
      ReusablePush(t, r.table, i, r.table.cells[i]);
      LivePut(t, r.table, i, Entry(token.value, typeId, 1));
      assert t.free == [] ==> Reusable(t) == [];
    }
    hide Inv, Shape, Live, Reusable, MapHasRoom, CanReserve, MapNext, NextIndex, Generation, Put, Matches;
  }

  // Changing the count of a live entry leaves handles alone.
  lemma LiveRecount<T>(t: Table<T>, t': Table<T>, i: nat, references: RefCount)
    requires Occupied(t, i) && t'.cells == t.cells[i := Recounted(t.cells[i], references)]
    requires t'.free == t.free && t'.invalidated == t.invalidated
    ensures Live(t') == Live(t)[HandleAt(t, i) := t.cells[i].entry.value.(references := references)]
    ensures Reusable(t') == Reusable(t)
  {
    GenerationStep(t.cells[i].resets);
    assert forall g :: Matches(t', g) <==> Matches(t, g);
  }

  lemma RetainRefines<T>(t: Table<T>, h: Handle)
    requires Inv(t)
    ensures var o := Retain(t, h);
            && MapRetain(View(t), h) == MapOutcome(View(o.table), o.status, false)
            && (o.status != Ok ==> o.table == t)
  {
    hide Inv, Live, Reusable;
    var o := Retain(t, h);
    assert h in Live(t) <==> Matches(t, h);
    if o.status == Ok {
      LiveRecount(t, o.table, h.slot, t.cells[h.slot].entry.value.references + 1);
    }
  }

  // Emptying a cell removes its handle and no other; its next handle is the successor.
  lemma LiveReset<T>(t: Table<T>, t': Table<T>, i: nat)
    requires Occupied(t, i)
    requires t'.cells == t.cells[i := Cell(t.cells[i].resets + 1, None)]
    ensures Live(t') == Live(t) - {HandleAt(t, i)}
  {
    assert forall g :: Matches(t', g) <==> Matches(t, g) && g != HandleAt(t, i);
  }

  lemma ReusablePop<T>(t: Table<T>, t': Table<T>, i: nat)
    requires Shape(t.cells, t.free) && Occupied(t, i)
    requires t'.cells == t.cells[i := Cell(t.cells[i].resets + 1, None)]
    requires t'.free == [i] + t.free && !t.invalidated && !t'.invalidated
    ensures Reusable(t') == [Handle(i, NextGeneration(HandleAt(t, i).generation))] + Reusable(t)
  {
    GenerationStep(t.cells[i].resets);
    hide Generation, NextGeneration;
    forall k | 0 <= k < |t'.free| ensures Reusable(t')[k] == ([HandleAt(t', i)] + Reusable(t))[k] {
      if k > 0 { assert t.free[k - 1] != i; }
    }
  }

  lemma LastReleaseRefines<T>(t: Table<T>, h: Handle)
    requires Shape(t.cells, t.free) && !t.invalidated && Matches(t, h)
    requires t.cells[h.slot].entry.value.references == 1
    ensures var o := Release(t, h);
            MapRelease(View(t), h) == MapOutcome(View(o.table), o.status, o.fired)
  {
    var o := Release(t, h);
    LiveReset(t, o.table, h.slot);
    ReusablePop(t, o.table, h.slot);
    assert h in Live(t) && Live(t)[h] == t.cells[h.slot].entry.value;
    hide Shape, Live, Reusable;
  }

  lemma EarlierReleaseRefines<T>(t: Table<T>, h: Handle)
    requires !t.invalidated && Matches(t, h)
    requires t.cells[h.slot].entry.value.references > 1
    ensures var o := Release(t, h);
            MapRelease(View(t), h) == MapOutcome(View(o.table), o.status, o.fired)
  {
    var o := Release(t, h);
    LiveRecount(t, o.table, h.slot, t.cells[h.slot].entry.value.references - 1);
    assert h in Live(t) && Live(t)[h] == t.cells[h.slot].entry.value;
    hide Live, Reusable;
  }

  lemma ReleaseRefines<T>(t: Table<T>, h: Handle)
    requires Inv(t)
    ensures var o := Release(t, h);
            && MapRelease(View(t), h) == MapOutcome(View(o.table), o.status, o.fired)
            && (o.status != Ok ==> o.table == t)
  {
    InvShape(t);
    hide Inv, Shape;
    if !t.invalidated && Matches(t, h) {
      hide Live;
      if t.cells[h.slot].entry.value.references == 1 {
        LastReleaseRefines(t, h);
      } else {
        EarlierReleaseRefines(t, h);
      }
    }
  }

  lemma InvalidateRefines<T>(t: Table<T>)
    requires Inv(t)
    ensures MapInvalidate(View(t)) == View(Invalidate(t))
  {
    InvalidateInv(t);
    InvalidatedIsEmpty(Invalidate(t));
    InvalidateKeepsHook(t);
    hide Ledger, Settled, Conserved, HighWater;
    assert forall g :: !Matches(Invalidate(t), g);
    assert Live(Invalidate(t)) == map[];
  }

  lemma InvalidateKeepsHook<T>(t: Table<T>)
    ensures Invalidate(t).hooked == t.hooked
  {
    if !t.invalidated { ResetDownExtends(t, |t.cells|); }
  }

  // Resolving answers from the live map alone.
  lemma ResolveRefines<T>(t: Table<T>, accepts: Accepts, h: Handle, expected: nat, hasOut: bool)
    requires Inv(t)
    ensures var m := View(t);
            Resolve(t, accepts, h, expected, hasOut) ==
              if !hasOut then Resolved(InvalidArgument, None)
              else if m.invalidated then Resolved(ContextDestroyed, None)
              else if h !in m.live then Resolved(InvalidHandle, None)
              else if expected == 0 || expected == m.live[h].typeId
                      || (accepts.Some? && accepts.value(m.live[h].typeId, expected)) then
                Resolved(Ok, Some(m.live[h]))
              else Resolved(InvalidHandle, None)
  {
  }

  // ----- refinement over runs -----

  lemma {:induction false} StepRefines<T>(t: Table<T>, op: Op<T>)
    requires Inv(t)
    ensures Inv(Step(t, op)) && MapStep(View(t), op) == View(Step(t, op))
    decreases op
  {
    hide Inv, View, MapInsert, MapRetain, MapRelease, Insert, Retain, Release;
    StepInv(t, op);
    match op
    case OpInsert(typeId, token, hasOut, alloc) => InsertRefines(t, typeId, token, hasOut, alloc);
    case OpRetain(h) => RetainRefines(t, h);
    case OpRelease(h, hook) =>
      ReleaseRefines(t, h);
      if Release(t, h).fired {
        ReleaseInv(t, h);
        RunRefines(Release(t, h).table, hook);
      }
    case OpResolve(_, _, _) =>
    case OpInvalidate(_) => InvalidateRefines(t);
  }

  lemma {:induction false} RunRefines<T>(t: Table<T>, script: Script<T>)
    requires Inv(t)
    ensures Inv(Run(t, script)) && MapRun(View(t), script) == View(Run(t, script))
    decreases script
  {
    hide Inv, View;
    RunInv(t, script);
    match script
    case Done =>
    case Then(op, rest) =>
      StepRefines(t, op);
      RunRefines(Step(t, op), rest);
  }

  // From init, the table is the map machine: every run of the one is the run of the other.
  lemma TableImplementsMap<T>(hooked: bool, script: Script<T>)
    ensures Inv(Run(Empty<T>(hooked), script))
    ensures View(Run(Empty<T>(hooked), script)) == MapRun(Map(map[], [], false, hooked), script)
  {
    EmptyInv<T>(hooked);
    RunRefines(Empty<T>(hooked), script);
    assert View(Empty<T>(hooked)) == Map(map[], [], false, hooked);
  }
}
