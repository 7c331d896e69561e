/** How slots in memory represent the abstract table: each slot its cell, and the nextFree
    fields the free stack. Stated on the sequence of slots, so that the methods of
    HandleTable only have to say which slot they overwrite. */
module HandleMemory {
  import opened Abi
  import opened TableSpec
  import opened TableInvariant
  import opened TableTheorems

  // The end of the free list; as an index it is never issued.
  const NO_SLOT: nat := UINT32_MAX

  datatype Slot<T> = Slot(
    generation: nat,
    references: nat,
    typeId: nat,
    nextFree: nat,
    token: Option<T>,
    occupied: bool)

  ghost predicate Represents<T>(s: Slot<T>, c: Cell<T>) {
    && s.generation == Generation(c.resets)
    && s.occupied == c.entry.Some?
    && (c.entry.Some? ==>
          && s.token == Some(c.entry.value.token)
          && s.typeId == c.entry.value.typeId
          && s.references == c.entry.value.references
          && s.nextFree == NO_SLOT)
    && (c.entry.None? ==> s.token == None && s.typeId == 0 && s.references == 0)
  }

  function Link(free: seq<nat>, k: nat): nat {
    if k < |free| then free[k] else NO_SLOT
  }

  // Starting at `head`, the nextFree fields spell out `free` and end at the sentinel.
  ghost predicate Threaded<T>(slots: seq<Slot<T>>, head: nat, free: seq<nat>) {
    && head == Link(free, 0)
    && forall k :: 0 <= k < |free| ==> free[k] < |slots| && slots[free[k]].nextFree == Link(free, k + 1)
  }

  ghost predicate Memory<T>(slots: seq<Slot<T>>, head: nat, cells: seq<Cell<T>>, free: seq<nat>) {
    && |slots| == |cells|
    && (forall i :: 0 <= i < |cells| ==> Represents(slots[i], cells[i]))
    && Threaded(slots, head, free)
  }

  // A slot is reserved: off the free list, or appended, but not yet occupied.
  ghost predicate Reserved<T>(slots: seq<Slot<T>>, head: nat, t: Table<T>, index: nat) {
    && index == NextIndex(t)
    && index < |slots| == (if t.free != [] then |t.cells| else |t.cells| + 1)
    && slots[index].generation == Generation(At(t.cells, index).resets)
    && (forall i :: 0 <= i < |t.cells| && i != index ==> Represents(slots[i], t.cells[i]))
    && Threaded(slots, head, if t.free != [] then t.free[1..] else [])
  }

  // ----- the free list as a walk through memory -----

  // Following the links, at most `fuel` of them.
  function Walk<T>(slots: seq<Slot<T>>, head: nat, fuel: nat): seq<nat>
    decreases fuel
  {
    if head >= |slots| || fuel == 0 then []
    else [head] + Walk(slots, slots[head].nextFree, fuel - 1)
  }

  // The free list in memory is finite, without repetition, ends at the sentinel and visits
  // exactly the unoccupied slots; walking longer than its length finds nothing more.
  lemma FreeListShape<T>(slots: seq<Slot<T>>, head: nat, t: Table<T>, fuel: nat)
    requires Inv(t) && Memory(slots, head, t.cells, t.free)
    requires fuel >= |t.free|
    ensures Walk(slots, head, fuel) == t.free
    ensures forall j, k :: 0 <= j < k < |t.free| ==> t.free[j] != t.free[k]
    ensures forall i :: 0 <= i < |slots| ==> (i in Walk(slots, head, fuel) <==> !slots[i].occupied)
    ensures LiveCount(t.cells) + |Walk(slots, head, fuel)| == |slots|
    ensures t.invalidated ==> Walk(slots, head, fuel) == Iota(|slots|)
  {
    hide Ledger, Settled, Conserved;
    WalkFrom(slots, t.free, 0, fuel);
    assert t.free[0..] == t.free;
    forall i | 0 <= i < |slots| ensures i in t.free <==> !slots[i].occupied {
      assert Represents(slots[i], t.cells[i]);
    }
  }

  lemma {:induction false} WalkFrom<T>(slots: seq<Slot<T>>, free: seq<nat>, k: nat, fuel: nat)
    requires |slots| <= UINT32_MAX && k <= |free| <= k + fuel
    requires forall j :: 0 <= j < |free| ==> free[j] < |slots| && slots[free[j]].nextFree == Link(free, j + 1)
    ensures Walk(slots, Link(free, k), fuel) == free[k..]
    decreases fuel
  {
    if k == |free| {
    } else {
      WalkFrom(slots, free, k + 1, fuel - 1);
      assert free[k..] == [free[k]] + free[k + 1..];
    }
  }

  // ----- what overwriting one slot does -----

  lemma HeadIsTop<T>(slots: seq<Slot<T>>, head: nat, t: Table<T>)
    requires Memory(slots, head, t.cells, t.free) && Shape(t.cells, t.free)
    ensures head != NO_SLOT <==> t.free != []
    ensures t.free != [] ==> head == t.free[0] < |slots|
  {
  }

  lemma Pop<T>(slots: seq<Slot<T>>, head: nat, t: Table<T>)
    requires Memory(slots, head, t.cells, t.free) && Shape(t.cells, t.free) && t.free != []
    ensures head < |slots|
    ensures Reserved(slots[head := slots[head].(nextFree := NO_SLOT)], slots[head].nextFree, t, head)
  {
    assert Represents(slots[head], t.cells[head]);
    ThreadPop(slots, head, t.free);
    hide Generation, Shape, Threaded;
  }

  lemma ThreadPop<T>(slots: seq<Slot<T>>, head: nat, free: seq<nat>)
    requires Threaded(slots, head, free) && free != []
    requires forall j, k :: 0 <= j < k < |free| ==> free[j] != free[k]
    ensures head < |slots|
    ensures Threaded(slots[head := slots[head].(nextFree := NO_SLOT)], slots[head].nextFree, free[1..])
  {
    var slots', free' := slots[head := slots[head].(nextFree := NO_SLOT)], free[1..];
    forall k | 0 <= k < |free'| ensures free'[k] < |slots'| && slots'[free'[k]].nextFree == Link(free', k + 1) {
      assert free'[k] == free[k + 1] != free[0];
    }
  }

  lemma Append<T>(slots: seq<Slot<T>>, head: nat, t: Table<T>, s: Slot<T>)
    requires Memory(slots, head, t.cells, t.free) && t.free == [] && s.generation == 1
    ensures Reserved(slots + [s], head, t, |slots|)
  {
    assert Generation(0) == 1;
  }

  lemma Fill<T>(slots: seq<Slot<T>>, head: nat, t: Table<T>, index: nat, e: Entry<T>)
    requires Reserved(slots, head, t, index) && Shape(t.cells, t.free)
    ensures var s := Slot(slots[index].generation, e.references, e.typeId, NO_SLOT, Some(e.token), true);
            Memory(slots[index := s], head, Put(t.cells, index, Cell(At(t.cells, index).resets, Some(e))),
                   if t.free != [] then t.free[1..] else [])
  {
  }

  lemma Recounts<T>(slots: seq<Slot<T>>, head: nat, t: Table<T>, i: nat, references: RefCount)
    requires Memory(slots, head, t.cells, t.free) && Shape(t.cells, t.free) && Occupied(t, i)
    ensures Memory(slots[i := slots[i].(references := references)], head,
                   t.cells[i := Recounted(t.cells[i], references)], t.free)
  {
    assert Represents(slots[i], t.cells[i]);
  }

  // What insert writes into the slot it reserved, and the table that slot then completes.
  lemma OccupyEffect<T>(slots: seq<Slot<T>>, head: nat, t: Table<T>, index: nat, typeId: nat, token: T)
    requires Inv(t) && Reserved(slots, head, t, index) && typeId != 0
    requires Insert(t, typeId, Some(token), true, true).status == Ok
    ensures index < |slots| && slots[index].generation != 0
    ensures var r := Insert(t, typeId, Some(token), true, true);
            && r.handle == Handle(index, slots[index].generation)
            && Inv(r.table) && r.table.invalidated == t.invalidated && r.table.hooked == t.hooked
            && Memory(slots[index := Slot(slots[index].generation, 1, typeId, NO_SLOT, Some(token), true)], head,
                      r.table.cells, r.table.free)
  {
    hide Inv, Memory, Shape;
    InvShape(t);
    InsertInv(t, typeId, Some(token), true, true);
    GenerationStep(At(t.cells, index).resets);
    hide Generation, NextGeneration;
    Fill(slots, head, t, index, Entry(token, typeId, 1));
  }

  // What nts_slot_reset makes of an occupied slot, given the free head.
  function ResetSlot<T>(s: Slot<T>, head: nat): Slot<T> {
    Slot(NextGeneration(s.generation), 0, 0, head, None, false)
  }

  // The reference count was already decremented to 0; the reset ignores it.
  lemma Empties<T>(slots: seq<Slot<T>>, head: nat, t: Table<T>, i: nat)
    requires Memory(slots, head, t.cells, t.free) && Shape(t.cells, t.free) && Occupied(t, i)
    ensures Memory(slots[i := ResetSlot(slots[i], head)], i,
                   t.cells[i := Cell(t.cells[i].resets + 1, None)], [i] + t.free)
  {
    hide Shape, Threaded, Generation, NextGeneration;
    NotFree(t.cells, t.free, i);
    assert Represents(slots[i], t.cells[i]);
    GenerationStep(t.cells[i].resets);
    assert Represents(ResetSlot(slots[i], head), Cell(t.cells[i].resets + 1, None));
    ThreadPush(slots, head, t.free, ResetSlot(slots[i], head), i);
  }

  lemma NotFree<T>(cells: seq<Cell<T>>, free: seq<nat>, i: nat)
    requires Shape(cells, free) && i < |cells| && cells[i].entry.Some?
    ensures i !in free
  {
  }

  lemma ThreadPush<T>(slots: seq<Slot<T>>, head: nat, free: seq<nat>, s: Slot<T>, i: nat)
    requires Threaded(slots, head, free) && i < |slots| && i !in free && s.nextFree == head
    ensures Threaded(slots[i := s], i, [i] + free)
  {
    var slots', free' := slots[i := s], [i] + free;
    forall k | 0 <= k < |free'| ensures free'[k] < |slots'| && slots'[free'[k]].nextFree == Link(free', k + 1) {
      if k > 0 { assert free'[k] == free[k - 1] && free[k - 1] in free; }
    }
  }

  // ----- what the counting operations write -----

  predicate SlotMatches<T>(slots: seq<Slot<T>>, h: Handle) {
    && h.generation != 0
    && h.slot < |slots|
    && slots[h.slot].occupied && slots[h.slot].generation == h.generation
  }

  lemma MatchesInMemory<T>(slots: seq<Slot<T>>, head: nat, t: Table<T>, h: Handle)
    requires Memory(slots, head, t.cells, t.free)
    ensures |slots| == |t.cells|
    ensures SlotMatches(slots, h) <==> Matches(t, h)
    ensures Matches(t, h) ==> Represents(slots[h.slot], t.cells[h.slot])
  {
    if h.slot < |slots| { assert Represents(slots[h.slot], t.cells[h.slot]); }
  }

  lemma SizeInMemory<T>(slots: seq<Slot<T>>, head: nat, t: Table<T>)
    requires Memory(slots, head, t.cells, t.free) && Inv(t)
    ensures |slots| == |t.cells| <= UINT32_MAX
  {
  }

  lemma OccupiedInMemory<T>(slots: seq<Slot<T>>, head: nat, t: Table<T>, i: nat)
    requires Memory(slots, head, t.cells, t.free) && i < |slots|
    ensures slots[i].occupied <==> Occupied(t, i)
    ensures Occupied(t, i) ==> slots[i].token == Some(t.cells[i].entry.value.token)
  {
    assert Represents(slots[i], t.cells[i]);
  }

  lemma ResetUpStep<T>(t: Table<T>, i: nat)
    requires i <= |t.cells|
    ensures i == |t.cells| ==> ResetUp(t, i) == t
    ensures i < |t.cells| && Occupied(t, i) ==>
              && ResetUp(t, i) == ResetUp(Reset(t, i), i + 1)
              && Reset(t, i).cells[i + 1..] == t.cells[i + 1..] && Reset(t, i).hooked == t.hooked
    ensures i < |t.cells| && !Occupied(t, i) ==> ResetUp(t, i) == ResetUp(t, i + 1)
  {
  }

  lemma ResetCalls<T>(t: Table<T>, i: nat)
    requires Occupied(t, i)
    ensures HookCalls(Reset(t, i).log) ==
            HookCalls(t.log) + if t.hooked then [t.cells[i].entry.value.token] else []
  {
    SnocTokens(t.log, Reset(t, i).log[|t.log|]);
  }

  // A matching handle names a slot in memory that represents its cell.
  lemma InMemory<T>(slots: seq<Slot<T>>, head: nat, t: Table<T>, h: Handle)
    requires Memory(slots, head, t.cells, t.free) && Matches(t, h)
    ensures h.slot < |slots| == |t.cells| && t.cells[h.slot].entry.Some?
    ensures slots[h.slot].references == t.cells[h.slot].entry.value.references
  {
    MatchesInMemory(slots, head, t, h);
  }

  lemma InvalidatedRefuses<T>(t: Table<T>, h: Handle, hook: Script<T>)
    ensures t.invalidated ==> Retain(t, h) == Outcome(t, ContextDestroyed, false)
    ensures t.invalidated ==> Release(t, h) == Outcome(t, ContextDestroyed, false)
    ensures t.invalidated ==> Step(t, OpRelease(h, hook)) == t
  {
  }

  lemma RetainRefused<T>(slots: seq<Slot<T>>, head: nat, t: Table<T>, h: Handle)
    requires Memory(slots, head, t.cells, t.free) && !t.invalidated
    ensures !SlotMatches(slots, h) ==> Retain(t, h) == Outcome(t, InvalidHandle, false)
    ensures SlotMatches(slots, h) && slots[h.slot].references == UINT32_MAX ==>
              Retain(t, h) == Outcome(t, OutOfMemory, false)
    ensures SlotMatches(slots, h) && slots[h.slot].references != UINT32_MAX ==>
              Matches(t, h) && slots[h.slot].references < UINT32_MAX
  {
    MatchesInMemory(slots, head, t, h);
    hide Memory;
  }

  lemma RetainEffect<T>(slots: seq<Slot<T>>, head: nat, t: Table<T>, h: Handle)
    requires Inv(t) && Memory(slots, head, t.cells, t.free) && !t.invalidated && Matches(t, h)
    requires slots[h.slot].references < UINT32_MAX
    ensures var o := Retain(t, h);
            && o.status == Ok && !o.fired && Inv(o.table)
            && o.table.invalidated == t.invalidated && o.table.hooked == t.hooked
            && Memory(slots[h.slot := slots[h.slot].(references := slots[h.slot].references + 1)], head,
                      o.table.cells, o.table.free)
  {
    hide Inv, Memory, Shape, Generation;
    RetainInv(t, h);
    InvShape(t);
    MatchesInMemory(slots, head, t, h);
    Recounts(slots, head, t, h.slot, t.cells[h.slot].entry.value.references + 1);
  }

  lemma ReleaseRefused<T>(slots: seq<Slot<T>>, head: nat, t: Table<T>, h: Handle, hook: Script<T>)
    requires Memory(slots, head, t.cells, t.free) && !t.invalidated
    ensures !SlotMatches(slots, h) ==> Step(t, OpRelease(h, hook)) == t
    ensures !SlotMatches(slots, h) ==> Release(t, h) == Outcome(t, InvalidHandle, false)
    ensures SlotMatches(slots, h) ==> Matches(t, h)
  {
    MatchesInMemory(slots, head, t, h);
    hide Memory;
  }

  lemma ReleaseEffect<T>(slots: seq<Slot<T>>, head: nat, t: Table<T>, h: Handle)
    requires Inv(t) && Memory(slots, head, t.cells, t.free) && !t.invalidated && Matches(t, h)
    ensures slots[h.slot].references > 0
    ensures var o := Release(t, h);
            var s := slots[h.slot].(references := slots[h.slot].references - 1);
            && o.status == Ok && Inv(o.table)
            && o.table.invalidated == t.invalidated && o.table.hooked == t.hooked
            && (s.references > 0 ==> !o.fired && Memory(slots[h.slot := s], head, o.table.cells, o.table.free))
            && (s.references == 0 ==>
                  && var counted := t.(log := t.log + [Released(KeyAt(t, h.slot))]);
                  && o.table == Reset(counted, h.slot) && o.fired == t.hooked
                  && Resettable(slots[h.slot := s], head, counted, h.slot))
  {
    hide Inv, Memory, Shape, Generation;
    ReleaseInv(t, h);
    InvShape(t);
    MatchesInMemory(slots, head, t, h);
    var e := t.cells[h.slot].entry.value;
    if e.references > 1 {
      Recounts(slots, head, t, h.slot, e.references - 1);
    } else {
      var s := slots[h.slot].(references := 0);
      assert slots[h.slot := s][h.slot := s.(references := 1)] == slots;
    }
  }

  // A slot whose last reference is gone but that is not reset yet: restoring the count of
  // the abstract cell would restore the representation.
  ghost predicate Resettable<T>(slots: seq<Slot<T>>, head: nat, t: Table<T>, i: nat) {
    && Occupied(t, i) && i < |slots| && slots[i].occupied
    && slots[i].token == Some(t.cells[i].entry.value.token)
    && Inv(Reset(t, i)) && Shape(t.cells, t.free)
    && Memory(slots[i := slots[i].(references := t.cells[i].entry.value.references)], head, t.cells, t.free)
  }

  // The abstract table once the hook has run after a reset.
  function AfterReset<T>(t: Table<T>, i: nat, hook: Script<T>): Table<T>
    requires Occupied(t, i)
  {
    if t.hooked then Run(Reset(t, i), hook) else Reset(t, i)
  }

  lemma EarlierReleaseStep<T>(t: Table<T>, h: Handle, hook: Script<T>)
    requires !t.invalidated && Matches(t, h) && t.cells[h.slot].entry.value.references > 1
    ensures Step(t, OpRelease(h, hook)) == Release(t, h).table && !Release(t, h).fired
  {
  }

  lemma LastReleaseStep<T>(t: Table<T>, h: Handle, hook: Script<T>)
    requires !t.invalidated && Matches(t, h) && t.cells[h.slot].entry.value.references == 1
    ensures Step(t, OpRelease(h, hook)) ==
            AfterReset(t.(log := t.log + [Released(KeyAt(t, h.slot))]), h.slot, hook)
  {
  }

  lemma ResetFacts<T>(slots: seq<Slot<T>>, head: nat, t: Table<T>, i: nat)
    requires Resettable(slots, head, t, i)
    ensures Occupied(t, i) && Inv(Reset(t, i))
    ensures i < |slots| && slots[i].occupied && slots[i].token == Some(t.cells[i].entry.value.token)
    ensures Reset(t, i).invalidated == t.invalidated && Reset(t, i).hooked == t.hooked
    ensures |Reset(t, i).cells| == |slots|
  {
  }

  lemma ResetEffect<T>(slots: seq<Slot<T>>, head: nat, t: Table<T>, i: nat)
    requires Resettable(slots, head, t, i)
    ensures Memory(slots[i := ResetSlot(slots[i], head)], i, Reset(t, i).cells, Reset(t, i).free)
    ensures HookCalls(Reset(t, i).log) == HookCalls(t.log) + if t.hooked then [slots[i].token.value] else []
  {
    hide Inv, Memory, Shape, HookCalls;
    var whole := slots[i := slots[i].(references := t.cells[i].entry.value.references)];
    SnocTokens(t.log, Reset(t, i).log[|t.log|]);
    Empties(whole, head, t, i);
    assert whole[i := ResetSlot(whole[i], head)] == slots[i := ResetSlot(slots[i], head)];
  }

  // ----- sweeping -----

  // Invalidation has worked its way down to i: below, the slots are as they were; from i
  // on they are empty and threaded in index order.
  ghost predicate SweptDownTo<T>(slots: seq<Slot<T>>, head: nat, t: Table<T>, i: nat) {
    && i <= |slots| == |t.cells| <= NO_SLOT
    && (forall j :: 0 <= j < |slots| ==> Represents(slots[j], t.cells[j]))
    && (forall j :: i <= j < |slots| ==> t.cells[j].entry.None?)
    && (forall j :: i <= j < |slots| ==> slots[j].nextFree == if j + 1 < |slots| then j + 1 else NO_SLOT)
    && head == if i < |slots| then i else NO_SLOT
  }

  lemma SweepOccupied<T>(slots: seq<Slot<T>>, head: nat, t: Table<T>, i: nat)
    requires SweptDownTo(slots, head, t, i + 1) && i < |slots| && slots[i].occupied
    ensures Occupied(t, i) && slots[i].token == Some(t.cells[i].entry.value.token)
    ensures SweptDownTo(slots[i := ResetSlot(slots[i], head)], i, Reset(t, i), i)
    ensures HookCalls(Reset(t, i).log) == HookCalls(t.log) + if t.hooked then [slots[i].token.value] else []
  {
    assert Represents(slots[i], t.cells[i]);
    GenerationStep(t.cells[i].resets);
    SnocTokens(t.log, Reset(t, i).log[|t.log|]);
    hide Generation, NextGeneration;
    assert Represents(ResetSlot(slots[i], head), Cell(t.cells[i].resets + 1, None));
  }

  lemma SweepFree<T>(slots: seq<Slot<T>>, head: nat, t: Table<T>, i: nat)
    requires SweptDownTo(slots, head, t, i + 1) && i < |slots| && !slots[i].occupied
    ensures !Occupied(t, i)
    ensures SweptDownTo(slots[i := slots[i].(nextFree := head)], i, t, i)
  {
    assert Represents(slots[i], t.cells[i]);
  }

  lemma SweepStart<T>(slots: seq<Slot<T>>, head: nat, t: Table<T>)
    requires Memory(slots, head, t.cells, t.free) && Inv(t)
    ensures SweptDownTo(slots, NO_SLOT, t, |slots|)
  {
  }

  lemma SweepEnd<T>(slots: seq<Slot<T>>, head: nat, t: Table<T>, d: Table<T>)
    requires Inv(t) && !t.invalidated && d == ResetDown(t, |t.cells|)
    requires SweptDownTo(slots, head, d, 0)
    ensures var t' := Invalidate(t);
            && Inv(t') && t'.invalidated && t'.hooked == t.hooked && t'.log == d.log
            && Memory(slots, head, t'.cells, t'.free)
  {
    hide Inv, ResetDown, Represents, HookCalls;
    InvalidateInv(t);
    ResetDownExtends(t, |t.cells|);
    assert Invalidate(t) == d.(invalidated := true, free := Iota(|t.cells|));
    ThreadIota(slots, head);
  }

  lemma ThreadIota<T>(slots: seq<Slot<T>>, head: nat)
    requires |slots| <= NO_SLOT && head == if |slots| > 0 then 0 else NO_SLOT
    requires forall j :: 0 <= j < |slots| ==> slots[j].nextFree == if j + 1 < |slots| then j + 1 else NO_SLOT
    ensures Threaded(slots, head, Iota(|slots|))
  {
    assert |Iota(|slots|)| == |slots|;
  }

  // ----- hook calls -----

  // Inserting and retaining never call the hook.
  lemma InsertIsQuiet<T>(t: Table<T>, typeId: nat, token: Option<T>, hasOut: bool, alloc: bool)
    ensures HookCalls(Insert(t, typeId, token, hasOut, alloc).table.log) == HookCalls(t.log)
  {
    var r := Insert(t, typeId, token, hasOut, alloc);
    if r.status == Ok { SnocTokens(t.log, r.table.log[|t.log|]); }
  }

  lemma RetainIsQuiet<T>(t: Table<T>, h: Handle)
    ensures HookCalls(Retain(t, h).table.log) == HookCalls(t.log)
  {
    if Retain(t, h).status == Ok { SnocTokens(t.log, Retained(KeyAt(t, h.slot))); }
  }

  // A release that leaves references does not call it, and logging it does not count.
  lemma ReleaseCalls<T>(t: Table<T>, h: Handle)
    requires Matches(t, h) && !t.invalidated
    ensures HookCalls(t.log + [Released(KeyAt(t, h.slot))]) == HookCalls(t.log)
    ensures !Release(t, h).fired && t.cells[h.slot].entry.value.references > 1 ==>
              HookCalls(Release(t, h).table.log) == HookCalls(t.log)
  {
    SnocTokens(t.log, Released(KeyAt(t, h.slot)));
  }
}
