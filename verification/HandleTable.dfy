/** The handle table of src/runtime/nts_handle_table.c: slots in an array, reusable slots
    threaded through `nextFree`, everything updated in place. Each method is proved to do
    to the memory what TableSpec says about the abstract table, with the destroy hook
    running where the C code calls it. */
module HandleTables {
  import opened Abi
  import opened TableSpec
  import opened TableInvariant
  import opened TableTheorems
  import opened HandleMemory

  class HandleTable<T> {
    var slots: array<Slot<T>>
    var slotCount: nat
    var capacity: nat
    var freeHead: nat
    var invalidated: bool
    // The hooks: whether there is a destroy hook, and the subtype test if there is one.
    var destroyHook: bool
    var accepts: Accepts

    ghost var state: Table<T>

    // Everything but the invariant of the abstract table.
    ghost predicate Holds()
      reads this, slots
    {
      && slotCount <= capacity == slots.Length == CapacityFor(slotCount)
      && invalidated == state.invalidated
      && destroyHook == state.hooked
      && Memory(slots[..slotCount], freeHead, state.cells, state.free)
    }

    ghost predicate Valid()
      reads this, slots
    {
      Holds() && Inv(state)
    }

    // A zeroed structure, as before init and after destroy.
    ghost predicate Zeroed()
      reads this, slots
    {
      && slots.Length == slotCount == capacity == 0
      && freeHead == NO_SLOT
      && !invalidated && !destroyHook && accepts == None
    }

    constructor ()
      ensures Zeroed() && fresh(slots)
    {
      slots := new Slot<T>[0];
      slotCount, capacity := 0, 0;
      freeHead := NO_SLOT;
      invalidated, destroyHook, accepts := false, false, None;
      state := Empty(false);
    }

    method Init(destroyHook: bool, accepts: Accepts)
      requires Zeroed()
      modifies this
      ensures Valid() && slots == old(slots)
      ensures state == Empty(destroyHook) && this.accepts == accepts
    {
      this.destroyHook := destroyHook;
      this.accepts := accepts;
      state := Empty(destroyHook);
      EmptyInv<T>(destroyHook);
      assert CapacityFor(0) == 0;
    }

    // Facts for clients that read the fields, as the node registry does.
    lemma Flags()
      requires Valid()
      ensures invalidated == state.invalidated && destroyHook == state.hooked
    {
    }

    lemma Size()
      requires Valid()
      ensures slotCount == |state.cells| <= slots.Length
    {
    }

    lemma SlotAt(i: nat)
      requires Valid() && i < slotCount
      ensures i < slots.Length && i < |state.cells|
      ensures slots[i].occupied == state.cells[i].entry.Some?
      ensures slots[i].occupied ==> slots[i].token == Some(state.cells[i].entry.value.token)
      ensures Handle(i, slots[i].generation) == HandleAt(state, i)
    {
      hide Inv, CapacityFor;
      assert Represents(slots[..slotCount][i], state.cells[i]);
    }

    // realloc to the next capacity; `alloc` is its outcome.
    method Grow(alloc: bool) returns (ok: bool)
      requires slotCount == capacity == slots.Length == CapacityFor(slotCount) < UINT32_MAX
      modifies this`slots, this`capacity
      ensures ok == alloc
      ensures !ok ==> slots == old(slots) && capacity == old(capacity)
      ensures ok ==> fresh(slots) && slots.Length == capacity == CapacityFor(slotCount + 1)
      ensures ok ==> slots[..slotCount] == old(slots[..slotCount]) && slotCount < capacity
      ensures ok ==> forall k :: old(capacity) <= k < capacity ==> slots[k] == Slot(0, 0, 0, 0, None, false)
    {
      hide GrownCapacity, CapacityFor;
      GrowthIsDoubling(slotCount);
      var newCapacity := GrownCapacity(capacity, SIZE_MODULUS_64);
      if newCapacity.None? || !alloc { return false; }
      var grown := new Slot<T>[newCapacity.value](_ => Slot(0, 0, 0, 0, None, false));
      for k := 0 to capacity
        invariant slots == old(slots) && capacity == old(capacity) && slots[..] == old(slots[..])
        invariant grown[..k] == slots[..k]
        invariant forall j :: capacity <= j < grown.Length ==> grown[j] == Slot(0, 0, 0, 0, None, false)
      {
        grown[k] := slots[k];
      }
      slots := grown;
      capacity := newCapacity.value;
      ok := true;
    }

    // A new index at the end, growing the array if it is full.
    method ReserveFresh(alloc: bool) returns (ok: bool, index: nat)
      requires Valid() && !invalidated && state.free == []
      modifies this`slots, this`capacity, this`slotCount, slots
      ensures slots == old(slots) || fresh(slots)
      ensures ok == CanReserve(state, alloc)
      ensures !ok ==> Valid()
      ensures ok ==> slotCount <= capacity == slots.Length == CapacityFor(slotCount)
      ensures ok ==> Reserved(slots[..slotCount], freeHead, state, index)
    {
      hide Inv, CapacityFor, Memory, Reserved, Shape, Generation;
      InvShape(state);
      SizeInMemory(slots[..slotCount], freeHead, state);
      GrowthIsDoublingUpTo(slotCount);
      ghost var before := slots[..slotCount];
      if slotCount >= UINT32_MAX { return false, 0; }
      if slotCount == capacity {
        ok := Grow(alloc);
        if !ok { return false, 0; }
      }
      index := slotCount;
      slotCount := slotCount + 1;
      slots[index] := slots[index].(generation := 1, nextFree := NO_SLOT);
      Append(before, freeHead, state, slots[index]);
      assert slots[..slotCount] == before + [slots[index]];
      ok := true;
    }

    method ReserveSlot(alloc: bool) returns (ok: bool, index: nat)
      requires Valid() && !invalidated
      modifies this, slots
      ensures slots == old(slots) || fresh(slots)
      ensures state == old(state) && invalidated == old(invalidated)
      ensures destroyHook == old(destroyHook) && accepts == old(accepts)
      ensures ok == CanReserve(state, alloc)
      ensures !ok ==> Valid()
      ensures ok ==> slotCount <= capacity == slots.Length == CapacityFor(slotCount)
      ensures ok ==> Reserved(slots[..slotCount], freeHead, state, index)
    {
      hide Inv, CapacityFor, Memory, Reserved, Shape, Generation;
      InvShape(state);
      HeadIsTop(slots[..slotCount], freeHead, state);
      ghost var before := slots[..slotCount];
      if freeHead != NO_SLOT {
        Pop(before, freeHead, state);
        index := freeHead;
        freeHead := slots[index].nextFree;
        slots[index] := slots[index].(nextFree := NO_SLOT);
        assert slots[..slotCount] == before[index := before[index].(nextFree := NO_SLOT)];
        return true, index;
      }
      ok, index := ReserveFresh(alloc);
    }

    // The second half of insert: fill the reserved slot.
    method Occupy(index: nat, typeId: nat, token: T) returns (handle: Handle)
      requires invalidated == state.invalidated == false && destroyHook == state.hooked
      requires slotCount <= capacity == slots.Length == CapacityFor(slotCount)
      requires Reserved(slots[..slotCount], freeHead, state, index)
      requires Inv(state) && typeId != 0
      requires TableSpec.Insert(state, typeId, Some(token), true, true).status == Ok
      modifies this`state, slots
      ensures Valid()
      ensures Inserted(state, Ok, handle) == TableSpec.Insert(old(state), typeId, Some(token), true, true)
    {
      hide Inv, Memory, Reserved, CapacityFor, TableSpec.Insert, Generation, Shape;
      OccupyEffect(slots[..slotCount], freeHead, state, index, typeId, token);
      ghost var reserved := slots[..slotCount];
      var generation := if slots[index].generation == 0 then 1 else slots[index].generation;
      slots[index] := Slot(generation, 1, typeId, NO_SLOT, Some(token), true);
      assert slots[..slotCount] == reserved[index := slots[index]];
      handle := Handle(index, generation);
      state := TableSpec.Insert(state, typeId, Some(token), true, true).table;
    }

    // A refusal changes nothing. Otherwise the table and the handle are those of the
    // specification.
    method Insert(typeId: nat, token: Option<T>, hasOut: bool, alloc: bool) returns (status: Status, handle: Handle)
      requires invalidated || Valid()
      modifies this, slots
      ensures slots == old(slots) || fresh(slots)
      ensures destroyHook == old(destroyHook) && accepts == old(accepts)
      ensures old(invalidated) ==>
                && unchanged(this) && unchanged(slots) && handle == NULL_HANDLE
                && status == if hasOut && token.Some? && typeId != 0 then ContextDestroyed else InvalidArgument
      ensures old(Valid()) ==>
                Valid() && Inserted(state, status, handle) == TableSpec.Insert(old(state), typeId, token, hasOut, alloc)
    {
      hide Inv, CapacityFor, Memory, Reserved, Generation;
      handle := NULL_HANDLE;
      if !hasOut || token.None? || typeId == 0 { return InvalidArgument, handle; }
      if invalidated { return ContextDestroyed, handle; }
      var ok, index := ReserveSlot(alloc);
      if !ok { return OutOfMemory, handle; }
      handle := Occupy(index, typeId, token.value);
      status := Ok;
    }

    predicate HandleSlotMatches(h: Handle): (m: bool)
      requires slotCount <= slots.Length
      reads this, slots
      ensures m == SlotMatches(slots[..slotCount], h)
      ensures m ==> h.slot < slotCount
    {
      h.generation != 0 && h.slot < slotCount && slots[h.slot].occupied && slots[h.slot].generation == h.generation
    }

    // Write a reference count; `t` is the abstract table from here on.
    method SetReferences(index: nat, references: nat, ghost t: Table<T>)
      requires index < slotCount <= slots.Length
      modifies slots, this`state
      ensures slots[..slotCount] == old(slots[..slotCount])[index := old(slots[index]).(references := references)]
      ensures state == t
    {
      slots[index] := slots[index].(references := references);
      state := t;
    }

    method Retain(h: Handle) returns (status: Status)
      requires invalidated || Valid()
      modifies slots, this`state
      ensures old(invalidated) ==> unchanged(this) && unchanged(slots) && status == ContextDestroyed
      ensures old(Valid()) ==>
                && Valid()
                && state == TableSpec.Retain(old(state), h).table
                && status == TableSpec.Retain(old(state), h).status
    {
      hide Inv, Memory, CapacityFor, TableSpec.Retain, Matches, SlotMatches;
      InvalidatedRefuses(state, h, Done);
      if invalidated { return ContextDestroyed; }
      RetainRefused(slots[..slotCount], freeHead, state, h);
      var matches := HandleSlotMatches(h);
      assert matches ==> slots[..slotCount][h.slot] == slots[h.slot];
      hide Valid, Holds, HandleSlotMatches;
      if !matches { return InvalidHandle; }
      if slots[h.slot].references == UINT32_MAX { return OutOfMemory; }
      RetainMatching(h);
      status := Ok;
    }

    method RetainMatching(h: Handle)
      requires Valid() && !invalidated && Matches(state, h)
      requires h.slot < slots.Length && slots[h.slot].references < UINT32_MAX
      modifies slots, this`state
      ensures Valid()
      ensures TableSpec.Retain(old(state), h) == Outcome(state, Ok, false)
    {
      hide Inv, Memory, CapacityFor, TableSpec.Retain, Matches, Generation;
      InMemory(slots[..slotCount], freeHead, state, h);
      assert slots[..slotCount][h.slot] == slots[h.slot];
      RetainEffect(slots[..slotCount], freeHead, state, h);
      SetReferences(h.slot, slots[h.slot].references + 1, TableSpec.Retain(state, h).table);
    }

    // Take an occupied slot out of use and put it on top of the free list.
    method Vacate(index: nat) returns (token: Option<T>)
      requires index < slotCount <= slots.Length && slots[index].occupied
      modifies slots, this`freeHead
      ensures freeHead == index && token == old(slots[index].token)
      ensures slots[..slotCount] == old(slots[..slotCount])[index := ResetSlot(old(slots[index]), old(freeHead))]
    {
      token := slots[index].token;
      var generation := NextGeneration(slots[index].generation);
      slots[index] := Slot(generation, 0, 0, freeHead, None, false);
      freeHead := index;
    }

    // The slot that lost its last reference leaves the live table; the table is valid again.
    method VacateReleased(index: nat) returns (token: T)
      requires index < slotCount <= capacity == slots.Length == CapacityFor(slotCount)
      requires !invalidated && !state.invalidated && destroyHook == state.hooked
      requires Resettable(slots[..slotCount], freeHead, state, index)
      modifies slots, this`freeHead, this`state
      ensures Valid()
      ensures state == Reset(old(state), index) && token == old(state).cells[index].entry.value.token
      ensures HookCalls(state.log) == HookCalls(old(state).log) + if destroyHook then [token] else []
    {
      hide Memory, CapacityFor, Inv, Reset, HookCalls, Resettable, ResetSlot, Occupied;
      ResetFacts(slots[..slotCount], freeHead, state, index);
      ResetEffect(slots[..slotCount], freeHead, state, index);
      assert slots[..slotCount][index] == slots[index];
      var found := Vacate(index);
      token := found.value;
      state := Reset(state, index);
    }

    // nts_slot_reset as called by a release: the hook then runs on a valid table.
    method SlotReset(index: nat, hook: Script<T>) returns (calls: seq<T>)
      requires index < slotCount <= capacity == slots.Length == CapacityFor(slotCount)
      requires !invalidated && !state.invalidated && destroyHook == state.hooked
      requires Resettable(slots[..slotCount], freeHead, state, index)
      modifies this, slots
      ensures slots == old(slots) || fresh(slots)
      ensures destroyHook == old(destroyHook) && accepts == old(accepts)
      ensures Valid()
      ensures state == AfterReset(old(state), index, hook)
      ensures HookCalls(state.log) == HookCalls(old(state).log) + calls
      decreases hook, 2
    {
      hide Memory, CapacityFor, Inv, Reset, Run, HookCalls, Valid, Holds;
      calls := [];
      var token := VacateReleased(index);
      if destroyHook {
        calls := RunHook(hook);
        calls := [token] + calls;
      }
    }

    // nts_slot_reset as called by an invalidation: the hook can change nothing.
    method SlotSweep(index: nat, hook: Script<T>) returns (calls: seq<T>)
      requires index < slotCount <= slots.Length && slots[index].occupied && invalidated
      modifies this, slots
      ensures unchanged(this`slots) && unchanged(this`slotCount) && unchanged(this`capacity) && unchanged(this`state)
      ensures unchanged(this`destroyHook) && unchanged(this`accepts) && invalidated
      ensures freeHead == index
      ensures slots[..slotCount] == old(slots[..slotCount])[index := ResetSlot(old(slots[index]), old(freeHead))]
      ensures calls == if destroyHook && old(slots[index].token).Some? then [old(slots[index].token).value] else []
      decreases hook, 2
    {
      hide ResetSlot;
      calls := [];
      var token := Vacate(index);
      if destroyHook && token.Some? {
        calls := RunHook(hook);
        calls := [token.value] + calls;
      }
    }

    // One call of the destroy hook: it does to this table whatever its script says.
    method RunHook(script: Script<T>) returns (calls: seq<T>)
      requires invalidated || Valid()
      modifies this, slots
      ensures slots == old(slots) || fresh(slots)
      ensures destroyHook == old(destroyHook) && accepts == old(accepts)
      ensures old(invalidated) ==> unchanged(this) && unchanged(slots) && calls == []
      ensures old(Valid()) ==>
                && Valid()
                && state == Run(old(state), script)
                && HookCalls(state.log) == HookCalls(old(state).log) + calls
      decreases script, 0
    {
      hide Memory, CapacityFor, Inv, TableSpec.Insert, TableSpec.Retain, TableSpec.Release;
      calls := [];
      if script.Then? {
        calls := RunOp(script.op);
        var more := RunHook(script.rest);
        calls := calls + more;
      }
    }

    method RunOp(op: Op<T>) returns (calls: seq<T>)
      requires invalidated || Valid()
      modifies this, slots
      ensures slots == old(slots) || fresh(slots)
      ensures destroyHook == old(destroyHook) && accepts == old(accepts)
      ensures old(invalidated) ==> unchanged(this) && unchanged(slots) && calls == []
      ensures old(Valid()) ==>
                && Valid()
                && state == Step(old(state), op)
                && HookCalls(state.log) == HookCalls(old(state).log) + calls
      decreases op
    {
      hide Memory, CapacityFor, Inv, TableSpec.Insert, TableSpec.Retain, TableSpec.Release, HookCalls, Valid, Holds;
      calls := [];
      match op
      case OpInsert(typeId, token, hasOut, alloc) =>
        InsertIsQuiet(state, typeId, token, hasOut, alloc);
        var status, handle := Insert(typeId, token, hasOut, alloc);
      case OpRetain(h) =>
        RetainIsQuiet(state, h);
        var status := Retain(h);
      case OpRelease(h, hook) =>
        var status;
        status, calls := Release(h, hook);
      case OpResolve(h, expected, hasOut) =>
        var status, token, actual := Resolve(h, expected, hasOut);
      case OpInvalidate(hooks) =>
        calls := Invalidate(hooks);
    }

    method Release(h: Handle, hook: Script<T>) returns (status: Status, calls: seq<T>)
      requires invalidated || Valid()
      modifies this, slots
      ensures slots == old(slots) || fresh(slots)
      ensures destroyHook == old(destroyHook) && accepts == old(accepts)
      ensures old(invalidated) ==> unchanged(this) && unchanged(slots) && status == ContextDestroyed && calls == []
      ensures old(Valid()) ==>
                && Valid()
                && state == Step(old(state), OpRelease(h, hook))
                && status == TableSpec.Release(old(state), h).status
                && HookCalls(state.log) == HookCalls(old(state).log) + calls
      decreases hook, 4
    {
      hide Inv, Memory, CapacityFor, TableSpec.Release, Matches, SlotMatches, HookCalls, Step;
      calls := [];
      InvalidatedRefuses(state, h, hook);
      if invalidated { return ContextDestroyed, calls; }
      ReleaseRefused(slots[..slotCount], freeHead, state, h, hook);
      var matches := HandleSlotMatches(h);
      assert matches ==> slots[..slotCount][h.slot] == slots[h.slot];
      hide Valid, Holds, HandleSlotMatches;
      if !matches { return InvalidHandle, calls; }
      status := Ok;
      if slots[h.slot].references == 1 {
        calls := ReleaseLast(h, hook);
      } else {
        ReleaseEarlier(h, hook);
      }
    }

    method ReleaseEarlier(h: Handle, ghost hook: Script<T>)
      requires Valid() && !invalidated && Matches(state, h)
      requires h.slot < slots.Length && slots[h.slot].references != 1
      modifies slots, this`state
      ensures Valid()
      ensures state == Step(old(state), OpRelease(h, hook)) && TableSpec.Release(old(state), h).status == Ok
      ensures HookCalls(state.log) == HookCalls(old(state).log) + []
    {
      hide Inv, Memory, CapacityFor, TableSpec.Release, Matches, HookCalls, Resettable, Generation, Step;
      InMemory(slots[..slotCount], freeHead, state, h);
      assert slots[..slotCount][h.slot] == slots[h.slot];
      ReleaseEffect(slots[..slotCount], freeHead, state, h);
      ReleaseCalls(state, h);
      EarlierReleaseStep(state, h, hook);
      SetReferences(h.slot, slots[h.slot].references - 1, TableSpec.Release(state, h).table);
    }

    // The release that takes the count to zero.
    method ReleaseLast(h: Handle, hook: Script<T>) returns (calls: seq<T>)
      requires Valid() && !invalidated && Matches(state, h)
      requires h.slot < slots.Length && slots[h.slot].references == 1
      modifies this, slots
      ensures TableSpec.Release(old(state), h).status == Ok
      ensures slots == old(slots) || fresh(slots)
      ensures destroyHook == old(destroyHook) && accepts == old(accepts)
      ensures Valid()
      ensures state == Step(old(state), OpRelease(h, hook))
      ensures HookCalls(state.log) == HookCalls(old(state).log) + calls
      decreases hook, 3
    {
      hide Inv, Memory, CapacityFor, TableSpec.Release, Matches, HookCalls, Resettable, AfterReset, Step;
      InMemory(slots[..slotCount], freeHead, state, h);
      assert slots[..slotCount][h.slot] == slots[h.slot];
      ReleaseEffect(slots[..slotCount], freeHead, state, h);
      ReleaseCalls(state, h);
      LastReleaseStep(state, h, hook);
      ghost var counted := state.(log := state.log + [Released(KeyAt(state, h.slot))]);
      SetReferences(h.slot, slots[h.slot].references - 1, counted);
      calls := SlotReset(h.slot, hook);
    }

    method Resolve(h: Handle, expected: nat, hasOut: bool) returns (status: Status, token: Option<T>, actual: nat)
      requires invalidated || Valid()
      ensures old(Valid()) ==>
                var r := TableSpec.Resolve(state, accepts, h, expected, hasOut);
                && status == r.status
                && (status == Ok ==> token == Some(r.entry.value.token) && actual == r.entry.value.typeId)
      ensures invalidated ==> status == if hasOut then ContextDestroyed else InvalidArgument
      ensures status != Ok ==> token == None
    {
      token, actual := None, 0;
      if !hasOut { return InvalidArgument, token, actual; }
      if invalidated { return ContextDestroyed, token, actual; }
      MatchesInMemory(slots[..slotCount], freeHead, state, h);
      var matches := HandleSlotMatches(h);
      if !matches { return InvalidHandle, token, actual; }
      if expected != 0 && slots[h.slot].typeId != expected {
        if accepts.None? || !accepts.value(slots[h.slot].typeId, expected) {
          return InvalidHandle, token, actual;
        }
      }
      return Ok, slots[h.slot].token, slots[h.slot].typeId;
    }

    // One round of the invalidation loop, at index.
    method SweepOne(index: nat, hook: Script<T>, ghost t: Table<T>) returns (calls: seq<T>, ghost t': Table<T>)
      requires index < slotCount <= slots.Length && invalidated && t.hooked == destroyHook
      requires SweptDownTo(slots[..slotCount], freeHead, t, index + 1)
      modifies this, slots
      ensures unchanged(this`slots) && unchanged(this`slotCount) && unchanged(this`capacity) && unchanged(this`state)
      ensures unchanged(this`destroyHook) && unchanged(this`accepts) && invalidated
      ensures SweptDownTo(slots[..slotCount], freeHead, t', index)
      ensures t' == if Occupied(t, index) then Reset(t, index) else t
      ensures HookCalls(t'.log) == HookCalls(t.log) + calls
      decreases hook, 3
    {
      calls, t' := [], t;
      if slots[index].occupied {
        SweepOccupied(slots[..slotCount], freeHead, t, index);
        hide SweptDownTo, HookCalls;
        calls := SlotSweep(index, hook);
        t' := Reset(t, index);
      } else {
        SweepFree(slots[..slotCount], freeHead, t, index);
        hide SweptDownTo, HookCalls;
        ghost var before := slots[..slotCount];
        slots[index] := slots[index].(nextFree := freeHead);
        freeHead := index;
        assert slots[..slotCount] == before[index := slots[index]];
      }
    }

    method Invalidate(hooks: HookScripts<T>) returns (calls: seq<T>)
      requires invalidated || Valid()
      modifies this, slots
      ensures slots == old(slots)
      ensures destroyHook == old(destroyHook) && accepts == old(accepts)
      ensures old(invalidated) ==> unchanged(this) && unchanged(slots) && calls == []
      ensures old(Valid()) ==>
                && Valid()
                && state == TableSpec.Invalidate(old(state))
                && HookCalls(state.log) == HookCalls(old(state).log) + calls
      decreases hooks
    {
      calls := [];
      if invalidated { return; }
      calls := Sweep(hooks);
    }

    // The invalidation loop: every slot, from the highest index down.
    method SweepAll(hooks: HookScripts<T>) returns (calls: seq<T>, ghost t: Table<T>)
      requires slotCount <= slots.Length && invalidated && destroyHook == state.hooked && |state.cells| == slotCount
      requires SweptDownTo(slots[..slotCount], freeHead, state, slotCount)
      modifies this, slots
      ensures unchanged(this`slots) && unchanged(this`slotCount) && unchanged(this`capacity) && unchanged(this`state)
      ensures unchanged(this`destroyHook) && unchanged(this`accepts) && invalidated
      ensures t == ResetDown(state, slotCount)
      ensures SweptDownTo(slots[..slotCount], freeHead, t, 0)
      ensures HookCalls(t.log) == HookCalls(state.log) + calls
      decreases hooks, 0
    {
      hide SweptDownTo, HookCalls;
      calls, t := [], state;
      var i: nat := slotCount;
      while i > 0
        invariant i <= slotCount
        invariant unchanged(this`slots) && unchanged(this`slotCount) && unchanged(this`capacity)
        invariant unchanged(this`state)
        invariant unchanged(this`destroyHook) && unchanged(this`accepts) && invalidated
        invariant SweptDownTo(slots[..slotCount], freeHead, t, i)
        invariant t.hooked == destroyHook && |t.cells| == slotCount
        invariant ResetDown(t, i) == ResetDown(state, slotCount)
        invariant HookCalls(t.log) == HookCalls(state.log) + calls
      {
        var called;
        called, t := SweepOne(i - 1, hooks.At(|calls|), t);
        calls := calls + called;
        i := i - 1;
      }
    }

    method Sweep(hooks: HookScripts<T>) returns (calls: seq<T>)
      requires Valid() && !invalidated
      modifies this, slots
      ensures slots == old(slots)
      ensures destroyHook == old(destroyHook) && accepts == old(accepts)
      ensures Valid()
      ensures state == TableSpec.Invalidate(old(state))
      ensures HookCalls(state.log) == HookCalls(old(state).log) + calls
      decreases hooks, 1
    {
      hide Inv, Memory, CapacityFor, SweptDownTo, HookCalls, TableSpec.Invalidate, ResetDown;
      SweepStart(slots[..slotCount], freeHead, state);
      assert |state.cells| == slotCount;
      invalidated := true;
      freeHead := NO_SLOT;
      ghost var t;
      calls, t := SweepAll(hooks);
      SweepEnd(slots[..slotCount], freeHead, state, t);
      state := TableSpec.Invalidate(state);
    }

    method LiveCount() returns (live: nat)
      requires Valid()
      ensures live == TableSpec.LiveCount(state.cells)
    {
      hide Inv, Memory, CapacityFor;
      live := 0;
      SizeInMemory(slots[..slotCount], freeHead, state);
      for i := 0 to slotCount
        invariant live == TableSpec.LiveCount(state.cells[..i])
      {
        OccupiedInMemory(slots[..slotCount], freeHead, state, i);
        assert state.cells[..i + 1][..i] == state.cells[..i];
        if slots[i].occupied { live := live + 1; }
      }
      assert state.cells[..slotCount] == state.cells;
    }

    // Hands every live token to the hook, in index order, and zeroes the structure. The
    // hook must not come back to the table here: the slots are still occupied.
    method Destroy() returns (calls: seq<T>)
      requires Valid()
      modifies this
      ensures Zeroed() && fresh(slots)
      ensures state == TableSpec.Destroy(old(state))
      ensures HookCalls(state.log) == HookCalls(old(state).log) + calls
    {
      hide Inv, Memory, CapacityFor, HookCalls, ResetUp, Reset;
      calls := [];
      SizeInMemory(slots[..slotCount], freeHead, state);
      ghost var t := state;
      for i := 0 to slotCount
        invariant unchanged(this)
        invariant destroyHook == t.hooked && |t.cells| == slotCount
        invariant ResetUp(t, i) == ResetUp(state, 0)
        invariant t.cells[i..] == state.cells[i..]
        invariant HookCalls(t.log) == HookCalls(state.log) + calls
      {
        OccupiedInMemory(slots[..slotCount], freeHead, state, i);
        ResetUpStep(t, i);
        assert t.cells[i] == t.cells[i..][0] == state.cells[i];
        if slots[i].occupied {
          ResetCalls(t, i);
          var token := slots[i].token;
          if token.Some? && destroyHook { calls := calls + [token.value]; }
          t := Reset(t, i);
        }
      }
      ResetUpStep(t, slotCount);
      slots := new Slot<T>[0];
      slotCount, capacity, freeHead := 0, 0, NO_SLOT;
      invalidated, destroyHook, accepts := false, false, None;
      state := TableSpec.Destroy(state);
    }
  }
}
