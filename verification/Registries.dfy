/** The node registry and the subscription registry, as classes over the handle table.
    Every method is proved against the function of Bridge that specifies it, so the laws and
    the theorems about whole runs speak about these methods.

    The destroy hooks of the registries touch Blink but never the table, so their effects
    are applied right after the table call that makes them, in the order of the calls. */
module Registries {
  import opened Abi
  import opened Heaps
  import opened TableSpec
  import opened TableInvariant
  import opened HandleTables
  import opened TableLaws
  import opened WebTypes
  import opened Doms
  import opened Bridge
  import opened RegistryLaws

  // Blink, as the bridge sees it, and the heap the registries allocate their roots on.
  class Page {
    var b: Blink
    var roots: Roots

    constructor (b: Blink)
      ensures this.b == b && roots == FreshHeap()
    {
      this.b := b;
      roots := FreshHeap();
    }
  }

  // ----- hook calls of a table whose hook does not come back -----

  lemma CancelPrefix<T>(a: seq<T>, x: seq<T>, y: seq<T>)
    requires a + x == a + y
    ensures x == y
  {
    assert x == (a + x)[|a|..] == (a + y)[|a|..] == y;
  }

  lemma ReleaseHook<T>(t: Table<T>, h: Handle, calls: seq<T>)
    requires HookCalls(Step(t, OpRelease(h, Done)).log) == HookCalls(t.log) + calls
    ensures Step(t, OpRelease(h, Done)) == Release(t, h).table
    ensures Release(t, h).fired ==> Matches(t, h)
    ensures calls == if Release(t, h).fired then [t.cells[h.slot].entry.value.token] else []
  {
    var o := Release(t, h);
    assert Run(o.table, Done) == o.table;
    var fired := if o.fired then [t.cells[h.slot].entry.value.token] else [];
    if o.status == Ok {
      var counted := t.(log := t.log + [TableSpec.Released(KeyAt(t, h.slot))]);
      SnocTokens(t.log, TableSpec.Released(KeyAt(t, h.slot)));
      if t.cells[h.slot].entry.value.references == 1 { ResetParts(counted, h.slot); }
    }
    assert HookCalls(o.table.log) == HookCalls(t.log) + fired;
    CancelPrefix(HookCalls(t.log), calls, fired);
  }

  lemma InvalidateHook<T>(t: Table<T>, calls: seq<T>)
    requires HookCalls(Invalidate(t).log) == HookCalls(t.log) + calls
    ensures calls == InvalidationCalls(t)
  {
    SweepCalls(t);
    hide InvalidationCalls, Invalidate, HookCalls;
    CancelPrefix(HookCalls(t.log), calls, InvalidationCalls(t));
  }

  lemma DestroyHook<T>(t: Table<T>, calls: seq<T>)
    requires HookCalls(Destroy(t).log) == HookCalls(t.log) + calls
    ensures calls == DestroyCalls(t)
  {
    SweepCalls(t);
    hide DestroyCalls, Destroy, HookCalls;
    CancelPrefix(HookCalls(t.log), calls, DestroyCalls(t));
  }

  class NodeRegistry {
    const table: HandleTable<NodePointer>

    ghost predicate Valid()
      reads this, table, table.slots
    {
      table.Valid() && table.accepts == Some(TypeAccepts)
    }

    constructor ()
      ensures Valid() && fresh(table) && fresh(table.slots)
      ensures table.state == Empty(true)
    {
      table := new HandleTable();
      new;
      table.Init(true, Some(TypeAccepts));
    }

    // The scan for a slot that roots the node.
    method FindRoot(node: nat) returns (slot: Option<nat>)
      requires Valid()
      ensures slot == Bridge.FindRoot(table.state.cells, node, 0)
      ensures slot.Some? ==> slot.value < table.slotCount <= table.slots.Length
      ensures slot.Some? ==> Handle(slot.value, table.slots[slot.value].generation) == HandleAt(table.state, slot.value)
    {
      hide Inv;
      var i := 0;
      table.Size();
      while i < table.slotCount
        invariant i <= table.slotCount
        invariant Bridge.FindRoot(table.state.cells, node, 0) == Bridge.FindRoot(table.state.cells, node, i)
      {
        table.SlotAt(i);
        if table.slots[i].occupied && table.slots[i].token.value.at == node { return Some(i); }
        i := i + 1;
      }
      slot := None;
    }

    method Intern(page: Page, rid: nat, node: Option<nat>, c: InternChoices) returns (status: Status, handle: Handle)
      requires Valid()
      modifies table, table.slots, page
      ensures Valid() && (table.slots == old(table.slots) || fresh(table.slots))
      ensures page.b == old(page.b)
      ensures NodeInterned(table.state, page.roots, status, handle) ==
              Bridge.Intern(old(table.state), old(page.roots), rid, page.b.dom, node, c)
    {
      hide Inv, Bridge.FindRoot, Insert, TableSpec.Retain, TypeOf, HandleAt, Malloc, Free;
      handle := NULL_HANDLE;
      if node.None? { return InvalidArgument, handle; }
      table.Flags();
      if table.invalidated { return ContextDestroyed, handle; }
      FindRootFinds(table.state.cells, node.value, 0);
      var slot := FindRoot(node.value);
      if slot.Some? {
        var existing := Handle(slot.value, table.slots[slot.value].generation);
        status := table.Retain(existing);
        if status == Ok { handle := existing; }
        return status, handle;
      }
      if !c.rootAlloc { return OutOfMemory, handle; }
      var root := Pointer(page.roots.mallocs, node.value);
      page.roots := Malloc(page.roots, NodeRootOf(rid));
      status, handle := table.Insert(TypeOf(ClassOf(page.b.dom, node.value)), Some(root), true, c.tableAlloc);
      if status != Ok { page.roots := Delete(page.roots, root); }
    }

    method Resolve(h: Handle, expected: nat) returns (status: Status, node: nat)
      requires Valid()
      ensures ResolvedNode(status, node) == ResolveNode(table.state, h, expected)
    {
      hide Inv;
      var token, actual;
      status, token, actual := table.Resolve(h, expected, true);
      node := if token.Some? then token.value.at else 0;
    }

    method Retain(h: Handle) returns (status: Status)
      requires Valid()
      modifies table.slots, table`state
      ensures Valid() && table.slots == old(table.slots)
      ensures table.state == TableSpec.Retain(old(table.state), h).table
      ensures status == TableSpec.Retain(old(table.state), h).status
    {
      hide Inv, TableSpec.Retain;
      status := table.Retain(h);
    }

    method Release(page: Page, rid: nat, h: Handle) returns (status: Status)
      requires Valid()
      modifies table, table.slots, page
      ensures Valid() && (table.slots == old(table.slots) || fresh(table.slots))
      ensures NodeReleased(table.state, page.b, page.roots, status) ==
              ReleaseNode(old(table.state), old(page.b), old(page.roots), rid, h)
    {
      hide Inv, Step, HookCalls, TableSpec.Release, Matches;
      ghost var before := table.state;
      var calls;
      status, calls := table.Release(h, Done);
      ReleaseHook(before, h, calls);
      DestroyTokens(page, rid, calls);
    }

    // The destroy hook: each token is a root that is deleted.
    method DestroyTokens(page: Page, rid: nat, nodes: seq<NodePointer>)
      modifies page
      ensures page.b == DropAll(old(page.b), Ats(nodes), rid) && page.roots == FreeAll(old(page.roots), nodes)
      decreases |nodes|
    {
      hide Free;
      if nodes != [] {
        page.b := Log(page.b, DroppedNode(rid, nodes[0].at));
        page.roots := Delete(page.roots, nodes[0]);
        DestroyTokens(page, rid, nodes[1..]);
        assert Ats(nodes)[1..] == Ats(nodes[1..]);
      }
    }

    method Invalidate(page: Page, rid: nat)
      requires Valid()
      modifies table, table.slots, page
      ensures Valid() && table.slots == old(table.slots)
      ensures table.state == TableSpec.Invalidate(old(table.state))
      ensures page.b == DropAll(old(page.b), Ats(InvalidationCalls(old(table.state))), rid)
      ensures page.roots == FreeAll(old(page.roots), InvalidationCalls(old(table.state)))
    {
      hide Inv, TableSpec.Invalidate, HookCalls, InvalidationCalls, DropAll;
      ghost var before := table.state;
      var calls := table.Invalidate(HookScripts([], Done));
      InvalidateHook(before, calls);
      DestroyTokens(page, rid, calls);
    }

    method Destroy(page: Page, rid: nat)
      requires Valid()
      modifies table, page
      ensures table.state == TableSpec.Destroy(old(table.state)) && fresh(table.slots)
      ensures page.b == DropAll(old(page.b), Ats(DestroyCalls(old(table.state))), rid)
      ensures page.roots == FreeAll(old(page.roots), DestroyCalls(old(table.state)))
    {
      hide Inv, TableSpec.Destroy, HookCalls, DestroyCalls, DropAll;
      ghost var before := table.state;
      var calls := table.Destroy();
      DestroyHook(before, calls);
      DestroyTokens(page, rid, calls);
    }
  }

  class SubscriptionRegistry {
    const table: HandleTable<RootPointer>

    ghost predicate Valid()
      reads this, table, table.slots
    {
      table.Valid() && table.accepts == None
    }

    constructor ()
      ensures Valid() && fresh(table) && fresh(table.slots)
      ensures table.state == Empty(true)
    {
      table := new HandleTable();
      new;
      table.Init(true, None);
    }

    // What the root does when it goes away.
    method Cancel(page: Page, root: Root, rid: nat)
      modifies page`b
      ensures page.b == CancelRoot(old(page.b), root, rid)
    {
      if !root.active { return; }
      var b := page.b;
      b := b.(registrations := b.registrations - {RegistrationOf(root)});
      if root.listener < |b.listeners| {
        b := b.(listeners := b.listeners[root.listener := b.listeners[root.listener].(realm := None)]);
      }
      page.b := Log(b, Cancelled(root.listener, rid));
    }

    // `delete root`: the destructor, then the memory.
    method DeleteRoot(page: Page, root: RootPointer, rid: nat)
      modifies page
      ensures page.b == CancelRoot(old(page.b), root.at, rid) && page.roots == Delete(old(page.roots), root)
    {
      Cancel(page, root.at, rid);
      page.roots := Delete(page.roots, root);
    }

    method Create(page: Page, rid: nat, target: nat, eventType: string, listener: nat, c: CreateChoices)
      returns (status: Status, handle: Handle)
      requires Valid()
      modifies table, table.slots, page
      ensures Valid() && (table.slots == old(table.slots) || fresh(table.slots))
      ensures Created(table.state, page.b, page.roots, status, handle) ==
              CreateSubscription(old(table.state), old(page.b), old(page.roots), rid, target, eventType, listener, c)
    {
      hide Inv, Insert, Malloc, Free;
      handle := NULL_HANDLE;
      table.Flags();
      if table.invalidated { return ContextDestroyed, handle; }
      if !c.rootAlloc { return OutOfMemory, handle; }
      var root := Pointer(page.roots.mallocs, Root(target, eventType, listener, false));
      page.roots := Malloc(page.roots, SubscriptionRootOf(rid));
      if !c.accept {
        DeleteRoot(page, root, rid);
        return OperationDisabled, handle;
      }
      page.b := AddEventListener(page.b, root.at, rid);
      root := root.(at := root.at.(active := true));
      status, handle := table.Insert(SUBSCRIPTION_TYPE, Some(root), true, c.tableAlloc);
      if status != Ok {
        DeleteRoot(page, root, rid);
        handle := NULL_HANDLE;
      }
    }

    // The destroy hook: each token is a root that is deleted.
    method DestroyTokens(page: Page, rid: nat, roots: seq<RootPointer>)
      modifies page
      ensures page.b == CancelAll(old(page.b), Ats(roots), rid) && page.roots == FreeAll(old(page.roots), roots)
      decreases |roots|
    {
      hide CancelRoot, Free;
      if roots != [] {
        DeleteRoot(page, roots[0], rid);
        DestroyTokens(page, rid, roots[1..]);
        assert Ats(roots)[1..] == Ats(roots[1..]);
      }
    }

    method Dispose(page: Page, rid: nat, h: Handle) returns (status: Status)
      requires Valid()
      modifies table, table.slots, page
      ensures Valid() && (table.slots == old(table.slots) || fresh(table.slots))
      ensures Created(table.state, page.b, page.roots, status, NULL_HANDLE) ==
              DisposeSubscription(old(table.state), old(page.b), old(page.roots), rid, h)
    {
      hide Inv, Step, HookCalls, TableSpec.Release, Matches, CancelRoot;
      ghost var before := table.state;
      var calls;
      status, calls := table.Release(h, Done);
      ReleaseHook(before, h, calls);
      DestroyTokens(page, rid, calls);
    }

    method Invalidate(page: Page, rid: nat)
      requires Valid()
      modifies table, table.slots, page
      ensures Valid() && table.slots == old(table.slots)
      ensures table.state == TableSpec.Invalidate(old(table.state))
      ensures page.b == CancelAll(old(page.b), Ats(InvalidationCalls(old(table.state))), rid)
      ensures page.roots == FreeAll(old(page.roots), InvalidationCalls(old(table.state)))
    {
      hide Inv, TableSpec.Invalidate, HookCalls, InvalidationCalls, CancelAll;
      ghost var before := table.state;
      var calls := table.Invalidate(HookScripts([], Done));
      InvalidateHook(before, calls);
      DestroyTokens(page, rid, calls);
    }

    method Destroy(page: Page, rid: nat)
      requires Valid()
      modifies table, page
      ensures table.state == TableSpec.Destroy(old(table.state)) && fresh(table.slots)
      ensures page.b == CancelAll(old(page.b), Ats(DestroyCalls(old(table.state))), rid)
      ensures page.roots == FreeAll(old(page.roots), DestroyCalls(old(table.state)))
    {
      hide Inv, TableSpec.Destroy, HookCalls, DestroyCalls, CancelAll;
      ghost var before := table.state;
      var calls := table.Destroy();
      DestroyHook(before, calls);
      DestroyTokens(page, rid, calls);
    }
  }
}
