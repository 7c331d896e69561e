/** The node registry and the subscription registry, one call at a time. */
module RegistryLaws {
  import opened Abi
  import opened Heaps
  import opened TableSpec
  import opened TableInvariant
  import opened TableTheorems
  import opened HandleMap
  import opened TableLaws
  import opened WebTypes
  import opened Doms
  import opened Bridge
  import opened BridgeInvariant

  // ----- node registry -----

  lemma {:induction false} FindRootFinds(cells: seq<Cell<NodePointer>>, node: nat, from: nat)
    ensures match FindRoot(cells, node, from)
            case Some(i) => from <= i < |cells| && cells[i].entry.Some? && cells[i].entry.value.token.at == node
            case None =>
              forall j :: from <= j < |cells| && cells[j].entry.Some? ==> cells[j].entry.value.token.at != node
    decreases |cells| - from
  {
    if from >= |cells| {
    } else {
      FindRootFinds(cells, node, from + 1);
    }
  }

  // FindRoot answers whether some live handle roots the node.
  lemma FindRootLive(t: Table<NodePointer>, node: nat)
    ensures match FindRoot(t.cells, node, 0)
            case Some(i) => i < |t.cells| && HandleAt(t, i) in Live(t) && Live(t)[HandleAt(t, i)].token.at == node
            case None => forall h :: h in Live(t) ==> Live(t)[h].token.at != node
  {
    FindRootFinds(t.cells, node, 0);
    hide FindRoot, TypeOf;
    match FindRoot(t.cells, node, 0)
    case Some(i) => GenerationStep(t.cells[i].resets);
    case None =>
  }

  // A root that did not make it into the table is deleted again.
  lemma InternHeap(nodes: Table<NodePointer>, roots: Roots, rid: nat, dom: Dom, node: Option<nat>, c: InternChoices)
    ensures var r := Intern(nodes, roots, rid, dom, node, c);
            HeapOK(roots) ==> HeapOK(r.roots) && (r.status != Ok ==> r.roots.blocks == roots.blocks)
  {
    hide FindRoot, TypeOf, HandleAt, Retain, Insert, HeapOK, Malloc, Free;
    if HeapOK(roots) {
      MallocKeeps(roots, NodeRootOf(rid));
      MallocFree(roots, NodeRootOf(rid));
    }
  }

  // Interning keeps the bijection. A node that is rooted already gets its one handle back
  // with one more edge; any other node gets a handle that was not live, with one edge and
  // its own type. A failure changes nothing, and leaves no root behind.
  lemma InternLaw(nodes: Table<NodePointer>, roots: Roots, rid: nat, dom: Dom, node: Option<nat>, c: InternChoices)
    requires Inv(nodes) && Interned(nodes, dom) && (node.Some? ==> node.value < |dom.classes|)
    ensures var r := Intern(nodes, roots, rid, dom, node, c);
            && Inv(r.nodes) && Interned(r.nodes, dom)
            && r.nodes.invalidated == nodes.invalidated && r.nodes.hooked == nodes.hooked
            && (HeapOK(roots) ==> HeapOK(r.roots))
            && (r.status != Ok ==>
                  && r.nodes == nodes && r.handle == NULL_HANDLE
                  && (HeapOK(roots) ==> r.roots.blocks == roots.blocks))
            && (r.status == Ok ==>
                  && node.Some? && !nodes.invalidated && r.handle.generation != 0
                  && (r.handle in Live(nodes) <==>
                        exists g :: g in Live(nodes) && Live(nodes)[g].token.at == node.value)
                  && (r.handle in Live(nodes) ==> Live(nodes)[r.handle].token.at == node.value
                                                  && Live(nodes)[r.handle].references < UINT32_MAX)
                  && r.roots == (if r.handle in Live(nodes) then roots else Malloc(roots, NodeRootOf(rid)))
                  && Live(r.nodes) == Live(nodes)[r.handle :=
                       if r.handle in Live(nodes)
                       then Live(nodes)[r.handle].(references := Live(nodes)[r.handle].references + 1)
                       else Entry(Pointer(roots.mallocs, node.value), TypeOf(dom.classes[node.value]), 1)])
  {
    hide Inv, Live, FindRoot, TypeOf, Matches, HandleAt, Retain, Insert, HeapOK, Malloc, Free, Interned;
    InternHeap(nodes, roots, rid, dom, node, c);
    if node.Some? && !nodes.invalidated {
      FindRootLive(nodes, node.value);
      match FindRoot(nodes.cells, node.value, 0)
      case Some(i) =>
        var h := HandleAt(nodes, i);
        RetainLaw(nodes, h);
        IssuedGeneration(nodes, h);
        if Retain(nodes, h).status == Ok { SameTokens(nodes, Retain(nodes, h).table, dom, h); }
      case None =>
        var root := Pointer(roots.mallocs, node.value);
        var typeId := TypeOf(ClassOf(dom, node.value));
        InsertLaw(nodes, typeId, Some(root), true, c.tableAlloc);
        var r := Insert(nodes, typeId, Some(root), true, c.tableAlloc);
        if r.status == Ok { NewToken(nodes, r.table, dom, r.handle, root); }
    }
  }

  lemma SameTokens(nodes: Table<NodePointer>, nodes': Table<NodePointer>, dom: Dom, h: Handle)
    requires Interned(nodes, dom) && h in Live(nodes) && Live(nodes)[h].references < UINT32_MAX
    requires Live(nodes') == Live(nodes)[h := Live(nodes)[h].(references := Live(nodes)[h].references + 1)]
    ensures Interned(nodes', dom)
  {
    hide Live, TypeOf;
  }

  lemma NewToken(nodes: Table<NodePointer>, nodes': Table<NodePointer>, dom: Dom, h: Handle, root: NodePointer)
    requires Interned(nodes, dom) && h !in Live(nodes) && root.at < |dom.classes|
    requires forall g :: g in Live(nodes) ==> Live(nodes)[g].token.at != root.at
    requires Live(nodes') == Live(nodes)[h := Entry(root, TypeOf(dom.classes[root.at]), 1)]
    ensures Interned(nodes', dom)
  {
    hide Live, TypeOf;
  }

  // Interning fails only for want of memory: a saturated count for a rooted node, a root or a
  // slot that cannot be had for any other.
  lemma InternStatus(nodes: Table<NodePointer>, roots: Roots, rid: nat, dom: Dom, node: nat, c: InternChoices)
    requires Inv(nodes) && Interned(nodes, dom) && !nodes.invalidated
    ensures forall h :: h in Live(nodes) && Live(nodes)[h].token.at == node ==>
              Intern(nodes, roots, rid, dom, Some(node), c).status ==
              if Live(nodes)[h].references < UINT32_MAX then Ok else OutOfMemory
    ensures (forall h :: h in Live(nodes) ==> Live(nodes)[h].token.at != node) ==>
              Intern(nodes, roots, rid, dom, Some(node), c).status ==
              if c.rootAlloc && CanReserve(nodes, c.tableAlloc) then Ok else OutOfMemory
  {
    hide Inv, Live, FindRoot, TypeOf, HandleAt, CanReserve;
    FindRootLive(nodes, node);
    TypeOfIsSomething(ClassOf(dom, node));
    match FindRoot(nodes.cells, node, 0)
    case Some(i) =>
      var g := HandleAt(nodes, i);
      LiveAt(nodes, g);
      RetainLaw(nodes, g);
      assert forall h :: h in Live(nodes) && Live(nodes)[h].token.at == node ==> h == g;
    case None =>
  }

  // A null node and an invalidated registry are told apart, in this order.
  lemma InternRefused(nodes: Table<NodePointer>, roots: Roots, rid: nat, dom: Dom, node: Option<nat>, c: InternChoices)
    requires node.None? || nodes.invalidated
    ensures Intern(nodes, roots, rid, dom, node, c) ==
            NodeInterned(nodes, roots, if node.None? then InvalidArgument else ContextDestroyed, NULL_HANDLE)
  {
  }

  lemma TypeOfIsSomething(c: BlinkClass)
    ensures TypeOf(c) != 0
  {
    hide IsA;
  }

  lemma LiveAt<T>(t: Table<T>, h: Handle)
    ensures Matches(t, h) <==> h in Live(t)
    ensures Matches(t, h) ==> h.slot < |t.cells| && t.cells[h.slot].entry.Some?
                              && Live(t)[h] == t.cells[h.slot].entry.value
  {
  }

  lemma InternedShrinks(nodes: Table<NodePointer>, nodes': Table<NodePointer>, dom: Dom, h: Handle)
    requires Interned(nodes, dom)
    requires forall g :: g in Live(nodes') ==>
               && g in Live(nodes)
               && Live(nodes')[g].token.at == Live(nodes)[g].token.at && Live(nodes')[g].typeId == Live(nodes)[g].typeId
    ensures Interned(nodes', dom)
  {
    hide Live, TypeOf;
  }

  // A release drops the root exactly when the last edge goes.
  lemma ReleaseNodeLaw(nodes: Table<NodePointer>, dom: Dom, b: Blink, roots: Roots, rid: nat, h: Handle)
    requires Inv(nodes) && nodes.hooked && Interned(nodes, dom)
    ensures var r := ReleaseNode(nodes, b, roots, rid, h);
            && Inv(r.nodes) && Interned(r.nodes, dom)
            && r.nodes.invalidated == nodes.invalidated && r.nodes.hooked
            && (r.status == Ok <==> !nodes.invalidated && h in Live(nodes))
            && (r.status != Ok ==> r.nodes == nodes && r.blink == b && r.roots == roots)
            && (r.status == Ok && Live(nodes)[h].references > 1 ==>
                  && r.blink == b && r.roots == roots
                  && Live(r.nodes) == Live(nodes)[h := Live(nodes)[h].(references := Live(nodes)[h].references - 1)])
            && (r.status == Ok && Live(nodes)[h].references == 1 ==>
                  && r.blink == Log(b, DroppedNode(rid, Live(nodes)[h].token.at))
                  && r.roots == Free(roots, Some(Live(nodes)[h].token.address))
                  && Live(r.nodes) == Live(nodes) - {h})
  {
    hide Inv, Live, TypeOf, Matches, HandleAt, Release;
    LiveAt(nodes, h);
    ReleaseLaw(nodes, h);
    var o := Release(nodes, h);
    if o.status == Ok { InternedShrinks(nodes, o.table, dom, h); }
    hide Interned;
  }

  // Type soundness: a live handle resolves at an interface exactly when the node it names
  // is an instance of that interface, and then resolves to that node.
  lemma ResolveNodeLaw(nodes: Table<NodePointer>, dom: Dom, h: Handle, expected: nat)
    requires Inv(nodes) && Interned(nodes, dom) && Modelled(expected)
    ensures var r := ResolveNode(nodes, h, expected);
            && (r.status == Ok <==>
                  && !nodes.invalidated && h in Live(nodes)
                  && IsA(ClassOf(dom, Live(nodes)[h].token.at), ClassOfType(expected)))
            && (r.status == Ok ==> r.node == Live(nodes)[h].token.at < |dom.classes|)
  {
    hide Inv, Live, TypeOf, Matches, HandleAt, IsA, TypeAccepts, ClassOfType;
    LiveAt(nodes, h);
    if h in Live(nodes) { TypeOfDecidesInstance(ClassOf(dom, Live(nodes)[h].token.at), expected); }
  }

  // ----- subscription registry -----

  lemma AddEffect(b: Blink, root: Root, rid: nat)
    requires !Dead(b.trace, rid) && !Closed(b.trace, rid) && Attachment(root.listener, rid) !in Attached(b.trace)
    ensures var b' := AddEventListener(b, root, rid);
            && (Ordered(b.trace) ==> Ordered(b'.trace))
            && Attached(b'.trace) == Attached(b.trace) + {Attachment(root.listener, rid)}
            && forall r :: SamePhase(b.trace, b'.trace, r)
  {
    Append(b.trace, Registered(root.listener, rid));
  }

  // A listener no one has seen yet: allocated for this realm, never offered to Blink.
  ghost predicate FreshListener(b: Blink, l: nat, rid: nat) {
    && l < |b.listeners| && b.listeners[l].realm == Some(rid) && l !in b.accepted
    && (forall reg: Registration :: reg in b.registrations ==> reg.listener != l)
  }

  lemma FreshUnattached(b: Blink, l: nat, rid: nat)
    requires BlinkOK(b) && FreshListener(b, l, rid)
    ensures Attachment(l, rid) !in Attached(b.trace)
  {
    hide Attached, Ordered, Forest;
    assert !PointsTo(b, l, rid);
  }

  lemma AddKeepsBlink(b: Blink, root: Root, rid: nat)
    requires BlinkOK(b) && FreshListener(b, root.listener, rid) && !Dead(b.trace, rid) && !Closed(b.trace, rid)
    ensures BlinkOK(AddEventListener(b, root, rid))
    ensures forall l, r :: PointsTo(AddEventListener(b, root, rid), l, r) <==>
              PointsTo(b, l, r) || (l == root.listener && r == rid)
  {
    FreshUnattached(b, root.listener, rid);
    AddEffect(b, root, rid);
    hide Attached, Ordered, Dead, Bare, Gone, Forest;
    var b' := AddEventListener(b, root, rid);
    forall l, r ensures PointsTo(b', l, r) <==> PointsTo(b, l, r) || (l == root.listener && r == rid) {}
    forall reg: Registration | reg in b'.registrations ensures exists r :: PointsTo(b', reg.listener, r) {
      if reg == RegistrationOf(root) {
        assert PointsTo(b', reg.listener, rid);
      } else {
        var r :| PointsTo(b, reg.listener, r);
        assert PointsTo(b', reg.listener, r);
      }
    }
  }

  // The roots are of this realm and registered.
  ghost predicate RegisteredRoots(roots: seq<Root>, rid: nat, b: Blink) {
    && DistinctListeners(roots)
    && forall k :: 0 <= k < |roots| ==>
         && roots[k].active && PointsTo(b, roots[k].listener, rid) && RegistrationOf(roots[k]) in b.registrations
  }

  lemma RootOf(roots: seq<Root>, rid: nat, b: Blink, l: nat)
    requires RegisteredRoots(roots, rid, b) && InRoots(roots, l)
    ensures PointsTo(b, l, rid)
    ensures exists k :: 0 <= k < |roots| && roots[k].listener == l && RegistrationOf(roots[k]) in b.registrations
  {
  }

  lemma CancelPoints(b: Blink, b': Blink, roots: seq<Root>, rid: nat, l: nat, r: nat)
    requires CancelledFrom(b, b', roots, rid) && RegisteredRoots(roots, rid, b)
    ensures PointsTo(b', l, r) <==> PointsTo(b, l, r) && !(r == rid && InRoots(roots, l))
  {
    hide Attached, Ordered, Dead, Bare, Gone;
    if InRoots(roots, l) { RootOf(roots, rid, b, l); }
  }

  lemma RootsAttached(b: Blink, roots: seq<Root>, rid: nat)
    requires BlinkOK(b) && RegisteredRoots(roots, rid, b)
    ensures EachAttached(roots, b.trace, rid)
  {
    hide Attached, Ordered, Dead, Bare, Gone, Forest, DistinctListeners;
  }

  // Cancelling registered roots of a realm keeps Blink in order and concerns no other realm.
  lemma CancelKeepsBlink(b: Blink, b': Blink, roots: seq<Root>, rid: nat)
    requires BlinkOK(b) && CancelledFrom(b, b', roots, rid) && RegisteredRoots(roots, rid, b) && !Closed(b.trace, rid)
    ensures BlinkOK(b')
    ensures forall l, r :: r != rid ==> (PointsTo(b, l, r) <==> PointsTo(b', l, r))
  {
    forall l, r ensures PointsTo(b', l, r) <==> PointsTo(b, l, r) && !(r == rid && InRoots(roots, l)) {
      CancelPoints(b, b', roots, rid, l, r);
    }
    RootsAttached(b, roots, rid);
    hide EachAttached, Attached, Ordered, Dead, Bare, Gone, Forest, PointsTo;
    forall reg: Registration | reg in b'.registrations ensures exists r :: PointsTo(b', reg.listener, r) {
      var r :| PointsTo(b, reg.listener, r);
      forall k | 0 <= k < |roots| ensures roots[k].listener != reg.listener {
        assert RegistrationOf(roots[k]) in b.registrations && RegistrationOf(roots[k]) !in b'.registrations;
        assert RegistrationOf(roots[k]).listener == roots[k].listener;
      }
      assert !InRoots(roots, reg.listener);
      assert PointsTo(b', reg.listener, r);
    }
  }

  // The handles that go are those of the cancelled listeners.
  ghost predicate LosesRoots(subs: Table<RootPointer>, subs': Table<RootPointer>, roots: seq<Root>) {
    && (forall h :: h in Live(subs') ==> h in Live(subs) && Live(subs')[h] == Live(subs)[h])
    && (forall h :: h in Live(subs) ==> (h in Live(subs') <==> !InRoots(roots, Live(subs)[h].token.at.listener)))
  }

  lemma CancelKeepsLinked(subs: Table<RootPointer>, subs': Table<RootPointer>, b: Blink, b': Blink, roots: seq<Root>,
                          rid: nat)
    requires Linked(subs, rid, b) && CancelledFrom(b, b', roots, rid) && LosesRoots(subs, subs', roots)
    ensures Linked(subs', rid, b')
  {
    hide Attached, Ordered, Dead, Bare, Gone, Live, InRoots;
    forall h | h in Live(subs') ensures RootLinked(Live(subs')[h], rid, b') {
      assert RootLinked(Live(subs)[h], rid, b);
    }
    forall l | PointsTo(b', l, rid) ensures HasSub(subs', l) {
      assert HasSub(subs, l);
      var h :| h in Live(subs) && Live(subs)[h].token.at.listener == l;
      assert h in Live(subs');
    }
  }

  lemma CreateInserts(subs: Table<RootPointer>, subs': Table<RootPointer>, b: Blink, rid: nat, root: Root, address: nat,
                      h: Handle)
    requires BlinkOK(b) && Linked(subs, rid, b) && FreshListener(b, root.listener, rid) && root.active
    requires h !in Live(subs) && Live(subs') == Live(subs)[h := Entry(Pointer(address, root), SUBSCRIPTION_TYPE, 1)]
    ensures Linked(subs', rid, AddEventListener(b, root, rid))
  {
    hide Attached, Ordered, Dead, Bare, Gone, Live, BlinkOK, HasSub;
    var b' := AddEventListener(b, root, rid);
    forall g | g in Live(subs') ensures RootLinked(Live(subs')[g], rid, b') {
      if g != h { assert RootLinked(Live(subs)[g], rid, b); }
    }
    forall g | g in Live(subs) ensures Live(subs)[g].token.at.listener != root.listener {
      assert RootLinked(Live(subs)[g], rid, b);
    }
    forall l | PointsTo(b', l, rid) ensures HasSub(subs', l) {
      if l != root.listener { assert PointsTo(b, l, rid); }
      HasSubInserted(subs, subs', h, Entry(Pointer(address, root), SUBSCRIPTION_TYPE, 1), l);
    }
  }

  lemma HasSubInserted(subs: Table<RootPointer>, subs': Table<RootPointer>, h: Handle, e: Entry<RootPointer>, l: nat)
    requires h !in Live(subs) && Live(subs') == Live(subs)[h := e]
    requires HasSub(subs, l) || l == e.token.at.listener
    ensures HasSub(subs', l)
  {
    hide Live;
    if l == e.token.at.listener {
      assert h in Live(subs') && Live(subs')[h].token.at.listener == l;
    } else {
      var g :| g in Live(subs) && Live(subs)[g].token.at.listener == l;
      assert g in Live(subs') && Live(subs')[g].token.at.listener == l;
    }
  }

  // The insert failed after Blink took the listener: cancelling the root undoes the step.
  lemma CreateUndone(subs: Table<RootPointer>, b: Blink, rid: nat, root: Root)
    requires BlinkOK(b) && Linked(subs, rid, b) && FreshListener(b, root.listener, rid)
    requires !Dead(b.trace, rid) && !Closed(b.trace, rid)
    requires root.active
    ensures var b1 := AddEventListener(b, root, rid);
            var b2 := CancelRoot(b1, root, rid);
            && BlinkOK(b2) && Linked(subs, rid, b2) && CreateTouches(b, b2, rid)
            && b2.registrations == b.registrations && !PointsTo(b2, root.listener, rid)
  {
    var b1 := AddEventListener(b, root, rid);
    var b2 := CancelRoot(b1, root, rid);
    hide Attached, Ordered, Forest, Live, Dead, Bare, Gone;
    FreshUnattached(b, root.listener, rid);
    AddEffect(b, root, rid);
    assert SamePhase(b.trace, b1.trace, rid);
    AddKeepsBlink(b, root, rid);
    CancelOne(b1, root, rid);
    forall r ensures SamePhase(b.trace, b2.trace, r) {
      assert SamePhase(b.trace, b1.trace, r) && SamePhase(b1.trace, b2.trace, r);
    }
    assert InRoots([root], root.listener) by { assert [root][0] == root; }
    assert RegisteredRoots([root], rid, b1);
    CancelKeepsBlink(b1, b2, [root], rid);
    assert RegistrationOf(root) !in b.registrations;
    assert b2.registrations == b.registrations;
    forall h | h in Live(subs) ensures RootLinked(Live(subs)[h], rid, b2) {
      assert RootLinked(Live(subs)[h], rid, b);
    }
    forall l | PointsTo(b2, l, rid) ensures HasSub(subs, l) {
      assert l in b.accepted;
    }
  }

  // Creating a subscription for a fresh listener: success adds one live handle, whose root
  // is the listener just registered; every failing branch leaves the handles and the
  // registrations as they were, the listener is either never accepted or detached, and no
  // root stays allocated.
  lemma CreateLaw(subs: Table<RootPointer>, b: Blink, roots: Roots, rid: nat, target: nat, eventType: string, l: nat,
                  c: CreateChoices)
    requires Inv(subs) && subs.hooked && BlinkOK(b) && Linked(subs, rid, b) && FreshListener(b, l, rid)
    requires (Dead(b.trace, rid) <==> subs.invalidated) && (!subs.invalidated ==> !Closed(b.trace, rid))
    ensures var r := CreateSubscription(subs, b, roots, rid, target, eventType, l, c);
            && Inv(r.subs) && r.subs.hooked && r.subs.invalidated == subs.invalidated
            && BlinkOK(r.blink) && Linked(r.subs, rid, r.blink)
            && CreateTouches(b, r.blink, rid)
            && (HeapOK(roots) ==> HeapOK(r.roots))
            && (r.status != Ok ==>
                  && r.subs == subs && r.handle == NULL_HANDLE
                  && (HeapOK(roots) ==> r.roots.blocks == roots.blocks)
                  && r.blink.registrations == b.registrations
                  && !PointsTo(r.blink, l, rid))
            && (r.status == Ok ==>
                  && !subs.invalidated && r.handle.generation != 0 && r.handle !in Live(subs)
                  && Live(r.subs) ==
                     Live(subs)[r.handle := Entry(Pointer(roots.mallocs, Root(target, eventType, l, true)),
                                                  SUBSCRIPTION_TYPE, 1)]
                  && r.roots == Malloc(roots, SubscriptionRootOf(rid))
                  && r.blink.registrations == b.registrations + {Registration(target, eventType, l)}
                  && PointsTo(r.blink, l, rid))
  {
    hide Inv, Live, Attached, Ordered, Dead, Bare, Gone, BlinkOK, Linked, Insert, HeapOK, Malloc, Free;
    var root := Root(target, eventType, l, true);
    if HeapOK(roots) {
      MallocKeeps(roots, SubscriptionRootOf(rid));
      MallocFree(roots, SubscriptionRootOf(rid));
    }
    if !subs.invalidated && c.rootAlloc && c.accept {
      FreshUnattached(b, l, rid);
      AddEffect(b, root, rid);
      AddKeepsBlink(b, root, rid);
      var token := Some(Pointer(roots.mallocs, root));
      InsertLaw(subs, SUBSCRIPTION_TYPE, token, true, c.tableAlloc);
      var r := Insert(subs, SUBSCRIPTION_TYPE, token, true, c.tableAlloc);
      if r.status == Ok {
        CreateInserts(subs, r.table, b, rid, root, roots.mallocs, r.handle);
      } else {
        CreateUndone(subs, b, rid, root);
      }
    }
  }

  ghost predicate CreateTouches(b: Blink, b': Blink, rid: nat) {
    && b'.dom == b.dom && b'.contexts == b.contexts && b'.bodies == b.bodies
    && |b'.listeners| == |b.listeners| && b.accepted <= b'.accepted
    && (forall l, r :: r != rid ==> (PointsTo(b, l, r) <==> PointsTo(b', l, r)))
    && (forall r :: SamePhase(b.trace, b'.trace, r))
  }

  // Disposing an unknown or stale subscription changes nothing. Disposing a live one takes
  // away its handle, its registration and the listener's pointer to the realm, and nothing
  // else.
  lemma DisposeLaw(subs: Table<RootPointer>, b: Blink, roots: Roots, rid: nat, h: Handle)
    requires Inv(subs) && subs.hooked && BlinkOK(b) && Linked(subs, rid, b)
    requires !subs.invalidated ==> !Closed(b.trace, rid)
    ensures var r := DisposeSubscription(subs, b, roots, rid, h);
            && Inv(r.subs) && r.subs.hooked && r.subs.invalidated == subs.invalidated
            && BlinkOK(r.blink) && Linked(r.subs, rid, r.blink) && CreateTouches(b, r.blink, rid)
            && (r.status == Ok <==> !subs.invalidated && h in Live(subs))
            && (r.status != Ok ==> r.subs == subs && r.blink == b && r.roots == roots)
            && (r.status == Ok ==>
                  var root := Live(subs)[h].token.at;
                  && Live(r.subs) == Live(subs) - {h}
                  && r.roots == Free(roots, Some(Live(subs)[h].token.address))
                  && RegistrationOf(root) in b.registrations
                  && r.blink.registrations == b.registrations - {RegistrationOf(root)}
                  && PointsTo(b, root.listener, rid) && !PointsTo(r.blink, root.listener, rid))
  {
    hide Inv, Live, Attached, Ordered, Dead, Bare, Gone, BlinkOK, Linked, Release, Matches;
    LiveAt(subs, h);
    if h in Live(subs) { LinkedAt(subs, rid, b, h); }
    ReleaseLaw(subs, h);
    var o := Release(subs, h);
    if o.status == Ok {
      DisposeOne(subs, o.table, b, rid, h);
    }
  }

  lemma LinkedAt(subs: Table<RootPointer>, rid: nat, b: Blink, h: Handle)
    requires Linked(subs, rid, b) && h in Live(subs)
    ensures RootLinked(Live(subs)[h], rid, b)
  {
  }

  lemma DisposeOne(subs: Table<RootPointer>, subs': Table<RootPointer>, b: Blink, rid: nat, h: Handle)
    requires BlinkOK(b) && Linked(subs, rid, b) && h in Live(subs) && Live(subs') == Live(subs) - {h}
    requires !Closed(b.trace, rid)
    ensures var root := Live(subs)[h].token.at;
            var b' := CancelRoot(b, root, rid);
            && BlinkOK(b') && Linked(subs', rid, b') && CreateTouches(b, b', rid)
            && root.active && PointsTo(b, root.listener, rid) && !PointsTo(b', root.listener, rid)
  {
    hide Live, Attached, Ordered, Dead, Bare, Gone, BlinkOK, Linked, CancelledFrom, InRoots, CancelRoot, LosesRoots;
    var root := Live(subs)[h].token.at;
    var b' := CancelRoot(b, root, rid);
    LinkedAt(subs, rid, b, h);
    OnlyRoot(b, b', root, rid);
    CancelKeepsBlink(b, b', [root], rid);
    OneHandleLess(subs, subs', rid, b, h);
    CancelKeepsLinked(subs, subs', b, b', [root], rid);
  }

  lemma OnlyRoot(b: Blink, b': Blink, root: Root, rid: nat)
    requires b' == CancelRoot(b, root, rid) && BlinkOK(b)
    requires root.active && PointsTo(b, root.listener, rid) && RegistrationOf(root) in b.registrations
    ensures CancelledFrom(b, b', [root], rid) && RegisteredRoots([root], rid, b) && CreateTouches(b, b', rid)
    ensures !PointsTo(b', root.listener, rid)
  {
    hide Attached, Ordered, Dead, Bare, Gone, BlinkOK;
    CancelOne(b, root, rid);
    assert InRoots([root], root.listener) by { assert [root][0] == root; }
  }

  lemma OneHandleLess(subs: Table<RootPointer>, subs': Table<RootPointer>, rid: nat, b: Blink, h: Handle)
    requires Linked(subs, rid, b) && h in Live(subs) && Live(subs') == Live(subs) - {h}
    ensures LosesRoots(subs, subs', [Live(subs)[h].token.at])
  {
    hide Live, RootLinked, HasSub, PointsTo;
    var root := Live(subs)[h].token.at;
    forall l ensures InRoots([root], l) <==> l == root.listener { assert [root][0] == root; }
  }
}
