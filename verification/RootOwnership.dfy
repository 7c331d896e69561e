/** Who owns the roots. BlinkNodeRoot and BlinkSubscriptionRoot are C++ objects that the
    registries allocate and delete; a leaked one would keep its node or its listener alive
    for good. In every reachable world the allocated roots are exactly the tokens of live
    handles, one each, and every other root was deleted exactly once. */
module RootOwnership {
  import opened Abi
  import opened Heaps
  import opened TableSpec
  import opened TableInvariant
  import opened TableTheorems
  import opened HandleMap
  import opened TableLaws
  import opened WebTypes
  import opened Doms
  import opened Bridge
  import opened BridgeInvariant
  import opened RegistryLaws
  import opened SiteLaws
  import opened Teardown
  import opened Worlds
  import opened CapsuleLaws

  // ----- one table -----

  ghost predicate HeldIn<T>(t: Table<Pointer<T>>, k: nat) {
    exists h :: h in Live(t) && Live(t)[h].token.address == k
  }

  predicate OwnedBy(roots: Roots, k: nat, owner: Owner) {
    k in roots.blocks && roots.blocks[k] == owner
  }

  // The tokens of live handles and the owner's blocks correspond one to one.
  ghost predicate Backed<T>(t: Table<Pointer<T>>, owner: Owner, roots: Roots) {
    && (forall h :: h in Live(t) ==> OwnedBy(roots, Live(t)[h].token.address, owner))
    && (forall g, h :: g in Live(t) && h in Live(t) ==>
          Live(t)[g].token.address == Live(t)[h].token.address ==> g == h)
    && (forall k :: OwnedBy(roots, k, owner) ==> HeldIn(t, k))
  }

  // The owner's blocks are the same.
  ghost predicate SameFor(owner: Owner, roots: Roots, roots': Roots) {
    forall k :: OwnedBy(roots, k, owner) <==> OwnedBy(roots', k, owner)
  }

  lemma BackedFrame<T>(t: Table<Pointer<T>>, owner: Owner, roots: Roots, roots': Roots)
    requires Backed(t, owner, roots) && SameFor(owner, roots, roots')
    ensures Backed(t, owner, roots')
  {
    hide Live, HeldIn, OwnedBy;
  }

  lemma BackedInsert<T>(t: Table<Pointer<T>>, t': Table<Pointer<T>>, owner: Owner, roots: Roots, h: Handle,
                        e: Entry<Pointer<T>>)
    requires Backed(t, owner, roots) && HeapOK(roots) && e.token.address == roots.mallocs
    requires h !in Live(t) && Live(t') == Live(t)[h := e]
    ensures Backed(t', owner, Malloc(roots, owner))
  {
    hide Live, HeapOK, HeldIn, OwnedBy, Malloc;
    forall k ensures OwnedBy(Malloc(roots, owner), k, owner) <==> OwnedBy(roots, k, owner) || k == roots.mallocs {
      OwnedMalloc(roots, owner, k);
    }
    NewAddress(roots, owner);
    forall k | OwnedBy(Malloc(roots, owner), k, owner) ensures HeldIn(t', k) { HeldAfterInsert(t, t', h, e, k); }
  }

  lemma OwnedMalloc(roots: Roots, owner: Owner, k: nat)
    ensures OwnedBy(Malloc(roots, owner), k, owner) <==> OwnedBy(roots, k, owner) || k == roots.mallocs
  {
  }

  lemma NewAddress(roots: Roots, owner: Owner)
    requires HeapOK(roots)
    ensures !OwnedBy(roots, roots.mallocs, owner)
  {
  }

  lemma HeldAfterInsert<T>(t: Table<Pointer<T>>, t': Table<Pointer<T>>, h: Handle, e: Entry<Pointer<T>>, k: nat)
    requires h !in Live(t) && Live(t') == Live(t)[h := e]
    ensures HeldIn(t, k) || k == e.token.address ==> HeldIn(t', k)
  {
    hide Live;
    if HeldIn(t, k) {
      var g :| g in Live(t) && Live(t)[g].token.address == k;
      assert g in Live(t') && Live(t')[g].token.address == k;
    } else if k == e.token.address {
      assert h in Live(t') && Live(t')[h].token.address == k;
    }
  }

  // Only a count changed.
  lemma BackedRecount<T>(t: Table<Pointer<T>>, t': Table<Pointer<T>>, owner: Owner, roots: Roots, h: Handle,
                         n: RefCount)
    requires Backed(t, owner, roots)
    requires h in Live(t) && Live(t') == Live(t)[h := Live(t)[h].(references := n)]
    ensures Backed(t', owner, roots)
  {
    hide Live, OwnedBy;
    SameAddresses(Live(t), Live(t'), h, n);
    forall k | HeldIn(t, k) ensures HeldIn(t', k) {
      var g :| g in Live(t) && Live(t)[g].token.address == k;
      assert g in Live(t') && Live(t')[g].token.address == k;
    }
  }

  lemma SameAddresses<T>(m: map<Handle, Entry<Pointer<T>>>, m': map<Handle, Entry<Pointer<T>>>, h: Handle, n: RefCount)
    requires h in m && m' == m[h := m[h].(references := n)]
    ensures forall g :: g in m' <==> g in m
    ensures forall g :: g in m ==> m'[g].token.address == m[g].token.address
  {
  }

  lemma BackedRemove<T>(t: Table<Pointer<T>>, t': Table<Pointer<T>>, owner: Owner, roots: Roots, h: Handle)
    requires Backed(t, owner, roots) && HeapOK(roots)
    requires h in Live(t) && Live(t') == Live(t) - {h}
    ensures var roots' := Free(roots, Some(Live(t)[h].token.address));
            HeapOK(roots') && roots'.mallocs == roots.mallocs && Backed(t', owner, roots')
  {
    hide Live, HeapOK;
    var a := Live(t)[h].token.address;
    assert OwnedBy(roots, a, owner);
    FreeKeeps(roots, Some(a));
    var roots' := Free(roots, Some(a));
    forall k | OwnedBy(roots', k, owner) ensures HeldIn(t', k) {
      assert OwnedBy(roots, k, owner);
      var g :| g in Live(t) && Live(t)[g].token.address == k;
      assert g in Live(t') && Live(t')[g].token.address == k;
    }
  }

  lemma NothingBacked<T>(t: Table<Pointer<T>>, owner: Owner, roots: Roots)
    requires Live(t) == map[] && forall k :: !OwnedBy(roots, k, owner)
    ensures Backed(t, owner, roots)
  {
    hide Live;
  }

  // ----- sweeping a table -----

  // Two occupied cells hold pointers to two roots.
  lemma CellsApart<T>(t: Table<Pointer<T>>, owner: Owner, roots: Roots, j: nat, k: nat)
    requires Backed(t, owner, roots) && j < k < |t.cells| && t.cells[j].entry.Some? && t.cells[k].entry.Some?
    ensures t.cells[j].entry.value.token.address != t.cells[k].entry.value.token.address
  {
    GenerationStep(t.cells[j].resets);
    GenerationStep(t.cells[k].resets);
    LiveAt(t, HandleAt(t, j));
    LiveAt(t, HandleAt(t, k));
    hide Live, OwnedBy, HeldIn;
    assert HandleAt(t, j) in Live(t) && HandleAt(t, k) in Live(t);
  }

  lemma EmptyDistinct<T>()
    ensures Distinct<T>([])
  {
  }

  lemma {:induction false} DistinctDown<T>(t: Table<Pointer<T>>, owner: Owner, roots: Roots, i: nat)
    requires Backed(t, owner, roots) && i <= |t.cells|
    ensures Distinct(TokensDown(t.cells, i))
    decreases i
  {
    hide Backed, Distinct, TokensDown, ResetDown, Reset;
    DownStep(t, i);
    if i == 0 {
      EmptyDistinct<T>();
    } else {
      DistinctDown(t, owner, roots, i - 1);
      var rest := TokensDown(t.cells, i - 1);
      if t.cells[i - 1].entry.Some? {
        forall k | 0 <= k < |rest| ensures rest[k].address != t.cells[i - 1].entry.value.token.address {
          InTokensDown(t.cells, i - 1, rest[k]);
          var j :| 0 <= j < i - 1 && t.cells[j].entry.Some? && t.cells[j].entry.value.token == rest[k];
          CellsApart(t, owner, roots, j, i - 1);
        }
        DistinctCons(t.cells[i - 1].entry.value.token, rest);
      }
    }
  }

  // The roots invalidation hands over are the owner's blocks, each once.
  lemma SweptPointers<T>(t: Table<Pointer<T>>, owner: Owner, roots: Roots)
    requires Backed(t, owner, roots) && t.hooked && !t.invalidated
    ensures var ps := InvalidationCalls(t);
            && (forall k :: OwnedBy(roots, k, owner) <==> Points(ps, k))
            && Distinct(ps)
  {
    DistinctDown(t, owner, roots, |t.cells|);
    hide TokensDown, Live, OwnedBy, Distinct;
    var ps := InvalidationCalls(t);
    forall k | OwnedBy(roots, k, owner) ensures Points(ps, k) {
      assert HeldIn(t, k);
      var h :| h in Live(t) && Live(t)[h].token.address == k;
      InvalidationTakesLive(t, Live(t)[h].token);
      var i :| 0 <= i < |ps| && ps[i] == Live(t)[h].token;
      assert ps[i].address == k;
    }
    forall k | Points(ps, k) ensures OwnedBy(roots, k, owner) {
      var i :| 0 <= i < |ps| && ps[i].address == k;
      InvalidationTakesLive(t, ps[i]);
      assert ps[i] in ps;
      var h :| h in Live(t) && Live(t)[h].token == ps[i];
    }
  }

  // Invalidation deletes the roots of all live handles, once each, and no other block.
  lemma SweptRoots<T>(t: Table<Pointer<T>>, t': Table<Pointer<T>>, owner: Owner, roots: Roots)
    requires Backed(t, owner, roots) && HeapOK(roots) && t.hooked && !t.invalidated && Live(t') == map[]
    ensures var roots' := FreeAll(roots, InvalidationCalls(t));
            && HeapOK(roots') && Backed(t', owner, roots')
            && (forall o :: o != owner ==> SameFor(o, roots, roots'))
            && (forall k :: k in roots'.blocks ==> k in roots.blocks && roots'.blocks[k] == roots.blocks[k])
  {
    SweptPointers(t, owner, roots);
    hide InvalidationCalls, Live, HeapOK, Backed, FreeAll, Points;
    DeletedRoots(roots, InvalidationCalls(t), owner);
    NothingBacked(t', owner, FreeAll(roots, InvalidationCalls(t)));
  }

  lemma DeletedRoots<T>(roots: Roots, ps: seq<Pointer<T>>, owner: Owner)
    requires HeapOK(roots) && forall k :: OwnedBy(roots, k, owner) <==> Points(ps, k)
    requires Distinct(ps)
    ensures var roots' := FreeAll(roots, ps);
            && HeapOK(roots') && (forall k :: !OwnedBy(roots', k, owner))
            && (forall o :: o != owner ==> SameFor(o, roots, roots'))
            && (forall k :: k in roots'.blocks ==> k in roots.blocks && roots'.blocks[k] == roots.blocks[k])
  {
    hide HeapOK, FreeAll;
    forall i | 0 <= i < |ps| ensures ps[i].address in roots.blocks { assert Points(ps, ps[i].address); }
    hide Points;
    FreeAllKeeps(roots, ps);
  }

  // ----- one realm -----

  ghost predicate RealmRoots(r: Realm, roots: Roots, rid: nat) {
    && HeapOK(roots)
    && Backed(r.nodes, NodeRootOf(rid), roots)
    && Backed(r.subs, SubscriptionRootOf(rid), roots)
  }

  // Calls into realm `rid` touch no other realm's roots, and allocate for it only.
  ghost predicate RootsTouch(rid: nat, roots: Roots, roots': Roots) {
    && (forall o: Owner :: o.realm != rid ==> SameFor(o, roots, roots'))
    && (forall k :: k in roots'.blocks ==>
          roots'.blocks[k].realm == rid || (k in roots.blocks && roots'.blocks[k] == roots.blocks[k]))
  }

  lemma RootsSame(rid: nat, roots: Roots, roots': Roots)
    requires roots'.blocks == roots.blocks
    ensures RootsTouch(rid, roots, roots') && forall o :: SameFor(o, roots, roots')
  {
  }

  lemma MallocTouches(rid: nat, roots: Roots, owner: Owner)
    requires HeapOK(roots) && owner.realm == rid
    ensures var roots' := Malloc(roots, owner);
            HeapOK(roots') && RootsTouch(rid, roots, roots') && forall o :: o != owner ==> SameFor(o, roots, roots')
  {
    MallocKeeps(roots, owner);
    hide HeapOK;
  }

  lemma FreeTouches(rid: nat, roots: Roots, owner: Owner, k: nat)
    requires HeapOK(roots) && owner.realm == rid && OwnedBy(roots, k, owner)
    ensures var roots' := Free(roots, Some(k));
            HeapOK(roots') && RootsTouch(rid, roots, roots') && forall o :: o != owner ==> SameFor(o, roots, roots')
  {
    FreeKeeps(roots, Some(k));
    hide HeapOK;
  }

  lemma InternRoots(s: Site, rid: nat, dom: Dom, node: Option<nat>, c: InternChoices)
    requires Inv(s.realm.nodes) && Interned(s.realm.nodes, dom) && RealmRoots(s.realm, s.roots, rid)
    requires node.Some? ==> node.value < |dom.classes|
    ensures var r := Intern(s.realm.nodes, s.roots, rid, dom, node, c);
            && RealmRoots(s.realm.(nodes := r.nodes), r.roots, rid)
            && RootsTouch(rid, s.roots, r.roots)
  {
    hide Inv, Interned, Live, Intern, TypeOf, HeapOK, Backed, SameFor, RootsTouch, Malloc;
    InternLaw(s.realm.nodes, s.roots, rid, dom, node, c);
    var r := Intern(s.realm.nodes, s.roots, rid, dom, node, c);
    var owner := NodeRootOf(rid);
    if r.status != Ok {
      RootsSame(rid, s.roots, r.roots);
      BackedFrame(s.realm.nodes, owner, s.roots, r.roots);
      BackedFrame(s.realm.subs, SubscriptionRootOf(rid), s.roots, r.roots);
    } else if r.handle in Live(s.realm.nodes) {
      RootsSame(rid, s.roots, r.roots);
      BackedRecount(s.realm.nodes, r.nodes, owner, s.roots, r.handle, Live(s.realm.nodes)[r.handle].references + 1);
    } else {
      MallocTouches(rid, s.roots, owner);
      BackedInsert(s.realm.nodes, r.nodes, owner, s.roots, r.handle, Live(r.nodes)[r.handle]);
      BackedFrame(s.realm.subs, SubscriptionRootOf(rid), s.roots, r.roots);
    }
  }

  lemma ReleaseRoots(s: Site, rid: nat, h: Handle)
    requires SiteOK(s, rid) && s.realm.alive && RealmRoots(s.realm, s.roots, rid)
    ensures var r := ReleaseNode(s.realm.nodes, s.blink, s.roots, rid, h);
            && RealmRoots(s.realm.(nodes := r.nodes), r.roots, rid)
            && RootsTouch(rid, s.roots, r.roots)
  {
    hide SiteOK, Inv, Interned, Live, ReleaseNode, HeapOK, Backed, SameFor, RootsTouch, Free, OwnedBy;
    SiteInterned(s, rid);
    NodesHooked(s, rid);
    ReleaseNodeLaw(s.realm.nodes, s.blink.dom, s.blink, s.roots, rid, h);
    RootsSame(rid, s.roots, s.roots);
    var r := ReleaseNode(s.realm.nodes, s.blink, s.roots, rid, h);
    var owner := NodeRootOf(rid);
    if r.status == Ok {
      var e := Live(s.realm.nodes)[h];
      if e.references > 1 {
        BackedRecount(s.realm.nodes, r.nodes, owner, s.roots, h, e.references - 1);
      } else {
        BackedOne(s.realm.nodes, owner, s.roots, h);
        FreeTouches(rid, s.roots, owner, e.token.address);
        BackedRemove(s.realm.nodes, r.nodes, owner, s.roots, h);
        BackedFrame(s.realm.subs, SubscriptionRootOf(rid), s.roots, r.roots);
      }
    }
  }

  lemma NodesHooked(s: Site, rid: nat)
    requires SiteOK(s, rid) && s.realm.alive
    ensures s.realm.nodes.hooked && s.realm.subs.hooked && !s.realm.nodes.invalidated && !s.realm.subs.invalidated
  {
    hide BlinkOK, Linked, Inv, Interned, Dead, Bare, Gone;
  }

  lemma BackedOne<T>(t: Table<Pointer<T>>, owner: Owner, roots: Roots, h: Handle)
    requires Backed(t, owner, roots) && h in Live(t)
    ensures OwnedBy(roots, Live(t)[h].token.address, owner)
  {
    hide Live, HeldIn;
  }

  lemma RetainRoots(s: Site, rid: nat, h: Handle)
    requires SiteOK(s, rid) && s.realm.alive && RealmRoots(s.realm, s.roots, rid)
    ensures RealmRoots(s.realm.(nodes := Retain(s.realm.nodes, h).table), s.roots, rid)
  {
    hide SiteOK, Inv, Interned, Live, Retain, HeapOK, Backed;
    SiteInterned(s, rid);
    RetainLaw(s.realm.nodes, h);
    var o := Retain(s.realm.nodes, h);
    if o.status == Ok {
      BackedRecount(s.realm.nodes, o.table, NodeRootOf(rid), s.roots, h, Live(s.realm.nodes)[h].references + 1);
    }
  }

  lemma CreateRoots(s: Site, rid: nat, b: Blink, target: nat, eventType: string, l: nat, c: CreateChoices)
    requires SiteOK(s, rid) && s.realm.alive && RealmRoots(s.realm, s.roots, rid)
    requires BlinkOK(b) && Linked(s.realm.subs, rid, b) && FreshListener(b, l, rid) && b.trace == s.blink.trace
    ensures var r := CreateSubscription(s.realm.subs, b, s.roots, rid, target, eventType, l, c);
            && RealmRoots(s.realm.(subs := r.subs), r.roots, rid)
            && RootsTouch(rid, s.roots, r.roots)
  {
    hide SiteOK, Inv, Live, CreateSubscription, HeapOK, Backed, SameFor, RootsTouch, Malloc, BlinkOK, Linked, Dead,
         Bare,
         Gone, PointsTo, FreshListener;
    SiteSubs(s, rid);
    CreateLaw(s.realm.subs, b, s.roots, rid, target, eventType, l, c);
    var r := CreateSubscription(s.realm.subs, b, s.roots, rid, target, eventType, l, c);
    var owner := SubscriptionRootOf(rid);
    if r.status != Ok {
      RootsSame(rid, s.roots, r.roots);
      BackedFrame(s.realm.nodes, NodeRootOf(rid), s.roots, r.roots);
      BackedFrame(s.realm.subs, owner, s.roots, r.roots);
    } else {
      MallocTouches(rid, s.roots, owner);
      BackedInsert(s.realm.subs, r.subs, owner, s.roots, r.handle, Live(r.subs)[r.handle]);
      BackedFrame(s.realm.nodes, NodeRootOf(rid), s.roots, r.roots);
    }
  }

  lemma DisposeRoots(s: Site, rid: nat, h: Handle)
    requires SiteOK(s, rid) && s.realm.alive && RealmRoots(s.realm, s.roots, rid)
    ensures var r := DisposeSubscription(s.realm.subs, s.blink, s.roots, rid, h);
            && RealmRoots(s.realm.(subs := r.subs), r.roots, rid)
            && RootsTouch(rid, s.roots, r.roots)
  {
    hide SiteOK, Inv, Live, DisposeSubscription, HeapOK, Backed, SameFor, RootsTouch, Free, BlinkOK, Linked, Dead, Bare,
         Gone, PointsTo, OwnedBy;
    SiteSubs(s, rid);
    SiteLinked(s, rid);
    DisposeLaw(s.realm.subs, s.blink, s.roots, rid, h);
    RootsSame(rid, s.roots, s.roots);
    var r := DisposeSubscription(s.realm.subs, s.blink, s.roots, rid, h);
    var owner := SubscriptionRootOf(rid);
    if r.status == Ok {
      BackedOne(s.realm.subs, owner, s.roots, h);
      FreeTouches(rid, s.roots, owner, Live(s.realm.subs)[h].token.address);
      BackedRemove(s.realm.subs, r.subs, owner, s.roots, h);
      BackedFrame(s.realm.nodes, NodeRootOf(rid), s.roots, r.roots);
    }
  }

  lemma SiteLinked(s: Site, rid: nat)
    requires SiteOK(s, rid)
    ensures BlinkOK(s.blink) && Linked(s.realm.subs, rid, s.blink)
  {
  }

  // ----- every call -----

  lemma ElementRoots(s: Site, rid: nat, cls: ElementKind, c: InternChoices)
    requires Inv(s.realm.nodes) && Interned(s.realm.nodes, s.blink.dom) && RealmRoots(s.realm, s.roots, rid)
    requires |s.blink.dom.parent| == |s.blink.dom.children| == |s.blink.dom.classes|
    ensures var dom := CreateElement(s.blink.dom, cls);
            var r := Intern(s.realm.nodes, s.roots, rid, dom, Some(|s.blink.dom.classes|), c);
            RealmRoots(s.realm.(nodes := r.nodes), r.roots, rid) && RootsTouch(rid, s.roots, r.roots)
  {
    hide Inv, Interned, Intern, RealmRoots, RootsTouch, CreateElement;
    NewNode(s.blink.dom, cls);
    InternedGrows(s.realm.nodes, s.blink.dom, CreateElement(s.blink.dom, cls));
    InternRoots(s, rid, CreateElement(s.blink.dom, cls), Some(|s.blink.dom.classes|), c);
  }

  lemma ListenerRoots(s: Site, rid: nat, call: Call)
    requires SiteOK(s, rid) && s.realm.alive && RealmRoots(s.realm, s.roots, rid) && call.WebAddEventListener?
    ensures var r := Perform(s, rid, true, call);
            RealmRoots(r.site.realm, r.site.roots, rid) && RootsTouch(rid, s.roots, r.site.roots)
  {
    hide SiteOK, Perform, RealmRoots, RootsTouch, ResolveNode, CreateSubscription, BlinkOK, Linked, FreshListener,
         PointsTo;
    RootsSame(rid, s.roots, s.roots);
    Opened(s, rid, call);
    ListenerAllocated(s, rid, call.callback);
    var n := ResolveNode(s.realm.nodes, call.target, NODE);
    var b := s.blink.(listeners := s.blink.listeners + [Listener(Some(rid), call.callback)]);
    CreateRoots(s, rid, b, n.node, call.eventType, |s.blink.listeners|, call.create);
  }

  lemma PerformRoots(s: Site, rid: nat, current: bool, call: Call)
    requires SiteOK(s, rid) && !s.realm.freed && RealmRoots(s.realm, s.roots, rid)
    ensures var r := Perform(s, rid, current, call);
            RealmRoots(r.site.realm, r.site.roots, rid) && RootsTouch(rid, s.roots, r.site.roots)
  {
    hide SiteOK, Perform, RealmRoots, RootsTouch, Inv, Interned, Intern, ResolveNode, CreateElement, IsA, AppendGuard,
         DoAddEventListener, DisposeSubscription, ReleaseNode, Retain, ReplaceText, Forest;
    RootsSame(rid, s.roots, s.roots);
    if !(current && s.realm.alive) {
      Gated(s, rid, current, call);
    } else {
      Opened(s, rid, call);
      SiteInterned(s, rid);
      SiteForest(s, rid);
      match call
      case WebDocument(c) => InternRoots(s, rid, s.blink.dom, s.realm.document, c);
      case WebBody(h, c) =>
        var d := ResolveNode(s.realm.nodes, h, DOCUMENT).node;
        if d in s.blink.bodies { InternRoots(s, rid, s.blink.dom, Some(s.blink.bodies[d]), c); }
      case WebCreateElement(_, _, _, cls, c) => if cls.Some? { ElementRoots(s, rid, cls.value, c); }
      case WebAddEventListener(_, _, _, _, _) => ListenerRoots(s, rid, call);
      case WebDispose(h) => DisposeRoots(s, rid, h);
      case WebRetain(h) => RetainRoots(s, rid, h);
      case WebRelease(h) => ReleaseRoots(s, rid, h);
      case _ => // the tree only
    }
  }

  // ----- teardown -----

  lemma TouchTrans(rid: nat, a: Roots, b: Roots, c: Roots)
    requires RootsTouch(rid, a, b) && RootsTouch(rid, b, c)
    ensures RootsTouch(rid, a, c)
  {
    hide OwnedBy;
    forall o: Owner | o.realm != rid ensures SameFor(o, a, c) {
      assert SameFor(o, a, b) && SameFor(o, b, c);
    }
  }

  lemma SweptTouches(rid: nat, owner: Owner, roots: Roots, roots': Roots)
    requires owner.realm == rid && forall o :: o != owner ==> SameFor(o, roots, roots')
    requires forall k :: k in roots'.blocks ==> k in roots.blocks && roots'.blocks[k] == roots.blocks[k]
    ensures RootsTouch(rid, roots, roots')
  {
    hide SameFor;
  }

  lemma InvalidateRoots(s: Site, rid: nat)
    requires SiteOK(s, rid) && !s.realm.freed && RealmRoots(s.realm, s.roots, rid)
    ensures var s' := InvalidateRealm(s, rid);
            RealmRoots(s'.realm, s'.roots, rid) && RootsTouch(rid, s.roots, s'.roots)
  {
    RootsSame(rid, s.roots, s.roots);
    if s.realm.alive {
      NodesHooked(s, rid);
      InvalidatedTables(s, rid);
      hide SiteOK, Inv, Live, HeapOK, Backed, SameFor, RootsTouch, InvalidationCalls, FreeAll, CancelAll, DropAll,
           Invalidate;
      var nodes, subs := s.realm.nodes, s.realm.subs;
      var n, o := NodeRootOf(rid), SubscriptionRootOf(rid);
      var roots1 := FreeAll(s.roots, InvalidationCalls(subs));
      var roots2 := FreeAll(roots1, InvalidationCalls(nodes));
      SweptRoots(subs, Invalidate(subs), o, s.roots);
      SweptTouches(rid, o, s.roots, roots1);
      BackedFrame(nodes, n, s.roots, roots1);
      SweptRoots(nodes, Invalidate(nodes), n, roots1);
      SweptTouches(rid, n, roots1, roots2);
      BackedFrame(Invalidate(subs), o, roots1, roots2);
      TouchTrans(rid, s.roots, roots1, roots2);
    }
  }

  lemma FreeRoots(s: Site, rid: nat)
    requires SiteOK(s, rid) && !s.realm.freed && RealmRoots(s.realm, s.roots, rid)
    ensures var s' := FreeRealm(s, rid);
            RealmRoots(s'.realm, s'.roots, rid) && RootsTouch(rid, s.roots, s'.roots)
  {
    FreeKeepsSite(s, rid);
    InvalidateRoots(s, rid);
    InvalidateKeepsSite(s, rid);
    hide SiteOK, InvalidateRealm, DestroyCalls, Destroy, Live, Backed, HeapOK, RootsTouch, Touches, NoneAttached,
         PointsTo;
    var s1 := InvalidateRealm(s, rid);
    assert FreeRealm(s, rid).roots == s1.roots;
    EmptyBacked(s1.realm.nodes, Destroy(s1.realm.nodes), NodeRootOf(rid), s1.roots);
    EmptyBacked(s1.realm.subs, Destroy(s1.realm.subs), SubscriptionRootOf(rid), s1.roots);
  }

  lemma EmptyBacked<T>(t: Table<Pointer<T>>, t': Table<Pointer<T>>, owner: Owner, roots: Roots)
    requires Backed(t, owner, roots) && Live(t) == map[] && Live(t') == map[]
    ensures Backed(t', owner, roots)
  {
    hide Live;
    forall k ensures !OwnedBy(roots, k, owner) { assert OwnedBy(roots, k, owner) ==> HeldIn(t, k); }
  }

  // ----- the world -----

  ghost predicate WorldRoots(w: World) {
    && HeapOK(w.roots)
    && (forall i :: 0 <= i < |w.realms| ==> RealmRoots(w.realms[i], w.roots, i))
    && (forall k :: k in w.roots.blocks ==> w.roots.blocks[k].realm < |w.realms|)
  }

  lemma OtherRoots(r: Realm, j: nat, rid: nat, roots: Roots, roots': Roots)
    requires RealmRoots(r, roots, j) && RootsTouch(rid, roots, roots') && HeapOK(roots') && j != rid
    ensures RealmRoots(r, roots', j)
  {
    hide Backed, SameFor, HeapOK;
    BackedFrame(r.nodes, NodeRootOf(j), roots, roots');
    BackedFrame(r.subs, SubscriptionRootOf(j), roots, roots');
  }

  lemma PutRoots(w: World, rid: nat, s: Site)
    requires WorldRoots(w) && rid < |w.realms|
    requires RealmRoots(s.realm, s.roots, rid) && RootsTouch(rid, w.roots, s.roots)
    ensures WorldRoots(WithSite(w, rid, s))
  {
    InRange(w, rid, s.roots);
    assert HeapOK(s.roots);
    hide RealmRoots, RootsTouch, HeapOK;
    forall i | 0 <= i < |w.realms| && i != rid ensures RealmRoots(w.realms[i], s.roots, i) {
      OtherRoots(w.realms[i], i, rid, w.roots, s.roots);
    }
  }

  lemma InRange(w: World, rid: nat, roots: Roots)
    requires WorldRoots(w) && rid < |w.realms| && RootsTouch(rid, w.roots, roots)
    ensures forall k :: k in roots.blocks ==> roots.blocks[k].realm < |w.realms|
  {
    hide RealmRoots, SameFor, HeapOK;
  }

  lemma NewRoots(w: World, document: nat, dispatch: bool)
    requires WorldRoots(w)
    ensures RealmRoots(NewRealm(document, dispatch), w.roots, |w.realms|)
  {
    EmptyLaw<NodePointer>(true);
    EmptyLaw<RootPointer>(true);
    hide Live, HeapOK, Backed;
    NothingBacked(Empty<NodePointer>(true), NodeRootOf(|w.realms|), w.roots);
    NothingBacked(Empty<RootPointer>(true), SubscriptionRootOf(|w.realms|), w.roots);
  }

  lemma NextRoots(w: World, step: WorldStep)
    requires WorldOK(w) && WorldRoots(w)
    ensures WorldRoots(Next(w, step))
  {
    hide SiteOK, BlinkOK, Dead, Bare, Gone, PointsTo, Perform, InvalidateRealm, FreeRealm, RealmRoots, RootsTouch,
         HeapOK;
    match step
    case CreateRealm(document, dispatch, _) => if document.Some? { NewRoots(w, document.value, dispatch); }
    case CallRealm(rid, current, call) =>
      if Exists(w, rid) {
        assert SiteOK(SiteAt(w, rid), rid);
        PerformRoots(SiteAt(w, rid), rid, current, call);
        PutRoots(w, rid, Perform(SiteAt(w, rid), rid, current, call).site);
      }
    case InvalidateWebRealm(rid) => if Exists(w, rid) { EndRoots(w, rid); }
    case DestroyWebRealm(rid) => if Exists(w, rid) { EndRoots(w, rid); }
    case ContextDestroyed(o) => if o < |w.observers| && w.observers[o].Some? { EndRoots(w, o); }
    case _ =>
  }

  lemma EndRoots(w: World, rid: nat)
    requires WorldOK(w) && WorldRoots(w) && Exists(w, rid)
    ensures WorldRoots(WithSite(w, rid, InvalidateRealm(SiteAt(w, rid), rid)))
    ensures WorldRoots(WithSite(w, rid, FreeRealm(SiteAt(w, rid), rid)))
  {
    hide SiteOK, BlinkOK, Dead, Bare, Gone, PointsTo, InvalidateRealm, FreeRealm, RealmRoots, RootsTouch, HeapOK;
    assert SiteOK(SiteAt(w, rid), rid);
    InvalidateRoots(SiteAt(w, rid), rid);
    PutRoots(w, rid, InvalidateRealm(SiteAt(w, rid), rid));
    FreeRoots(SiteAt(w, rid), rid);
    PutRoots(w, rid, FreeRealm(SiteAt(w, rid), rid));
  }

  lemma {:induction false} RunRoots(w: World, steps: seq<WorldStep>)
    requires WorldOK(w) && WorldRoots(w)
    ensures WorldRoots(RunWorld(w, steps))
    decreases |steps|
  {
    hide WorldOK, WorldRoots, Next;
    if steps == [] {
    } else {
      NextKeeps(w, steps[0]);
      NextRoots(w, steps[0]);
      RunRoots(Next(w, steps[0]), steps[1..]);
    }
  }

  lemma StartRoots(w0: World)
    requires Initial(w0)
    ensures WorldRoots(w0)
  {
    FreshKeeps<Owner>();
  }

  // ----- the theorem -----

  // The live handle h of a registry of a realm holds root k.
  ghost predicate Holds(w: World, o: Owner, h: Handle, k: nat) {
    && o.realm < |w.realms|
    && match o
       case NodeRootOf(rid) => h in Live(w.realms[rid].nodes) && Live(w.realms[rid].nodes)[h].token.address == k
       case SubscriptionRootOf(rid) => h in Live(w.realms[rid].subs) && Live(w.realms[rid].subs)[h].token.address == k
  }

  // Over every run: no root is deleted that is not there; every root ever allocated either
  // is the token of exactly one live handle of exactly one registry, or was deleted exactly
  // once. No branch of any call leaks one.
  lemma RootsExact(w0: World, steps: seq<WorldStep>, k: nat)
    requires Initial(w0)
    ensures var w := RunWorld(w0, steps);
            && !w.roots.fault
            && (k in w.roots.blocks <==> exists o, h :: Holds(w, o, h, k))
            && (forall o, p, g, h :: Holds(w, o, g, k) && Holds(w, p, h, k) ==> o == p && g == h)
            && (k < w.roots.mallocs ==>
                  multiset(w.roots.freed)[k] == if exists o, h :: Holds(w, o, h, k) then 0 else 1)
  {
    hide RunWorld, WorldOK, Initial, Holds;
    InitialOK(w0);
    StartRoots(w0);
    RunRoots(w0, steps);
    HeldRoots(RunWorld(w0, steps), k);
  }

  lemma HeldRoots(w: World, k: nat)
    requires WorldRoots(w)
    ensures k in w.roots.blocks <==> exists o, h :: Holds(w, o, h, k)
    ensures forall o, p, g, h :: Holds(w, o, g, k) && Holds(w, p, h, k) ==> o == p && g == h
  {
    hide Live, HeapOK;
    forall o, h | Holds(w, o, h, k) ensures OwnedBy(w.roots, k, o) {
      assert RealmRoots(w.realms[o.realm], w.roots, o.realm);
    }
    if k in w.roots.blocks {
      var o := w.roots.blocks[k];
      assert RealmRoots(w.realms[o.realm], w.roots, o.realm) && OwnedBy(w.roots, k, o);
      HolderOf(w, o, k);
    }
    forall o, g, h | Holds(w, o, g, k) && Holds(w, o, h, k) ensures g == h {
      assert RealmRoots(w.realms[o.realm], w.roots, o.realm);
    }
  }

  lemma HolderOf(w: World, o: Owner, k: nat)
    requires o.realm < |w.realms| && RealmRoots(w.realms[o.realm], w.roots, o.realm) && OwnedBy(w.roots, k, o)
    ensures exists h :: Holds(w, o, h, k)
  {
    hide Live, HeapOK;
    var r := w.realms[o.realm];
    match o
    case NodeRootOf(_) =>
      var h :| h in Live(r.nodes) && Live(r.nodes)[h].token.address == k;
      assert Holds(w, o, h, k);
    case SubscriptionRootOf(_) =>
      var h :| h in Live(r.subs) && Live(r.subs)[h].token.address == k;
      assert Holds(w, o, h, k);
  }
}
