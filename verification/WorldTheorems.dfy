/** What holds in every reachable world: statements over every interleaving of calls, events,
    disposals, navigations, context destructions and realm destructions. */
module WorldTheorems {
  import opened Abi
  import opened Heaps
  import opened TableSpec
  import opened TableInvariant
  import opened TableTheorems
  import opened HandleMap
  import opened TableLaws
  import opened WebTypes
  import opened Doms
  import opened Bridge
  import opened BridgeInvariant
  import opened RegistryLaws
  import opened SiteLaws
  import opened Teardown
  import opened Worlds
  import opened CapsuleLaws

  lemma ReachableOK(w0: World, steps: seq<WorldStep>)
    requires Initial(w0)
    ensures WorldOK(RunWorld(w0, steps))
  {
    hide WorldOK, Initial;
    InitialOK(w0);
    RunKeeps(w0, steps);
  }

  // ----- events -----

  // The subscription a listener serves, in a realm that may be called back now.
  ghost predicate MayDispatch(w: World, l: nat, rid: nat, context: Option<nat>) {
    && Exists(w, rid)
    && w.realms[rid].alive && w.realms[rid].dispatch
    && PointsTo(w.blink, l, rid)
    && HasSub(w.realms[rid].subs, l)
    && context.Some? && w.realms[rid].document.Some?
    && w.realms[rid].document.value in w.blink.contexts
    && w.blink.contexts[w.realms[rid].document.value] == context.value
  }

  // No late dispatch. Whenever Blink invokes a listener, after removal, after the realm died
  // or was freed, nothing dangling is followed; the dispatcher runs exactly when the
  // listener's subscription is live, its realm is alive and the context is the document's.
  lemma NoLateDispatch(w0: World, steps: seq<WorldStep>, l: nat, context: Option<nat>, hasEvent: bool)
    requires Initial(w0)
    ensures var w := RunWorld(w0, steps);
            var w' := Next(w, Event(l, context, hasEvent));
            && !w'.fault && w'.realms == w.realms
            && (w'.blink != w.blink <==> hasEvent && exists rid :: MayDispatch(w, l, rid, context))
            && (forall rid :: hasEvent && MayDispatch(w, l, rid, context) ==>
                  w'.blink == Log(w.blink, Dispatched(l, rid)))
  {
    hide WorldOK, Initial, RunWorld, DoEvent, MayDispatch;
    ReachableOK(w0, steps);
    var w := RunWorld(w0, steps);
    EventOutcome(w, l, context, hasEvent);
  }

  lemma EventOutcome(w: World, l: nat, context: Option<nat>, hasEvent: bool)
    requires WorldOK(w)
    ensures var w' := DoEvent(w, l, context, hasEvent);
            && !w'.fault && w'.realms == w.realms
            && (w'.blink != w.blink <==> hasEvent && exists rid :: MayDispatch(w, l, rid, context))
            && (forall rid :: hasEvent && MayDispatch(w, l, rid, context) ==>
                  w'.blink == Log(w.blink, Dispatched(l, rid)))
  {
    hide SiteOK, BlinkOK, Dead, Bare, Gone;
    if l in w.blink.accepted && l < |w.blink.listeners| && w.blink.listeners[l].realm.Some? {
      var rid := w.blink.listeners[l].realm.value;
      assert PointsTo(w.blink, l, rid);
      assert SiteOK(SiteAt(w, rid), rid);
      PointerMeansLive(SiteAt(w, rid), rid, l);
      assert forall r :: MayDispatch(w, l, r, context) ==> r == rid;
      assert Log(w.blink, Dispatched(l, rid)).trace != w.blink.trace;
      assert Dispatches(SiteAt(w, rid), context) <==> MayDispatch(w, l, rid, context);
    }
  }

  // Every effect on record was allowed by what came before it: a listener is cancelled once
  // for each time it was registered, dispatches go only to attached listeners of realms not
  // yet invalidated, no node root or document root of a dying realm is dropped while a
  // listener is attached, and no realm freed before its document was dropped.
  lemma TraceInOrder(w0: World, steps: seq<WorldStep>, k: nat)
    requires Initial(w0) && k < |RunWorld(w0, steps).blink.trace|
    ensures var trace := RunWorld(w0, steps).blink.trace;
            Allowed(trace[..k], trace[k])
  {
    hide Allowed, Initial, SiteOK;
    ReachableOK(w0, steps);
    OrderedAt(RunWorld(w0, steps).blink.trace, k);
  }

  // What a dying realm may still do gets less and less: once a node root was dropped after
  // the invalidation, only node roots, the document root and the memory are left to go; once
  // the document root was dropped, only the memory; after that, nothing.
  lemma LastRites(w0: World, steps: seq<WorldStep>, i: nat, j: nat, k: nat, rid: nat)
    requires Initial(w0) && i < j < k < |RunWorld(w0, steps).blink.trace|
    ensures var trace := RunWorld(w0, steps).blink.trace;
            && (trace[i] == Effect.Invalidated(rid) && trace[j].DroppedNode?
                && trace[j].realm == trace[k].realm == rid ==>
                  trace[k].DroppedNode? || trace[k].DroppedDocument? || trace[k].Freed?)
            && (trace[j] == DroppedDocument(rid) && trace[k].realm == rid ==> trace[k] == Freed(rid))
            && (trace[j] == Freed(rid) ==> trace[k].realm != rid)
  {
    hide Allowed, Initial, SiteOK;
    ReachableOK(w0, steps);
    var trace := RunWorld(w0, steps).blink.trace;
    hide RunWorld, Ordered;
    OrderedAt(trace, j);
    OrderedAt(trace, k);
    assert trace[j] == trace[..k][j];
    AllowedLate(trace[..k], trace[k], rid);
    AllowedLate(trace[..j], trace[j], rid);
    if trace[i] == Effect.Invalidated(rid) && trace[j].DroppedNode? && trace[j].realm == rid {
      assert trace[i] == trace[..j][i] == trace[..k][i];
      StaysUnattached(trace, j, k, rid);
    }
  }

  lemma AllowedLate(before: seq<Effect>, e: Effect, rid: nat)
    requires Allowed(before, e)
    ensures e.DroppedNode? && e.realm == rid && Dead(before, rid) ==> NoneAttached(before, rid)
    ensures Dead(before, rid) && NoneAttached(before, rid) && e.realm == rid ==>
              e.DroppedNode? || e.DroppedDocument? || e.Freed?
    ensures Bare(before, rid) && e.realm == rid ==> e == Freed(rid)
    ensures Gone(before, rid) ==> e.realm != rid
  {
  }

  // A dead realm registers no listener.
  lemma {:induction false} StaysUnattached(trace: seq<Effect>, j: nat, k: nat, rid: nat)
    requires Ordered(trace) && j <= k <= |trace| && Dead(trace[..j], rid) && NoneAttached(trace[..j], rid)
    ensures Dead(trace[..k], rid) && NoneAttached(trace[..k], rid)
  {
    if j == k {
    } else {
      StaysUnattached(trace, j, k - 1, rid);
      OrderedAt(trace, k - 1);
      assert trace[..k] == trace[..k - 1] + [trace[k - 1]];
      Append(trace[..k - 1], trace[k - 1]);
    }
  }

  // ----- subscriptions -----

  // The registration r is that of the live subscription h of realm rid.
  ghost predicate Owns(w: World, rid: nat, h: Handle, r: Registration) {
    && Exists(w, rid) && h in Live(w.realms[rid].subs)
    && RegistrationOf(Live(w.realms[rid].subs)[h].token.at) == r
  }

  // What Blink has of the bridge's now.
  function Registered(w: World): set<Registration> {
    w.blink.registrations - w.lost
  }

  // Blink can only lose what it had accepted, so never a registration still to come.
  ghost predicate LostAccepted(w: World) {
    forall r :: r in w.lost ==> r.listener in w.blink.accepted
  }

  lemma NextAccepts(w: World, step: WorldStep)
    requires WorldOK(w)
    ensures w.blink.accepted <= Next(w, step).blink.accepted
    ensures Next(w, step).lost == w.lost || (step.Unregister? && Next(w, step).lost == w.lost + {step.registration}
                                             && step.registration in w.blink.registrations)
  {
    hide SiteOK, BlinkOK, Dead, Bare, Gone, PointsTo, Perform, InvalidateRealm, FreeRealm, Touches, Emptied;
    match step
    case CallRealm(r, current, call) =>
      if Exists(w, r) {
        SiteThere(w, r);
        PerformAccepts(SiteAt(w, r), r, current, call);
      }
    case InvalidateWebRealm(r) =>
      if Exists(w, r) {
        SiteThere(w, r);
        InvalidateAccepts(SiteAt(w, r), r);
      }
    case DestroyWebRealm(r) =>
      if Exists(w, r) {
        SiteThere(w, r);
        FreeAccepts(SiteAt(w, r), r);
      }
    case ContextDestroyed(o) =>
      if o < |w.observers| && w.observers[o].Some? {
        SiteThere(w, o);
        InvalidateAccepts(SiteAt(w, o), o);
      }
    case _ =>
  }

  lemma SiteThere(w: World, rid: nat)
    requires WorldOK(w) && rid < |w.realms|
    ensures SiteOK(SiteAt(w, rid), rid)
  {
    hide SiteOK, BlinkOK, Begun, PointsTo;
  }

  lemma PerformAccepts(s: Site, rid: nat, current: bool, call: Call)
    requires SiteOK(s, rid) && !s.realm.freed
    ensures s.blink.accepted <= Perform(s, rid, current, call).site.blink.accepted
  {
    hide SiteOK, Perform, SamePhase, PointsTo;
    PerformKeeps(s, rid, current, call);
  }

  lemma InvalidateAccepts(s: Site, rid: nat)
    requires SiteOK(s, rid) && !s.realm.freed
    ensures s.blink.accepted <= InvalidateRealm(s, rid).blink.accepted
  {
    hide SiteOK, InvalidateRealm, SamePhase, PointsTo, Emptied;
    InvalidateKeepsSite(s, rid);
  }

  lemma FreeAccepts(s: Site, rid: nat)
    requires SiteOK(s, rid) && !s.realm.freed
    ensures s.blink.accepted <= FreeRealm(s, rid).blink.accepted
  {
    hide SiteOK, FreeRealm, InvalidateRealm, SamePhase, PointsTo, Emptied, DestroyCalls;
    FreeKeepsSite(s, rid);
  }

  lemma {:induction false} RunLoses(w: World, steps: seq<WorldStep>)
    requires WorldOK(w) && LostAccepted(w)
    ensures LostAccepted(RunWorld(w, steps))
    decreases |steps|
  {
    hide WorldOK;
    if steps == [] {
    } else {
      NextKeeps(w, steps[0]);
      NextAccepts(w, steps[0]);
      if steps[0].Unregister? { RegisteredAccepted(w, steps[0].registration); }
      hide Next;
      RunLoses(Next(w, steps[0]), steps[1..]);
    }
  }

  lemma RegisteredAccepted(w: World, r: Registration)
    requires WorldOK(w)
    ensures r in w.blink.registrations ==> r.listener in w.blink.accepted
  {
    hide SiteOK, Forest, Attached, Ordered, Begun;
  }

  // The listeners registered in Blink are exactly the roots of the live subscriptions, one
  // each, except for those it dropped by itself, and a root is held by one reference.
  lemma SubscriptionsExact(w0: World, steps: seq<WorldStep>)
    requires Initial(w0)
    ensures var w := RunWorld(w0, steps);
            && (forall r :: r in Registered(w) <==> r !in w.lost && exists rid, h :: Owns(w, rid, h, r))
            && (forall r :: r in w.lost ==> r.listener in w.blink.accepted)
            && (forall r, i, j, g, h :: Owns(w, i, g, r) && Owns(w, j, h, r) ==> i == j && g == h)
            && (forall rid: nat, h :: Exists(w, rid) && h in Live(w.realms[rid].subs) ==>
                  Live(w.realms[rid].subs)[h].references == 1 && Live(w.realms[rid].subs)[h].token.at.active)
  {
    InitialOK(w0);
    RunLoses(w0, steps);
    hide WorldOK, Owns, Initial, RunWorld, Live;
    ReachableOK(w0, steps);
    var w := RunWorld(w0, steps);
    forall r | r in w.blink.registrations ensures exists rid, h :: Owns(w, rid, h, r) { OwnerExists(w, r); }
    forall r, rid, h | Owns(w, rid, h, r) ensures r in w.blink.registrations { OwnedIsRegistered(w, rid, h, r); }
    forall r, i, j, g, h | Owns(w, i, g, r) && Owns(w, j, h, r) ensures i == j && g == h {
      OwnerUnique(w, r, i, j, g, h);
    }
    forall rid: nat, h | Exists(w, rid) && h in Live(w.realms[rid].subs)
      ensures Live(w.realms[rid].subs)[h].references == 1 && Live(w.realms[rid].subs)[h].token.at.active
    {
      LiveRoot(w, rid, h);
    }
  }

  lemma LiveRoot(w: World, rid: nat, h: Handle)
    requires WorldOK(w) && Exists(w, rid) && h in Live(w.realms[rid].subs)
    ensures RootLinked(Live(w.realms[rid].subs)[h], rid, w.blink)
  {
    hide Live, BlinkOK, RealmOK, Dead, Bare, Gone, RootLinked;
    assert SiteOK(SiteAt(w, rid), rid);
  }

  lemma OwnedIsRegistered(w: World, rid: nat, h: Handle, r: Registration)
    requires WorldOK(w) && Owns(w, rid, h, r)
    ensures r in w.blink.registrations && PointsTo(w.blink, r.listener, rid)
  {
    hide Live, WorldOK;
    LiveRoot(w, rid, h);
  }

  lemma OwnerExists(w: World, r: Registration)
    requires WorldOK(w) && r in w.blink.registrations
    ensures exists rid, h :: Owns(w, rid, h, r)
  {
    hide Live, Owns, Forest, Attached, Ordered, SiteOK;
    var rid: nat :| PointsTo(w.blink, r.listener, rid);
    OwnerOf(w, rid, r);
  }

  lemma OwnerUnique(w: World, r: Registration, i: nat, j: nat, g: Handle, h: Handle)
    requires WorldOK(w) && Owns(w, i, g, r) && Owns(w, j, h, r)
    ensures i == j && g == h
  {
    hide Live, BlinkOK, RealmOK, Dead, Bare, Gone, HasSub;
    OwnedIsRegistered(w, i, g, r);
    OwnedIsRegistered(w, j, h, r);
    assert SiteOK(SiteAt(w, i), i);
  }

  lemma OwnerOf(w: World, rid: nat, r: Registration)
    requires WorldOK(w) && rid < |w.realms| && r in w.blink.registrations && PointsTo(w.blink, r.listener, rid)
    ensures exists h :: Owns(w, rid, h, r)
  {
    hide Live, Forest, Ordered, Attached, Inv, Interned;
    assert SiteOK(SiteAt(w, rid), rid);
    PointerMeansLive(SiteAt(w, rid), rid, r.listener);
    var h :| h in Live(w.realms[rid].subs) && Live(w.realms[rid].subs)[h].token.at.listener == r.listener;
    assert RootLinked(Live(w.realms[rid].subs)[h], rid, w.blink);
    assert Owns(w, rid, h, r);
  }

  // ----- teardown -----

  // However it came about, a dead realm holds no handle, no subscription and no document,
  // and no listener Blink ever accepted points at it; a freed realm has no observer either.
  // Destroying a realm finds both tables empty, so the table destructors call no hook.
  lemma TeardownSafe(w0: World, steps: seq<WorldStep>, rid: nat)
    requires Initial(w0) && rid < |RunWorld(w0, steps).realms|
    ensures var w := RunWorld(w0, steps);
            && (!w.realms[rid].alive ==>
                  && Emptied(SiteAt(w, rid), rid)
                  && forall l :: !PointsTo(w.blink, l, rid))
            && (w.realms[rid].freed ==>
                  && !w.realms[rid].alive
                  && forall o :: 0 <= o < |w.observers| ==> w.observers[o] != Some(rid))
            && (Exists(w, rid) ==>
                  && DestroyCalls(InvalidateRealm(SiteAt(w, rid), rid).realm.subs) == []
                  && DestroyCalls(InvalidateRealm(SiteAt(w, rid), rid).realm.nodes) == [])
  {
    ReachableOK(w0, steps);
    var w := RunWorld(w0, steps);
    hide RunWorld, InvalidateRealm, DestroyCalls, BlinkOK, Linked, Dead, Bare, Gone, Initial;
    assert SiteOK(SiteAt(w, rid), rid);
    if !w.realms[rid].alive { DeadIsEmptied(SiteAt(w, rid), rid); }
    if Exists(w, rid) { FreeKeepsSite(SiteAt(w, rid), rid); }
  }

  // ----- nodes -----

  // In a live realm, handles and rooted nodes correspond one to one, and a handle resolves
  // at an interface exactly when its node is an instance of it.
  lemma HandlesNameNodes(w0: World, steps: seq<WorldStep>, rid: nat, g: Handle, h: Handle, expected: nat)
    requires Initial(w0) && Exists(RunWorld(w0, steps), rid) && RunWorld(w0, steps).realms[rid].alive
    requires g in Live(RunWorld(w0, steps).realms[rid].nodes) && h in Live(RunWorld(w0, steps).realms[rid].nodes)
    requires Modelled(expected)
    ensures var w := RunWorld(w0, steps);
            var nodes := w.realms[rid].nodes;
            && (g == h <==> Live(nodes)[g].token.at == Live(nodes)[h].token.at)
            && (ResolveNode(nodes, h, expected).status == Ok <==>
                  IsA(ClassOf(w.blink.dom, Live(nodes)[h].token.at), ClassOfType(expected)))
            && (ResolveNode(nodes, h, expected).status == Ok ==>
                  ResolveNode(nodes, h, expected).node == Live(nodes)[h].token.at)
  {
    ReachableOK(w0, steps);
    var w := RunWorld(w0, steps);
    hide RunWorld, Live, BlinkOK, Linked, Dead, Bare, Gone, Initial, ResolveNode, IsA, ClassOfType, TypeOf, Inv;
    assert SiteOK(SiteAt(w, rid), rid);
    ResolveNodeLaw(w.realms[rid].nodes, w.blink.dom, h, expected);
  }

  // The page's tree stays a forest.
  lemma PageStaysForest(w0: World, steps: seq<WorldStep>)
    requires Initial(w0)
    ensures Forest(RunWorld(w0, steps).blink.dom)
  {
    hide SiteOK, Initial;
    ReachableOK(w0, steps);
  }

  // ----- tables over time -----

  ghost predicate TablesEvolve(r: Realm, r': Realm) {
    !r'.freed ==> !r.freed && Evolves(r.nodes, r'.nodes) && Evolves(r.subs, r'.subs)
  }

  lemma TablesEvolveTrans(r: Realm, s: Realm, t: Realm)
    requires TablesEvolve(r, s) && TablesEvolve(s, t)
    ensures TablesEvolve(r, t)
  {
    hide Evolves;
    if !t.freed {
      EvolvesTrans(r.nodes, s.nodes, t.nodes);
      EvolvesTrans(r.subs, s.subs, t.subs);
    }
  }

  lemma InsertEvolves<T(!new)>(t: Table<T>, typeId: nat, token: Option<T>, alloc: bool)
    ensures Evolves(t, Insert(t, typeId, token, true, alloc).table)
  {
    hide Evolves;
    EvolvesStep(t, OpInsert(typeId, token, true, alloc));
  }

  lemma RetainEvolves<T(!new)>(t: Table<T>, h: Handle)
    ensures Evolves(t, Retain(t, h).table)
  {
    hide Evolves;
    EvolvesStep(t, OpRetain(h));
  }

  lemma ReleaseEvolves<T(!new)>(t: Table<T>, h: Handle)
    ensures Evolves(t, Release(t, h).table)
  {
    hide Evolves;
    EvolvesStep(t, OpRelease(h, Done));
    assert TableSpec.Run(Release(t, h).table, Done) == Release(t, h).table;
  }

  lemma InvalidateEvolves<T(!new)>(t: Table<T>)
    ensures Evolves(t, Invalidate(t))
  {
    hide Evolves;
    EvolvesStep(t, OpInvalidate(HookScripts([], Done)));
  }

  lemma InternEvolves(nodes: Table<NodePointer>, roots: Roots, rid: nat, dom: Dom, node: Option<nat>, c: InternChoices)
    ensures Evolves(nodes, Intern(nodes, roots, rid, dom, node, c).nodes)
  {
    hide Evolves, FindRoot, Insert, Retain, TypeOf;
    EvolvesRefl(nodes);
    if node.Some? {
      InsertEvolves(nodes, TypeOf(ClassOf(dom, node.value)), Some(Pointer(roots.mallocs, node.value)), c.tableAlloc);
      match FindRoot(nodes.cells, node.value, 0)
      case Some(i) => if i < |nodes.cells| { RetainEvolves(nodes, HandleAt(nodes, i)); }
      case None =>
    }
  }

  lemma CreateEvolves(subs: Table<RootPointer>, b: Blink, roots: Roots, rid: nat, target: nat, eventType: string,
                      l: nat,
                      c: CreateChoices)
    ensures Evolves(subs, CreateSubscription(subs, b, roots, rid, target, eventType, l, c).subs)
  {
    hide Evolves, Insert;
    EvolvesRefl(subs);
    InsertEvolves(subs, SUBSCRIPTION_TYPE, Some(Pointer(roots.mallocs, Root(target, eventType, l, true))),
                  c.tableAlloc);
  }

  lemma PerformEvolves(s: Site, rid: nat, current: bool, call: Call)
    requires !s.realm.freed
    ensures TablesEvolve(s.realm, Perform(s, rid, current, call).site.realm)
  {
    hide Evolves, Intern, CreateSubscription, ResolveNode, AppendGuard, Retain, Release, Matches, IsA;
    EvolvesRefl(s.realm.nodes);
    EvolvesRefl(s.realm.subs);
    match call
    case WebDocument(c) => InternEvolves(s.realm.nodes, s.roots, rid, s.blink.dom, s.realm.document, c);
    case WebBody(h, c) =>
      var d := ResolveNode(s.realm.nodes, h, DOCUMENT).node;
      if d in s.blink.bodies { InternEvolves(s.realm.nodes, s.roots, rid, s.blink.dom, Some(s.blink.bodies[d]), c); }
    case WebCreateElement(h, decodes, throws, cls, c) =>
      if cls.Some? {
        var dom := CreateElement(s.blink.dom, cls.value);
        InternEvolves(s.realm.nodes, s.roots, rid, dom, Some(|s.blink.dom.classes|), c);
      }
    case WebSetTextContent(_, _, _) =>
    case WebAppendChild(_, _) =>
    case WebAddEventListener(h, _, eventType, callback, c) =>
      var b := s.blink.(listeners := s.blink.listeners + [Listener(Some(rid), callback)]);
      var n := ResolveNode(s.realm.nodes, h, NODE).node;
      CreateEvolves(s.realm.subs, b, s.roots, rid, n, eventType, |s.blink.listeners|, c);
    case WebDispose(h) => ReleaseEvolves(s.realm.subs, h);
    case WebRetain(h) => RetainEvolves(s.realm.nodes, h);
    case WebRelease(h) => ReleaseEvolves(s.realm.nodes, h);
  }

  lemma InvalidateRealmEvolves(s: Site, rid: nat)
    requires !s.realm.freed
    ensures TablesEvolve(s.realm, InvalidateRealm(s, rid).realm)
  {
    hide Evolves, Invalidate, InvalidationCalls;
    EvolvesRefl(s.realm.nodes);
    EvolvesRefl(s.realm.subs);
    InvalidateEvolves(s.realm.nodes);
    InvalidateEvolves(s.realm.subs);
  }

  lemma NextEvolves(w: World, step: WorldStep, rid: nat)
    requires WorldOK(w) && rid < |w.realms|
    ensures rid < |Next(w, step).realms| && TablesEvolve(w.realms[rid], Next(w, step).realms[rid])
  {
    hide Evolves, Perform, InvalidateRealm, FreeRealm, WorldOK, Dispatches;
    EvolvesRefl(w.realms[rid].nodes);
    EvolvesRefl(w.realms[rid].subs);
    match step
    case CallRealm(r, current, call) => if Exists(w, r) { PerformEvolves(SiteAt(w, r), r, current, call); }
    case InvalidateWebRealm(r) => if Exists(w, r) { InvalidateRealmEvolves(SiteAt(w, r), r); }
    case ContextDestroyed(o) =>
      if o < |w.observers| && w.observers[o].Some? && Exists(w, w.observers[o].value) {
        InvalidateRealmEvolves(SiteAt(w, w.observers[o].value), w.observers[o].value);
      }
    case DestroyWebRealm(r) => FreedStays(w, r);
    case _ =>
  }

  lemma FreedStays(w: World, r: nat)
    ensures Exists(w, r) ==> FreeRealm(SiteAt(w, r), r).realm.freed
  {
    hide InvalidateRealm, DestroyCalls, Destroy;
  }

  lemma {:induction false} RunEvolves(w: World, steps: seq<WorldStep>, rid: nat)
    requires WorldOK(w) && rid < |w.realms|
    ensures rid < |RunWorld(w, steps).realms| && TablesEvolve(w.realms[rid], RunWorld(w, steps).realms[rid])
    decreases |steps|
  {
    hide Evolves, WorldOK, Next;
    if steps == [] {
      EvolvesRefl(w.realms[rid].nodes);
      EvolvesRefl(w.realms[rid].subs);
    } else {
      NextKeeps(w, steps[0]);
      NextEvolves(w, steps[0], rid);
      RunEvolves(Next(w, steps[0]), steps[1..], rid);
      TablesEvolveTrans(w.realms[rid], Next(w, steps[0]).realms[rid], RunWorld(w, steps).realms[rid]);
    }
  }

  // A subscription disposed once is refused ever after, unless its slot is reset 2^32 - 1
  // times in between, and the refusal changes nothing.
  lemma SecondDisposeRefused(w0: World, steps: seq<WorldStep>, rid: nat, h: Handle, more: seq<WorldStep>)
    requires Initial(w0) && Exists(RunWorld(w0, steps), rid)
    requires Perform(SiteAt(RunWorld(w0, steps), rid), rid, true, WebDispose(h)).status == Ok
    ensures var w := RunWorld(w0, steps);
            var w' := RunWorld(Next(w, CallRealm(rid, true, WebDispose(h))), more);
            Exists(w', rid) ==>
              && h.slot < |w.realms[rid].subs.cells| && h.slot < |w'.realms[rid].subs.cells|
              && (w'.realms[rid].subs.cells[h.slot].resets - w.realms[rid].subs.cells[h.slot].resets < PERIOD ==>
                    && Perform(SiteAt(w', rid), rid, true, WebDispose(h)).status != Ok
                    && Next(w', CallRealm(rid, true, WebDispose(h))) == w')
  {
    hide Initial, WorldOK;
    ReachableOK(w0, steps);
    var w := RunWorld(w0, steps);
    var step := CallRealm(rid, true, WebDispose(h));
    NextKeeps(w, step);
    var w' := RunWorld(Next(w, step), more);
    RunKeeps(Next(w, step), more);
    RunEvolves(Next(w, step), more, rid);
    hide RunWorld;
    if Exists(w', rid) {
      DisposedSub(w, rid, h);
      assert Next(w, step).realms[rid].subs == Release(w.realms[rid].subs, h).table;
      StaleAfterLastRelease(w.realms[rid].subs, h, w'.realms[rid].subs);
      StaleDispose(w', rid, h);
    }
  }

  lemma DisposedSub(w: World, rid: nat, h: Handle)
    requires WorldOK(w) && Exists(w, rid) && Perform(SiteAt(w, rid), rid, true, WebDispose(h)).status == Ok
    ensures var subs := w.realms[rid].subs;
            && Inv(subs) && !subs.invalidated && Matches(subs, h) && subs.cells[h.slot].entry.value.references == 1
  {
    hide Inv, Forest, Attached, Ordered, Dead, Bare, Gone, Interned;
    assert SiteOK(SiteAt(w, rid), rid);
    LiveAt(w.realms[rid].subs, h);
    if Matches(w.realms[rid].subs, h) { LinkedAt(w.realms[rid].subs, rid, w.blink, h); }
  }

  lemma StaleDispose(w: World, rid: nat, h: Handle)
    requires Exists(w, rid)
    ensures !Matches(w.realms[rid].subs, h) ==>
              && Perform(SiteAt(w, rid), rid, true, WebDispose(h)).status != Ok
              && Next(w, CallRealm(rid, true, WebDispose(h))) == w
  {
    assert w.realms[rid := w.realms[rid]] == w.realms;
  }

  // A node handle that was live is live again later only if it never went stale, or after
  // its slot was reset a multiple of 2^32 - 1 times.
  lemma NodeHandlesStayStale(w0: World, steps: seq<WorldStep>, rid: nat, h: Handle, more: seq<WorldStep>)
    requires Initial(w0) && Exists(RunWorld(w0, steps), rid)
    requires h in Live(RunWorld(w0, steps).realms[rid].nodes)
    ensures var w := RunWorld(w0, steps);
            var w' := RunWorld(w, more);
            Exists(w', rid) ==>
              && h.slot < |w.realms[rid].nodes.cells| && h.slot < |w'.realms[rid].nodes.cells|
              && var d := w'.realms[rid].nodes.cells[h.slot].resets - w.realms[rid].nodes.cells[h.slot].resets;
              && (h in Live(w'.realms[rid].nodes) && d < PERIOD ==>
                    d == 0 && Live(w'.realms[rid].nodes)[h].token.at == Live(w.realms[rid].nodes)[h].token.at)
  {
    hide Initial, WorldOK, Live;
    ReachableOK(w0, steps);
    var w := RunWorld(w0, steps);
    var w' := RunWorld(w, more);
    RunEvolves(w, more, rid);
    hide RunWorld;
    if Exists(w', rid) {
      NodesInv(w, rid);
      var nodes, nodes' := w.realms[rid].nodes, w'.realms[rid].nodes;
      LiveAt(nodes, h);
      LiveAt(nodes', h);
      var script :| TableSpec.Run(nodes, script) == nodes';
      StalenessBound(nodes, h, script);
    }
  }

  // Re-interning. Once the last reference to a node's handle was released, no intern that
  // follows, of this node or any other, after whatever steps, returns that handle again
  // before its slot was reset 2^32 - 1 times. This is so for every handle ever released.
  lemma ReinternedDiffers(w0: World, steps: seq<WorldStep>, rid: nat, h: Handle, more: seq<WorldStep>, call: Call)
    requires Initial(w0) && Exists(RunWorld(w0, steps), rid) && RunWorld(w0, steps).realms[rid].alive
    requires h in Live(RunWorld(w0, steps).realms[rid].nodes)
    requires Live(RunWorld(w0, steps).realms[rid].nodes)[h].references == 1
    requires call.WebDocument? || call.WebBody? || call.WebCreateElement?
    ensures var w := RunWorld(w0, steps);
            var w' := RunWorld(Next(w, CallRealm(rid, true, WebRelease(h))), more);
            Exists(w', rid) ==>
              var r := Perform(SiteAt(w', rid), rid, true, call);
              && h.slot < |w.realms[rid].nodes.cells| && h.slot < |r.site.realm.nodes.cells|
              && (r.status == Ok
                  && r.site.realm.nodes.cells[h.slot].resets - w.realms[rid].nodes.cells[h.slot].resets < PERIOD ==>
                    r.handle != h)
  {
    hide Initial, WorldOK, Live, Next, Perform;
    ReachableOK(w0, steps);
    var w := RunWorld(w0, steps);
    var step := CallRealm(rid, true, WebRelease(h));
    NextKeeps(w, step);
    var w1 := Next(w, step);
    var w' := RunWorld(w1, more);
    RunKeeps(w1, more);
    ReleasedNode(w, rid, h);
    RunEvolves(w1, more, rid);
    hide RunWorld;
    if Exists(w', rid) {
      SiteOfWorld(w', rid);
      StaleAnswer(w.realms[rid].nodes, h, SiteAt(w', rid), rid, call);
    }
  }

  lemma StaleAnswer(nodes: Table<NodePointer>, h: Handle, s: Site, rid: nat, call: Call)
    requires Inv(nodes) && !nodes.invalidated && Matches(nodes, h) && nodes.cells[h.slot].entry.value.references == 1
    requires SiteOK(s, rid) && !s.realm.freed && Evolves(Release(nodes, h).table, s.realm.nodes)
    requires call.WebDocument? || call.WebBody? || call.WebCreateElement?
    ensures var r := Perform(s, rid, true, call);
            && h.slot < |r.site.realm.nodes.cells|
            && (r.status == Ok && r.site.realm.nodes.cells[h.slot].resets - nodes.cells[h.slot].resets < PERIOD ==>
                  r.handle != h)
  {
    hide Inv, SiteOK, Perform, Live, Evolves, Release, Touches;
    PerformKeeps(s, rid, true, call);
    PerformEvolves(s, rid, true, call);
    var r := Perform(s, rid, true, call);
    EvolvesTrans(Release(nodes, h).table, s.realm.nodes, r.site.realm.nodes);
    StaleAfterLastRelease(nodes, h, r.site.realm.nodes);
    LiveAt(r.site.realm.nodes, h);
    if r.status == Ok { AnswerIsLive(s, rid, call); }
  }

  lemma ReleasedNode(w: World, rid: nat, h: Handle)
    requires WorldOK(w) && Exists(w, rid) && w.realms[rid].alive
    requires h in Live(w.realms[rid].nodes) && Live(w.realms[rid].nodes)[h].references == 1
    ensures var nodes := w.realms[rid].nodes;
            var w' := Next(w, CallRealm(rid, true, WebRelease(h)));
            && Inv(nodes) && !nodes.invalidated && Matches(nodes, h) && nodes.cells[h.slot].entry.value.references == 1
            && Exists(w', rid) && w'.realms[rid].nodes == Release(nodes, h).table
  {
    hide Inv, BlinkOK, Linked, Interned, Dead, Bare, Gone, Live, Release;
    assert SiteOK(SiteAt(w, rid), rid);
    LiveAt(w.realms[rid].nodes, h);
  }

  lemma SiteOfWorld(w: World, rid: nat)
    requires WorldOK(w) && Exists(w, rid)
    ensures SiteOK(SiteAt(w, rid), rid) && !SiteAt(w, rid).realm.freed
  {
    hide SiteOK, BlinkOK, Dead, Bare, Gone, PointsTo;
  }

  // What an intern answers is live, or the null handle.
  lemma AnswerIsLive(s: Site, rid: nat, call: Call)
    requires SiteOK(s, rid) && (call.WebDocument? || call.WebBody? || call.WebCreateElement?)
    requires Perform(s, rid, true, call).status == Ok
    ensures var r := Perform(s, rid, true, call);
            r.handle.generation == 0 || r.handle in Live(r.site.realm.nodes)
  {
    hide SiteOK, Perform, Live, IsA, CreateElement;
    if s.realm.alive {
      match call
      case WebDocument(c) => DocumentNamed(s, rid, c);
      case WebBody(h, c) => BodyNamed(s, rid, h, c);
      case WebCreateElement(_, _, _, _, _) => ElementNamed(s, rid, call);
    } else {
      Gated(s, rid, true, call);
    }
  }

  lemma NodesInv(w: World, rid: nat)
    requires WorldOK(w) && Exists(w, rid)
    ensures Inv(w.realms[rid].nodes)
  {
    hide Inv, BlinkOK, Linked, Interned;
    assert SiteOK(SiteAt(w, rid), rid);
  }
}
