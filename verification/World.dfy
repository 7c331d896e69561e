/** The whole system: any number of realms over one Blink, and every interleaving of API
    calls, events, disposals, navigations, context destructions and realm destructions.

    Blink may deliver an event to any listener it ever accepted, registered or not, and may
    announce the end of an execution context to any observer, again and again. A raw pointer
    to a freed realm that is followed sets `fault`. */
module Worlds {
  import opened Abi
  import opened Heaps
  import opened TableSpec
  import opened TableInvariant
  import opened HandleMap
  import opened TableLaws
  import opened WebTypes
  import opened Doms
  import opened Bridge
  import opened BridgeInvariant
  import opened SiteLaws
  import opened Teardown

  datatype World = World(
    realms: seq<Realm>,
    observers: seq<Option<nat>>, // BlinkRealmLifecycleObserver of realm i: its raw realm pointer
    blink: Blink,
    roots: Roots,                // the heap with the registries' roots
    lost: set<Registration>,     // those Blink dropped by itself
    fault: bool)

  datatype WorldStep =
    | CreateRealm(of: Option<nat>, dispatch: bool, alloc: bool)
    | CallRealm(rid: nat, current: bool, call: Call)
    | InvalidateWebRealm(rid: nat)
    | DestroyWebRealm(rid: nat)
    | ContextDestroyed(observer: nat)
    | Event(listener: nat, context: Option<nat>, hasEvent: bool)
    | Navigate(document: nat, context: Option<nat>)
    | SetBody(document: nat, body: Option<nat>)
    | Mutate(dom: Dom) // the parser, or a script of the page
    | Unregister(registration: Registration) // Blink drops one by itself

  // The realm exists and was not destroyed: what a caller must know to pass a pointer to it.
  predicate Exists(w: World, rid: nat) {
    rid < |w.realms| && !w.realms[rid].freed
  }

  function SiteAt(w: World, rid: nat): Site
    requires rid < |w.realms|
  {
    Site(w.realms[rid], w.blink, w.roots)
  }

  function WithSite(w: World, rid: nat, s: Site): World
    requires rid < |w.realms|
  {
    w.(realms := w.realms[rid := s.realm], blink := s.blink, roots := s.roots)
  }

  function DoCreate(w: World, document: Option<nat>, dispatch: bool, alloc: bool): World {
    if document.None? || document.value !in w.blink.contexts || !alloc
       || ClassOf(w.blink.dom, document.value) != DocumentClass then w
    else
      w.(realms := w.realms + [NewRealm(document.value, dispatch)], observers := w.observers + [Some(|w.realms|)])
  }

  // BlinkNativeEventListener::Invoke.
  function DoEvent(w: World, l: nat, context: Option<nat>, hasEvent: bool): World {
    if l !in w.blink.accepted || l >= |w.blink.listeners| then w // Blink never had it
    else if w.blink.listeners[l].realm.None? || context.None? || !hasEvent then w
    else
      var rid := w.blink.listeners[l].realm.value;
      if !Exists(w, rid) then w.(fault := true)
      else if Dispatches(SiteAt(w, rid), context) then w.(blink := Log(w.blink, Dispatched(l, rid)))
      else w
  }

  // BlinkRealmLifecycleObserver::ContextDestroyed.
  function DoContextDestroyed(w: World, o: nat): World {
    if o >= |w.observers| || w.observers[o].None? then w
    else
      var rid := w.observers[o].value;
      if !Exists(w, rid) then w.(fault := true)
      else WithSite(w, rid, InvalidateRealm(SiteAt(w, rid), rid)).(observers := w.observers[o := None])
  }

  // DestroyWebRealm: the destructor detaches the observer before anything else.
  function DoDestroy(w: World, rid: nat): World {
    if !Exists(w, rid) then w
    else
      var observers := if rid < |w.observers| then w.observers[rid := None] else w.observers;
      WithSite(w, rid, FreeRealm(SiteAt(w, rid), rid)).(observers := observers)
  }

  function DoNavigate(b: Blink, document: nat, context: Option<nat>): Blink {
    b.(contexts := if context.Some? then b.contexts[document := context.value] else b.contexts - {document})
  }

  function DoSetBody(b: Blink, document: nat, body: Option<nat>): Blink {
    if body.Some? && body.value < |b.dom.classes| then b.(bodies := b.bodies[document := body.value])
    else b.(bodies := b.bodies - {document})
  }

  // Whatever else happens to the tree, it stays one, and no node changes its class.
  ghost function DoMutate(b: Blink, dom: Dom): Blink {
    if Forest(dom) && b.dom.classes <= dom.classes then b.(dom := dom) else b
  }

  ghost function Next(w: World, step: WorldStep): World {
    match step
    case CreateRealm(document, dispatch, alloc) => DoCreate(w, document, dispatch, alloc)
    case CallRealm(rid, current, call) =>
      if Exists(w, rid) then WithSite(w, rid, Perform(SiteAt(w, rid), rid, current, call).site) else w
    case InvalidateWebRealm(rid) => if Exists(w, rid) then WithSite(w, rid, InvalidateRealm(SiteAt(w, rid), rid)) else w
    case DestroyWebRealm(rid) => DoDestroy(w, rid)
    case ContextDestroyed(o) => DoContextDestroyed(w, o)
    case Event(l, context, hasEvent) => DoEvent(w, l, context, hasEvent)
    case Navigate(document, context) => w.(blink := DoNavigate(w.blink, document, context))
    case SetBody(document, body) => w.(blink := DoSetBody(w.blink, document, body))
    case Mutate(dom) => w.(blink := DoMutate(w.blink, dom))
    case Unregister(r) => if r in w.blink.registrations then w.(lost := w.lost + {r}) else w
  }

  ghost function RunWorld(w: World, steps: seq<WorldStep>): World
    decreases |steps|
  {
    if steps == [] then w else RunWorld(Next(w, steps[0]), steps[1..])
  }

  // Before the first realm: a page, and no listener of ours.
  ghost predicate Initial(w: World) {
    && w.realms == [] && w.observers == [] && !w.fault && w.roots == FreshHeap() && w.lost == {}
    && w.blink.listeners == [] && w.blink.accepted == {} && w.blink.registrations == {} && w.blink.trace == []
    && Forest(w.blink.dom)
    && forall d :: d in w.blink.bodies ==> w.blink.bodies[d] < |w.blink.dom.classes|
  }

  // ----- the invariant -----

  // The teardown of the realm has begun, or is over.
  predicate Begun(trace: seq<Effect>, rid: nat) {
    Dead(trace, rid) || Closed(trace, rid)
  }

  ghost predicate WorldOK(w: World) {
    && !w.fault
    && BlinkOK(w.blink)
    && |w.observers| == |w.realms|
    && (forall i :: 0 <= i < |w.realms| ==> SiteOK(SiteAt(w, i), i))
    && (forall l, r: nat :: PointsTo(w.blink, l, r) ==> r < |w.realms|)
    && (forall r: nat :: Begun(w.blink.trace, r) ==> r < |w.realms|)
    && (forall i :: 0 <= i < |w.observers| && w.observers[i].Some? ==> w.observers[i].value == i && !w.realms[i].freed)
  }

  lemma InitialOK(w: World)
    requires Initial(w)
    ensures WorldOK(w)
  {
    hide Forest;
  }

  // A realm's site survives whatever happens to another realm.
  lemma OtherSite(r: Realm, j: nat, b: Blink, b': Blink, roots: Roots, roots': Roots, rid: nat)
    requires SiteOK(Site(r, b, roots), j) && Touches(rid, b, b') && BlinkOK(b') && j != rid && b.trace <= b'.trace
    ensures SiteOK(Site(r, b', roots'), j)
  {
    hide Inv, Interned, BlinkOK, Dead, Bare, Gone, Live, HasSub, PointsTo;
    if !r.freed { InternedGrows(r.nodes, b.dom, b'.dom); }
    forall h | h in Live(r.subs) ensures RootLinked(Live(r.subs)[h], j, b') {
      assert RootLinked(Live(r.subs)[h], j, b);
    }
    assert SamePhase(b.trace, b'.trace, j);
    assert Linked(r.subs, j, b');
  }

  lemma PutKeeps(w: World, rid: nat, s: Site)
    requires WorldOK(w) && rid < |w.realms| && SiteOK(s, rid) && Touches(rid, w.blink, s.blink)
    requires w.blink.trace <= s.blink.trace
    requires s.realm.freed == w.realms[rid].freed || w.observers[rid].None?
    ensures WorldOK(WithSite(w, rid, s))
  {
    hide RealmOK, Linked, Dead, Bare, Gone, PointsTo, SiteOK, Touches, BlinkOK;
    var w' := WithSite(w, rid, s);
    SiteBlink(s, rid);
    forall i | 0 <= i < |w'.realms| ensures SiteOK(SiteAt(w', i), i) {
      if i != rid {
        assert SiteOK(SiteAt(w, i), i);
        OtherSite(w.realms[i], i, w.blink, s.blink, w.roots, s.roots, rid);
      }
    }
    TouchesRange(w, rid, s.blink);
  }

  lemma SiteBlink(s: Site, rid: nat)
    requires SiteOK(s, rid)
    ensures BlinkOK(s.blink)
  {
  }

  lemma TouchesRange(w: World, rid: nat, b: Blink)
    requires Touches(rid, w.blink, b) && rid < |w.realms|
    requires forall l, r: nat :: PointsTo(w.blink, l, r) ==> r < |w.realms|
    requires forall r: nat :: Begun(w.blink.trace, r) ==> r < |w.realms|
    ensures forall l, r: nat :: PointsTo(b, l, r) ==> r < |w.realms|
    ensures forall r: nat :: Begun(b.trace, r) ==> r < |w.realms|
  {
    hide Dead, Bare, Gone, PointsTo;
    forall r: nat | Begun(b.trace, r) && r != rid ensures r < |w.realms| {
      assert SamePhase(w.blink.trace, b.trace, r);
      assert Begun(w.blink.trace, r);
    }
  }

  // Nothing about the trace or the listeners changed, only the page.
  lemma PageChanged(w: World, b: Blink)
    requires WorldOK(w) && b == w.blink.(contexts := b.contexts, bodies := b.bodies)
    requires forall d :: d in b.bodies ==> b.bodies[d] < |b.dom.classes|
    ensures WorldOK(w.(blink := b))
  {
    hide RealmOK, Attached, Ordered, Forest, Dead, Bare, Gone;
    assert forall l, r :: PointsTo(b, l, r) <==> PointsTo(w.blink, l, r);
    assert BlinkOK(b) by {
      forall reg: Registration | reg in b.registrations ensures exists r :: PointsTo(b, reg.listener, r) {
        var r :| PointsTo(w.blink, reg.listener, r);
        assert PointsTo(b, reg.listener, r);
      }
    }
    forall i | 0 <= i < |w.realms| ensures SiteOK(Site(w.realms[i], b, w.roots), i) {
      assert SiteOK(SiteAt(w, i), i);
      PageChangedLinked(w.realms[i].subs, i, w.blink, b);
    }
  }

  lemma PageChangedLinked(subs: Table<RootPointer>, rid: nat, b: Blink, b': Blink)
    requires Linked(subs, rid, b) && b' == b.(contexts := b'.contexts, bodies := b'.bodies)
    ensures Linked(subs, rid, b')
  {
    hide Live;
    forall h | h in Live(subs) ensures RootLinked(Live(subs)[h], rid, b') {
      assert RootLinked(Live(subs)[h], rid, b);
    }
  }

  lemma MutateKeeps(w: World, dom: Dom)
    requires WorldOK(w)
    ensures WorldOK(w.(blink := DoMutate(w.blink, dom)))
  {
    hide SiteOK, BlinkOK, Forest, Dead, Bare, Gone, Touches;
    if Forest(dom) && w.blink.dom.classes <= dom.classes {
      var b := w.blink.(dom := dom);
      DomChangedBlink(w.blink, b);
      forall l, r: nat ensures PointsTo(b, l, r) ==> PointsTo(w.blink, l, r) {}
      forall i | 0 <= i < |w.realms| ensures SiteOK(Site(w.realms[i], b, w.roots), i) {
        assert SiteOK(SiteAt(w, i), i);
        DomChanged(SiteAt(w, i), i, dom);
      }
    }
  }

  lemma LossKeeps(w: World, lost: set<Registration>)
    requires WorldOK(w)
    ensures WorldOK(w.(lost := lost))
  {
    hide SiteOK, BlinkOK, Begun, PointsTo;
    var w' := w.(lost := lost);
    forall i | 0 <= i < |w.realms| ensures SiteAt(w', i) == SiteAt(w, i) {}
  }

  lemma CreateKeeps(w: World, document: Option<nat>, dispatch: bool, alloc: bool)
    requires WorldOK(w)
    ensures WorldOK(DoCreate(w, document, dispatch, alloc))
  {
    var w' := DoCreate(w, document, dispatch, alloc);
    if |w'.realms| > |w.realms| {
      NewSite(w, document.value, dispatch);
      hide SiteOK, BlinkOK, Dead, Bare, Gone, PointsTo;
      forall i | 0 <= i < |w'.realms| ensures SiteOK(SiteAt(w', i), i) {
        if i < |w.realms| { assert SiteOK(SiteAt(w, i), i); }
      }
    }
  }

  lemma NewSite(w: World, document: nat, dispatch: bool)
    requires WorldOK(w) && document < |w.blink.dom.classes|
    ensures SiteOK(Site(NewRealm(document, dispatch), w.blink, w.roots), |w.realms|)
  {
    hide Inv, Forest, Attached, Ordered, Live;
    assert !Begun(w.blink.trace, |w.realms|);
    EmptyLaw<NodePointer>(true);
    EmptyLaw<RootPointer>(true);
  }

  // The page is as free as it is meant to be: any document may gain, lose or change its
  // context or its body, any larger forest may become the tree, and any registration may be
  // lost, each in one step that does nothing else.
  lemma PageIsFree(w: World, document: nat, context: nat, body: nat, dom: Dom, r: Registration)
    ensures exists step :: Next(w, step) == w.(blink := w.blink.(contexts := w.blink.contexts[document := context]))
    ensures exists step :: Next(w, step) == w.(blink := w.blink.(contexts := w.blink.contexts - {document}))
    ensures body < |w.blink.dom.classes| ==>
              exists step :: Next(w, step) == w.(blink := w.blink.(bodies := w.blink.bodies[document := body]))
    ensures exists step :: Next(w, step) == w.(blink := w.blink.(bodies := w.blink.bodies - {document}))
    ensures Forest(dom) && w.blink.dom.classes <= dom.classes ==>
              exists step :: Next(w, step) == w.(blink := w.blink.(dom := dom))
    ensures r in w.blink.registrations ==> exists step :: Next(w, step) == w.(lost := w.lost + {r})
  {
    hide Forest, Perform, InvalidateRealm, FreeRealm, DoCreate, DoEvent, DoContextDestroyed, DoDestroy;
    assert Next(w, Navigate(document, Some(context))) ==
           w.(blink := w.blink.(contexts := w.blink.contexts[document := context]));
    assert Next(w, Navigate(document, None)) == w.(blink := w.blink.(contexts := w.blink.contexts - {document}));
    assert body < |w.blink.dom.classes| ==>
             Next(w, SetBody(document, Some(body))) ==
             w.(blink := w.blink.(bodies := w.blink.bodies[document := body]));
    assert Next(w, SetBody(document, None)) == w.(blink := w.blink.(bodies := w.blink.bodies - {document}));
    assert Forest(dom) && w.blink.dom.classes <= dom.classes ==>
             Next(w, Mutate(dom)) == w.(blink := w.blink.(dom := dom));
    assert r in w.blink.registrations ==> Next(w, Unregister(r)) == w.(lost := w.lost + {r});
  }

  // Following a pointer to a realm that is gone would be noticed: by an event that reaches a
  // listener still pointing to it, or by the end of a context an observer still watches for it.
  lemma DanglingFaults(w: World, l: nat, context: nat, o: nat)
    ensures l in w.blink.accepted && l < |w.blink.listeners| && w.blink.listeners[l].realm.Some?
            && !Exists(w, w.blink.listeners[l].realm.value) ==>
              Next(w, Event(l, Some(context), true)).fault
    ensures o < |w.observers| && w.observers[o].Some? && !Exists(w, w.observers[o].value) ==>
              Next(w, WorldStep.ContextDestroyed(o)).fault
  {
    hide InvalidateRealm;
  }

  // ----- the trace only grows -----

  lemma {:induction false} CancelAllGrows(b: Blink, roots: seq<Root>, rid: nat)
    ensures b.trace <= CancelAll(b, roots, rid).trace
    decreases |roots|
  {
    if roots == [] {
    } else {
      CancelAllGrows(CancelRoot(b, roots[0], rid), roots[1..], rid);
    }
  }

  lemma {:induction false} DropAllGrows(b: Blink, nodes: seq<nat>, rid: nat)
    ensures b.trace <= DropAll(b, nodes, rid).trace
    decreases |nodes|
  {
    if nodes == [] {
    } else {
      DropAllGrows(Log(b, DroppedNode(rid, nodes[0])), nodes[1..], rid);
    }
  }

  lemma InvalidateGrows(s: Site, rid: nat)
    ensures s.blink.trace <= InvalidateRealm(s, rid).blink.trace
  {
    hide InvalidationCalls, Invalidate;
    if s.realm.alive {
      var b0 := Log(s.blink, Effect.Invalidated(rid));
      CancelAllGrows(b0, Ats(InvalidationCalls(s.realm.subs)), rid);
      var b1 := CancelAll(b0, Ats(InvalidationCalls(s.realm.subs)), rid);
      DropAllGrows(b1, Ats(InvalidationCalls(s.realm.nodes)), rid);
    }
  }

  lemma FreeGrows(s: Site, rid: nat)
    ensures s.blink.trace <= FreeRealm(s, rid).blink.trace
  {
    hide DestroyCalls, InvalidateRealm, Destroy;
    InvalidateGrows(s, rid);
    var s1 := InvalidateRealm(s, rid);
    CancelAllGrows(s1.blink, Ats(DestroyCalls(s1.realm.subs)), rid);
    DropAllGrows(CancelAll(s1.blink, Ats(DestroyCalls(s1.realm.subs)), rid), Ats(DestroyCalls(s1.realm.nodes)), rid);
  }

  lemma PerformGrows(s: Site, rid: nat, current: bool, call: Call)
    ensures s.blink.trace <= Perform(s, rid, current, call).site.blink.trace
  {
    hide ResolveNode, Intern, TableSpec.Retain, TableSpec.Release, Insert, AppendGuard, Matches;
  }

  // ----- listeners keep their tokens -----

  lemma {:induction false} CancelAllTokens(b: Blink, roots: seq<Root>, rid: nat)
    ensures TokensKept(b, CancelAll(b, roots, rid))
    decreases |roots|
  {
    if roots == [] {
    } else {
      CancelAllTokens(CancelRoot(b, roots[0], rid), roots[1..], rid);
    }
  }

  lemma {:induction false} DropAllTokens(b: Blink, nodes: seq<nat>, rid: nat)
    ensures DropAll(b, nodes, rid).listeners == b.listeners
    decreases |nodes|
  {
    if nodes == [] {
    } else {
      DropAllTokens(Log(b, DroppedNode(rid, nodes[0])), nodes[1..], rid);
    }
  }

  lemma InvalidateTokens(s: Site, rid: nat)
    ensures TokensKept(s.blink, InvalidateRealm(s, rid).blink)
  {
    hide InvalidationCalls, Invalidate;
    if s.realm.alive {
      var b0 := Log(s.blink, Effect.Invalidated(rid));
      CancelAllTokens(b0, Ats(InvalidationCalls(s.realm.subs)), rid);
      var b1 := CancelAll(b0, Ats(InvalidationCalls(s.realm.subs)), rid);
      DropAllTokens(b1, Ats(InvalidationCalls(s.realm.nodes)), rid);
    }
  }

  lemma FreeTokens(s: Site, rid: nat)
    ensures TokensKept(s.blink, FreeRealm(s, rid).blink)
  {
    hide DestroyCalls, InvalidateRealm, Destroy;
    InvalidateTokens(s, rid);
    var s1 := InvalidateRealm(s, rid);
    CancelAllTokens(s1.blink, Ats(DestroyCalls(s1.realm.subs)), rid);
    var b1 := CancelAll(s1.blink, Ats(DestroyCalls(s1.realm.subs)), rid);
    DropAllTokens(b1, Ats(DestroyCalls(s1.realm.nodes)), rid);
  }

  lemma PerformTokens(s: Site, rid: nat, current: bool, call: Call)
    ensures TokensKept(s.blink, Perform(s, rid, current, call).site.blink)
  {
    hide ResolveNode, Intern, TableSpec.Retain, TableSpec.Release, Insert, AppendGuard, Matches, IsA, ReplaceText;
  }

  lemma NextTokens(w: World, step: WorldStep)
    ensures TokensKept(w.blink, Next(w, step).blink)
  {
    hide Perform, InvalidateRealm, FreeRealm, TokensKept, Dispatches;
    TokensRefl(w.blink, Next(w, step).blink);
    match step
    case CallRealm(r, current, call) => if Exists(w, r) { PerformTokens(SiteAt(w, r), r, current, call); }
    case InvalidateWebRealm(r) => if Exists(w, r) { InvalidateTokens(SiteAt(w, r), r); }
    case DestroyWebRealm(r) => if Exists(w, r) { FreeTokens(SiteAt(w, r), r); }
    case ContextDestroyed(o) =>
      if o < |w.observers| && w.observers[o].Some? && Exists(w, w.observers[o].value) {
        InvalidateTokens(SiteAt(w, w.observers[o].value), w.observers[o].value);
      }
    case _ =>
  }

  lemma TokensRefl(b: Blink, b': Blink)
    ensures b'.listeners == b.listeners ==> TokensKept(b, b')
  {
  }

  // ----- every step keeps the invariant -----

  lemma ContextDestroyedKeeps(w: World, o: nat)
    requires WorldOK(w)
    ensures WorldOK(DoContextDestroyed(w, o))
  {
    hide SiteOK, BlinkOK, Touches, InvalidateRealm, Emptied, Dead, Bare, Gone, PointsTo;
    if o < |w.observers| && w.observers[o].Some? {
      var w0 := w.(observers := w.observers[o := None]);
      assert forall i :: 0 <= i < |w.realms| ==> SiteAt(w0, i) == SiteAt(w, i);
      assert WorldOK(w0);
      assert SiteOK(SiteAt(w, o), o);
      InvalidateKeepsSite(SiteAt(w, o), o);
      InvalidateGrows(SiteAt(w, o), o);
      PutKeeps(w0, o, InvalidateRealm(SiteAt(w, o), o));
    }
  }

  lemma DestroyKeeps(w: World, rid: nat)
    requires WorldOK(w)
    ensures WorldOK(DoDestroy(w, rid))
  {
    hide SiteOK, BlinkOK, Touches, FreeRealm, InvalidateRealm, Emptied, Dead, Bare, Gone, PointsTo, DestroyCalls;
    if Exists(w, rid) {
      var w0 := w.(observers := w.observers[rid := None]);
      assert forall i :: 0 <= i < |w.realms| ==> SiteAt(w0, i) == SiteAt(w, i);
      assert WorldOK(w0);
      assert SiteOK(SiteAt(w, rid), rid);
      FreeKeepsSite(SiteAt(w, rid), rid);
      FreeGrows(SiteAt(w, rid), rid);
      PutKeeps(w0, rid, FreeRealm(SiteAt(w, rid), rid));
    }
  }

  lemma EventKeeps(w: World, l: nat, context: Option<nat>, hasEvent: bool)
    requires WorldOK(w)
    ensures WorldOK(DoEvent(w, l, context, hasEvent))
  {
    hide SiteOK, BlinkOK, Touches, Dead, Bare, Gone;
    if l in w.blink.accepted && l < |w.blink.listeners| && w.blink.listeners[l].realm.Some? {
      var rid := w.blink.listeners[l].realm.value;
      assert PointsTo(w.blink, l, rid);
      assert SiteOK(SiteAt(w, rid), rid);
      PointerMeansLive(SiteAt(w, rid), rid, l);
      DispatchKeepsSite(SiteAt(w, rid), rid, l);
      PutKeeps(w, rid, Site(w.realms[rid], Log(w.blink, Dispatched(l, rid)), w.roots));
      assert w.realms[rid := w.realms[rid]] == w.realms;
    }
  }

  lemma NextKeeps(w: World, step: WorldStep)
    requires WorldOK(w)
    ensures WorldOK(Next(w, step))
  {
    hide SiteOK, BlinkOK, Touches, InvalidateRealm, FreeRealm, Perform, Emptied, Dead, Bare, Gone, PointsTo;
    match step
    case CreateRealm(document, dispatch, alloc) => CreateKeeps(w, document, dispatch, alloc);
    case CallRealm(rid, current, call) =>
      if Exists(w, rid) {
        assert SiteOK(SiteAt(w, rid), rid);
        PerformKeeps(SiteAt(w, rid), rid, current, call);
        PerformGrows(SiteAt(w, rid), rid, current, call);
        PutKeeps(w, rid, Perform(SiteAt(w, rid), rid, current, call).site);
      }
    case InvalidateWebRealm(rid) =>
      if Exists(w, rid) {
        assert SiteOK(SiteAt(w, rid), rid);
        InvalidateKeepsSite(SiteAt(w, rid), rid);
        InvalidateGrows(SiteAt(w, rid), rid);
        PutKeeps(w, rid, InvalidateRealm(SiteAt(w, rid), rid));
      }
    case DestroyWebRealm(rid) => DestroyKeeps(w, rid);
    case ContextDestroyed(o) => ContextDestroyedKeeps(w, o);
    case Event(l, context, hasEvent) => EventKeeps(w, l, context, hasEvent);
    case Navigate(document, context) =>
      PageBodies(w);
      PageChanged(w, DoNavigate(w.blink, document, context));
    case SetBody(document, body) =>
      PageBodies(w);
      PageChanged(w, DoSetBody(w.blink, document, body));
    case Mutate(dom) => MutateKeeps(w, dom);
    case Unregister(r) => LossKeeps(w, if r in w.blink.registrations then w.lost + {r} else w.lost);
  }

  lemma PageBodies(w: World)
    requires WorldOK(w)
    ensures forall d :: d in w.blink.bodies ==> w.blink.bodies[d] < |w.blink.dom.classes|
  {
    hide SiteOK, Forest, Attached, Ordered, Dead, Bare, Gone;
  }

  lemma {:induction false} RunKeeps(w: World, steps: seq<WorldStep>)
    requires WorldOK(w)
    ensures WorldOK(RunWorld(w, steps))
    decreases |steps|
  {
    hide WorldOK;
    if steps == [] {
    } else {
      NextKeeps(w, steps[0]);
      RunKeeps(Next(w, steps[0]), steps[1..]);
    }
  }
}
