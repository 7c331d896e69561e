/** The bridge between the C ABI and Blink, as functions on values: the node registry, the
    subscription registry, the realm and the gated entry points. Blink itself is a small
    environment whose answers (refusals, allocation failures, exceptions) are parameters.

    Blink nodes are the indices of the DOM; listeners live on Blink's heap and are numbered
    in order of allocation; a raw NtsWebRealm* is the number of a realm, and a realm can be
    freed. Every effect that matters for ordering is appended to Blink's trace. */
module Bridge {
  import opened Abi
  import opened Heaps
  import opened TableSpec
  import opened TableLaws
  import opened WebTypes
  import opened Doms

  datatype CallbackToken = CallbackToken(slot: nat, generation: nat)

  // BlinkNativeEventListener: its raw realm pointer and its callback token.
  datatype Listener = Listener(realm: Option<nat>, token: CallbackToken)

  // BlinkSubscriptionRoot.
  datatype Root = Root(target: nat, eventType: string, listener: nat, active: bool)

  datatype Registration = Registration(target: nat, eventType: string, listener: nat)

  datatype Effect =
    | Registered(listener: nat, realm: nat)
    // removed from its target and detached, one right after the other
    | Cancelled(listener: nat, realm: nat)
    | Invalidated(realm: nat)
    | DroppedNode(realm: nat, node: nat)
    | DroppedDocument(realm: nat)
    | Freed(realm: nat)
    | Dispatched(listener: nat, realm: nat)

  datatype Blink = Blink(
    dom: Dom,
    contexts: map<nat, nat>,          // a document's execution context, while it has one
    bodies: map<nat, nat>,            // a document's body element, while it has one
    listeners: seq<Listener>,         // every listener ever allocated
    accepted: set<nat>,               // those addEventListener ever accepted
    registrations: set<Registration>, // those the bridge made and did not take back
    trace: seq<Effect>)

  // The roots are C++ objects: whose registry allocated one, and the pointers to them that
  // the tables keep as tokens.
  datatype Owner = NodeRootOf(realm: nat) | SubscriptionRootOf(realm: nat)

  type Roots = Heap<Owner>

  type NodePointer = Pointer<nat>

  type RootPointer = Pointer<Root>

  function Log(b: Blink, e: Effect): Blink {
    b.(trace := b.trace + [e])
  }

  // ----- subscription registry -----

  const SUBSCRIPTION_TYPE: nat := 0x40c43cb8

  function RegistrationOf(root: Root): Registration {
    Registration(root.target, root.eventType, root.listener)
  }

  function AddEventListener(b: Blink, root: Root, rid: nat): Blink {
    Log(b.(accepted := b.accepted + {root.listener}, registrations := b.registrations + {RegistrationOf(root)}),
        Registered(root.listener, rid))
  }

  // ~BlinkSubscriptionRoot: an active root removes its listener from Blink and detaches it.
  // `delete root` is this and giving the memory back.
  function CancelRoot(b: Blink, root: Root, rid: nat): Blink {
    if !root.active then b
    else
      var listeners := if root.listener < |b.listeners|
                       then b.listeners[root.listener := b.listeners[root.listener].(realm := None)]
                       else b.listeners;
      Log(b.(registrations := b.registrations - {RegistrationOf(root)}, listeners := listeners),
          Cancelled(root.listener, rid))
  }

  function CancelAll(b: Blink, roots: seq<Root>, rid: nat): Blink
    decreases |roots|
  {
    if roots == [] then b else CancelAll(CancelRoot(b, roots[0], rid), roots[1..], rid)
  }

  function Delete<T>(roots: Roots, root: Pointer<T>): Roots {
    Free(roots, Some(root.address))
  }

  datatype Created = Created(subs: Table<RootPointer>, blink: Blink, roots: Roots, status: Status, handle: Handle)

  // Blink's answers while a subscription is created.
  datatype CreateChoices = CreateChoices(rootAlloc: bool, accept: bool, tableAlloc: bool)

  function CreateSubscription(subs: Table<RootPointer>, b: Blink, roots: Roots, rid: nat, target: nat,
                              eventType: string,
                              listener: nat, c: CreateChoices): Created {
    if subs.invalidated then Created(subs, b, roots, ContextDestroyed, NULL_HANDLE)
    else if !c.rootAlloc then Created(subs, b, roots, OutOfMemory, NULL_HANDLE)
    else
      var root := Pointer(roots.mallocs, Root(target, eventType, listener, false));
      var roots1 := Malloc(roots, SubscriptionRootOf(rid));
      if !c.accept then
        Created(subs, CancelRoot(b, root.at, rid), Delete(roots1, root), OperationDisabled, NULL_HANDLE)
      else
        var b1 := AddEventListener(b, root.at, rid);
        var active := root.(at := root.at.(active := true));
        var r := Insert(subs, SUBSCRIPTION_TYPE, Some(active), true, c.tableAlloc);
        if r.status != Ok then
          Created(r.table, CancelRoot(b1, active.at, rid), Delete(roots1, active), r.status, NULL_HANDLE)
        else Created(r.table, b1, roots1, Ok, r.handle)
  }

  function DisposeSubscription(subs: Table<RootPointer>, b: Blink, roots: Roots, rid: nat, h: Handle): Created {
    var o := Release(subs, h);
    if o.fired && Matches(subs, h) then
      var root := subs.cells[h.slot].entry.value.token;
      Created(o.table, CancelRoot(b, root.at, rid), Delete(roots, root), o.status, NULL_HANDLE)
    else Created(o.table, b, roots, o.status, NULL_HANDLE)
  }

  // ----- node registry -----

  // The first slot from `from` on that roots the node.
  function FindRoot(cells: seq<Cell<NodePointer>>, node: nat, from: nat): Option<nat>
    decreases |cells| - from
  {
    if from >= |cells| then None
    else if cells[from].entry.Some? && cells[from].entry.value.token.at == node then Some(from)
    else FindRoot(cells, node, from + 1)
  }

  datatype InternChoices = InternChoices(rootAlloc: bool, tableAlloc: bool)

  datatype NodeInterned = NodeInterned(nodes: Table<NodePointer>, roots: Roots, status: Status, handle: Handle)

  function Intern(nodes: Table<NodePointer>, roots: Roots, rid: nat, dom: Dom, node: Option<nat>,
                  c: InternChoices): NodeInterned {
    if node.None? then NodeInterned(nodes, roots, InvalidArgument, NULL_HANDLE)
    else if nodes.invalidated then NodeInterned(nodes, roots, ContextDestroyed, NULL_HANDLE)
    else
      match FindRoot(nodes.cells, node.value, 0)
      case Some(i) =>
        if i < |nodes.cells| then
          var h := HandleAt(nodes, i);
          var o := Retain(nodes, h);
          NodeInterned(o.table, roots, o.status, if o.status == Ok then h else NULL_HANDLE)
        else NodeInterned(nodes, roots, InvalidHandle, NULL_HANDLE) // unreachable: see FindRootFinds
      case None =>
        if !c.rootAlloc then NodeInterned(nodes, roots, OutOfMemory, NULL_HANDLE)
        else
          var root := Pointer(roots.mallocs, node.value);
          var roots1 := Malloc(roots, NodeRootOf(rid));
          var r := Insert(nodes, TypeOf(ClassOf(dom, node.value)), Some(root), true, c.tableAlloc);
          NodeInterned(r.table, if r.status != Ok then Delete(roots1, root) else roots1, r.status, r.handle)
  }

  datatype ResolvedNode = ResolvedNode(status: Status, node: nat)

  function ResolveNode(nodes: Table<NodePointer>, h: Handle, expected: nat): ResolvedNode {
    var r := Resolve(nodes, Some(TypeAccepts), h, expected, true);
    ResolvedNode(r.status, if r.entry.Some? then r.entry.value.token.at else 0)
  }

  datatype NodeReleased = NodeReleased(nodes: Table<NodePointer>, blink: Blink, roots: Roots, status: Status)

  function ReleaseNode(nodes: Table<NodePointer>, b: Blink, roots: Roots, rid: nat, h: Handle): NodeReleased {
    var o := Release(nodes, h);
    if o.fired && Matches(nodes, h) then
      var root := nodes.cells[h.slot].entry.value.token;
      NodeReleased(o.table, Log(b, DroppedNode(rid, root.at)), Delete(roots, root), o.status)
    else NodeReleased(o.table, b, roots, o.status)
  }

  function DropAll(b: Blink, nodes: seq<nat>, rid: nat): Blink
    decreases |nodes|
  {
    if nodes == [] then b else DropAll(Log(b, DroppedNode(rid, nodes[0])), nodes[1..], rid)
  }

  // ----- realm -----

  datatype Realm = Realm(
    alive: bool,
    freed: bool,
    document: Option<nat>,
    dispatch: bool,          // event_dispatch_ is set
    nodes: Table<NodePointer>,
    subs: Table<RootPointer>)

  // A realm, the Blink it lives in and the heap with the registries' roots.
  datatype Site = Site(realm: Realm, blink: Blink, roots: Roots)

  function NewRealm(document: nat, dispatch: bool): Realm {
    Realm(true, false, Some(document), dispatch, Empty(true), Empty(true))
  }

  // NtsWebRealm::Invalidate: listeners first, then node roots, then the document root.
  function InvalidateRealm(s: Site, rid: nat): Site {
    if !s.realm.alive then s
    else
      var subs, nodes := InvalidationCalls(s.realm.subs), InvalidationCalls(s.realm.nodes);
      var b0 := Log(s.blink, Invalidated(rid));
      var b1 := CancelAll(b0, Ats(subs), rid);
      var b2 := DropAll(b1, Ats(nodes), rid);
      var b3 := Log(b2, DroppedDocument(rid));
      Site(Realm(false, s.realm.freed, None, false, Invalidate(s.realm.nodes), Invalidate(s.realm.subs)), b3,
           FreeAll(FreeAll(s.roots, subs), nodes))
  }

  // ~NtsWebRealm after the observer was detached: Invalidate, then the members' destructors.
  function FreeRealm(s: Site, rid: nat): Site {
    var s1 := InvalidateRealm(s, rid);
    var subs, nodes := DestroyCalls(s1.realm.subs), DestroyCalls(s1.realm.nodes);
    var b1 := CancelAll(s1.blink, Ats(subs), rid);
    var b2 := DropAll(b1, Ats(nodes), rid);
    Site(s1.realm.(freed := true, nodes := Destroy(s1.realm.nodes), subs := Destroy(s1.realm.subs)),
         Log(b2, Freed(rid)), FreeAll(FreeAll(s1.roots, subs), nodes))
  }

  // Whether NtsWebRealm::DispatchNativeEvent calls event_dispatch_.
  predicate Dispatches(s: Site, context: Option<nat>) {
    && s.realm.alive && s.realm.dispatch && context.Some? && s.realm.document.Some?
    && s.realm.document.value in s.blink.contexts
    && s.blink.contexts[s.realm.document.value] == context.value
  }

  // ----- gated entry points -----

  predicate IsAlive(r: Realm, current: bool) {
    current && r.alive && r.document.Some?
  }

  function CheckRealm(r: Realm, current: bool): Status {
    if !current then WrongSequence
    else if !IsAlive(r, current) then ContextDestroyed
    else Ok
  }

  // Calls of the C ABI, with Blink's answers.
  datatype Call =
    | WebDocument(intern: InternChoices)
    | WebBody(document: Handle, intern: InternChoices)
    // `decodes`: the name, text or type is valid UTF-8; `throws`: Blink raises; `elementClass`: what it makes
    | WebCreateElement(document: Handle, decodes: bool, throws: Option<ErrorStatus>, elementClass: Option<ElementKind>,
                       intern: InternChoices)
    | WebSetTextContent(node: Handle, decodes: bool, text: string)
    | WebAppendChild(parent: Handle, child: Handle)
    | WebAddEventListener(target: Handle, decodes: bool, eventType: string, callback: CallbackToken,
                          create: CreateChoices)
    | WebDispose(subscription: Handle)
    | WebRetain(handle: Handle)
    | WebRelease(handle: Handle)

  // What CopyException reports, and the classes createElement can produce.
  type ErrorStatus = s: Status | s != Ok witness OutOfMemory

  type ElementKind = c: BlinkClass | IsA(c, ElementClass) witness ElementClass

  datatype Reply = Reply(site: Site, status: Status, handle: Handle)

  function Refuse(s: Site, status: Status): Reply {
    Reply(s, status, NULL_HANDLE)
  }

  function InternReply(s: Site, rid: nat, node: Option<nat>, c: InternChoices): Reply {
    var r := Intern(s.realm.nodes, s.roots, rid, s.blink.dom, node, c);
    Reply(s.(realm := s.realm.(nodes := r.nodes), roots := r.roots), r.status, r.handle)
  }

  function DoCreateElement(s: Site, rid: nat, h: Handle, decodes: bool, throws: Option<ErrorStatus>,
                           c: Option<ElementKind>, intern: InternChoices): Reply {
    var d := ResolveNode(s.realm.nodes, h, DOCUMENT);
    if d.status != Ok then Refuse(s, d.status)
    else if !decodes then Refuse(s, InvalidArgument)
    else if throws.Some? then Refuse(s, throws.value)
    else if c.None? then Refuse(s, InvalidHandle)
    else
      var b := s.blink.(dom := CreateElement(s.blink.dom, c.value));
      InternReply(s.(blink := b), rid, Some(|s.blink.dom.classes|), intern)
  }

  function DoSetTextContent(s: Site, h: Handle, decodes: bool, text: string): Reply {
    var n := ResolveNode(s.realm.nodes, h, NODE);
    if n.status != Ok then Refuse(s, n.status)
    else if IsA(ClassOf(s.blink.dom, n.node), HTMLScriptElementClass) then Refuse(s, OperationDisabled)
    else if !decodes then Refuse(s, InvalidArgument)
    else Reply(s.(blink := s.blink.(dom := ReplaceText(s.blink.dom, n.node, text))), Ok, NULL_HANDLE)
  }

  ghost function DoAppendChild(s: Site, parent: Handle, child: Handle): Reply {
    var p := ResolveNode(s.realm.nodes, parent, NODE);
    if p.status != Ok then Refuse(s, p.status)
    else
      var c := ResolveNode(s.realm.nodes, child, NODE);
      if c.status != Ok then Refuse(s, c.status)
      else if !AppendGuard(s.blink.dom, p.node, c.node)
              || p.node >= |s.blink.dom.children| || c.node >= |s.blink.dom.parent| then
        Refuse(s, OperationDisabled)
      else
        Reply(s.(blink := s.blink.(dom := AppendChild(s.blink.dom, p.node, c.node))), Ok, NULL_HANDLE)
  }

  function DoAddEventListener(s: Site, rid: nat, target: Handle, decodes: bool, eventType: string,
                              callback: CallbackToken, c: CreateChoices): Reply {
    if callback.generation == 0 then Refuse(s, InvalidArgument)
    else
      var n := ResolveNode(s.realm.nodes, target, NODE);
      if n.status != Ok then Refuse(s, n.status)
      else if !decodes then Refuse(s, InvalidArgument)
      else
        var l := |s.blink.listeners|;
        var b := s.blink.(listeners := s.blink.listeners + [Listener(Some(rid), callback)]);
        var r := CreateSubscription(s.realm.subs, b, s.roots, rid, n.node, eventType, l, c);
        Reply(Site(s.realm.(subs := r.subs), r.blink, r.roots), r.status, r.handle)
  }

  ghost function Perform(s: Site, rid: nat, current: bool, call: Call): Reply {
    var realm := CheckRealm(s.realm, current);
    if realm != Ok then Refuse(s, realm)
    else
      match call
      case WebDocument(c) => InternReply(s, rid, s.realm.document, c)
      case WebBody(h, c) =>
        var d := ResolveNode(s.realm.nodes, h, DOCUMENT);
        if d.status != Ok then Refuse(s, d.status)
        else if d.node !in s.blink.bodies then Reply(s, Ok, NULL_HANDLE)
        else InternReply(s, rid, Some(s.blink.bodies[d.node]), c)
      case WebCreateElement(h, decodes, throws, cls, c) => DoCreateElement(s, rid, h, decodes, throws, cls, c)
      case WebSetTextContent(h, decodes, text) => DoSetTextContent(s, h, decodes, text)
      case WebAppendChild(p, c) => DoAppendChild(s, p, c)
      case WebAddEventListener(h, decodes, eventType, callback, c) =>
        DoAddEventListener(s, rid, h, decodes, eventType, callback, c)
      case WebDispose(h) =>
        var r := DisposeSubscription(s.realm.subs, s.blink, s.roots, rid, h);
        Reply(Site(s.realm.(subs := r.subs), r.blink, r.roots), r.status, NULL_HANDLE)
      case WebRetain(h) =>
        var o := Retain(s.realm.nodes, h);
        Reply(s.(realm := s.realm.(nodes := o.table)), o.status, NULL_HANDLE)
      case WebRelease(h) =>
        var r := ReleaseNode(s.realm.nodes, s.blink, s.roots, rid, h);
        Reply(Site(s.realm.(nodes := r.nodes), r.blink, r.roots), r.status, NULL_HANDLE)
  }
}
