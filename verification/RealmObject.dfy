/** NtsWebRealm and the capsules of the C ABI as methods on it, in the order in which the
    C++ code does things, proved against Bridge.Perform, InvalidateRealm and FreeRealm. */
module RealmObjects {
  import opened Abi
  import opened TableSpec
  import opened TableLaws
  import opened WebTypes
  import opened Doms
  import opened Bridge
  import opened BridgeInvariant
  import opened SiteLaws
  import opened Registries

  // Blink announces the end of the document's execution context to it, possibly after the
  // realm is gone: its realm pointer must be null by then.
  class BlinkRealmLifecycleObserver {
    var realm: NtsWebRealm?

    constructor ()
      ensures realm == null
    {
      realm := null;
    }

    method Detach()
      modifies this
      ensures realm == null
    {
      realm := null;
    }

    method ContextDestroyed()
      requires realm != null ==> realm.Valid()
      modifies this, if realm == null then {} else realm.Footprint()
      ensures realm == null
      ensures old(realm) != null ==>
                var r: NtsWebRealm := old(realm);
                && r.Valid() && fresh(r.Footprint() - old(r.Footprint()))
                && r.Here() == InvalidateRealm(old(r.Here()), r.id)
    {
      hide NtsWebRealm.Valid, NtsWebRealm.View, InvalidateRealm;
      if realm == null { return; }
      realm.Invalidate();
      realm := null;
    }
  }

  class NtsWebRealm {
    const id: nat
    const page: Page
    const observer: BlinkRealmLifecycleObserver
    const nodes: NodeRegistry
    const subscriptions: SubscriptionRegistry
    var alive: bool
    var document: Option<nat>
    var eventDispatch: bool
    ghost var freed: bool

    ghost function Footprint(): set<object>
      reads this, nodes.table, subscriptions.table
    {
      {this, page, nodes.table, nodes.table.slots, subscriptions.table, subscriptions.table.slots}
    }

    ghost predicate Valid()
      reads this, page, nodes, subscriptions, nodes.table, subscriptions.table
      reads nodes.table.slots, subscriptions.table.slots
    {
      && nodes.Valid() && subscriptions.Valid() && !freed
      && nodes.table as object != subscriptions.table as object
      && nodes.table.slots as object != subscriptions.table.slots as object
    }

    // The realm as Bridge sees it.
    ghost function View(): Realm
      reads this, nodes.table, subscriptions.table
    {
      Realm(alive, freed, document, eventDispatch, nodes.table.state, subscriptions.table.state)
    }

    ghost function Here(): Site
      reads this, page, nodes.table, subscriptions.table
    {
      Site(View(), page.b, page.roots)
    }

    constructor (id: nat, page: Page, document: nat, eventDispatch: bool)
      ensures Valid() && fresh(Footprint() - {page})
      ensures this.id == id && this.page == page && View() == NewRealm(document, eventDispatch)
      ensures fresh(observer) && observer.realm == this
    {
      hide NodeRegistry.Valid, SubscriptionRegistry.Valid;
      this.id := id;
      this.page := page;
      this.document := Some(document);
      this.eventDispatch := eventDispatch;
      alive, freed := true, false;
      nodes := new NodeRegistry();
      subscriptions := new SubscriptionRegistry();
      observer := new BlinkRealmLifecycleObserver();
      new;
      observer.realm := this;
    }

    lemma AliveHere()
      ensures Here().realm.alive == alive
      ensures IsAlive(Here().realm, true) <==> alive && document.Some?
    {
    }

    lemma StillThere()
      requires Valid()
      ensures !Here().realm.freed
    {
    }

    // Listeners first: they point back here. Then node roots, then the document root.
    method Invalidate()
      requires Valid()
      modifies Footprint()
      ensures Valid() && fresh(Footprint() - old(Footprint()))
      ensures Here() == InvalidateRealm(old(Here()), id)
    {
      hide NodeRegistry.Valid, SubscriptionRegistry.Valid, CancelAll, DropAll, InvalidationCalls, TableSpec.Invalidate;
      if !alive { return; }
      alive := false;
      page.b := Log(page.b, Effect.Invalidated(id));
      subscriptions.Invalidate(page, id);
      nodes.Invalidate(page, id);
      page.b := Log(page.b, DroppedDocument(id));
      document := None;
      eventDispatch := false;
    }

    // The destructor. The observer is detached before anything else.
    method Free()
      requires Valid()
      modifies Footprint(), observer
      ensures observer.realm == null && freed
      ensures Here() == FreeRealm(old(Here()), id)
    {
      hide NodeRegistry.Valid, SubscriptionRegistry.Valid, CancelAll, DropAll, DestroyCalls, TableSpec.Destroy,
           InvalidateRealm;
      observer.Detach();
      Invalidate();
      subscriptions.Destroy(page, id);
      nodes.Destroy(page, id);
      page.b := Log(page.b, Freed(id));
      freed := true;
    }

    // Whether the event dispatcher is called for an event in this context.
    method DispatchNativeEvent(context: Option<nat>) returns (called: bool)
      ensures called == Dispatches(Here(), context)
    {
      if !alive || !eventDispatch || context.None? || document.None? { return false; }
      if document.value !in page.b.contexts || page.b.contexts[document.value] != context.value { return false; }
      called := true;
    }

    method Check(current: bool) returns (status: Status)
      ensures status == CheckRealm(View(), current)
    {
      if !current { return WrongSequence; }
      if !alive || document.None? { return ContextDestroyed; }
      status := Ok;
    }

    method WebRetain(current: bool, h: Handle) returns (status: Status)
      requires Valid()
      modifies Footprint()
      ensures Valid() && fresh(Footprint() - old(Footprint()))
      ensures Reply(Here(), status, NULL_HANDLE) == Perform(old(Here()), id, current, Call.WebRetain(h))
    {
      hide NodeRegistry.Valid, SubscriptionRegistry.Valid, TableSpec.Retain;
      status := Check(current);
      if status != Ok { return; }
      status := nodes.Retain(h);
    }

    method WebRelease(current: bool, h: Handle) returns (status: Status)
      requires Valid()
      modifies Footprint()
      ensures Valid() && fresh(Footprint() - old(Footprint()))
      ensures Reply(Here(), status, NULL_HANDLE) == Perform(old(Here()), id, current, Call.WebRelease(h))
    {
      hide NodeRegistry.Valid, SubscriptionRegistry.Valid, ReleaseNode;
      status := Check(current);
      if status != Ok { return; }
      status := nodes.Release(page, id, h);
    }

    method WebDispose(current: bool, h: Handle) returns (status: Status)
      requires Valid()
      modifies Footprint()
      ensures Valid() && fresh(Footprint() - old(Footprint()))
      ensures Reply(Here(), status, NULL_HANDLE) == Perform(old(Here()), id, current, Call.WebDispose(h))
    {
      hide NodeRegistry.Valid, SubscriptionRegistry.Valid, DisposeSubscription;
      status := Check(current);
      if status != Ok { return; }
      status := subscriptions.Dispose(page, id, h);
    }

    method WebDocument(current: bool, c: InternChoices) returns (status: Status, handle: Handle)
      requires Valid()
      modifies Footprint()
      ensures Valid() && fresh(Footprint() - old(Footprint()))
      ensures Reply(Here(), status, handle) == Perform(old(Here()), id, current, Call.WebDocument(c))
    {
      hide NodeRegistry.Valid, SubscriptionRegistry.Valid, Bridge.Intern;
      handle := NULL_HANDLE;
      status := Check(current);
      if status != Ok { return; }
      status, handle := nodes.Intern(page, id, document, c);
    }

    method WebBody(current: bool, h: Handle, c: InternChoices) returns (status: Status, handle: Handle)
      requires Valid()
      modifies Footprint()
      ensures Valid() && fresh(Footprint() - old(Footprint()))
      ensures Reply(Here(), status, handle) == Perform(old(Here()), id, current, Call.WebBody(h, c))
    {
      hide NodeRegistry.Valid, SubscriptionRegistry.Valid, Bridge.Intern, ResolveNode;
      handle := NULL_HANDLE;
      status := Check(current);
      if status != Ok { return; }
      var d;
      status, d := nodes.Resolve(h, DOCUMENT);
      if status != Ok { return; }
      if d !in page.b.bodies { return; } // null is the zero handle
      status, handle := nodes.Intern(page, id, Some(page.b.bodies[d]), c);
    }

    method WebCreateElement(current: bool, h: Handle, decodes: bool, throws: Option<ErrorStatus>,
                            elementClass: Option<ElementKind>, c: InternChoices)
      returns (status: Status, handle: Handle)
      requires Valid()
      modifies Footprint()
      ensures Valid() && fresh(Footprint() - old(Footprint()))
      ensures Reply(Here(), status, handle) ==
              Perform(old(Here()), id, current, Call.WebCreateElement(h, decodes, throws, elementClass, c))
    {
      hide NodeRegistry.Valid, SubscriptionRegistry.Valid, Bridge.Intern, ResolveNode, CreateElement;
      handle := NULL_HANDLE;
      status := Check(current);
      if status != Ok { return; }
      var d;
      status, d := nodes.Resolve(h, DOCUMENT);
      if status != Ok { return; }
      if !decodes { return InvalidArgument, handle; }
      if throws.Some? { return throws.value, handle; }
      if elementClass.None? { return InvalidHandle, handle; }
      var element := |page.b.dom.classes|;
      page.b := page.b.(dom := CreateElement(page.b.dom, elementClass.value));
      status, handle := nodes.Intern(page, id, Some(element), c);
    }

    method WebSetTextContent(current: bool, h: Handle, decodes: bool, text: string) returns (status: Status)
      requires Valid()
      modifies page
      ensures Valid() && Footprint() == old(Footprint()) && View() == old(View())
      ensures Reply(Here(), status, NULL_HANDLE) ==
              Perform(old(Here()), id, current, Call.WebSetTextContent(h, decodes, text))
    {
      hide NodeRegistry.Valid, SubscriptionRegistry.Valid, ResolveNode, IsA, ReplaceText;
      status := Check(current);
      if status != Ok { return; }
      var n;
      status, n := nodes.Resolve(h, NODE);
      if status != Ok { return; }
      if IsA(ClassOf(page.b.dom, n), HTMLScriptElementClass) { return OperationDisabled; }
      if !decodes { return InvalidArgument; }
      page.b := page.b.(dom := ReplaceText(page.b.dom, n, text));
    }

    // The refusals of nts_web_node_append_child, in its order.
    method Guard(dom: Dom, parent: nat, child: nat) returns (ok: bool)
      requires Forest(dom) && parent < |dom.classes|
      ensures ok == AppendGuard(dom, parent, child)
    {
      hide Forest, Contains, IsA;
      if !IsA(ClassOf(dom, parent), ContainerNode) || !IsA(ClassOf(dom, parent), ElementClass)
         || !IsA(ClassOf(dom, child), ElementClass) {
        return false;
      }
      if ParentOf(dom, child).Some? { return false; }
      var ancestor := ContainsIncludingHostElements(dom, child, parent);
      ok := !ancestor && NodeTypeAllowed(ClassOf(dom, parent), ClassOf(dom, child));
    }

    method WebAppendChild(current: bool, parent: Handle, child: Handle) returns (status: Status)
      requires Valid() && SiteOK(Here(), id)
      modifies Footprint()
      ensures Valid() && fresh(Footprint() - old(Footprint()))
      ensures Reply(Here(), status, NULL_HANDLE) ==
              Perform(old(Here()), id, current, Call.WebAppendChild(parent, child))
    {
      hide NodeRegistry.Valid, SubscriptionRegistry.Valid, ResolveNode, SiteOK, AppendGuard, Forest;
      status := Check(current);
      if status != Ok { return; }
      SiteForest(Here(), id);
      var p, c;
      status, p := nodes.Resolve(parent, NODE);
      if status != Ok { return; }
      status, c := nodes.Resolve(child, NODE);
      if status != Ok { return; }
      if p >= |page.b.dom.classes| || c >= |page.b.dom.classes| { return OperationDisabled; }
      var ok := Guard(page.b.dom, p, c);
      if !ok { return OperationDisabled; }
      page.b := page.b.(dom := AppendChild(page.b.dom, p, c));
    }

    method WebAddEventListener(current: bool, target: Handle, decodes: bool, eventType: string,
                               callback: CallbackToken, c: CreateChoices) returns (status: Status, handle: Handle)
      requires Valid()
      modifies Footprint()
      ensures Valid() && fresh(Footprint() - old(Footprint()))
      ensures Reply(Here(), status, handle) ==
              Perform(old(Here()), id, current, Call.WebAddEventListener(target, decodes, eventType, callback, c))
    {
      hide NodeRegistry.Valid, SubscriptionRegistry.Valid, ResolveNode, CreateSubscription;
      handle := NULL_HANDLE;
      status := Check(current);
      if status != Ok { return; }
      if callback.generation == 0 { return InvalidArgument, handle; }
      var n;
      status, n := nodes.Resolve(target, NODE);
      if status != Ok { return; }
      if !decodes { return InvalidArgument, handle; }
      var listener := |page.b.listeners|;
      page.b := page.b.(listeners := page.b.listeners + [Listener(Some(id), callback)]);
      status, handle := subscriptions.Create(page, id, n, eventType, listener, c);
    }

    // Any call of the C ABI on the realm's own sequence.
    method Invoke(call: Call) returns (status: Status, handle: Handle)
      requires Valid() && SiteOK(Here(), id)
      modifies Footprint()
      ensures Valid() && fresh(Footprint() - old(Footprint()))
      ensures Reply(Here(), status, handle) == Perform(old(Here()), id, true, call)
    {
      hide Valid, SiteOK, Perform;
      handle := NULL_HANDLE;
      match call
      case WebDocument(c) => status, handle := WebDocument(true, c);
      case WebBody(h, c) => status, handle := WebBody(true, h, c);
      case WebCreateElement(h, decodes, throws, cls, c) =>
        status, handle := WebCreateElement(true, h, decodes, throws, cls, c);
      case WebSetTextContent(h, decodes, text) => status := WebSetTextContent(true, h, decodes, text);
      case WebAppendChild(p, c) => status := WebAppendChild(true, p, c);
      case WebAddEventListener(h, decodes, eventType, callback, c) =>
        status, handle := WebAddEventListener(true, h, decodes, eventType, callback, c);
      case WebDispose(h) => status := WebDispose(true, h);
      case WebRetain(h) => status := WebRetain(true, h);
      case WebRelease(h) => status := WebRelease(true, h);
    }
  }
}
