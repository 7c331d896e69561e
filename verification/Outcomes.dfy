/** What every C entry point answers in a live realm, for every input and every answer of
    Blink: when it succeeds, and with which status it is refused otherwise. Stated in terms
    of live handles, the nodes they name and the tree, not of the code's own steps. */
module Outcomes {
  import opened Abi
  import opened Heaps
  import opened TableSpec
  import opened TableInvariant
  import opened HandleMap
  import opened TableLaws
  import opened WebTypes
  import opened Doms
  import opened Bridge
  import opened BridgeInvariant
  import opened RegistryLaws
  import opened SiteLaws
  import opened CapsuleLaws

  // ----- handles -----

  // The node can be given one more edge: its one handle is not saturated, or there is memory
  // for a new root and a slot.
  ghost predicate CanIntern(nodes: Table<NodePointer>, node: nat, c: InternChoices) {
    || (exists h :: h in Live(nodes) && Live(nodes)[h].token.at == node && Live(nodes)[h].references < UINT32_MAX)
    || ((forall h :: h in Live(nodes) ==> Live(nodes)[h].token.at != node)
        && c.rootAlloc && CanReserve(nodes, c.tableAlloc))
  }

  lemma InternAnswers(nodes: Table<NodePointer>, roots: Roots, rid: nat, dom: Dom, node: nat, c: InternChoices)
    requires Inv(nodes) && Interned(nodes, dom) && !nodes.invalidated
    ensures Intern(nodes, roots, rid, dom, Some(node), c).status ==
            if CanIntern(nodes, node, c) then Ok else OutOfMemory
  {
    hide Inv, Live, Intern, CanReserve;
    InternStatus(nodes, roots, rid, dom, node, c);
    forall g, h | g in Live(nodes) && h in Live(nodes) && Live(nodes)[g].token.at == Live(nodes)[h].token.at
      ensures g == h
    {
    }
    hide Interned;
    if h :| h in Live(nodes) && Live(nodes)[h].token.at == node {
      if CanIntern(nodes, node, c) {
        var g :| g in Live(nodes) && Live(nodes)[g].token.at == node && Live(nodes)[g].references < UINT32_MAX;
      }
    }
  }

  // s' is s with one more edge from h to the node, and nothing else new in the realm.
  ghost predicate OneMoreEdge(s: Site, s': Site, h: Handle, node: nat) {
    var before := Live(s.realm.nodes);
    && s'.realm == s.realm.(nodes := s'.realm.nodes) && h.generation != 0
    && (h in before ==> before[h].token.at == node && before[h].references < UINT32_MAX)
    && (h !in before ==> forall g :: g in before ==> before[g].token.at != node)
    && Live(s'.realm.nodes) == before[h :=
         if h in before then before[h].(references := before[h].references + 1)
         else Entry(Pointer(s.roots.mallocs, node), TypeOf(ClassOf(s'.blink.dom, node)), 1)]
  }

  lemma ReplyAnswers(s: Site, rid: nat, node: nat, c: InternChoices)
    requires Inv(s.realm.nodes) && Interned(s.realm.nodes, s.blink.dom) && !s.realm.nodes.invalidated
    requires node < |s.blink.dom.classes|
    ensures var r := InternReply(s, rid, Some(node), c);
            && r.status == (if CanIntern(s.realm.nodes, node, c) then Ok else OutOfMemory)
            && r.site.blink == s.blink
            && (r.status == Ok ==> OneMoreEdge(s, r.site, r.handle, node))
  {
    hide Inv, Interned, Live, Intern, CanIntern, TypeOf, HeapOK;
    InternAnswers(s.realm.nodes, s.roots, rid, s.blink.dom, node, c);
    InternLaw(s.realm.nodes, s.roots, rid, s.blink.dom, Some(node), c);
  }

  // A checked lookup in a live realm.
  lemma LookupAnswers(s: Site, rid: nat, h: Handle, expected: nat)
    requires SiteOK(s, rid) && s.realm.alive && Modelled(expected)
    ensures var r := ResolveNode(s.realm.nodes, h, expected);
            && r.status ==
               (if h in Live(s.realm.nodes)
                   && IsA(ClassOf(s.blink.dom, Live(s.realm.nodes)[h].token.at), ClassOfType(expected))
                then Ok else InvalidHandle)
            && (r.status == Ok ==> r.node == Live(s.realm.nodes)[h].token.at < |s.blink.dom.classes|)
  {
    hide SiteOK, Inv, Interned, Live, IsA, ClassOfType, ResolveNode;
    SiteInterned(s, rid);
    AliveTables(s, rid);
    ResolveNodeLaw(s.realm.nodes, s.blink.dom, h, expected);
    ResolveRefused(s.realm.nodes, h, expected);
  }

  lemma ResolveRefused(nodes: Table<NodePointer>, h: Handle, expected: nat)
    requires !nodes.invalidated
    ensures ResolveNode(nodes, h, expected).status == Ok || ResolveNode(nodes, h, expected).status == InvalidHandle
  {
    hide Matches;
  }

  lemma AliveTables(s: Site, rid: nat)
    requires SiteOK(s, rid) && s.realm.alive
    ensures !s.realm.nodes.invalidated && !s.realm.subs.invalidated
  {
    hide Linked, BlinkOK, Inv, Interned, Dead, Bare, Gone;
  }

  lemma NodeAnswers(s: Site, rid: nat, h: Handle)
    requires SiteOK(s, rid) && s.realm.alive
    ensures var r := ResolveNode(s.realm.nodes, h, NODE);
            && r.status == (if h in Live(s.realm.nodes) then Ok else InvalidHandle)
            && (r.status == Ok ==> r.node == Live(s.realm.nodes)[h].token.at < |s.blink.dom.classes|)
  {
    hide SiteOK, Live, IsA, ClassOfType, ResolveNode;
    LookupAnswers(s, rid, h, NODE);
    if h in Live(s.realm.nodes) { EveryNode(ClassOf(s.blink.dom, Live(s.realm.nodes)[h].token.at)); }
  }

  lemma EveryNode(c: BlinkClass)
    ensures IsA(c, ClassOfType(NODE))
  {
    Chain(c);
  }

  // ----- document, body, createElement -----

  lemma DocumentAnswers(s: Site, rid: nat, c: InternChoices)
    requires SiteOK(s, rid) && s.realm.alive
    ensures var r := Perform(s, rid, true, WebDocument(c));
            && s.realm.document.Some?
            && r.status == (if CanIntern(s.realm.nodes, s.realm.document.value, c) then Ok else OutOfMemory)
            && r.site.blink == s.blink
            && (r.status == Ok ==> OneMoreEdge(s, r.site, r.handle, s.realm.document.value))
  {
    hide SiteOK, Inv, Interned, Perform, InternReply, CanIntern, OneMoreEdge;
    Opened(s, rid, WebDocument(c));
    SiteInterned(s, rid);
    AliveTables(s, rid);
    ReplyAnswers(s, rid, s.realm.document.value, c);
  }

  // Whether the handle is live and names a document.
  ghost predicate ToDocument(s: Site, h: Handle) {
    h in Live(s.realm.nodes) && IsA(ClassOf(s.blink.dom, Live(s.realm.nodes)[h].token.at), DocumentClass)
  }

  lemma BodyAnswers(s: Site, rid: nat, h: Handle, c: InternChoices)
    requires SiteOK(s, rid) && s.realm.alive
    ensures var r := Perform(s, rid, true, WebBody(h, c));
            if !ToDocument(s, h) then r == Reply(s, InvalidHandle, NULL_HANDLE)
            else
              var d := Live(s.realm.nodes)[h].token.at;
              if d !in s.blink.bodies then r == Reply(s, Ok, NULL_HANDLE)
              else
                var body := s.blink.bodies[d];
                && r.status == (if CanIntern(s.realm.nodes, body, c) then Ok else OutOfMemory)
                && r.site.blink == s.blink
                && (r.status == Ok ==> OneMoreEdge(s, r.site, r.handle, body))
  {
    hide SiteOK, Inv, Interned, Perform, InternReply, ResolveNode, CanIntern, OneMoreEdge, Live, IsA;
    Opened(s, rid, WebBody(h, c));
    SiteInterned(s, rid);
    AliveTables(s, rid);
    assert ClassOfType(DOCUMENT) == DocumentClass;
    LookupAnswers(s, rid, h, DOCUMENT);
    if ToDocument(s, h) {
      var d := Live(s.realm.nodes)[h].token.at;
      if d in s.blink.bodies { ReplyAnswers(s, rid, s.blink.bodies[d], c); }
    }
  }

  // What Blink raises is what the caller gets; whatever Blink made is there even if its handle
  // cannot be had.
  lemma ElementAnswers(s: Site, rid: nat, call: Call)
    requires SiteOK(s, rid) && s.realm.alive && call.WebCreateElement?
    ensures var r := Perform(s, rid, true, call);
            var made := ToDocument(s, call.document) && call.decodes && call.throws.None? && call.elementClass.Some?;
            && r.status ==
               (if !ToDocument(s, call.document) then InvalidHandle
                else if !call.decodes then InvalidArgument
                else if call.throws.Some? then call.throws.value
                else if call.elementClass.None? then InvalidHandle
                else if call.intern.rootAlloc && CanReserve(s.realm.nodes, call.intern.tableAlloc) then Ok
                else OutOfMemory)
            && (made ==> r.site.blink == s.blink.(dom := CreateElement(s.blink.dom, call.elementClass.value)))
            && (!made ==> r.site == s)
            && (r.status == Ok ==>
                  OneMoreEdge(s, r.site, r.handle, |s.blink.dom.classes|) && r.handle !in Live(s.realm.nodes))
  {
    hide SiteOK, Inv, Interned, Perform, InternReply, ResolveNode, CanReserve, OneMoreEdge, Live, IsA, CreateElement,
         Forest;
    Opened(s, rid, call);
    SiteInterned(s, rid);
    AliveTables(s, rid);
    SiteForest(s, rid);
    assert ClassOfType(DOCUMENT) == DocumentClass;
    LookupAnswers(s, rid, call.document, DOCUMENT);
    if call.elementClass.Some? { NewNodeAnswers(s, rid, call.elementClass.value, call.intern); }
  }

  lemma NewNodeAnswers(s: Site, rid: nat, cls: ElementKind, c: InternChoices)
    requires Inv(s.realm.nodes) && Interned(s.realm.nodes, s.blink.dom) && !s.realm.nodes.invalidated
    requires |s.blink.dom.parent| == |s.blink.dom.children| == |s.blink.dom.classes|
    ensures var b := s.blink.(dom := CreateElement(s.blink.dom, cls));
            var r := InternReply(s.(blink := b), rid, Some(|s.blink.dom.classes|), c);
            && r.status == (if c.rootAlloc && CanReserve(s.realm.nodes, c.tableAlloc) then Ok else OutOfMemory)
            && r.site.blink == b
            && (r.status == Ok ==>
                  OneMoreEdge(s, r.site, r.handle, |s.blink.dom.classes|) && r.handle !in Live(s.realm.nodes))
  {
    hide Inv, Live, Intern, InternReply, CanReserve, CreateElement, TypeOf, CanIntern;
    var dom, n := CreateElement(s.blink.dom, cls), |s.blink.dom.classes|;
    NewNode(s.blink.dom, cls);
    InternedGrows(s.realm.nodes, s.blink.dom, dom);
    NotYetNamed(s.realm.nodes, s.blink.dom, n, c);
    ReplyAnswers(s.(blink := s.blink.(dom := dom)), rid, n, c);
  }

  lemma NotYetNamed(nodes: Table<NodePointer>, dom: Dom, n: nat, c: InternChoices)
    requires Interned(nodes, dom) && n >= |dom.classes|
    ensures forall h :: h in Live(nodes) ==> Live(nodes)[h].token.at != n
    ensures CanIntern(nodes, n, c) <==> c.rootAlloc && CanReserve(nodes, c.tableAlloc)
  {
    hide Live, CanReserve, TypeOf;
  }

  // ----- setTextContent, appendChild -----

  lemma TextAnswers(s: Site, rid: nat, h: Handle, decodes: bool, text: string)
    requires SiteOK(s, rid) && s.realm.alive
    ensures var r := Perform(s, rid, true, WebSetTextContent(h, decodes, text));
            r.status ==
            if h !in Live(s.realm.nodes) then InvalidHandle
            else if IsA(ClassOf(s.blink.dom, Live(s.realm.nodes)[h].token.at), HTMLScriptElementClass) then
              OperationDisabled
            else if !decodes then InvalidArgument
            else Ok
  {
    hide SiteOK, Live, Perform, ResolveNode, IsA, ReplaceText;
    Opened(s, rid, WebSetTextContent(h, decodes, text));
    NodeAnswers(s, rid, h);
  }

  // appendChild in full: two live handles to elements, of which the child has no parent and
  // is not a host-including inclusive ancestor of the parent. Everything else on live
  // handles is refused as disabled, and nothing changes then.
  lemma AppendAnswers(s: Site, rid: nat, parent: Handle, child: Handle)
    requires SiteOK(s, rid) && s.realm.alive
    ensures var r := Perform(s, rid, true, WebAppendChild(parent, child));
            var live, dom := Live(s.realm.nodes), s.blink.dom;
            if parent !in live || child !in live then r == Reply(s, InvalidHandle, NULL_HANDLE)
            else
              var p, c := live[parent].token.at, live[child].token.at;
              if && IsA(ClassOf(dom, p), ElementClass) && IsA(ClassOf(dom, c), ElementClass)
                 && ParentOf(dom, c) == None && !Contains(dom, c, p)
              then r.status == Ok && r.site.realm == s.realm && Appended(dom, r.site.blink.dom, p, c)
              else r == Reply(s, OperationDisabled, NULL_HANDLE)
  {
    hide SiteOK, Live, Perform, ResolveNode, AppendGuard, Forest, IsA, Contains, Appended;
    Opened(s, rid, WebAppendChild(parent, child));
    NodeAnswers(s, rid, parent);
    NodeAnswers(s, rid, child);
    SiteForest(s, rid);
    if parent in Live(s.realm.nodes) && child in Live(s.realm.nodes) {
      var p, c := Live(s.realm.nodes)[parent].token.at, Live(s.realm.nodes)[child].token.at;
      GuardExact(s.blink.dom, p, c);
      if AppendGuard(s.blink.dom, p, c) { GuardedAppend(s.blink.dom, p, c); }
    }
  }

  // ----- addEventListener, dispose -----

  // Past the target, only memory and Blink's own refusal stand in the way.
  lemma CreateStatus(subs: Table<RootPointer>, b: Blink, roots: Roots, rid: nat, target: nat, eventType: string,
                     l: nat, c: CreateChoices)
    ensures CreateSubscription(subs, b, roots, rid, target, eventType, l, c).status ==
            if subs.invalidated then ContextDestroyed
            else if !c.rootAlloc then OutOfMemory
            else if !c.accept then OperationDisabled
            else if !CanReserve(subs, c.tableAlloc) then OutOfMemory
            else Ok
  {
    hide CanReserve, CancelRoot, AddEventListener, Malloc, Free, Put, NextIndex;
  }

  // addEventListener in full, on a live handle to any node at all.
  lemma ListenerAnswers(s: Site, rid: nat, call: Call)
    requires SiteOK(s, rid) && s.realm.alive && call.WebAddEventListener?
    ensures Perform(s, rid, true, call).status ==
            if call.callback.generation == 0 then InvalidArgument
            else if call.target !in Live(s.realm.nodes) then InvalidHandle
            else if !call.decodes then InvalidArgument
            else if !call.create.rootAlloc then OutOfMemory
            else if !call.create.accept then OperationDisabled
            else if !CanReserve(s.realm.subs, call.create.tableAlloc) then OutOfMemory
            else Ok
  {
    hide SiteOK, Live, Perform, ResolveNode, CreateSubscription, CanReserve;
    Opened(s, rid, call);
    AliveTables(s, rid);
    NodeAnswers(s, rid, call.target);
    var n := ResolveNode(s.realm.nodes, call.target, NODE).node;
    var b := s.blink.(listeners := s.blink.listeners + [Listener(Some(rid), call.callback)]);
    CreateStatus(s.realm.subs, b, s.roots, rid, n, call.eventType, |s.blink.listeners|, call.create);
  }

  lemma DisposeAnswers(s: Site, rid: nat, h: Handle)
    requires SiteOK(s, rid) && s.realm.alive
    ensures var r := Perform(s, rid, true, WebDispose(h));
            if h !in Live(s.realm.subs) then r == Reply(s, InvalidHandle, NULL_HANDLE)
            else
              var root := Live(s.realm.subs)[h].token.at;
              && r.status == Ok && r.site.realm == s.realm.(subs := r.site.realm.subs)
              && Live(r.site.realm.subs) == Live(s.realm.subs) - {h}
              && r.site.blink.registrations == s.blink.registrations - {RegistrationOf(root)}
              && r.site.blink.trace == s.blink.trace + [Cancelled(root.listener, rid)]
  {
    hide SiteOK, Live, Perform, DisposeSubscription, Inv, BlinkOK, Linked, Dead, Bare, Gone, CreateTouches, PointsTo;
    Opened(s, rid, WebDispose(h));
    DisposeParts(s, rid);
    DisposeLaw(s.realm.subs, s.blink, s.roots, rid, h);
    DisposeTrace(s.realm.subs, s.blink, s.roots, rid, h);
    if h in Live(s.realm.subs) { RootActive(s, rid, h); }
  }

  lemma DisposeParts(s: Site, rid: nat)
    requires SiteOK(s, rid) && s.realm.alive
    ensures Inv(s.realm.subs) && s.realm.subs.hooked && !s.realm.subs.invalidated
    ensures BlinkOK(s.blink) && Linked(s.realm.subs, rid, s.blink) && !Closed(s.blink.trace, rid)
  {
    SiteSubs(s, rid);
    hide RealmOK, BlinkOK, Linked, Inv;
  }

  lemma RootActive(s: Site, rid: nat, h: Handle)
    requires SiteOK(s, rid) && h in Live(s.realm.subs)
    ensures Live(s.realm.subs)[h].token.at.active && Live(s.realm.subs)[h].references == 1
  {
    hide Live, RealmOK, BlinkOK, Dead, Bare, Gone;
    assert RootLinked(Live(s.realm.subs)[h], rid, s.blink);
  }

  lemma DisposeTrace(subs: Table<RootPointer>, b: Blink, roots: Roots, rid: nat, h: Handle)
    requires subs.hooked && !subs.invalidated
    ensures var r := DisposeSubscription(subs, b, roots, rid, h);
            if h !in Live(subs) then r.status == InvalidHandle
            else
              r.status == Ok
              && (Live(subs)[h].references == 1 && Live(subs)[h].token.at.active ==>
                    r.blink.trace == b.trace + [Cancelled(Live(subs)[h].token.at.listener, rid)])
  {
    hide Live, Matches, Reset;
    LiveAt(subs, h);
  }

  // ----- retain, release -----

  lemma RetainAnswers(s: Site, rid: nat, h: Handle)
    requires SiteOK(s, rid) && s.realm.alive
    ensures var r := Perform(s, rid, true, WebRetain(h));
            var live := Live(s.realm.nodes);
            if h !in live then r == Reply(s, InvalidHandle, NULL_HANDLE)
            else if live[h].references == UINT32_MAX then r == Reply(s, OutOfMemory, NULL_HANDLE)
            else
              && r.status == Ok && r.site == s.(realm := s.realm.(nodes := r.site.realm.nodes))
              && Live(r.site.realm.nodes) == live[h := live[h].(references := live[h].references + 1)]
  {
    hide SiteOK, Live, Perform, Retain, Inv, Interned;
    Opened(s, rid, WebRetain(h));
    SiteInterned(s, rid);
    AliveTables(s, rid);
    RetainLaw(s.realm.nodes, h);
    RetainRefused(s.realm.nodes, h);
  }

  lemma RetainRefused<T>(t: Table<T>, h: Handle)
    requires !t.invalidated
    ensures h !in Live(t) ==> Retain(t, h).status == InvalidHandle
    ensures h in Live(t) ==> Retain(t, h).status == if Live(t)[h].references == UINT32_MAX then OutOfMemory else Ok
  {
    hide Live, Matches;
    LiveAt(t, h);
  }

  // The last release drops the node, any other only an edge.
  lemma ReleaseAnswers(s: Site, rid: nat, h: Handle)
    requires SiteOK(s, rid) && s.realm.alive
    ensures var r := Perform(s, rid, true, WebRelease(h));
            var live := Live(s.realm.nodes);
            if h !in live then r == Reply(s, InvalidHandle, NULL_HANDLE)
            else
              && r.status == Ok && r.site.realm == s.realm.(nodes := r.site.realm.nodes)
              && (live[h].references > 1 ==>
                    && r.site.blink == s.blink && r.site.roots == s.roots
                    && Live(r.site.realm.nodes) == live[h := live[h].(references := live[h].references - 1)])
              && (live[h].references == 1 ==>
                    && r.site.blink == Log(s.blink, DroppedNode(rid, live[h].token.at))
                    && r.site.roots == Free(s.roots, Some(live[h].token.address))
                    && Live(r.site.realm.nodes) == live - {h})
  {
    hide SiteOK, Live, Perform, ReleaseNode, Inv, Interned;
    Opened(s, rid, WebRelease(h));
    SiteInterned(s, rid);
    AliveTables(s, rid);
    SiteHooks(s, rid);
    ReleaseNodeLaw(s.realm.nodes, s.blink.dom, s.blink, s.roots, rid, h);
    ReleaseRefused(s.realm.nodes, s.blink, s.roots, rid, h);
  }

  lemma SiteHooks(s: Site, rid: nat)
    requires SiteOK(s, rid) && s.realm.alive
    ensures s.realm.nodes.hooked && s.realm.subs.hooked
  {
    hide Linked, BlinkOK, Inv, Interned, Dead, Bare, Gone;
  }

  lemma ReleaseRefused(nodes: Table<NodePointer>, b: Blink, roots: Roots, rid: nat, h: Handle)
    requires !nodes.invalidated
    ensures h !in Live(nodes) ==> ReleaseNode(nodes, b, roots, rid, h).status == InvalidHandle
  {
    hide Live, Matches, Reset;
    LiveAt(nodes, h);
  }
}
