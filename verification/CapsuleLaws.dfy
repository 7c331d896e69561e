/** What a caller of the C entry points may rely on, in terms of nodes, handles and
    registrations: what each returned handle names, what each success changes, and that a
    refusal changes nothing a caller could see. */
module CapsuleLaws {
  import opened Abi
  import opened Heaps
  import opened TableSpec
  import opened TableInvariant
  import opened HandleMap
  import opened WebTypes
  import opened Doms
  import opened Bridge
  import opened BridgeInvariant
  import opened RegistryLaws
  import opened SiteLaws

  // The handle is live and names the node.
  ghost predicate Names(s: Site, h: Handle, node: nat) {
    h in Live(s.realm.nodes) && Live(s.realm.nodes)[h].token.at == node
  }

  // The handle is live, names an instance of the class, and this is the node.
  ghost predicate NamesA(s: Site, h: Handle, c: BlinkClass, node: nat) {
    Names(s, h, node) && IsA(ClassOf(s.blink.dom, node), c)
  }

  // ----- the gate -----

  // Nothing happens on the wrong sequence or in a dead realm.
  lemma Gated(s: Site, rid: nat, current: bool, call: Call)
    requires SiteOK(s, rid) && !(current && s.realm.alive)
    ensures Perform(s, rid, current, call) == Reply(s, if current then ContextDestroyed else WrongSequence, NULL_HANDLE)
  {
    hide BlinkOK, Linked, Inv, Interned, Dead, Bare, Gone;
  }

  // Past the gate, each call is the capsule's own work.
  lemma Opened(s: Site, rid: nat, call: Call)
    requires SiteOK(s, rid) && s.realm.alive
    ensures var r := Perform(s, rid, true, call);
            match call
            case WebDocument(c) => r == InternReply(s, rid, s.realm.document, c)
            case WebBody(h, c) =>
              var d := ResolveNode(s.realm.nodes, h, DOCUMENT);
              r == if d.status != Ok then Refuse(s, d.status)
                   else if d.node !in s.blink.bodies then Reply(s, Ok, NULL_HANDLE)
                   else InternReply(s, rid, Some(s.blink.bodies[d.node]), c)
            case WebCreateElement(h, decodes, throws, cls, c) =>
              r == DoCreateElement(s, rid, h, decodes, throws, cls, c)
            case WebSetTextContent(h, decodes, text) => r == DoSetTextContent(s, h, decodes, text)
            case WebAppendChild(p, c) => r == DoAppendChild(s, p, c)
            case WebAddEventListener(h, decodes, eventType, callback, c) =>
              r == DoAddEventListener(s, rid, h, decodes, eventType, callback, c)
            case WebDispose(h) =>
              var d := DisposeSubscription(s.realm.subs, s.blink, s.roots, rid, h);
              r == Reply(Site(s.realm.(subs := d.subs), d.blink, d.roots), d.status, NULL_HANDLE)
            case WebRetain(h) =>
              var o := Retain(s.realm.nodes, h);
              r == Reply(s.(realm := s.realm.(nodes := o.table)), o.status, NULL_HANDLE)
            case WebRelease(h) =>
              var n := ReleaseNode(s.realm.nodes, s.blink, s.roots, rid, h);
              r == Reply(Site(s.realm.(nodes := n.nodes), n.blink, n.roots), n.status, NULL_HANDLE)
  {
    SiteSubs(s, rid);
    hide SiteOK, ResolveNode, InternReply, DoCreateElement, DoSetTextContent, DoAppendChild, DoAddEventListener,
         DisposeSubscription, ReleaseNode, Retain;
  }

  lemma SiteSubs(s: Site, rid: nat)
    requires SiteOK(s, rid) && s.realm.alive
    ensures Inv(s.realm.subs) && s.realm.subs.hooked && !s.realm.subs.invalidated && !Dead(s.blink.trace, rid)
    ensures !Closed(s.blink.trace, rid)
    ensures IsAlive(s.realm, true)
  {
    hide Linked, BlinkOK, Inv, Interned, Dead, Bare, Gone;
  }

  // ----- handles to nodes -----

  lemma Resolves(s: Site, rid: nat, h: Handle, expected: nat)
    requires SiteOK(s, rid) && s.realm.alive && Modelled(expected)
    ensures var r := ResolveNode(s.realm.nodes, h, expected);
            && (r.status == Ok ==> NamesA(s, h, ClassOfType(expected), r.node) && r.node < |s.blink.dom.classes|)
            && (r.status != Ok ==> forall n :: !NamesA(s, h, ClassOfType(expected), n))
  {
    hide BlinkOK, Linked, Inv, Interned, Dead, Bare, Gone, Live, ResolveNode, IsA, ClassOfType;
    ResolveNodeLaw(s.realm.nodes, s.blink.dom, h, expected);
  }

  lemma InternNames(nodes: Table<NodePointer>, roots: Roots, rid: nat, dom: Dom, node: nat, c: InternChoices)
    requires Inv(nodes) && Interned(nodes, dom) && node < |dom.classes|
    ensures var r := Intern(nodes, roots, rid, dom, Some(node), c);
            r.status == Ok ==>
              r.handle in Live(r.nodes) && Live(r.nodes)[r.handle].token.at == node && r.handle.generation != 0
  {
    hide Inv, Interned, Live, Intern, TypeOf;
    InternLaw(nodes, roots, rid, dom, Some(node), c);
  }

  lemma SiteInterned(s: Site, rid: nat)
    requires SiteOK(s, rid) && s.realm.alive
    ensures !s.realm.freed && Inv(s.realm.nodes) && Interned(s.realm.nodes, s.blink.dom)
    ensures s.realm.document.Some? && s.realm.document.value < |s.blink.dom.classes|
    ensures forall d :: d in s.blink.bodies ==> s.blink.bodies[d] < |s.blink.dom.classes|
  {
    hide Linked, Forest, Attached, Ordered, Inv, Interned, Dead, Bare, Gone;
  }

  // The document capsule returns a handle to the realm's document.
  lemma DocumentNamed(s: Site, rid: nat, c: InternChoices)
    requires SiteOK(s, rid) && s.realm.alive
    ensures var r := Perform(s, rid, true, WebDocument(c));
            r.status == Ok ==> Names(r.site, r.handle, s.realm.document.value)
  {
    SiteInterned(s, rid);
    hide SiteOK, Inv, Interned, Live, Intern;
    InternNames(s.realm.nodes, s.roots, rid, s.blink.dom, s.realm.document.value, c);
  }

  // The body capsule answers for handles to documents only: with a handle to the body, or
  // with the null handle exactly when there is none.
  lemma BodyNamed(s: Site, rid: nat, h: Handle, c: InternChoices)
    requires SiteOK(s, rid) && s.realm.alive
    ensures var r := Perform(s, rid, true, WebBody(h, c));
            r.status == Ok ==>
              exists d :: NamesA(s, h, DocumentClass, d)
                          && (d in s.blink.bodies ==>
                                Names(r.site, r.handle, s.blink.bodies[d]) && r.handle.generation != 0)
                          && (d !in s.blink.bodies ==> r.handle == NULL_HANDLE)
    ensures (forall d :: !NamesA(s, h, DocumentClass, d)) ==> Perform(s, rid, true, WebBody(h, c)).status != Ok
  {
    Opened(s, rid, WebBody(h, c));
    SiteInterned(s, rid);
    ResolvesDocument(s, rid, h);
    hide SiteOK, Inv, Interned, Names, NamesA, InternReply, ResolveNode, Perform;
    var d := ResolveNode(s.realm.nodes, h, DOCUMENT).node;
    if d in s.blink.bodies { ReplyNames(s, rid, s.blink.bodies[d], c); }
  }

  lemma ResolvesDocument(s: Site, rid: nat, h: Handle)
    requires SiteOK(s, rid) && s.realm.alive
    ensures var r := ResolveNode(s.realm.nodes, h, DOCUMENT);
            && (r.status == Ok ==> NamesA(s, h, DocumentClass, r.node))
            && (r.status != Ok ==> forall n :: !NamesA(s, h, DocumentClass, n))
  {
    hide SiteOK, ResolveNode, NamesA, Names, Live, IsA;
    assert ClassOfType(DOCUMENT) == DocumentClass;
    Resolves(s, rid, h, DOCUMENT);
  }

  lemma ReplyNames(s: Site, rid: nat, node: nat, c: InternChoices)
    requires Inv(s.realm.nodes) && Interned(s.realm.nodes, s.blink.dom) && node < |s.blink.dom.classes|
    ensures var r := InternReply(s, rid, Some(node), c);
            r.status == Ok ==> Names(r.site, r.handle, node) && r.handle.generation != 0
  {
    hide Inv, Interned, Live, Intern;
    InternNames(s.realm.nodes, s.roots, rid, s.blink.dom, node, c);
  }

  // createElement returns a handle not live before, to a node that did not exist before,
  // of the class Blink chose, without a parent; the older nodes keep their place.
  lemma ElementNamed(s: Site, rid: nat, call: Call)
    requires SiteOK(s, rid) && s.realm.alive && call.WebCreateElement?
    ensures var r := Perform(s, rid, true, call);
            r.status == Ok ==>
              && (exists d :: NamesA(s, call.document, DocumentClass, d))
              && call.decodes && call.throws.None? && call.elementClass.Some?
              && Names(r.site, r.handle, |s.blink.dom.classes|) && r.handle !in Live(s.realm.nodes)
              && r.site.blink == s.blink.(dom := r.site.blink.dom)
              && r.site.blink.dom == CreateElement(s.blink.dom, call.elementClass.value)
  {
    Opened(s, rid, call);
    SiteInterned(s, rid);
    ResolvesDocument(s, rid, call.document);
    SiteForest(s, rid);
    hide SiteOK, Inv, Interned, Live, Names, NamesA, InternReply, ResolveNode, Perform, CreateElement, Forest;
    if call.elementClass.Some? { ElementInterned(s, rid, call.elementClass.value, call.intern); }
  }

  lemma ElementInterned(s: Site, rid: nat, cls: ElementKind, c: InternChoices)
    requires Inv(s.realm.nodes) && Interned(s.realm.nodes, s.blink.dom)
    requires |s.blink.dom.parent| == |s.blink.dom.children| == |s.blink.dom.classes|
    ensures var b := s.blink.(dom := CreateElement(s.blink.dom, cls));
            var r := InternReply(s.(blink := b), rid, Some(|s.blink.dom.classes|), c);
            && r.site.blink == b
            && (r.status == Ok ==> Names(r.site, r.handle, |s.blink.dom.classes|) && r.handle !in Live(s.realm.nodes))
  {
    var dom := CreateElement(s.blink.dom, cls);
    NewNode(s.blink.dom, cls);
    hide Inv, Live, Intern, CreateElement, TypeOf;
    InternedGrows(s.realm.nodes, s.blink.dom, dom);
    InternLaw(s.realm.nodes, s.roots, rid, dom, Some(|s.blink.dom.classes|), c);
  }

  lemma NewNode(dom: Dom, c: BlinkClass)
    requires |dom.parent| == |dom.classes| == |dom.children|
    ensures var dom' := CreateElement(dom, c);
            var n := |dom.classes|;
            && dom.classes <= dom'.classes && n < |dom'.classes| && ClassOf(dom', n) == c
            && ParentOf(dom', n) == None && dom'.children[n] == []
            && forall k: nat :: k < n ==> ParentOf(dom', k) == ParentOf(dom, k) && dom'.children[k] == dom.children[k]
  {
  }

  // ----- changes to the tree -----

  // The child becomes the last child of the parent; nothing else in the tree moves.
  ghost predicate Appended(dom: Dom, dom': Dom, parent: nat, child: nat) {
    && parent < |dom.children| == |dom'.children| && child < |dom.parent|
    && dom'.classes == dom.classes && dom'.host == dom.host
    && ParentOf(dom, child) == None && ParentOf(dom', child) == Some(parent)
    && dom'.children[parent] == dom.children[parent] + [child]
    && (forall n: nat :: n != child ==> ParentOf(dom', n) == ParentOf(dom, n))
    && (forall n: nat :: n < |dom.children| && n != parent ==> dom'.children[n] == dom.children[n])
  }

  // An element without a parent that is not a host-including inclusive ancestor of the other
  // element.
  ghost predicate MayBelow(dom: Dom, parent: nat, child: nat) {
    && IsA(ClassOf(dom, parent), ElementClass) && IsA(ClassOf(dom, child), ElementClass)
    && ParentOf(dom, child) == None && !Contains(dom, child, parent)
  }

  // appendChild succeeds exactly on live handles to an element and a parentless element that
  // is not above it, and then does what it says.
  lemma Appends(s: Site, rid: nat, parent: Handle, child: Handle)
    requires SiteOK(s, rid) && s.realm.alive
    ensures var r := Perform(s, rid, true, WebAppendChild(parent, child));
            && (r.status == Ok <==>
                  exists p, c :: Names(s, parent, p) && Names(s, child, c) && MayBelow(s.blink.dom, p, c))
            && (r.status == Ok ==>
                  exists p, c :: Names(s, parent, p) && Names(s, child, c)
                                 && Appended(s.blink.dom, r.site.blink.dom, p, c))
            && (r.status != Ok ==> r.site == s)
  {
    Opened(s, rid, WebAppendChild(parent, child));
    SiteForest(s, rid);
    ResolvesNode(s, rid, parent);
    ResolvesNode(s, rid, child);
    forall p: nat, c: nat ensures AppendGuard(s.blink.dom, p, c) <==> MayBelow(s.blink.dom, p, c) {
      GuardExact(s.blink.dom, p, c);
    }
    hide SiteOK, Live, Names, ResolveNode, Perform, AppendGuard, Forest, Appended, MayBelow;
    var p, c := ResolveNode(s.realm.nodes, parent, NODE), ResolveNode(s.realm.nodes, child, NODE);
    if p.status == Ok && c.status == Ok && AppendGuard(s.blink.dom, p.node, c.node) {
      GuardedAppend(s.blink.dom, p.node, c.node);
    }
  }

  // Every live handle resolves as a Node, to the one node it names.
  lemma ResolvesNode(s: Site, rid: nat, h: Handle)
    requires SiteOK(s, rid) && s.realm.alive
    ensures var r := ResolveNode(s.realm.nodes, h, NODE);
            && (r.status == Ok ==> r.node < |s.blink.dom.classes| && forall n :: Names(s, h, n) <==> n == r.node)
            && (r.status != Ok ==> forall n :: !Names(s, h, n))
  {
    Resolves(s, rid, h, NODE);
    hide SiteOK, Live, ResolveNode, IsA;
    forall n ensures Names(s, h, n) <==> NamesA(s, h, ClassOfType(NODE), n) { NodesAreNodes(s, h, n); }
  }

  lemma NodesAreNodes(s: Site, h: Handle, n: nat)
    ensures Names(s, h, n) <==> NamesA(s, h, ClassOfType(NODE), n)
  {
    Chain(ClassOf(s.blink.dom, n));
  }

  lemma GuardedAppend(dom: Dom, parent: nat, child: nat)
    requires AppendGuard(dom, parent, child) && parent < |dom.classes| && child < |dom.classes|
    requires |dom.parent| == |dom.children| == |dom.classes|
    ensures Appended(dom, AppendChild(dom, parent, child), parent, child)
  {
    hide Contains, IsA;
  }

  // setTextContent succeeds exactly on live handles to anything but a script element with
  // well-formed text. An element or fragment then holds one text node with that text, or
  // nothing for the empty text, and its former children have no parent any more; a text node
  // itself holds the text; no other node holds another text than before.
  lemma TextReplaced(s: Site, rid: nat, h: Handle, decodes: bool, text: string)
    requires SiteOK(s, rid) && s.realm.alive
    ensures var r := Perform(s, rid, true, WebSetTextContent(h, decodes, text));
            && (r.status == Ok <==>
                  decodes && exists n :: Names(s, h, n) && !IsA(ClassOf(s.blink.dom, n), HTMLScriptElementClass))
            && (r.status == Ok ==> exists n :: Names(s, h, n) && HoldsText(s.blink.dom, r.site.blink.dom, n, text))
            && (r.status != Ok ==> r.site == s)
            && r.site.realm == s.realm
  {
    Opened(s, rid, WebSetTextContent(h, decodes, text));
    SiteForest(s, rid);
    ResolvesNode(s, rid, h);
    hide SiteOK, Live, Names, ResolveNode, Perform, Forest, IsA, ReplaceText, HoldsText;
    var n := ResolveNode(s.realm.nodes, h, NODE);
    if n.status == Ok { ReplacedText(s.blink.dom, n.node, text); }
  }

  // t is a text node holding the text, below n.
  predicate IsTextOf(dom: Dom, t: nat, n: nat, text: string) {
    && t < |dom.classes| && dom.classes[t] == CharacterData && ParentOf(dom, t) == Some(n)
    && t < |dom.data| && dom.data[t] == text
  }

  // The node that the handle names has one child, a text node with this text.
  ghost predicate Displays(s: Site, h: Handle, text: string) {
    exists n: nat, t: nat :: n < |s.blink.dom.children| && Names(s, h, n) && s.blink.dom.children[n] == [t]
                             && IsTextOf(s.blink.dom, t, n, text)
  }

  ghost predicate HoldsText(dom: Dom, dom': Dom, n: nat, text: string) {
    && n < |dom.children| <= |dom'.children| && n < |dom.data| <= |dom'.data|
    && (IsA(ClassOf(dom, n), ElementClass) || IsA(ClassOf(dom, n), DocumentFragment) ==>
          && dom'.children[n] == (if text == "" then [] else [|dom.classes|])
          && (text != "" ==> IsTextOf(dom', |dom.classes|, n, text))
          && (forall k: nat :: k < |dom.parent| ==>
                ParentOf(dom', k) == if ParentOf(dom, k) == Some(n) then None else ParentOf(dom, k)))
    && (!IsA(ClassOf(dom, n), ElementClass) && !IsA(ClassOf(dom, n), DocumentFragment) ==>
          && dom'.children[n] == dom.children[n] && dom'.parent == dom.parent
          && dom'.data[n] == if IsA(ClassOf(dom, n), CharacterData) then text else dom.data[n])
    && (forall k: nat :: k < |dom.children| && k != n ==> dom'.children[k] == dom.children[k])
    && (forall k: nat :: k < |dom.data| && k != n ==> dom'.data[k] == dom.data[k])
  }

  lemma ReplacedText(dom: Dom, n: nat, text: string)
    requires |dom.parent| == |dom.children| == |dom.data| == |dom.classes| && n < |dom.classes|
    ensures HoldsText(dom, ReplaceText(dom, n, text), n, text)
  {
    Chain(ClassOf(dom, n));
    hide IsA;
  }

  // ----- listeners -----

  // addEventListener adds exactly one registration: of a listener that did not exist before,
  // carrying the caller's token and pointing to this realm, on the target's node.
  lemma ListenerAdded(s: Site, rid: nat, call: Call)
    requires SiteOK(s, rid) && s.realm.alive && call.WebAddEventListener?
    ensures var r := Perform(s, rid, true, call);
            r.status == Ok ==>
              && call.callback.generation != 0 && call.decodes
              && exists n :: Names(s, call.target, n)
                   && var l := |s.blink.listeners|;
                   && r.site.blink.registrations == s.blink.registrations + {Registration(n, call.eventType, l)}
                   && |r.site.blink.listeners| == l + 1
                   && r.site.blink.listeners[l] == Listener(Some(rid), call.callback)
                   && r.handle !in Live(s.realm.subs)
                   && Live(r.site.realm.subs) ==
                      Live(s.realm.subs)[r.handle := Entry(Pointer(s.roots.mallocs, Root(n, call.eventType, l, true)),
                                                           SUBSCRIPTION_TYPE, 1)]
  {
    hide Live, Names, ResolveNode, Perform, CreateSubscription, Inv, BlinkOK, Linked, Dead, Bare, Gone, PointsTo,
         SiteOK,
         CreateTouches, HeapOK, Malloc;
    Opened(s, rid, call);
    SiteSubs(s, rid);
    ResolvesNode(s, rid, call.target);
    var n := ResolveNode(s.realm.nodes, call.target, NODE);
    if call.callback.generation != 0 && n.status == Ok && call.decodes {
      var l := |s.blink.listeners|;
      var b := s.blink.(listeners := s.blink.listeners + [Listener(Some(rid), call.callback)]);
      ListenerAllocated(s, rid, call.callback);
      CreateLaw(s.realm.subs, b, s.roots, rid, n.node, call.eventType, l, call.create);
      ListenersKept(s.realm.subs, b, s.roots, rid, n.node, call.eventType, l, call.create);
      assert b.registrations == s.blink.registrations;
    }
  }

  lemma ListenersKept(subs: Table<RootPointer>, b: Blink, roots: Roots, rid: nat, target: nat, eventType: string,
                      l: nat,
                         c: CreateChoices)
    ensures var r := CreateSubscription(subs, b, roots, rid, target, eventType, l, c);
            r.status == Ok ==> r.blink.listeners == b.listeners
  {
    hide Insert;
  }

  // ----- refusals -----

  // Every handle, every subscription, every registration and every allocated root is as it
  // was, and no node of the page is in another place.
  ghost predicate Untouched(s: Site, s': Site) {
    && Live(s'.realm.nodes) == Live(s.realm.nodes) && Live(s'.realm.subs) == Live(s.realm.subs)
    && s'.blink.registrations == s.blink.registrations
    && (HeapOK(s.roots) ==> s'.roots.blocks == s.roots.blocks)
    && forall k: nat :: k < |s.blink.dom.classes| ==> ParentOf(s'.blink.dom, k) == ParentOf(s.blink.dom, k)
  }

  // A call that is refused, for whatever reason, changes nothing a caller could see.
  lemma RefusalChangesNothing(s: Site, rid: nat, current: bool, call: Call)
    requires SiteOK(s, rid) && !s.realm.freed
    ensures var r := Perform(s, rid, current, call);
            r.status != Ok ==> r.handle == NULL_HANDLE && Untouched(s, r.site)
  {
    hide Untouched, Perform, SiteOK;
    StaysUntouched(s);
    if !(current && s.realm.alive) {
      Gated(s, rid, current, call);
    } else {
      match call
      case WebDocument(_) => RefusedHandle(s, rid, call);
      case WebBody(_, _) => RefusedHandle(s, rid, call);
      case WebCreateElement(_, _, _, _, _) => RefusedElement(s, rid, call);
      case WebSetTextContent(h, decodes, text) => RefusedText(s, rid, h, decodes, text);
      case WebAppendChild(p, c) => RefusedAppend(s, rid, p, c);
      case WebAddEventListener(_, _, _, _, _) => RefusedListener(s, rid, call);
      case WebDispose(h) => RefusedDispose(s, rid, h);
      case WebRetain(h) => RefusedRetain(s, rid, h);
      case WebRelease(h) => RefusedRelease(s, rid, h);
    }
  }

  lemma StaysUntouched(s: Site)
    ensures Untouched(s, s)
  {
  }

  lemma RefusedHandle(s: Site, rid: nat, call: Call)
    requires SiteOK(s, rid) && s.realm.alive && (call.WebDocument? || call.WebBody?)
    ensures var r := Perform(s, rid, true, call);
            r.status != Ok ==> r.handle == NULL_HANDLE && Untouched(s, r.site)
  {
    Opened(s, rid, call);
    SiteInterned(s, rid);
    StaysUntouched(s);
    hide SiteOK, Inv, Interned, Perform, InternReply, ResolveNode, Untouched;
    match call
    case WebDocument(c) => RefusedReply(s, rid, s.realm.document.value, c);
    case WebBody(h, c) =>
      var d := ResolveNode(s.realm.nodes, h, DOCUMENT).node;
      if d in s.blink.bodies { RefusedReply(s, rid, s.blink.bodies[d], c); }
  }

  lemma RefusedReply(s: Site, rid: nat, node: nat, c: InternChoices)
    requires Inv(s.realm.nodes) && Interned(s.realm.nodes, s.blink.dom) && node < |s.blink.dom.classes|
    ensures var r := InternReply(s, rid, Some(node), c);
            r.status != Ok ==> r.handle == NULL_HANDLE && Untouched(s, r.site)
  {
    hide Inv, Interned, Intern, Live, HeapOK;
    RefusedIntern(s, rid, s.blink.dom, node, c);
  }

  lemma RefusedText(s: Site, rid: nat, h: Handle, decodes: bool, text: string)
    requires SiteOK(s, rid) && s.realm.alive
    ensures var r := Perform(s, rid, true, WebSetTextContent(h, decodes, text));
            r.status != Ok ==> r.site == s && r.handle == NULL_HANDLE
  {
    Opened(s, rid, WebSetTextContent(h, decodes, text));
    hide SiteOK, Perform, ResolveNode, IsA;
  }

  lemma RefusedAppend(s: Site, rid: nat, p: Handle, c: Handle)
    requires SiteOK(s, rid) && s.realm.alive
    ensures var r := Perform(s, rid, true, WebAppendChild(p, c));
            r.status != Ok ==> r.site == s && r.handle == NULL_HANDLE
  {
    Opened(s, rid, WebAppendChild(p, c));
    hide SiteOK, Perform, ResolveNode, AppendGuard;
  }

  lemma RefusedIntern(s: Site, rid: nat, dom: Dom, node: nat, c: InternChoices)
    requires Inv(s.realm.nodes) && Interned(s.realm.nodes, dom) && node < |dom.classes|
    ensures var r := Intern(s.realm.nodes, s.roots, rid, dom, Some(node), c);
            r.status != Ok ==>
              && r.nodes == s.realm.nodes && r.handle == NULL_HANDLE
              && (HeapOK(s.roots) ==> r.roots.blocks == s.roots.blocks)
  {
    hide Inv, Interned, Live, Intern, TypeOf, HeapOK;
    InternLaw(s.realm.nodes, s.roots, rid, dom, Some(node), c);
  }

  lemma RefusedElement(s: Site, rid: nat, call: Call)
    requires SiteOK(s, rid) && s.realm.alive && call.WebCreateElement?
    ensures var r := Perform(s, rid, true, call);
            r.status != Ok ==> r.handle == NULL_HANDLE && Untouched(s, r.site)
  {
    Opened(s, rid, call);
    SiteInterned(s, rid);
    SiteForest(s, rid);
    StaysUntouched(s);
    hide SiteOK, Inv, Interned, Perform, InternReply, ResolveNode, CreateElement, Forest, Live, Untouched;
    if call.elementClass.Some? { RefusedNewNode(s, rid, call.elementClass.value, call.intern); }
  }

  lemma RefusedNewNode(s: Site, rid: nat, cls: ElementKind, c: InternChoices)
    requires Inv(s.realm.nodes) && Interned(s.realm.nodes, s.blink.dom)
    requires |s.blink.dom.parent| == |s.blink.dom.children| == |s.blink.dom.classes|
    ensures var b := s.blink.(dom := CreateElement(s.blink.dom, cls));
            var r := InternReply(s.(blink := b), rid, Some(|s.blink.dom.classes|), c);
            r.status != Ok ==> r.handle == NULL_HANDLE && Untouched(s, r.site)
  {
    hide Inv, Live, Intern, TypeOf, CreateElement, Interned, HeapOK;
    NewNode(s.blink.dom, cls);
    var dom := CreateElement(s.blink.dom, cls);
    InternedGrows(s.realm.nodes, s.blink.dom, dom);
    RefusedIntern(s, rid, dom, |s.blink.dom.classes|, c);
  }

  lemma RefusedListener(s: Site, rid: nat, call: Call)
    requires SiteOK(s, rid) && s.realm.alive && call.WebAddEventListener?
    ensures var r := Perform(s, rid, true, call);
            r.status != Ok ==> r.handle == NULL_HANDLE && Untouched(s, r.site)
  {
    Opened(s, rid, call);
    SiteSubs(s, rid);
    StaysUntouched(s);
    hide Live, ResolveNode, Perform, CreateSubscription, Inv, BlinkOK, Linked, Dead, Bare, Gone, PointsTo, SiteOK,
         Untouched;
    var n := ResolveNode(s.realm.nodes, call.target, NODE);
    if call.callback.generation != 0 && n.status == Ok && call.decodes {
      var l := |s.blink.listeners|;
      var b := s.blink.(listeners := s.blink.listeners + [Listener(Some(rid), call.callback)]);
      ListenerAllocated(s, rid, call.callback);
      CreateLaw(s.realm.subs, b, s.roots, rid, n.node, call.eventType, l, call.create);
      DomKept(s.realm.subs, b, s.roots, rid, n.node, call.eventType, l, call.create);
      if Perform(s, rid, true, call).status != Ok { SameForCallers(s, Perform(s, rid, true, call).site); }
    }
  }

  lemma SameForCallers(s: Site, s': Site)
    requires s'.realm == s.realm && s'.blink.dom == s.blink.dom && s'.blink.registrations == s.blink.registrations
    requires HeapOK(s.roots) ==> s'.roots.blocks == s.roots.blocks
    ensures Untouched(s, s')
  {
  }

  lemma DomKept(subs: Table<RootPointer>, b: Blink, roots: Roots, rid: nat, target: nat, eventType: string, l: nat,
                   c: CreateChoices)
    ensures CreateSubscription(subs, b, roots, rid, target, eventType, l, c).blink.dom == b.dom
  {
    hide Insert;
  }

  // Disposing, retaining and releasing: refused by the table, which stays as it is.
  lemma RefusedDispose(s: Site, rid: nat, h: Handle)
    requires SiteOK(s, rid) && s.realm.alive
    ensures var r := Perform(s, rid, true, WebDispose(h));
            r.status != Ok ==> r.handle == NULL_HANDLE && r.site == s
  {
    Opened(s, rid, WebDispose(h));
    RefusalsKeep(s.realm.subs, h);
    hide SiteOK, Perform, Release, Matches, CancelRoot, Free;
  }

  lemma RefusedRetain(s: Site, rid: nat, h: Handle)
    requires SiteOK(s, rid) && s.realm.alive
    ensures var r := Perform(s, rid, true, WebRetain(h));
            r.status != Ok ==> r.handle == NULL_HANDLE && r.site == s
  {
    Opened(s, rid, WebRetain(h));
    RefusalsKeep(s.realm.nodes, h);
    hide SiteOK, Perform, Retain;
  }

  lemma RefusedRelease(s: Site, rid: nat, h: Handle)
    requires SiteOK(s, rid) && s.realm.alive
    ensures var r := Perform(s, rid, true, WebRelease(h));
            r.status != Ok ==> r.handle == NULL_HANDLE && r.site == s
  {
    Opened(s, rid, WebRelease(h));
    RefusalsKeep(s.realm.nodes, h);
    hide SiteOK, Perform, Release, Matches, Free;
  }

  lemma RefusalsKeep<T>(t: Table<T>, h: Handle)
    ensures Retain(t, h).status != Ok ==> Retain(t, h).table == t
    ensures Release(t, h).status != Ok ==> Release(t, h).table == t && !Release(t, h).fired
  {
  }
}
