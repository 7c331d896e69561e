/** Every call into one realm, and its teardown, keep the bridge invariant and leave other
    realms alone. */
module SiteLaws {
  import opened Abi
  import opened TableSpec
  import opened TableInvariant
  import opened HandleMap
  import opened TableLaws
  import opened WebTypes
  import opened Doms
  import opened Bridge
  import opened BridgeInvariant
  import opened RegistryLaws

  lemma TouchesRefl(rid: nat, b: Blink)
    ensures Touches(rid, b, b)
  {
  }

  lemma InternedGrows(nodes: Table<NodePointer>, dom: Dom, dom': Dom)
    requires Interned(nodes, dom) && dom.classes <= dom'.classes
    ensures Interned(nodes, dom')
  {
    hide Live, TypeOf;
  }

  // Only the node table changed.
  lemma NodesChanged(s: Site, rid: nat, nodes: Table<NodePointer>)
    requires SiteOK(s, rid) && !s.realm.freed
    requires Inv(nodes) && nodes.hooked && nodes.invalidated == s.realm.nodes.invalidated
    requires Interned(nodes, s.blink.dom)
    ensures SiteOK(s.(realm := s.realm.(nodes := nodes)), rid)
  {
    hide Inv, BlinkOK, Linked, Interned, Dead, Bare, Gone;
  }

  // Only the DOM changed, and no node lost its class.
  lemma DomChanged(s: Site, rid: nat, dom: Dom)
    requires SiteOK(s, rid) && Forest(dom) && s.blink.dom.classes <= dom.classes
    ensures SiteOK(s.(blink := s.blink.(dom := dom)), rid)
    ensures Touches(rid, s.blink, s.blink.(dom := dom))
  {
    hide Inv, Interned, Dead, Bare, Gone, Attached, Ordered, Live, Forest, RootLinked, HasSub;
    var b' := s.blink.(dom := dom);
    assert forall l, r :: PointsTo(b', l, r) <==> PointsTo(s.blink, l, r);
    if !s.realm.freed { InternedGrows(s.realm.nodes, s.blink.dom, dom); }
    hide PointsTo;
    DomChangedBlink(s.blink, b');
    DomChangedLinked(s.realm.subs, rid, s.blink, b');
  }

  lemma DomChangedBlink(b: Blink, b': Blink)
    requires BlinkOK(b) && b' == b.(dom := b'.dom) && Forest(b'.dom) && b.dom.classes <= b'.dom.classes
    ensures BlinkOK(b')
  {
    hide Forest, Attached, Ordered;
    forall reg: Registration | reg in b'.registrations ensures exists r :: PointsTo(b', reg.listener, r) {
      var r :| PointsTo(b, reg.listener, r);
      assert PointsTo(b', reg.listener, r);
    }
    forall l, r ensures Attachment(l, r) in Attached(b'.trace) <==> PointsTo(b', l, r) {
      assert PointsTo(b, l, r) <==> PointsTo(b', l, r);
    }
  }

  lemma DomChangedLinked(subs: Table<RootPointer>, rid: nat, b: Blink, b': Blink)
    requires Linked(subs, rid, b) && b' == b.(dom := b'.dom)
    ensures Linked(subs, rid, b')
  {
    hide Live;
    forall h | h in Live(subs) ensures RootLinked(Live(subs)[h], rid, b') {
      assert RootLinked(Live(subs)[h], rid, b);
    }
  }

  // ----- API calls -----

  lemma InternKeeps(s: Site, rid: nat, node: Option<nat>, c: InternChoices)
    requires SiteOK(s, rid) && !s.realm.freed && (node.Some? ==> node.value < |s.blink.dom.classes|)
    ensures SiteOK(InternReply(s, rid, node, c).site, rid)
  {
    hide Inv, BlinkOK, Linked, Interned, Dead, Bare, Gone, Intern, Live;
    InternLaw(s.realm.nodes, s.roots, rid, s.blink.dom, node, c);
    NodesChanged(s, rid, Intern(s.realm.nodes, s.roots, rid, s.blink.dom, node, c).nodes);
  }

  lemma CreateElementKeepsSite(s: Site, rid: nat, h: Handle, decodes: bool, throws: Option<ErrorStatus>,
                               c: Option<ElementKind>, intern: InternChoices)
    requires SiteOK(s, rid) && !s.realm.freed
    ensures var r := DoCreateElement(s, rid, h, decodes, throws, c, intern);
            SiteOK(r.site, rid) && Touches(rid, s.blink, r.site.blink)
  {
    hide SiteOK, InternReply, ResolveNode, Touches;
    TouchesRefl(rid, s.blink);
    if ResolveNode(s.realm.nodes, h, DOCUMENT).status == Ok && decodes && throws.None? && c.Some? {
      var dom := CreateElement(s.blink.dom, c.value);
      SiteForest(s, rid);
      CreateElementKeepsForest(s.blink.dom, c.value);
      DomChanged(s, rid, dom);
      var s1 := s.(blink := s.blink.(dom := dom));
      InternKeeps(s1, rid, Some(|s.blink.dom.classes|), intern);
      InternSameBlink(s1, rid, Some(|s.blink.dom.classes|), intern);
    }
  }

  lemma SiteForest(s: Site, rid: nat)
    requires SiteOK(s, rid)
    ensures Forest(s.blink.dom)
    ensures |s.blink.dom.parent| == |s.blink.dom.children| == |s.blink.dom.data| == |s.blink.dom.classes|
  {
    hide Ranked, Attached, Ordered, Linked, RealmOK;
  }

  lemma InternSameBlink(s: Site, rid: nat, node: Option<nat>, c: InternChoices)
    ensures InternReply(s, rid, node, c).site.blink == s.blink
  {
  }

  lemma AppendChildKeepsSite(s: Site, rid: nat, parent: Handle, child: Handle)
    requires SiteOK(s, rid) && !s.realm.freed
    ensures var r := DoAppendChild(s, parent, child);
            SiteOK(r.site, rid) && Touches(rid, s.blink, r.site.blink)
  {
    hide SiteOK, ResolveNode, Touches, AppendGuard, Forest;
    TouchesRefl(rid, s.blink);
    SiteForest(s, rid);
    var r := DoAppendChild(s, parent, child);
    if r.status == Ok {
      var p, c := ResolveNode(s.realm.nodes, parent, NODE).node, ResolveNode(s.realm.nodes, child, NODE).node;
      AppendChildKeepsForest(s.blink.dom, p, c);
      DomChanged(s, rid, AppendChild(s.blink.dom, p, c));
    }
  }

  lemma SetTextKeepsSite(s: Site, rid: nat, h: Handle, decodes: bool, text: string)
    requires SiteOK(s, rid) && !s.realm.freed
    ensures var r := DoSetTextContent(s, h, decodes, text);
            SiteOK(r.site, rid) && Touches(rid, s.blink, r.site.blink)
  {
    hide SiteOK, ResolveNode, Touches, Forest, IsA, ReplaceText;
    TouchesRefl(rid, s.blink);
    SiteForest(s, rid);
    var n := ResolveNode(s.realm.nodes, h, NODE).node;
    ReplaceTextKeepsForest(s.blink.dom, n, text);
    DomChanged(s, rid, ReplaceText(s.blink.dom, n, text));
  }

  // A listener was allocated for the realm.
  lemma ListenerAllocated(s: Site, rid: nat, token: CallbackToken)
    requires SiteOK(s, rid)
    ensures var b := s.blink.(listeners := s.blink.listeners + [Listener(Some(rid), token)]);
            && BlinkOK(b) && Linked(s.realm.subs, rid, b) && FreshListener(b, |s.blink.listeners|, rid)
            && forall l, r :: PointsTo(b, l, r) <==> PointsTo(s.blink, l, r)
  {
    hide RealmOK, Dead, Bare, Gone, Attached, Ordered, Live, Forest;
    var b := s.blink.(listeners := s.blink.listeners + [Listener(Some(rid), token)]);
    assert forall l, r :: PointsTo(b, l, r) <==> PointsTo(s.blink, l, r);
    forall reg: Registration | reg in b.registrations ensures exists r :: PointsTo(b, reg.listener, r) {
      var r :| PointsTo(s.blink, reg.listener, r);
      assert PointsTo(b, reg.listener, r);
    }
    forall reg: Registration | reg in b.registrations ensures reg.listener != |s.blink.listeners| {
      var r :| PointsTo(s.blink, reg.listener, r);
    }
    forall h | h in Live(s.realm.subs) ensures RootLinked(Live(s.realm.subs)[h], rid, b) {
      assert RootLinked(Live(s.realm.subs)[h], rid, s.blink);
    }
    forall l | PointsTo(b, l, rid) ensures HasSub(s.realm.subs, l)
    {
      assert PointsTo(s.blink, l, rid);
    }
  }

  lemma CreateTouchesOnly(s: Site, rid: nat, b: Blink, b': Blink)
    requires BlinkOK(s.blink) && BlinkOK(b') && b.dom == s.blink.dom
    requires forall l, r :: PointsTo(b, l, r) <==> PointsTo(s.blink, l, r)
    requires b.registrations == s.blink.registrations && b.accepted == s.blink.accepted
    requires |s.blink.listeners| <= |b.listeners| && b.trace == s.blink.trace
    requires CreateTouches(b, b', rid)
    requires forall reg: Registration ::
               reg in b.registrations && reg !in b'.registrations ==> PointsTo(b, reg.listener, rid)
    requires forall reg: Registration ::
               reg in b'.registrations && reg !in b.registrations ==> PointsTo(b', reg.listener, rid)
    ensures Touches(rid, s.blink, b')
  {
    hide Attached, Ordered, Dead, Bare, Gone, Forest, BlinkOK;
    forall reg: Registration, r | r != rid && PointsTo(s.blink, reg.listener, r)
      ensures reg in s.blink.registrations <==> reg in b'.registrations
    {
      assert PointsTo(b', reg.listener, r);
    }
  }

  lemma AddEventListenerKeepsSite(s: Site, rid: nat, target: Handle, decodes: bool, eventType: string,
                                  callback: CallbackToken, c: CreateChoices)
    requires SiteOK(s, rid) && s.realm.alive
    ensures var r := DoAddEventListener(s, rid, target, decodes, eventType, callback, c);
            SiteOK(r.site, rid) && Touches(rid, s.blink, r.site.blink)
  {
    hide Inv, BlinkOK, Linked, Interned, Dead, Bare, Gone, ResolveNode, Live, Attached, Touches, CreateSubscription,
         PointsTo;
    TouchesRefl(rid, s.blink);
    var n := ResolveNode(s.realm.nodes, target, NODE);
    if callback.generation != 0 && n.status == Ok && decodes {
      var l := |s.blink.listeners|;
      var b := s.blink.(listeners := s.blink.listeners + [Listener(Some(rid), callback)]);
      ListenerAllocated(s, rid, callback);
      CreateLaw(s.realm.subs, b, s.roots, rid, n.node, eventType, l, c);
      var b' := CreateSubscription(s.realm.subs, b, s.roots, rid, n.node, eventType, l, c).blink;
      assert SamePhase(b.trace, b'.trace, rid);
      CreateTouchesOnly(s, rid, b, b');
    }
  }

  lemma DisposeKeepsSite(s: Site, rid: nat, h: Handle)
    requires SiteOK(s, rid) && s.realm.alive
    ensures var r := DisposeSubscription(s.realm.subs, s.blink, s.roots, rid, h);
            SiteOK(Site(s.realm.(subs := r.subs), r.blink, r.roots), rid) && Touches(rid, s.blink, r.blink)
  {
    hide Inv, BlinkOK, Linked, Interned, Dead, Bare, Gone, Live, Attached, Touches, DisposeSubscription, PointsTo;
    DisposeLaw(s.realm.subs, s.blink, s.roots, rid, h);
    var b' := DisposeSubscription(s.realm.subs, s.blink, s.roots, rid, h).blink;
    assert SamePhase(s.blink.trace, b'.trace, rid);
    CreateTouchesOnly(s, rid, s.blink, b');
  }

  // An effect that concerns neither attachments nor the life of a realm.
  lemma Logged(s: Site, rid: nat, e: Effect)
    requires SiteOK(s, rid) && Allowed(s.blink.trace, e)
    requires e.DroppedNode? || e.Dispatched?
    ensures SiteOK(s.(blink := Log(s.blink, e)), rid)
    ensures Touches(rid, s.blink, Log(s.blink, e))
  {
    hide Attached, Ordered, Forest, Live, Interned, Inv, RootLinked, HasSub, Allowed, Dead, Bare, Gone;
    Append(s.blink.trace, e);
    var b' := Log(s.blink, e);
    forall reg: Registration | reg in b'.registrations ensures exists r :: PointsTo(b', reg.listener, r) {
      var r :| PointsTo(s.blink, reg.listener, r);
      assert PointsTo(b', reg.listener, r);
    }
    LoggedLinked(s.realm.subs, rid, s.blink, b');
    forall r ensures SamePhase(s.blink.trace, b'.trace, r) {}
    assert SamePhase(s.blink.trace, b'.trace, rid);
  }

  lemma LoggedLinked(subs: Table<RootPointer>, rid: nat, b: Blink, b': Blink)
    requires Linked(subs, rid, b) && b' == b.(trace := b'.trace)
    ensures Linked(subs, rid, b')
  {
    hide Live;
    forall h | h in Live(subs) ensures RootLinked(Live(subs)[h], rid, b') {
      assert RootLinked(Live(subs)[h], rid, b);
    }
  }

  lemma ReleaseKeepsSite(s: Site, rid: nat, h: Handle)
    requires SiteOK(s, rid) && s.realm.alive
    ensures var r := ReleaseNode(s.realm.nodes, s.blink, s.roots, rid, h);
            SiteOK(Site(s.realm.(nodes := r.nodes), r.blink, r.roots), rid) && Touches(rid, s.blink, r.blink)
  {
    hide Inv, BlinkOK, Linked, Interned, Live, Touches, ReleaseNode, Dead, Bare, Gone, NoneAttached;
    TouchesRefl(rid, s.blink);
    ReleaseNodeLaw(s.realm.nodes, s.blink.dom, s.blink, s.roots, rid, h);
    var r := ReleaseNode(s.realm.nodes, s.blink, s.roots, rid, h);
    NodesChanged(s, rid, r.nodes);
    if r.blink != s.blink {
      var node := Live(s.realm.nodes)[h].token.at;
      Logged(s.(realm := s.realm.(nodes := r.nodes)), rid, DroppedNode(rid, node));
    }
  }

  lemma RetainKeepsSite(s: Site, rid: nat, h: Handle)
    requires SiteOK(s, rid) && s.realm.alive
    ensures SiteOK(s.(realm := s.realm.(nodes := Retain(s.realm.nodes, h).table)), rid)
  {
    hide Inv, BlinkOK, Linked, Live, Dead, Bare, Gone, Retain;
    RetainLaw(s.realm.nodes, h);
    InternedShrinks(s.realm.nodes, Retain(s.realm.nodes, h).table, s.blink.dom, h);
    hide Interned;
    NodesChanged(s, rid, Retain(s.realm.nodes, h).table);
  }

  // Every call of the C ABI, whatever Blink answers.
  lemma PerformKeeps(s: Site, rid: nat, current: bool, call: Call)
    requires SiteOK(s, rid) && !s.realm.freed
    ensures var r := Perform(s, rid, current, call);
            && SiteOK(r.site, rid) && Touches(rid, s.blink, r.site.blink)
            && r.site.realm.alive == s.realm.alive && r.site.realm.freed == s.realm.freed
            && r.site.realm.document == s.realm.document && r.site.realm.dispatch == s.realm.dispatch
  {
    hide Inv, BlinkOK, Linked, Interned, Live, Touches, Dead, Bare, Gone, SiteOK, ResolveNode, InternReply,
         DoAppendChild,
         DoSetTextContent, DoCreateElement, DoAddEventListener, DisposeSubscription, ReleaseNode, TableSpec.Retain,
         RealmOK;
    TouchesRefl(rid, s.blink);
    if CheckRealm(s.realm, current) == Ok {
      match call
      case WebDocument(c) =>
        SiteBounds(s, rid);
        InternKeeps(s, rid, s.realm.document, c);
        InternSame(s, rid, s.realm.document, c);
      case WebBody(h, c) =>
        SiteBounds(s, rid);
        var d := ResolveNode(s.realm.nodes, h, DOCUMENT);
        if d.status == Ok && d.node in s.blink.bodies {
          InternKeeps(s, rid, Some(s.blink.bodies[d.node]), c);
          InternSame(s, rid, Some(s.blink.bodies[d.node]), c);
        }
      case WebCreateElement(h, decodes, throws, cls, c) =>
        CreateElementKeepsSite(s, rid, h, decodes, throws, cls, c);
        CreateElementSame(s, rid, h, decodes, throws, cls, c);
      case WebSetTextContent(h, decodes, text) =>
        SetTextKeepsSite(s, rid, h, decodes, text);
        SetTextSame(s, h, decodes, text);
      case WebAppendChild(p, c) =>
        AppendChildKeepsSite(s, rid, p, c);
        AppendSame(s, p, c);
      case WebAddEventListener(h, decodes, eventType, callback, c) =>
        AddEventListenerKeepsSite(s, rid, h, decodes, eventType, callback, c);
        AddSame(s, rid, h, decodes, eventType, callback, c);
      case WebDispose(h) => DisposeKeepsSite(s, rid, h);
      case WebRetain(h) => RetainKeepsSite(s, rid, h);
      case WebRelease(h) => ReleaseKeepsSite(s, rid, h);
    }
  }

  lemma SiteBounds(s: Site, rid: nat)
    requires SiteOK(s, rid)
    ensures s.realm.document.Some? ==> s.realm.document.value < |s.blink.dom.classes|
    ensures forall d :: d in s.blink.bodies ==> s.blink.bodies[d] < |s.blink.dom.classes|
  {
    hide Linked, Forest, Attached, Ordered, Inv, Interned;
  }

  predicate SameLife(r: Realm, r': Realm) {
    r'.alive == r.alive && r'.freed == r.freed && r'.document == r.document && r'.dispatch == r.dispatch
  }

  lemma InternSame(s: Site, rid: nat, node: Option<nat>, c: InternChoices)
    ensures var s' := InternReply(s, rid, node, c).site;
            s'.blink == s.blink && SameLife(s.realm, s'.realm)
  {
  }

  lemma CreateElementSame(s: Site, rid: nat, h: Handle, decodes: bool, throws: Option<ErrorStatus>,
                          c: Option<ElementKind>,
                          intern: InternChoices)
    ensures SameLife(s.realm, DoCreateElement(s, rid, h, decodes, throws, c, intern).site.realm)
  {
    hide Intern, ResolveNode;
  }

  lemma SetTextSame(s: Site, h: Handle, decodes: bool, text: string)
    ensures SameLife(s.realm, DoSetTextContent(s, h, decodes, text).site.realm)
  {
    hide ResolveNode, IsA;
  }

  lemma AppendSame(s: Site, p: Handle, c: Handle)
    ensures SameLife(s.realm, DoAppendChild(s, p, c).site.realm)
  {
    hide ResolveNode, AppendGuard;
  }

  lemma AddSame(s: Site, rid: nat, h: Handle, decodes: bool, eventType: string, callback: CallbackToken,
                c: CreateChoices)
    ensures SameLife(s.realm, DoAddEventListener(s, rid, h, decodes, eventType, callback, c).site.realm)
  {
    hide ResolveNode, CreateSubscription;
  }
}
