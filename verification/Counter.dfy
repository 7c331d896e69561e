/** The counter client of examples/counter/app.c over the bridge: `nts_counter_start` with its
    cleanup ladder, `nts_counter_stop`, and what they do to the client's handles. Blink may
    refuse any of the nine calls and may invalidate the realm during any of them. */
module Counters {
  import opened Abi
  import opened Heaps
  import opened TableSpec
  import opened TableInvariant
  import opened HandleMap
  import opened WebTypes
  import opened Doms
  import opened Bridge
  import opened BridgeInvariant
  import opened RegistryLaws
  import opened SiteLaws
  import opened CapsuleLaws
  import opened Teardown
  import opened Worlds

  // The static NtsCounterState; `realm` is the realm pointer.
  datatype Counter = Counter(
    realm: Option<nat>,
    button: Handle,
    subscription: Handle,
    count: nat,
    active: bool,
    failed: bool)

  const IDLE := Counter(None, NULL_HANDLE, NULL_HANDLE, 0, false, false)

  const CLICK_CALLBACK := CallbackToken(1, 1)

  // Blink's answers to one start. `cut` is the call during which the realm is invalidated
  // (9 and more: none).
  datatype StartChoices = StartChoices(
    document: InternChoices,
    body: InternChoices,
    headingThrows: Option<ErrorStatus>,
    headingClass: Option<ElementKind>,
    heading: InternChoices,
    buttonThrows: Option<ErrorStatus>,
    buttonClass: Option<ElementKind>,
    button: InternChoices,
    click: CreateChoices,
    cut: nat)

  const HEADING_TEXT := "Native TypeScript"

  const FIRST_TEXT := "Count: 0"

  // The calls of a start that take more than handles. The names and texts it passes are well
  // formed.
  function CreateHeading(document: Handle, c: StartChoices): Call {
    WebCreateElement(document, true, c.headingThrows, c.headingClass, c.heading)
  }

  function CreateButton(document: Handle, c: StartChoices): Call {
    WebCreateElement(document, true, c.buttonThrows, c.buttonClass, c.button)
  }

  function ListenForClicks(button: Handle, c: StartChoices): Call {
    WebAddEventListener(button, true, "click", CLICK_CALLBACK, c.click)
  }

  function SetText(node: Handle, text: string): Call {
    WebSetTextContent(node, true, text)
  }

  // One call, and the invalidation that may come with it.
  ghost function Ask(s: Site, rid: nat, call: Call, cut: bool): Reply {
    var r := Perform(s, rid, true, call);
    if cut then r.(site := InvalidateRealm(r.site, rid)) else r
  }

  // How far start has come: the handles taken so far (document, body, heading, button),
  // the subscription, and whether it is still going or on its way to the cleanup.
  datatype Progress = Progress(site: Site, held: seq<Handle>, subscription: Handle, going: bool)

  function Nth(held: seq<Handle>, k: nat): Handle {
    if k < |held| then held[k] else NULL_HANDLE
  }

  ghost function TakeHandle(p: Progress, rid: nat, call: Call, cut: bool): Progress {
    if !p.going then p
    else
      var r := Ask(p.site, rid, call, cut);
      if r.status != Ok then p.(site := r.site, going := false)
      else p.(site := r.site, held := p.held + [r.handle])
  }

  // A null body ends the start.
  function RequireLast(p: Progress): Progress {
    if p.going && p.held != [] && p.held[|p.held| - 1].generation == 0 then p.(going := false) else p
  }

  ghost function TakeVoid(p: Progress, rid: nat, call: Call, cut: bool): Progress {
    if !p.going then p
    else
      var r := Ask(p.site, rid, call, cut);
      p.(site := r.site, going := r.status == Ok)
  }

  ghost function TakeSubscription(p: Progress, rid: nat, call: Call, cut: bool): Progress {
    if !p.going then p
    else
      var r := Ask(p.site, rid, call, cut);
      if r.status != Ok then p.(site := r.site, going := false)
      else p.(site := r.site, subscription := r.handle)
  }

  // The first four calls: document, body, heading, its text.
  ghost function AcquireHeading(s: Site, rid: nat, c: StartChoices): Progress {
    var p0 := Progress(s, [], NULL_HANDLE, true);
    var p1 := TakeHandle(p0, rid, WebDocument(c.document), c.cut == 0);
    var p2 := RequireLast(TakeHandle(p1, rid, WebBody(Nth(p1.held, 0), c.body), c.cut == 1));
    var p3 := TakeHandle(p2, rid, CreateHeading(Nth(p2.held, 0), c), c.cut == 2);
    TakeVoid(p3, rid, SetText(Nth(p3.held, 2), HEADING_TEXT), c.cut == 3)
  }

  // The other five: button, its text, the listener, and both appended.
  ghost function AcquireButton(p4: Progress, rid: nat, c: StartChoices): Progress {
    var p5 := TakeHandle(p4, rid, CreateButton(Nth(p4.held, 0), c), c.cut == 4);
    var p6 := TakeVoid(p5, rid, SetText(Nth(p5.held, 3), FIRST_TEXT), c.cut == 5);
    var p7 := TakeSubscription(p6, rid, ListenForClicks(Nth(p6.held, 3), c), c.cut == 6);
    var p8 := TakeVoid(p7, rid, WebAppendChild(Nth(p7.held, 1), Nth(p7.held, 2)), c.cut == 7);
    TakeVoid(p8, rid, WebAppendChild(Nth(p8.held, 1), Nth(p8.held, 3)), c.cut == 8)
  }

  ghost function Acquire(s: Site, rid: nat, c: StartChoices): Progress {
    AcquireButton(AcquireHeading(s, rid, c), rid, c)
  }

  ghost function ReleaseIfLive(s: Site, rid: nat, h: Handle): Site {
    if h.generation == 0 then s else Perform(s, rid, true, WebRelease(h)).site
  }

  ghost function DisposeIfLive(s: Site, rid: nat, h: Handle): Site {
    if h.generation == 0 then s else Perform(s, rid, true, WebDispose(h)).site
  }

  // The ladder releases in the reverse order of taking.
  ghost function ReleaseAll(s: Site, rid: nat, held: seq<Handle>): Site
    decreases |held|
  {
    if held == [] then s
    else ReleaseAll(ReleaseIfLive(s, rid, held[|held| - 1]), rid, held[..|held| - 1])
  }

  datatype Started = Started(site: Site, counter: Counter, success: bool)

  ghost function Start(s: Site, rid: nat, counter: Counter, c: StartChoices): Started {
    if counter.active || !IsAlive(s.realm, true) then Started(s, counter, false)
    else
      var p := Acquire(s, rid, c);
      if p.going then
        // Button and subscription move into the static state.
        Started(ReleaseAll(p.site, rid, p.held[..if |p.held| < 3 then |p.held| else 3]),
                Counter(Some(rid), Nth(p.held, 3), p.subscription, 0, true, false), true)
      else
        Started(ReleaseAll(DisposeIfLive(p.site, rid, p.subscription), rid, p.held), counter, false)
  }

  datatype Stopped = Stopped(site: Site, counter: Counter)

  ghost function Stop(s: Site, rid: nat, counter: Counter): Stopped {
    if !counter.active then Stopped(s, counter)
    else if counter.realm == Some(rid) && IsAlive(s.realm, true) then
      Stopped(ReleaseIfLive(DisposeIfLive(s, rid, counter.subscription), rid, counter.button), IDLE)
    else Stopped(s, IDLE)
  }

  // ----- edges -----

  // One edge less: a reference, or the entry with its last one.
  function DropEdge(m: map<Handle, Entry<NodePointer>>, h: Handle): map<Handle, Entry<NodePointer>> {
    if h.generation == 0 || h !in m then m
    else if m[h].references == 1 then m - {h}
    else m[h := m[h].(references := m[h].references - 1)]
  }

  // after is before with one more edge to h.
  ghost predicate Adds(before: map<Handle, Entry<NodePointer>>, after: map<Handle, Entry<NodePointer>>, h: Handle) {
    (h.generation != 0 ==> h in after) && DropEdge(after, h) == before
  }

  // after is before with the edges `held` added, the last one last.
  ghost predicate Holding(before: map<Handle, Entry<NodePointer>>, after: map<Handle, Entry<NodePointer>>,
                          held: seq<Handle>)
    decreases |held|
  {
    if held == [] then after == before
    else
      var h := held[|held| - 1];
      && (h.generation != 0 ==> h in after)
      && Holding(before, DropEdge(after, h), held[..|held| - 1])
  }

  ghost predicate SubsHold(before: map<Handle, Entry<RootPointer>>, after: map<Handle, Entry<RootPointer>>, h: Handle) {
    if h.generation == 0 then after == before
    else h !in before && h in after && after == before[h := after[h]]
  }

  lemma HoldingMore(before: map<Handle, Entry<NodePointer>>, m: map<Handle, Entry<NodePointer>>, after: map<Handle,
                    Entry<NodePointer>>,
                    held: seq<Handle>, h: Handle)
    requires Holding(before, m, held) && Adds(m, after, h)
    ensures Holding(before, after, held + [h])
  {
    assert (held + [h])[..|held|] == held;
  }

  // ----- the invariant of a start -----

  // s comes from s0 by calls into realm rid.
  ghost predicate Follows(s0: Site, s: Site, rid: nat) {
    && SiteOK(s, rid) && !s.realm.freed
    && Touches(rid, s0.blink, s.blink)
    && s0.blink.trace <= s.blink.trace
    && TokensKept(s0.blink, s.blink)
    && (s.realm.alive ==> s0.realm.alive && s.realm.dispatch == s0.realm.dispatch)
  }

  lemma TouchesTrans(rid: nat, a: Blink, b: Blink, c: Blink)
    requires Touches(rid, a, b) && Touches(rid, b, c)
    ensures Touches(rid, a, c)
  {
    hide Dead, Bare, Gone, PointsTo;
    forall r | r != rid ensures SamePhase(a.trace, c.trace, r) {
      assert SamePhase(a.trace, b.trace, r) && SamePhase(b.trace, c.trace, r);
    }
  }

  lemma FollowsRefl(s: Site, rid: nat)
    requires SiteOK(s, rid) && !s.realm.freed
    ensures Follows(s, s, rid)
  {
    hide SiteOK;
    TouchesRefl(rid, s.blink);
  }

  lemma FollowsTrans(a: Site, b: Site, c: Site, rid: nat)
    requires Follows(a, b, rid) && Follows(b, c, rid)
    ensures Follows(a, c, rid)
  {
    hide SiteOK, Touches;
    TouchesTrans(rid, a.blink, b.blink, c.blink);
  }

  lemma PerformFollows(s: Site, rid: nat, current: bool, call: Call)
    requires SiteOK(s, rid) && !s.realm.freed
    ensures Follows(s, Perform(s, rid, current, call).site, rid)
  {
    hide SiteOK, Touches, Perform;
    PerformKeeps(s, rid, current, call);
    PerformGrows(s, rid, current, call);
    PerformTokens(s, rid, current, call);
  }

  lemma InvalidateFollows(s: Site, rid: nat)
    requires SiteOK(s, rid) && !s.realm.freed
    ensures Follows(s, InvalidateRealm(s, rid), rid) && !InvalidateRealm(s, rid).realm.alive
  {
    hide SiteOK, Touches, InvalidateRealm, Live, NoneAttached, PointsTo;
    InvalidateKeepsSite(s, rid);
    InvalidateGrows(s, rid);
    InvalidateTokens(s, rid);
  }

  lemma AskFollows(s: Site, rid: nat, call: Call, cut: bool)
    requires SiteOK(s, rid) && !s.realm.freed
    ensures var r := Ask(s, rid, call, cut);
            && Follows(s, r.site, rid)
            && (r.site.realm.alive ==> r == Perform(s, rid, true, call))
            && r.status == Perform(s, rid, true, call).status
            && r.handle == Perform(s, rid, true, call).handle
  {
    hide SiteOK, Touches, Perform, InvalidateRealm;
    PerformFollows(s, rid, true, call);
    var r := Perform(s, rid, true, call);
    if cut {
      InvalidateFollows(r.site, rid);
      FollowsTrans(s, r.site, InvalidateRealm(r.site, rid), rid);
    }
  }

  // While the realm lives, the client's edges are exactly the handles it has taken.
  ghost predicate Balanced(s0: Site, s: Site, held: seq<Handle>, subscription: Handle) {
    s.realm.alive ==>
      && Holding(Live(s0.realm.nodes), Live(s.realm.nodes), held)
      && SubsHold(Live(s0.realm.subs), Live(s.realm.subs), subscription)
  }

  ghost predicate OnTrack(s0: Site, p: Progress, rid: nat) {
    && Follows(s0, p.site, rid)
    && Balanced(s0, p.site, p.held, p.subscription)
  }

  predicate TakesNode(call: Call) {
    call.WebDocument? || call.WebBody? || call.WebCreateElement?
  }

  // A call that returns a handle adds the edge it returns, or nothing.
  lemma TakesOneEdge(s: Site, rid: nat, call: Call)
    requires SiteOK(s, rid) && !s.realm.freed && TakesNode(call)
    ensures var r := Perform(s, rid, true, call);
            && r.site.realm.subs == s.realm.subs
            && (r.status != Ok ==> Live(r.site.realm.nodes) == Live(s.realm.nodes))
            && (r.status == Ok ==> Adds(Live(s.realm.nodes), Live(r.site.realm.nodes), r.handle))
  {
    hide SiteOK, Live, Intern, ResolveNode, CreateElement, IsA;
    if IsAlive(s.realm, true) {
      match call
      case WebDocument(c) => InternAdds(s, rid, s.blink.dom, s.realm.document, c);
      case WebBody(h, c) =>
        var d := ResolveNode(s.realm.nodes, h, DOCUMENT);
        if d.status == Ok && d.node in s.blink.bodies {
          InternAdds(s, rid, s.blink.dom, Some(s.blink.bodies[d.node]), c);
        }
      case WebCreateElement(h, decodes, throws, cls, c) =>
        if cls.Some? {
          CreatedDom(s.blink.dom, cls.value);
          InternAdds(s, rid, CreateElement(s.blink.dom, cls.value), Some(|s.blink.dom.classes|), c);
        }
    }
  }

  lemma CreatedDom(dom: Dom, c: BlinkClass)
    ensures dom.classes <= CreateElement(dom, c).classes && |dom.classes| < |CreateElement(dom, c).classes|
    ensures ClassOf(CreateElement(dom, c), |dom.classes|) == c
  {
  }

  lemma InternAdds(s: Site, rid: nat, dom: Dom, node: Option<nat>, c: InternChoices)
    requires SiteOK(s, rid) && s.realm.alive && s.blink.dom.classes <= dom.classes
    ensures node.Some? && (node == s.realm.document || node.value < |dom.classes|
                           || exists d :: d in s.blink.bodies && s.blink.bodies[d] == node.value) ==>
              var r := Intern(s.realm.nodes, s.roots, rid, dom, node, c);
              && (r.status != Ok ==> Live(r.nodes) == Live(s.realm.nodes))
              && (r.status == Ok ==> Adds(Live(s.realm.nodes), Live(r.nodes), r.handle))
  {
    hide Live, Intern, Interned, Inv, Linked, BlinkOK, TypeOf, Adds;
    SiteBounds(s, rid);
    InternedGrows(s.realm.nodes, s.blink.dom, dom);
    if node.Some? && node.value < |dom.classes| {
      InternLaw(s.realm.nodes, s.roots, rid, dom, node, c);
      var r := Intern(s.realm.nodes, s.roots, rid, dom, node, c);
      if r.status == Ok {
        InternedEdge(Live(s.realm.nodes), Live(r.nodes), r.handle,
                     Entry(Pointer(s.roots.mallocs, node.value), TypeOf(dom.classes[node.value]), 1));
      }
    }
  }

  // Interning a node adds an edge that releasing its handle takes away again.
  lemma InternedEdge(before: map<Handle, Entry<NodePointer>>, after: map<Handle, Entry<NodePointer>>, h: Handle,
                     e: Entry<NodePointer>)
    requires h in before ==> before[h].references < UINT32_MAX
    requires e.references == 1
    requires after == before[h := if h in before then before[h].(references := before[h].references + 1) else e]
    ensures h.generation != 0 ==> Adds(before, after, h)
  {
  }

  lemma TakeHandleKeeps(s0: Site, p: Progress, rid: nat, call: Call, cut: bool)
    requires OnTrack(s0, p, rid) && TakesNode(call)
    ensures OnTrack(s0, TakeHandle(p, rid, call, cut), rid)
    ensures TakeHandle(p, rid, call, cut).subscription == p.subscription
  {
    hide Perform, Ask, Live, SiteOK, Touches, Adds, Holding, SubsHold;
    if p.going {
      AskFollows(p.site, rid, call, cut);
      TakesOneEdge(p.site, rid, call);
      var r := Ask(p.site, rid, call, cut);
      FollowsTrans(s0, p.site, r.site, rid);
      if r.status == Ok && r.site.realm.alive {
        HoldingMore(Live(s0.realm.nodes), Live(p.site.realm.nodes), Live(r.site.realm.nodes), p.held, r.handle);
      }
    }
  }

  lemma VoidCallsTakeNothing(s: Site, rid: nat, call: Call)
    requires call.WebSetTextContent? || call.WebAppendChild?
    ensures Perform(s, rid, true, call).site.realm == s.realm
  {
    hide ResolveNode, IsA, AppendGuard;
  }

  lemma TakeVoidKeeps(s0: Site, p: Progress, rid: nat, call: Call, cut: bool)
    requires OnTrack(s0, p, rid) && (call.WebSetTextContent? || call.WebAppendChild?)
    ensures OnTrack(s0, TakeVoid(p, rid, call, cut), rid)
    ensures TakeVoid(p, rid, call, cut).subscription == p.subscription
    ensures TakeVoid(p, rid, call, cut).held == p.held
  {
    hide Perform, Ask, Live, SiteOK, Touches, Holding, SubsHold;
    if p.going {
      AskFollows(p.site, rid, call, cut);
      VoidCallsTakeNothing(p.site, rid, call);
      FollowsTrans(s0, p.site, Ask(p.site, rid, call, cut).site, rid);
    }
  }

  lemma ListenerTakesOneSub(s: Site, rid: nat, call: Call)
    requires SiteOK(s, rid) && !s.realm.freed && call.WebAddEventListener?
    ensures var r := Perform(s, rid, true, call);
            && r.site.realm.nodes == s.realm.nodes
            && (r.status != Ok ==> Live(r.site.realm.subs) == Live(s.realm.subs))
            && (r.status == Ok ==>
                  && r.handle.generation != 0 && SubsHold(Live(s.realm.subs), Live(r.site.realm.subs), r.handle)
                  && r.handle in Live(r.site.realm.subs))
  {
    hide Live, ResolveNode, CreateSubscription, Inv, Interned, BlinkOK, Linked, Dead, Bare, Gone, Forest, PointsTo;
    if IsAlive(s.realm, true) {
      var n := ResolveNode(s.realm.nodes, call.target, NODE);
      if call.callback.generation != 0 && n.status == Ok && call.decodes {
        var l := |s.blink.listeners|;
        var b := s.blink.(listeners := s.blink.listeners + [Listener(Some(rid), call.callback)]);
        ListenerAllocated(s, rid, call.callback);
        CreateLaw(s.realm.subs, b, s.roots, rid, n.node, call.eventType, l, call.create);
      }
    }
  }

  lemma TakeSubscriptionKeeps(s0: Site, p: Progress, rid: nat, call: Call, cut: bool)
    requires OnTrack(s0, p, rid) && call.WebAddEventListener? && p.subscription == NULL_HANDLE
    ensures OnTrack(s0, TakeSubscription(p, rid, call, cut), rid)
    ensures TakeSubscription(p, rid, call, cut).held == p.held
  {
    hide Perform, Ask, Live, SiteOK, Touches, Holding;
    if p.going {
      AskFollows(p.site, rid, call, cut);
      ListenerTakesOneSub(p.site, rid, call);
      FollowsTrans(s0, p.site, Ask(p.site, rid, call, cut).site, rid);
    }
  }

  // A text update on the handle goes through: its node is live and not a script element.
  ghost predicate Writable(s: Site, h: Handle) {
    h in Live(s.realm.nodes) && !IsA(ClassOf(s.blink.dom, Live(s.realm.nodes)[h].token.at), HTMLScriptElementClass)
  }

  // The handle names an element, which can hold a text node.
  ghost predicate OnElement(s: Site, h: Handle) {
    h in Live(s.realm.nodes) && IsA(ClassOf(s.blink.dom, Live(s.realm.nodes)[h].token.at), ElementClass)
  }

  lemma WritableMeansOk(s: Site, rid: nat, h: Handle, text: string)
    requires SiteOK(s, rid) && !s.realm.freed
    ensures Writable(s, h) && s.realm.alive ==> Perform(s, rid, true, SetText(h, text)).status == Ok
    ensures Perform(s, rid, true, SetText(h, text)).status == Ok ==> Writable(s, h)
  {
    hide Live, ResolveNode, Inv, BlinkOK, Linked, Dead, Bare, Gone, Interned, IsA, ClassOfType;
    if s.realm.alive {
      ResolveNodeLaw(s.realm.nodes, s.blink.dom, h, NODE);
      if h in Live(s.realm.nodes) { EverythingIsNode(ClassOf(s.blink.dom, Live(s.realm.nodes)[h].token.at)); }
    }
  }

  lemma EverythingIsNode(c: BlinkClass)
    ensures IsA(c, ClassOfType(NODE))
  {
    Chain(c);
  }

  // A live node keeps its class while the page grows.
  lemma StillWritable(s: Site, s': Site, rid: nat, h: Handle)
    requires SiteOK(s, rid) && !s.realm.freed && h in Live(s.realm.nodes)
    requires s.blink.dom.classes <= s'.blink.dom.classes
    requires h in Live(s'.realm.nodes) && Live(s'.realm.nodes)[h].token.at == Live(s.realm.nodes)[h].token.at
    ensures Writable(s, h) ==> Writable(s', h)
    ensures OnElement(s, h) ==> OnElement(s', h)
  {
    hide Live, Inv, BlinkOK, Linked, Dead, Bare, Gone, TypeOf;
  }

  // The button is the client's alone: its node was made for it.
  ghost predicate OwnsButton(p: Progress) {
    p.going && p.site.realm.alive ==>
      && |p.held| == 4 && p.held[3].generation != 0
      && p.held[3] in Live(p.site.realm.nodes) && Live(p.site.realm.nodes)[p.held[3]].references == 1
      && OnElement(p.site, p.held[3])
  }

  ghost predicate Texted(p: Progress) {
    p.going && p.site.realm.alive ==> Writable(p.site, Nth(p.held, 3))
  }

  // The root's listener hears clicks and passes on the client's own token.
  predicate HearsClicks(b: Blink, root: Root) {
    && root.eventType == "click"
    && root.listener < |b.listeners| && b.listeners[root.listener].token == CallbackToken(1, 1)
  }

  // The subscription listens for clicks on the button.
  ghost predicate Wired(p: Progress) {
    p.going && p.site.realm.alive ==>
      && OwnsButton(p) && Writable(p.site, p.held[3])
      && p.subscription.generation != 0 && p.subscription in Live(p.site.realm.subs)
      && var root := Live(p.site.realm.subs)[p.subscription].token.at;
      && root.target == Live(p.site.realm.nodes)[p.held[3]].token.at && HearsClicks(p.site.blink, root)
  }

  lemma CreatedIsOwned(s: Site, rid: nat, call: Call)
    requires SiteOK(s, rid) && !s.realm.freed && call.WebCreateElement?
    ensures var r := Perform(s, rid, true, call);
            r.status == Ok ==>
              && r.handle.generation != 0
              && r.handle in Live(r.site.realm.nodes) && Live(r.site.realm.nodes)[r.handle].references == 1
              && OnElement(r.site, r.handle)
  {
    hide Live, Intern, ResolveNode, CreateElement, IsA, Inv, Linked, BlinkOK, TypeOf;
    if IsAlive(s.realm, true) && call.elementClass.Some? {
      var dom := CreateElement(s.blink.dom, call.elementClass.value);
      var node := |s.blink.dom.classes|;
      CreatedDom(s.blink.dom, call.elementClass.value);
      InternedGrows(s.realm.nodes, s.blink.dom, dom);
      InternLaw(s.realm.nodes, s.roots, rid, dom, Some(node), call.intern);
    }
  }

  lemma ButtonTaken(s0: Site, p: Progress, rid: nat, call: Call, cut: bool)
    requires OnTrack(s0, p, rid) && call.WebCreateElement? && (p.going ==> |p.held| == 3)
    ensures OwnsButton(TakeHandle(p, rid, call, cut))
  {
    hide Perform, Ask, Live, SiteOK, Touches, Balanced;
    if p.going {
      AskFollows(p.site, rid, call, cut);
      CreatedIsOwned(p.site, rid, call);
    }
  }

  lemma VoidKeepsOwnership(s0: Site, p: Progress, rid: nat, call: Call, cut: bool)
    requires OnTrack(s0, p, rid) && (call.WebSetTextContent? || call.WebAppendChild?)
    ensures OwnsButton(p) ==> OwnsButton(TakeVoid(p, rid, call, cut))
    ensures Wired(p) ==> Wired(TakeVoid(p, rid, call, cut))
  {
    hide Perform, Ask, Live, SiteOK, Touches, Balanced, Writable, OnElement;
    if p.going {
      AskFollows(p.site, rid, call, cut);
      VoidCallsTakeNothing(p.site, rid, call);
      KeepsWritable(p.site, Ask(p.site, rid, call, cut).site, rid, Nth(p.held, 3));
    }
  }

  lemma KeepsWritable(s: Site, s': Site, rid: nat, h: Handle)
    requires SiteOK(s, rid) && Follows(s, s', rid) && !s.realm.freed
    requires s'.realm.alive ==> s'.realm.nodes == s.realm.nodes
    ensures Writable(s, h) && s'.realm.alive ==> Writable(s', h)
    ensures OnElement(s, h) && s'.realm.alive ==> OnElement(s', h)
  {
    if h in Live(s.realm.nodes) && s'.realm.alive {
      assert s.blink.dom.classes <= s'.blink.dom.classes by { hide SiteOK, Live; }
      hide SiteOK, Live, Touches;
      StillWritable(s, s', rid, h);
    }
  }

  // The text of the button was set, so the button takes text.
  lemma TextTaken(s0: Site, p: Progress, rid: nat, text: string, cut: bool)
    requires OnTrack(s0, p, rid)
    ensures Texted(TakeVoid(p, rid, SetText(Nth(p.held, 3), text), cut))
  {
    hide Perform, Ask, Live, SiteOK, Touches, Balanced, Writable, OnElement;
    if p.going {
      var call := SetText(Nth(p.held, 3), text);
      AskFollows(p.site, rid, call, cut);
      VoidCallsTakeNothing(p.site, rid, call);
      WritableMeansOk(p.site, rid, Nth(p.held, 3), text);
      KeepsWritable(p.site, Ask(p.site, rid, call, cut).site, rid, Nth(p.held, 3));
    }
  }

  lemma ListenerOnTarget(s: Site, rid: nat, call: Call)
    requires SiteOK(s, rid) && !s.realm.freed && call.WebAddEventListener?
    ensures var r := Perform(s, rid, true, call);
            r.status == Ok ==>
              && r.handle in Live(r.site.realm.subs) && call.target in Live(s.realm.nodes)
              && var root := Live(r.site.realm.subs)[r.handle].token.at;
              && root.target == Live(s.realm.nodes)[call.target].token.at && root.eventType == call.eventType
              && root.listener < |r.site.blink.listeners|
              && r.site.blink.listeners[root.listener].token == call.callback
  {
    hide Live, ResolveNode, CreateSubscription, Inv, Interned, BlinkOK, Linked, Dead, Bare, Gone, Forest, PointsTo, IsA,
         ClassOfType;
    if IsAlive(s.realm, true) {
      var n := ResolveNode(s.realm.nodes, call.target, NODE);
      if call.callback.generation != 0 && n.status == Ok && call.decodes {
        ResolveNodeLaw(s.realm.nodes, s.blink.dom, call.target, NODE);
        var l := |s.blink.listeners|;
        var b := s.blink.(listeners := s.blink.listeners + [Listener(Some(rid), call.callback)]);
        ListenerAllocated(s, rid, call.callback);
        CreateLaw(s.realm.subs, b, s.roots, rid, n.node, call.eventType, l, call.create);
        ListenersKept(s.realm.subs, b, s.roots, rid, n.node, call.eventType, l, call.create);
      }
    }
  }

  lemma ClickWired(s0: Site, p: Progress, rid: nat, call: Call, cut: bool)
    requires OnTrack(s0, p, rid) && OwnsButton(p) && Texted(p) && call.WebAddEventListener?
    requires call.target == Nth(p.held, 3) && call.eventType == "click" && call.callback == CLICK_CALLBACK
    ensures Wired(TakeSubscription(p, rid, call, cut))
  {
    hide Perform, Ask, Live, SiteOK, Touches, Balanced, SubsHold, Writable, OnElement;
    if p.going {
      AskFollows(p.site, rid, call, cut);
      ListenerTakesOneSub(p.site, rid, call);
      ListenerOnTarget(p.site, rid, call);
      KeepsWritable(p.site, Ask(p.site, rid, call, cut).site, rid, Nth(p.held, 3));
    }
  }

  lemma HeadingBalanced(s: Site, rid: nat, c: StartChoices)
    requires SiteOK(s, rid) && s.realm.alive
    ensures var p := AcquireHeading(s, rid, c);
            && OnTrack(s, p, rid) && (p.going ==> |p.held| == 3) && p.subscription == NULL_HANDLE
  {
    hide OnTrack, Ask, SiteOK;
    var p0 := Progress(s, [], NULL_HANDLE, true);
    BeginOnTrack(s, rid);
    var p1 := TakeHandle(p0, rid, WebDocument(c.document), c.cut == 0);
    TakeHandleKeeps(s, p0, rid, WebDocument(c.document), c.cut == 0);
    var call1 := WebBody(Nth(p1.held, 0), c.body);
    TakeHandleKeeps(s, p1, rid, call1, c.cut == 1);
    var q := TakeHandle(p1, rid, call1, c.cut == 1);
    var p2 := RequireLast(q);
    SameBooks(s, q, p2, rid);
    var call2 := CreateHeading(Nth(p2.held, 0), c);
    TakeHandleKeeps(s, p2, rid, call2, c.cut == 2);
    var p3 := TakeHandle(p2, rid, call2, c.cut == 2);
    TakeVoidKeeps(s, p3, rid, SetText(Nth(p3.held, 2), HEADING_TEXT), c.cut == 3);
  }

  lemma ButtonBalanced(s: Site, p4: Progress, rid: nat, c: StartChoices)
    requires OnTrack(s, p4, rid) && (p4.going ==> |p4.held| == 3) && p4.subscription == NULL_HANDLE
    ensures var p := AcquireButton(p4, rid, c);
            && OnTrack(s, p, rid) && Wired(p) && (p.going ==> |p.held| == 4)
  {
    hide OnTrack, Ask, Wired, OwnsButton, Texted;
    var call4 := CreateButton(Nth(p4.held, 0), c);
    TakeHandleKeeps(s, p4, rid, call4, c.cut == 4);
    ButtonTaken(s, p4, rid, call4, c.cut == 4);
    var p5 := TakeHandle(p4, rid, call4, c.cut == 4);
    var call5 := SetText(Nth(p5.held, 3), FIRST_TEXT);
    TakeVoidKeeps(s, p5, rid, call5, c.cut == 5);
    VoidKeepsOwnership(s, p5, rid, call5, c.cut == 5);
    TextTaken(s, p5, rid, FIRST_TEXT, c.cut == 5);
    var p6 := TakeVoid(p5, rid, call5, c.cut == 5);
    var call6 := ListenForClicks(Nth(p6.held, 3), c);
    TakeSubscriptionKeeps(s, p6, rid, call6, c.cut == 6);
    ClickWired(s, p6, rid, call6, c.cut == 6);
    var p7 := TakeSubscription(p6, rid, call6, c.cut == 6);
    var call7 := WebAppendChild(Nth(p7.held, 1), Nth(p7.held, 2));
    TakeVoidKeeps(s, p7, rid, call7, c.cut == 7);
    VoidKeepsOwnership(s, p7, rid, call7, c.cut == 7);
    var p8 := TakeVoid(p7, rid, call7, c.cut == 7);
    var call8 := WebAppendChild(Nth(p8.held, 1), Nth(p8.held, 3));
    TakeVoidKeeps(s, p8, rid, call8, c.cut == 8);
    VoidKeepsOwnership(s, p8, rid, call8, c.cut == 8);
  }

  lemma BeginOnTrack(s: Site, rid: nat)
    requires SiteOK(s, rid) && s.realm.alive
    ensures OnTrack(s, Progress(s, [], NULL_HANDLE, true), rid)
  {
    hide Live;
    assert !s.realm.freed by { hide BlinkOK, Linked; }
    hide SiteOK;
    FollowsRefl(s, rid);
  }

  lemma SameBooks(s0: Site, p: Progress, q: Progress, rid: nat)
    requires OnTrack(s0, p, rid) && q == p.(going := q.going)
    ensures OnTrack(s0, q, rid)
  {
  }

  // ----- the ladder -----

  // Releasing takes one edge, or nothing when the realm is gone.
  lemma ReleaseDrops(s: Site, rid: nat, h: Handle)
    requires SiteOK(s, rid) && !s.realm.freed
    ensures var s' := ReleaseIfLive(s, rid, h);
            && Follows(s, s', rid) && s'.realm.alive == s.realm.alive && s'.realm.subs == s.realm.subs
            && (s.realm.alive ==> Live(s'.realm.nodes) == DropEdge(Live(s.realm.nodes), h))
  {
    hide SiteOK, Live, Touches, ReleaseNode;
    FollowsRefl(s, rid);
    PerformFollows(s, rid, true, WebRelease(h));
    if s.realm.alive && h.generation != 0 { ReleaseInRealm(s, rid, h); }
  }

  lemma ReleaseInRealm(s: Site, rid: nat, h: Handle)
    requires SiteOK(s, rid) && s.realm.alive && h.generation != 0
    ensures IsAlive(s.realm, true)
    ensures Live(ReleaseNode(s.realm.nodes, s.blink, s.roots, rid, h).nodes) == DropEdge(Live(s.realm.nodes), h)
  {
    hide Live, Inv, Interned, Linked, BlinkOK, ReleaseNode;
    ReleaseNodeLaw(s.realm.nodes, s.blink.dom, s.blink, s.roots, rid, h);
  }

  lemma DisposeDrops(s: Site, rid: nat, h: Handle)
    requires SiteOK(s, rid) && !s.realm.freed
    ensures var s' := DisposeIfLive(s, rid, h);
            && Follows(s, s', rid) && s'.realm.alive == s.realm.alive && s'.realm.nodes == s.realm.nodes
            && (s.realm.alive && h.generation != 0 && h in Live(s.realm.subs) ==>
                  Live(s'.realm.subs) == Live(s.realm.subs) - {h})
            && (h.generation == 0 || h !in Live(s.realm.subs) ==> s'.realm.subs == s.realm.subs)
  {
    hide SiteOK, Live, Touches, DisposeSubscription;
    FollowsRefl(s, rid);
    PerformFollows(s, rid, true, WebDispose(h));
    if s.realm.alive && h.generation != 0 { DisposeInRealm(s, rid, h); }
  }

  lemma DisposeInRealm(s: Site, rid: nat, h: Handle)
    requires SiteOK(s, rid) && s.realm.alive
    ensures IsAlive(s.realm, true)
    ensures var r := DisposeSubscription(s.realm.subs, s.blink, s.roots, rid, h);
            && (h in Live(s.realm.subs) ==> Live(r.subs) == Live(s.realm.subs) - {h})
            && (h !in Live(s.realm.subs) ==> r.subs == s.realm.subs)
  {
    hide Live, Inv, Interned, Linked, BlinkOK, DisposeSubscription, Dead, Bare, Gone;
    DisposeLaw(s.realm.subs, s.blink, s.roots, rid, h);
  }

  function DropEdges(m: map<Handle, Entry<NodePointer>>, held: seq<Handle>): map<Handle, Entry<NodePointer>>
    decreases |held|
  {
    if held == [] then m else DropEdges(DropEdge(m, held[|held| - 1]), held[..|held| - 1])
  }

  lemma {:induction false} LadderDrops(s: Site, rid: nat, held: seq<Handle>)
    requires SiteOK(s, rid) && !s.realm.freed
    ensures var s' := ReleaseAll(s, rid, held);
            && Follows(s, s', rid) && s'.realm.alive == s.realm.alive && s'.realm.subs == s.realm.subs
            && (s.realm.alive ==> Live(s'.realm.nodes) == DropEdges(Live(s.realm.nodes), held))
    decreases |held|
  {
    hide SiteOK, Live, Touches, ReleaseIfLive, DropEdge;
    FollowsRefl(s, rid);
    if held == [] {
    } else {
      var h := held[|held| - 1];
      ReleaseDrops(s, rid, h);
      var s1 := ReleaseIfLive(s, rid, h);
      LadderDrops(s1, rid, held[..|held| - 1]);
      FollowsTrans(s, s1, ReleaseAll(s1, rid, held[..|held| - 1]), rid);
    }
  }

  lemma {:induction false} HeldIsDropped(before: map<Handle, Entry<NodePointer>>, after: map<Handle,
                                         Entry<NodePointer>>,
                                         held: seq<Handle>)
    requires Holding(before, after, held)
    ensures DropEdges(after, held) == before
    decreases |held|
  {
    if held == [] {
    } else {
      HeldIsDropped(before, DropEdge(after, held[|held| - 1]), held[..|held| - 1]);
    }
  }

  // An entry outside the ladder stays put while the ladder runs.
  lemma {:induction false} DropAround(m: map<Handle, Entry<NodePointer>>, held: seq<Handle>, b: Handle,
                                      e: Entry<NodePointer>)
    requires b !in m && Holding(DropEdges(m, held), m, held)
    ensures DropEdges(m[b := e], held) == DropEdges(m, held)[b := e]
    ensures b !in DropEdges(m, held)
    decreases |held|
  {
    if held == [] {
    } else {
      var h, rest := held[|held| - 1], held[..|held| - 1];
      assert h.generation != 0 ==> h in m;
      assert DropEdge(m[b := e], h) == DropEdge(m, h)[b := e];
      DropAround(DropEdge(m, h), rest, b, e);
    }
  }

  // ----- conservation -----

  // What the client owns after a start, while the realm lives: nothing after a failure; after
  // a success one new node handle with one reference, and one new subscription that listens
  // for clicks on that node. Everything else is exactly as it was. If the realm was
  // invalidated on the way, it holds nothing at all.
  ghost predicate Conserves(s: Site, rid: nat, counter: Counter, r: Started) {
    && Follows(s, r.site, rid)
    && (!r.site.realm.alive ==> Emptied(r.site, rid))
    && (!r.success ==> r.counter == counter)
    && (!r.success && r.site.realm.alive ==>
          Live(r.site.realm.nodes) == Live(s.realm.nodes) && Live(r.site.realm.subs) == Live(s.realm.subs))
    && (r.success ==> r.counter.active && r.counter.realm == Some(rid) && r.counter.count == 0 && !r.counter.failed)
    && (r.success && r.site.realm.alive ==>
          var b, l := r.counter.button, r.counter.subscription;
          && b.generation != 0 && b !in Live(s.realm.nodes) && b in Live(r.site.realm.nodes)
          && Live(r.site.realm.nodes)[b].references == 1
          && Live(r.site.realm.nodes) == Live(s.realm.nodes)[b := Live(r.site.realm.nodes)[b]]
          && l.generation != 0 && l !in Live(s.realm.subs) && l in Live(r.site.realm.subs)
          && Live(r.site.realm.subs) == Live(s.realm.subs)[l := Live(r.site.realm.subs)[l]]
          && Live(r.site.realm.subs)[l].token.at.target == Live(r.site.realm.nodes)[b].token.at
          && HearsClicks(r.site.blink, Live(r.site.realm.subs)[l].token.at)
          && PointsTo(r.site.blink, Live(r.site.realm.subs)[l].token.at.listener, rid)
          && Writable(r.site, b) && OnElement(r.site, b))
  }

  // For every pattern of refusals among the nine calls, and invalidation during any of them.
  lemma StartConserves(s: Site, rid: nat, counter: Counter, c: StartChoices)
    requires SiteOK(s, rid) && !s.realm.freed
    ensures Conserves(s, rid, counter, Start(s, rid, counter, c))
    ensures Start(s, rid, counter, c).success ==> !counter.active
  {
    hide SiteOK, Live, Touches, OnTrack, Wired, Acquire, ReleaseAll, DisposeIfLive, Emptied, Writable, OnElement,
         PointsTo, HearsClicks;
    var r := Start(s, rid, counter, c);
    if counter.active || !IsAlive(s.realm, true) {
      FollowsRefl(s, rid);
    } else {
      HeadingBalanced(s, rid, c);
      ButtonBalanced(s, AcquireHeading(s, rid, c), rid, c);
      var p := Acquire(s, rid, c);
      assert p == AcquireButton(AcquireHeading(s, rid, c), rid, c) by { AcquireIs(s, rid, c); }
      if p.going {
        StartSucceeds(s, p, rid);
      } else {
        StartFails(s, p, rid);
      }
    }
    if !r.site.realm.alive { DeadIsEmptied(r.site, rid); }
    if r.success && r.site.realm.alive { SubscriptionPoints(r.site, rid, r.counter.subscription); }
  }

  lemma SubscriptionPoints(s: Site, rid: nat, l: Handle)
    requires SiteOK(s, rid) && l in Live(s.realm.subs)
    ensures PointsTo(s.blink, Live(s.realm.subs)[l].token.at.listener, rid)
  {
    hide Live, RealmOK, BlinkOK, Dead, Bare, Gone;
    assert RootLinked(Live(s.realm.subs)[l], rid, s.blink);
  }

  lemma AcquireIs(s: Site, rid: nat, c: StartChoices)
    ensures Acquire(s, rid, c) == AcquireButton(AcquireHeading(s, rid, c), rid, c)
  {
    hide AcquireButton, AcquireHeading;
  }

  lemma StartFails(s: Site, p: Progress, rid: nat)
    requires OnTrack(s, p, rid)
    ensures var s' := ReleaseAll(DisposeIfLive(p.site, rid, p.subscription), rid, p.held);
            && Follows(s, s', rid)
            && (s'.realm.alive ==>
                  Live(s'.realm.nodes) == Live(s.realm.nodes) && Live(s'.realm.subs) == Live(s.realm.subs))
  {
    hide SiteOK, Live, Touches, Holding, ReleaseAll, DisposeIfLive;
    var s1 := DisposeIfLive(p.site, rid, p.subscription);
    DisposeDrops(p.site, rid, p.subscription);
    FollowsTrans(s, p.site, s1, rid);
    LadderDrops(s1, rid, p.held);
    FollowsTrans(s, s1, ReleaseAll(s1, rid, p.held), rid);
    if s1.realm.alive {
      HeldIsDropped(Live(s.realm.nodes), Live(p.site.realm.nodes), p.held);
    }
  }

  lemma StartSucceeds(s: Site, p: Progress, rid: nat)
    requires OnTrack(s, p, rid) && Wired(p) && p.going && |p.held| == 4
    ensures var s' := ReleaseAll(p.site, rid, p.held[..3]);
            && Follows(s, s', rid)
            && (s'.realm.alive ==>
                  var b, l := p.held[3], p.subscription;
                  && b.generation != 0 && b !in Live(s.realm.nodes) && b in Live(s'.realm.nodes)
                  && Live(s'.realm.nodes)[b].references == 1
                  && p.site.realm.alive && b in Live(p.site.realm.nodes)
                  && Live(s'.realm.nodes)[b] == Live(p.site.realm.nodes)[b]
                  && Live(s'.realm.nodes) == Live(s.realm.nodes)[b := Live(s'.realm.nodes)[b]]
                  && l.generation != 0 && l !in Live(s.realm.subs) && l in Live(s'.realm.subs)
                  && Live(s'.realm.subs) == Live(s.realm.subs)[l := Live(s'.realm.subs)[l]]
                  && Live(s'.realm.subs)[l].token.at.target == Live(s'.realm.nodes)[b].token.at
                  && HearsClicks(s'.blink, Live(s'.realm.subs)[l].token.at)
                  && Writable(s', b) && OnElement(s', b))
  {
    hide SiteOK, Live, Touches, ReleaseAll, Holding, Writable, OnElement;
    var s' := ReleaseAll(p.site, rid, p.held[..3]);
    LadderDrops(p.site, rid, p.held[..3]);
    FollowsTrans(s, p.site, s', rid);
    if s'.realm.alive {
      ButtonRemains(Live(s.realm.nodes), Live(p.site.realm.nodes), p.held);
      ButtonWritable(p.site, s', rid, p.held[3]);
    }
  }

  lemma ButtonWritable(s: Site, s': Site, rid: nat, b: Handle)
    requires SiteOK(s, rid) && Follows(s, s', rid) && !s.realm.freed && Writable(s, b) && OnElement(s, b)
    requires b in Live(s'.realm.nodes) && Live(s'.realm.nodes)[b] == Live(s.realm.nodes)[b]
    ensures Writable(s', b) && OnElement(s', b)
  {
    assert s.blink.dom.classes <= s'.blink.dom.classes by { hide SiteOK, Live; }
    hide SiteOK, Live, Touches;
    StillWritable(s, s', rid, b);
  }

  lemma ButtonRemains(before: map<Handle, Entry<NodePointer>>, after: map<Handle, Entry<NodePointer>>,
                      held: seq<Handle>)
    requires |held| == 4 && held[3].generation != 0 && held[3] in after && after[held[3]].references == 1
    requires Holding(before, after, held)
    ensures held[3] !in before && DropEdges(after, held[..3]) == before[held[3] := after[held[3]]]
  {
    var b := held[3];
    var m := after - {b};
    assert DropEdge(after, b) == m;
    assert Holding(before, m, held[..3]);
    HeldIsDropped(before, m, held[..3]);
    hide Holding;
    DropAround(m, held[..3], b, after[b]);
    assert m[b := after[b]] == after;
  }

  // Stopping gives back exactly the button and the subscription, if the realm still lives,
  // and always leaves the client idle.
  lemma StopConserves(s: Site, rid: nat, counter: Counter)
    requires SiteOK(s, rid) && !s.realm.freed && counter.active && counter.realm == Some(rid)
    ensures var r := Stop(s, rid, counter);
            && r.counter == IDLE && Follows(s, r.site, rid) && r.site.realm.alive == s.realm.alive
            && (s.realm.alive ==> Live(r.site.realm.nodes) == DropEdge(Live(s.realm.nodes), counter.button))
            && (s.realm.alive && counter.subscription.generation != 0 && counter.subscription in Live(s.realm.subs) ==>
                  Live(r.site.realm.subs) == Live(s.realm.subs) - {counter.subscription})
  {
    hide SiteOK, Live, Touches, DisposeIfLive, ReleaseIfLive, DropEdge;
    FollowsRefl(s, rid);
    AliveHasDocument(s, rid);
    var s1 := DisposeIfLive(s, rid, counter.subscription);
    DisposeDrops(s, rid, counter.subscription);
    ReleaseDrops(s1, rid, counter.button);
    FollowsTrans(s, s1, ReleaseIfLive(s1, rid, counter.button), rid);
  }

  lemma AliveHasDocument(s: Site, rid: nat)
    requires SiteOK(s, rid)
    ensures IsAlive(s.realm, true) <==> s.realm.alive
  {
    hide BlinkOK, Linked, Inv, Interned;
  }

  // A start followed by a stop leaves the realm's handles and subscriptions as they were,
  // whatever Blink answered.
  lemma StartThenStop(s: Site, rid: nat, c: StartChoices)
    requires SiteOK(s, rid) && !s.realm.freed
    ensures var r := Start(s, rid, IDLE, c);
            var r' := Stop(r.site, rid, r.counter);
            && r'.counter == IDLE
            && (r'.site.realm.alive ==>
                  && Live(r'.site.realm.nodes) == Live(s.realm.nodes)
                  && Live(r'.site.realm.subs) == Live(s.realm.subs))
            && (!r'.site.realm.alive ==> Emptied(r'.site, rid))
  {
    hide SiteOK, Touches, Start, Stop, Emptied, Live;
    StartConserves(s, rid, IDLE, c);
    var r := Start(s, rid, IDLE, c);
    if r.success {
      GivenBack(s, rid, IDLE, r);
    } else {
      StopIdle(r.site, rid);
    }
  }

  lemma GivenBack(s: Site, rid: nat, counter: Counter, r: Started)
    requires Conserves(s, rid, counter, r) && r.success
    ensures var r' := Stop(r.site, rid, r.counter);
            && r'.counter == IDLE
            && (r'.site.realm.alive ==>
                  && Live(r'.site.realm.nodes) == Live(s.realm.nodes)
                  && Live(r'.site.realm.subs) == Live(s.realm.subs))
            && (!r'.site.realm.alive ==> Emptied(r'.site, rid))
  {
    hide SiteOK, Live, Touches, Stop, Emptied, DropEdge, Writable, OnElement;
    StopConserves(r.site, rid, r.counter);
    if r.site.realm.alive {
      TakenBack(Live(s.realm.nodes), Live(r.site.realm.nodes), r.counter.button);
      Removed(Live(s.realm.subs), Live(r.site.realm.subs), r.counter.subscription);
    } else {
      DeadIsEmptied(Stop(r.site, rid, r.counter).site, rid);
    }
  }

  lemma Removed(before: map<Handle, Entry<RootPointer>>, after: map<Handle, Entry<RootPointer>>, h: Handle)
    requires h !in before && h in after && after == before[h := after[h]]
    ensures after - {h} == before
  {
  }

  lemma TakenBack(before: map<Handle, Entry<NodePointer>>, after: map<Handle, Entry<NodePointer>>, b: Handle)
    requires b.generation != 0 && b !in before && b in after && after[b].references == 1
    requires after == before[b := after[b]]
    ensures DropEdge(after, b) == before
  {
  }

  lemma StopIdle(s: Site, rid: nat)
    ensures Stop(s, rid, IDLE) == Stopped(s, IDLE)
  {
  }
}
