/** When the counter starts: the nine calls succeed exactly under conditions on the page, on
    the room in the two tables and on Blink's answers, all spelled out here in terms of the
    state before the first call. */
module StartOutcomes {
  import opened Abi
  import opened Heaps
  import opened TableSpec
  import opened TableInvariant
  import opened TableTheorems
  import opened HandleMap
  import opened WebTypes
  import opened Doms
  import opened Bridge
  import opened BridgeInvariant
  import opened RegistryLaws
  import opened SiteLaws
  import opened CapsuleLaws
  import opened Outcomes
  import opened Counters
  import opened CounterPage

  // ----- one call -----

  // A call goes through only in a live realm, which then lives on unless it is cut.
  lemma AskAnswers(s: Site, rid: nat, call: Call, cut: bool)
    requires SiteOK(s, rid) && !s.realm.freed
    ensures var r := Ask(s, rid, call, cut);
            && (r.status == Ok <==> s.realm.alive && Perform(s, rid, true, call).status == Ok)
            && (r.status == Ok ==> (r.site.realm.alive <==> !cut))
            && (!cut ==> r == Perform(s, rid, true, call)) && r.handle == Perform(s, rid, true, call).handle
  {
    hide SiteOK, Perform, InvalidateRealm, Touches, TokensKept;
    PerformKeeps(s, rid, true, call);
    if s.realm.alive { InvalidateFollows(Perform(s, rid, true, call).site, rid); } else { Gated(s, rid, true, call); }
  }

  lemma Goes(p: Progress, rid: nat, call: Call, cut: bool)
    ensures TakeHandle(p, rid, call, cut).going <==> p.going && Ask(p.site, rid, call, cut).status == Ok
    ensures TakeVoid(p, rid, call, cut).going <==> p.going && Ask(p.site, rid, call, cut).status == Ok
    ensures TakeSubscription(p, rid, call, cut).going <==> p.going && Ask(p.site, rid, call, cut).status == Ok
    ensures p.going ==> TakeHandle(p, rid, call, cut).site == Ask(p.site, rid, call, cut).site
    ensures p.going ==> TakeVoid(p, rid, call, cut).site == Ask(p.site, rid, call, cut).site
    ensures p.going ==> TakeSubscription(p, rid, call, cut).site == Ask(p.site, rid, call, cut).site
  {
    hide Ask;
  }

  // The page and handles so far; the realm is still alive exactly if `uncut`.
  ghost predicate Underway(s: Site, p: Progress, rid: nat, dom: Dom, document: nat, names: seq<nat>, uncut: bool) {
    Stage(s, p, rid, dom, document, names) && (p.going ==> (p.site.realm.alive <==> uncut))
  }

  // k slots of the node table were taken since s, and no subscription was made.
  ghost predicate Used(s: Site, p: Progress, k: nat) {
    p.going && p.site.realm.alive ==>
      SlotsTaken(s.realm.nodes, p.site.realm.nodes, k) && p.site.realm.subs == s.realm.subs
  }

  // ----- room -----

  // Whether a slot can still be reserved after i more have been.
  predicate HasRoomAfter<T>(t: Table<T>, i: nat, alloc: bool) {
    || i < |t.free|
    || (var n := |t.cells| + i - |t.free|; n < UINT32_MAX && (n < CapacityFor(n) || alloc))
  }

  // t is t0 with k more slots taken: reusable ones first, then new ones.
  predicate SlotsTaken<T>(t0: Table<T>, t: Table<T>, k: nat) {
    if k <= |t0.free| then |t.free| == |t0.free| - k && |t.cells| == |t0.cells|
    else t.free == [] && |t.cells| == |t0.cells| + k - |t0.free|
  }

  lemma RoomNow<T>(t: Table<T>, alloc: bool)
    ensures CanReserve(t, alloc) <==> HasRoomAfter(t, 0, alloc)
    ensures SlotsTaken(t, t, 0)
  {
  }

  lemma RoomLeft<T>(t0: Table<T>, t: Table<T>, k: nat, alloc: bool)
    requires SlotsTaken(t0, t, k)
    ensures CanReserve(t, alloc) <==> HasRoomAfter(t0, k, alloc)
  {
  }

  lemma TakenMore<T>(t0: Table<T>, t: Table<T>, t': Table<T>, k: nat, more: nat)
    requires SlotsTaken(t0, t, k) && SlotsTaken(t, t', more) && more <= 1
    ensures SlotsTaken(t0, t', k + more)
  {
  }

  ghost predicate Rooted(nodes: Table<NodePointer>, node: nat) {
    exists h :: h in Live(nodes) && Live(nodes)[h].token.at == node
  }

  // The slots that interning a node takes.
  ghost function SlotsFor(nodes: Table<NodePointer>, node: nat): nat {
    if Rooted(nodes, node) then 0 else 1
  }

  lemma InternTakes(nodes: Table<NodePointer>, roots: Roots, rid: nat, dom: Dom, node: nat, c: InternChoices)
    requires Inv(nodes) && !nodes.invalidated
    ensures var r := Intern(nodes, roots, rid, dom, Some(node), c);
            r.status == Ok ==> SlotsTaken(nodes, r.nodes, SlotsFor(nodes, node))
  {
    FindRootLive(nodes, node);
    hide Inv, Live, FindRoot, TypeOf, Insert, Retain, HandleAt, SlotsTaken;
    match FindRoot(nodes.cells, node, 0)
    case Some(i) => RetainTakes(nodes, HandleAt(nodes, i));
    case None =>
      var root := Pointer(roots.mallocs, node);
      InsertTakes(nodes, TypeOf(ClassOf(dom, node)), Some(root), c.tableAlloc);
  }

  lemma RetainTakes<T>(t: Table<T>, h: Handle)
    ensures SlotsTaken(t, Retain(t, h).table, 0)
  {
  }

  lemma InsertTakes<T>(t: Table<T>, typeId: nat, token: Option<T>, alloc: bool)
    requires Inv(t) && !t.invalidated
    ensures var r := Insert(t, typeId, token, true, alloc);
            r.status == Ok ==> SlotsTaken(t, r.table, 1)
  {
    InvShape(t);
    hide Inv, CapacityFor;
    FreeIndex(t);
  }

  lemma TextStep(s: Site, p: Progress, rid: nat, cut: bool, dom: Dom, document: nat, names: seq<nat>, k: nat,
                 text: string, uncut: bool, used: nat)
    requires Underway(s, p, rid, dom, document, names, uncut) && Used(s, p, used) && k < |names|
    ensures var q := TakeVoid(p, rid, SetText(Nth(p.held, k), text), cut);
            && Underway(s, q, rid, ReplaceText(dom, names[k], text), document, names, uncut && !cut) && Used(s, q, used)
            && (q.going <==> p.going && uncut && !IsA(ClassOf(dom, names[k]), HTMLScriptElementClass))
  {
    hide SiteOK, Names, Perform, Ask, OnTrack, PageIs, ReplaceText, IsA, Live, Stage, TakeVoid;
    var call := SetText(Nth(p.held, k), text);
    AliveStage(s, p, rid, dom, document, names);
    StageText(s, p, rid, cut, dom, document, names, k, text);
    AskAnswers(p.site, rid, call, cut);
    Goes(p, rid, call, cut);
    VoidCallsTakeNothing(p.site, rid, call);
    if p.going && p.site.realm.alive {
      TextAnswers(p.site, rid, Nth(p.held, k), true, text);
      NamedIs(p.site, Nth(p.held, k), names[k]);
    }
  }

  lemma NamedIs(s: Site, h: Handle, n: nat)
    requires Names(s, h, n)
    ensures h in Live(s.realm.nodes) && Live(s.realm.nodes)[h].token.at == n
  {
    hide Live;
  }

  lemma AppendStep(s: Site, p: Progress, rid: nat, cut: bool, dom: Dom, document: nat, names: seq<nat>, j: nat, k: nat,
                   uncut: bool)
    requires Underway(s, p, rid, dom, document, names, uncut) && j < |names| && k < |names|
    ensures var q := TakeVoid(p, rid, WebAppendChild(Nth(p.held, j), Nth(p.held, k)), cut);
            && Underway(s, q, rid, AppendedTo(dom, names[j], names[k]), document, names, uncut && !cut)
            && (q.going <==>
                  && p.going && uncut
                  && IsA(ClassOf(dom, names[j]), ElementClass) && IsA(ClassOf(dom, names[k]), ElementClass)
                  && ParentOf(dom, names[k]) == None && !Contains(dom, names[k], names[j]))
  {
    hide SiteOK, Names, Perform, Ask, OnTrack, PageIs, AppendedTo, IsA, Live, Stage, TakeVoid, Contains, ParentOf,
         Appended;
    var call := WebAppendChild(Nth(p.held, j), Nth(p.held, k));
    AliveStage(s, p, rid, dom, document, names);
    StageAppend(s, p, rid, cut, dom, document, names, j, k);
    AskAnswers(p.site, rid, call, cut);
    Goes(p, rid, call, cut);
    VoidCallsTakeNothing(p.site, rid, call);
    if p.going && p.site.realm.alive {
      AppendAnswers(p.site, rid, Nth(p.held, j), Nth(p.held, k));
      NamedIs(p.site, Nth(p.held, j), names[j]);
      NamedIs(p.site, Nth(p.held, k), names[k]);
    }
  }

  // ----- slots -----

  lemma DocumentTakes(s: Site, rid: nat, c: InternChoices)
    requires SiteOK(s, rid) && s.realm.alive
    ensures var r := Perform(s, rid, true, WebDocument(c));
            s.realm.document.Some?
            && (r.status == Ok ==>
                  SlotsTaken(s.realm.nodes, r.site.realm.nodes, SlotsFor(s.realm.nodes, s.realm.document.value)))
  {
    hide SiteOK, Inv, Interned, Perform, Intern, SlotsTaken, SlotsFor;
    Opened(s, rid, WebDocument(c));
    SiteInterned(s, rid);
    AliveTables(s, rid);
    InternTakes(s.realm.nodes, s.roots, rid, s.blink.dom, s.realm.document.value, c);
  }

  lemma BodyTakes(s: Site, rid: nat, h: Handle, c: InternChoices, document: nat)
    requires SiteOK(s, rid) && s.realm.alive && Names(s, h, document) && document in s.blink.bodies
    ensures var r := Perform(s, rid, true, WebBody(h, c));
            r.status == Ok ==>
              SlotsTaken(s.realm.nodes, r.site.realm.nodes, SlotsFor(s.realm.nodes, s.blink.bodies[document]))
  {
    hide SiteOK, Inv, Interned, Perform, Intern, SlotsTaken, SlotsFor, Live, ResolveNode, IsA;
    Opened(s, rid, WebBody(h, c));
    SiteInterned(s, rid);
    AliveTables(s, rid);
    LookupAnswers(s, rid, h, DOCUMENT);
    NamedIs(s, h, document);
    InternTakes(s.realm.nodes, s.roots, rid, s.blink.dom, s.blink.bodies[document], c);
  }

  lemma ElementTakes(s: Site, rid: nat, call: Call)
    requires SiteOK(s, rid) && s.realm.alive && call.WebCreateElement?
    ensures var r := Perform(s, rid, true, call);
            r.status == Ok ==> SlotsTaken(s.realm.nodes, r.site.realm.nodes, 1)
  {
    hide SiteOK, Inv, Interned, Perform, Intern, SlotsTaken, Live, ResolveNode, CreateElement;
    Opened(s, rid, call);
    SiteInterned(s, rid);
    AliveTables(s, rid);
    if call.elementClass.Some? {
      var dom, n := CreateElement(s.blink.dom, call.elementClass.value), |s.blink.dom.classes|;
      NotYetNamed(s.realm.nodes, s.blink.dom, n, call.intern);
      InternTakes(s.realm.nodes, s.roots, rid, dom, n, call.intern);
    }
  }

  // ----- createElement, addEventListener -----

  lemma ElementStep(s: Site, p: Progress, rid: nat, call: Call, cut: bool, dom: Dom, document: nat, names: seq<nat>,
                    cls: ElementKind, uncut: bool, used: nat)
    requires Underway(s, p, rid, dom, document, names, uncut) && Used(s, p, used) && |names| > 0
    requires call.WebCreateElement? && call.elementClass == Some(cls) && call.decodes
    requires call.document == Nth(p.held, 0)
    ensures var q := TakeHandle(p, rid, call, cut);
            && Underway(s, q, rid, CreateElement(dom, cls), document, names + [|dom.classes|], uncut && !cut)
            && Used(s, q, used + 1)
            && (q.going <==>
                  && p.going && uncut && IsA(ClassOf(dom, names[0]), DocumentClass)
                  && call.throws.None? && call.intern.rootAlloc
                  && HasRoomAfter(s.realm.nodes, used, call.intern.tableAlloc))
  {
    hide SiteOK, Names, Perform, Ask, OnTrack, PageIs, CreateElement, IsA, Live, Stage, TakeHandle, CanReserve,
         HasRoomAfter, SlotsTaken;
    AliveStage(s, p, rid, dom, document, names);
    StageElement(s, p, rid, call, cut, dom, document, names, cls);
    AskAnswers(p.site, rid, call, cut);
    Goes(p, rid, call, cut);
    TakesOneEdge(p.site, rid, call);
    if p.going && p.site.realm.alive {
      ElementAnswers(p.site, rid, call);
      ElementTakes(p.site, rid, call);
      NamedIs(p.site, Nth(p.held, 0), names[0]);
      RoomLeft(s.realm.nodes, p.site.realm.nodes, used, call.intern.tableAlloc);
      var r := Perform(p.site, rid, true, call);
      if r.status == Ok { TakenMore(s.realm.nodes, p.site.realm.nodes, r.site.realm.nodes, used, 1); }
    }
  }

  lemma ListenStep(s: Site, p: Progress, rid: nat, c: StartChoices, cut: bool, dom: Dom, document: nat, names: seq<nat>,
                   k: nat, uncut: bool, used: nat)
    requires Underway(s, p, rid, dom, document, names, uncut) && Used(s, p, used) && k < |names|
    requires p.subscription == NULL_HANDLE
    ensures var q := TakeSubscription(p, rid, ListenForClicks(Nth(p.held, k), c), cut);
            && Underway(s, q, rid, dom, document, names, uncut && !cut)
            && (q.going <==>
                  && p.going && uncut
                  && c.click.rootAlloc && c.click.accept && CanReserve(s.realm.subs, c.click.tableAlloc))
  {
    hide SiteOK, Names, Perform, Ask, OnTrack, PageIs, IsA, Live, Stage, TakeSubscription, CanReserve;
    var call := ListenForClicks(Nth(p.held, k), c);
    AliveStage(s, p, rid, dom, document, names);
    StageListen(s, p, rid, call, cut, dom, document, names);
    AskAnswers(p.site, rid, call, cut);
    Goes(p, rid, call, cut);
    if p.going && p.site.realm.alive {
      ListenerAnswers(p.site, rid, call);
      NamedIs(p.site, Nth(p.held, k), names[k]);
    }
  }

  // ----- the first two calls -----

  // Like CanIntern, after i more slots were taken.
  ghost predicate CanInternAfter(nodes: Table<NodePointer>, node: nat, i: nat, c: InternChoices) {
    || (exists h :: h in Live(nodes) && Live(nodes)[h].token.at == node && Live(nodes)[h].references < UINT32_MAX)
    || (!Rooted(nodes, node) && c.rootAlloc && HasRoomAfter(nodes, i, c.tableAlloc))
  }

  // Every other node than this one is rooted as before.
  ghost predicate SameBut(nodes: Table<NodePointer>, nodes': Table<NodePointer>, node: nat) {
    && (forall h :: h in Live(nodes') && Live(nodes')[h].token.at != node ==>
          h in Live(nodes) && Live(nodes)[h] == Live(nodes')[h])
    && (forall h :: h in Live(nodes) && Live(nodes)[h].token.at != node ==>
          h in Live(nodes') && Live(nodes')[h] == Live(nodes)[h])
  }

  lemma EdgeElsewhere(s: Site, s': Site, h: Handle, node: nat)
    requires OneMoreEdge(s, s', h, node)
    ensures SameBut(s.realm.nodes, s'.realm.nodes, node)
  {
    hide Live, TypeOf;
  }

  lemma InternLater(nodes: Table<NodePointer>, nodes': Table<NodePointer>, node: nat, k: nat, body: nat,
                    c: InternChoices)
    requires SameBut(nodes, nodes', node) && SlotsTaken(nodes, nodes', k) && body != node
    ensures CanIntern(nodes', body, c) <==> CanInternAfter(nodes, body, k, c)
    ensures SlotsFor(nodes', body) == SlotsFor(nodes, body)
  {
    hide Live, CanReserve, HasRoomAfter;
    RoomLeft(nodes, nodes', k, c.tableAlloc);
  }

  lemma InternNow(nodes: Table<NodePointer>, node: nat, c: InternChoices)
    ensures CanIntern(nodes, node, c) <==> CanInternAfter(nodes, node, 0, c)
  {
    hide Live, CanReserve, HasRoomAfter;
    RoomNow(nodes, c.tableAlloc);
  }

  lemma DocumentStep(s: Site, rid: nat, c: StartChoices, document: nat)
    requires SiteOK(s, rid) && s.realm.alive && s.realm.document == Some(document)
    ensures var q := TakeHandle(Progress(s, [], NULL_HANDLE, true), rid, WebDocument(c.document), c.cut == 0);
            && Underway(s, q, rid, s.blink.dom, document, [document], c.cut != 0)
            && Used(s, q, SlotsFor(s.realm.nodes, document))
            && (q.going <==> CanInternAfter(s.realm.nodes, document, 0, c.document))
            && (q.going && q.site.realm.alive ==> SameBut(s.realm.nodes, q.site.realm.nodes, document))
  {
    hide SiteOK, Names, Perform, Ask, OnTrack, PageIs, Live, Stage, TakeHandle, CanReserve, CanIntern, OneMoreEdge,
         CanInternAfter, SlotsTaken, SameBut, SlotsFor;
    var p := Progress(s, [], NULL_HANDLE, true);
    var call := WebDocument(c.document);
    StageDocument(s, rid, c, document);
    AliveExisting(s, rid);
    AskAnswers(s, rid, call, c.cut == 0);
    Goes(p, rid, call, c.cut == 0);
    DocumentAnswers(s, rid, c.document);
    InternNow(s.realm.nodes, document, c.document);
    TakesOneEdge(s, rid, call);
    DocumentTakes(s, rid, c.document);
    var r := Perform(s, rid, true, call);
    if r.status == Ok { EdgeElsewhere(s, r.site, r.handle, document); }
  }

  lemma AliveExisting(s: Site, rid: nat)
    requires SiteOK(s, rid) && s.realm.alive
    ensures !s.realm.freed
  {
    hide BlinkOK, Linked, Inv, Interned, Dead, Bare, Gone;
  }

  // A body that is another node than the document is interned as it would be without the
  // document, one slot later.
  lemma BodyStep(s: Site, p: Progress, rid: nat, c: StartChoices, document: nat, body: nat, uncut: bool, used: nat)
    requires Underway(s, p, rid, s.blink.dom, document, [document], uncut) && Used(s, p, used)
    requires document in s.blink.bodies && s.blink.bodies[document] == body
    requires p.going && p.site.realm.alive ==> SameBut(s.realm.nodes, p.site.realm.nodes, document)
    ensures var q := RequireLast(TakeHandle(p, rid, WebBody(Nth(p.held, 0), c.body), c.cut == 1));
            && Underway(s, q, rid, s.blink.dom, document, [document, body], uncut && c.cut != 1)
            && Used(s, q, used + if body == document then 0 else SlotsFor(s.realm.nodes, body))
            && (q.going ==>
                  && p.going && uncut && IsA(ClassOf(s.blink.dom, document), DocumentClass)
                  && (body != document ==> CanInternAfter(s.realm.nodes, body, used, c.body)))
            && (p.going && uncut && IsA(ClassOf(s.blink.dom, document), DocumentClass) && body != document
                && CanInternAfter(s.realm.nodes, body, used, c.body) ==>
                  q.going)
  {
    hide SiteOK, Names, Perform, Ask, OnTrack, PageIs, Live, Stage, TakeHandle, CanReserve, CanIntern, OneMoreEdge, IsA,
         CanInternAfter, SlotsTaken, SameBut, SlotsFor;
    var call := WebBody(Nth(p.held, 0), c.body);
    StageBody(s, p, rid, c, document, body);
    AliveStage(s, p, rid, s.blink.dom, document, [document]);
    AskAnswers(p.site, rid, call, c.cut == 1);
    Goes(p, rid, call, c.cut == 1);
    TakesOneEdge(p.site, rid, call);
    LastTaken(p, rid, call, c.cut == 1);
    if p.going && p.site.realm.alive {
      BodyAnswers(p.site, rid, Nth(p.held, 0), c.body);
      assert Names(p.site, Nth(p.held, 0), [document][0]);
      NamedIs(p.site, Nth(p.held, 0), document);
      BodyTakes(p.site, rid, Nth(p.held, 0), c.body, document);
      var r := Perform(p.site, rid, true, call);
      EdgeIsReal(p.site, r.site, r.handle, body);
      if body == document {
        RootedAlready(p.site.realm.nodes, document, Nth(p.held, 0));
        if r.status == Ok { TakenMore(s.realm.nodes, p.site.realm.nodes, r.site.realm.nodes, used, 0); }
      } else {
        InternLater(s.realm.nodes, p.site.realm.nodes, document, used, body, c.body);
        FewSlots(s.realm.nodes, body);
        if r.status == Ok {
          TakenMore(s.realm.nodes, p.site.realm.nodes, r.site.realm.nodes, used, SlotsFor(s.realm.nodes, body));
        }
      }
    }
  }

  lemma RootedAlready(nodes: Table<NodePointer>, node: nat, h: Handle)
    requires h in Live(nodes) && Live(nodes)[h].token.at == node
    ensures SlotsFor(nodes, node) == 0
  {
    hide Live;
  }

  lemma FewSlots(nodes: Table<NodePointer>, node: nat)
    ensures SlotsFor(nodes, node) <= 1
  {
    hide Live;
  }

  lemma LastTaken(p: Progress, rid: nat, call: Call, cut: bool)
    ensures var q := TakeHandle(p, rid, call, cut);
            && RequireLast(q).site == q.site
            && (RequireLast(q).going <==>
                  p.going && Ask(p.site, rid, call, cut).status == Ok
                  && Ask(p.site, rid, call, cut).handle.generation != 0)
  {
    hide Ask;
  }

  lemma EdgeIsReal(s: Site, s': Site, h: Handle, node: nat)
    ensures OneMoreEdge(s, s', h, node) ==> h.generation != 0
  {
    hide Live, TypeOf;
  }

  // ----- the page in between -----

  // A node below N stays below N on the way up.
  lemma {:induction false} ClimbBelow(dom: Dom, n: nat, steps: nat, bound: nat)
    requires n < bound && forall k: nat :: k < bound && Up(dom, k).Some? ==> Up(dom, k).value < bound
    ensures Climb(dom, n, steps).Some? ==> Climb(dom, n, steps).value < bound
  {
    if steps == 0 {
    } else {
      ClimbBelow(dom, n, steps - 1, bound);
    }
  }

  lemma NotAbove(dom: Dom, a: nat, n: nat, bound: nat)
    requires n < bound <= a && forall k: nat :: k < bound && Up(dom, k).Some? ==> Up(dom, k).value < bound
    ensures !Contains(dom, a, n)
  {
    hide Up;
    forall steps: nat ensures Climb(dom, n, steps) != Some(a) { ClimbBelow(dom, n, steps, bound); }
  }

  lemma ForestInside(dom: Dom)
    requires Forest(dom)
    ensures |dom.parent| == |dom.children| == |dom.data| == |dom.host| == |dom.classes|
    ensures forall k: nat :: k < |dom.classes| && Up(dom, k).Some? ==> Up(dom, k).value < |dom.classes|
  {
    var rank :| Ranked(dom, rank);
  }

  // The way up of older nodes is not touched by new elements or by appending those.
  lemma ElementUp(dom: Dom, c: ElementKind, text: string, k: nat)
    requires |dom.parent| == |dom.children| == |dom.data| == |dom.host| == |dom.classes| && text != ""
    requires k < |dom.classes| && (ParentOf(dom, k).Some? ==> ParentOf(dom, k).value < |dom.classes|)
    ensures Up(WithElement(dom, c, text), k) == Up(dom, k)
    ensures |WithElement(dom, c, text).host| == |WithElement(dom, c, text).classes|
  {
    Chain(c);
    hide IsA;
  }

  lemma AppendUp(dom: Dom, parent: nat, child: nat, k: nat)
    ensures k != child ==> Up(AppendedTo(dom, parent, child), k) == Up(dom, k)
  {
  }

  // Heading and button are elements of their class, without a parent until they are appended
  // and not above the body.
  lemma HeadingFree(dom: Dom, document: nat, body: nat, heading: ElementKind, button: ElementKind)
    requires Forest(dom) && body < |dom.classes| && document < |dom.classes|
    ensures var d1 := WithElement(dom, heading, HEADING_TEXT);
            var d2 := WithElement(d1, button, FIRST_TEXT);
            && ClassOf(d1, document) == ClassOf(dom, document) && ClassOf(d2, body) == ClassOf(dom, body)
            && ClassOf(d2, |dom.classes|) == heading && ParentOf(d2, |dom.classes|) == None
            && !Contains(d2, |dom.classes|, body)
  {
    hide Forest, IsA, WithElement, Contains, Up;
    ForestInside(dom);
    ParentsInside(dom);
    var d1 := WithElement(dom, heading, HEADING_TEXT);
    var d2 := WithElement(d1, button, FIRST_TEXT);
    ElementAdded(dom, heading, HEADING_TEXT);
    ElementAdded(d1, button, FIRST_TEXT);
    ElementUp(dom, heading, HEADING_TEXT, body);
    forall k: nat | k < |dom.classes| ensures Up(d2, k) == Up(dom, k) {
      ElementUp(dom, heading, HEADING_TEXT, k);
      ElementUp(d1, button, FIRST_TEXT, k);
    }
    NotAbove(d2, |dom.classes|, body, |dom.classes|);
  }

  lemma ButtonFree(dom: Dom, body: nat, heading: ElementKind, button: ElementKind)
    requires Forest(dom) && body < |dom.classes|
    ensures var h, b := |dom.classes|, |dom.classes| + 2;
            var d2 := WithElement(WithElement(dom, heading, HEADING_TEXT), button, FIRST_TEXT);
            var d3 := AppendedTo(d2, body, h);
            && |WithElement(dom, heading, HEADING_TEXT).classes| == b
            && ClassOf(d3, body) == ClassOf(dom, body) && ClassOf(d3, b) == button && ParentOf(d3, b) == None
            && !Contains(d3, b, body)
  {
    hide Forest, IsA, WithElement, AppendedTo, Contains, Up;
    ForestInside(dom);
    ParentsInside(dom);
    var h, b := |dom.classes|, |dom.classes| + 2;
    var d1 := WithElement(dom, heading, HEADING_TEXT);
    var d2 := WithElement(d1, button, FIRST_TEXT);
    ElementAdded(dom, heading, HEADING_TEXT);
    ElementAdded(d1, button, FIRST_TEXT);
    AddedLast(d2, body, h);
    var d3 := AppendedTo(d2, body, h);
    ElementUp(dom, heading, HEADING_TEXT, body);
    forall k: nat | k < |dom.classes| ensures Up(d3, k) == Up(dom, k) {
      ElementUp(dom, heading, HEADING_TEXT, k);
      ElementUp(d1, button, FIRST_TEXT, k);
      AppendUp(d2, body, h, k);
    }
    NotAbove(d3, b, body, |dom.classes|);
  }

  // ----- the nine calls -----

  // The slots that document and body take together.
  ghost function SlotsForBoth(nodes: Table<NodePointer>, document: nat, body: nat): nat {
    SlotsFor(nodes, document) + if body == document then 0 else SlotsFor(nodes, body)
  }

  // What the first four calls need, given the nodes' own conditions.
  ghost predicate HeadingNeeded(nodes: Table<NodePointer>, document: nat, body: nat, c: StartChoices) {
    && CanInternAfter(nodes, document, 0, c.document)
    && CanInternAfter(nodes, body, SlotsFor(nodes, document), c.body)
    && c.headingThrows.None? && c.heading.rootAlloc
    && HasRoomAfter(nodes, SlotsForBoth(nodes, document, body), c.heading.tableAlloc)
  }

  lemma HeadingStart(s: Site, rid: nat, c: StartChoices, document: nat, body: nat, cls: ElementKind)
    requires SiteOK(s, rid) && s.realm.alive && s.realm.document == Some(document)
    requires document in s.blink.bodies && s.blink.bodies[document] == body && c.headingClass == Some(cls)
    ensures var p := AcquireHeading(s, rid, c);
            && Underway(s, p, rid, WithElement(s.blink.dom, cls, HEADING_TEXT), document,
                        [document, body, |s.blink.dom.classes|], c.cut > 3)
            && Used(s, p, SlotsForBoth(s.realm.nodes, document, body) + 1)
            && p.subscription == NULL_HANDLE
            && (p.going ==> IsA(ClassOf(s.blink.dom, document), DocumentClass))
            && (body != document ==>
                  (p.going <==>
                  && IsA(ClassOf(s.blink.dom, document), DocumentClass)
                  && HeadingNeeded(s.realm.nodes, document, body, c)
                  && !IsA(cls, HTMLScriptElementClass) && c.cut >= 3))
  {
    hide OnTrack, PageIs, Stage, Ask, SiteOK, TakeHandle, TakeVoid, RequireLast, CreateElement, ReplaceText, Live, IsA,
         CanInternAfter, SlotsTaken, SameBut, SlotsFor, HasRoomAfter;
    var k1, k2 := SlotsFor(s.realm.nodes, document), SlotsForBoth(s.realm.nodes, document, body);
    DocumentStep(s, rid, c, document);
    HeadingBalanced(s, rid, c);
    var p1 := TakeHandle(Progress(s, [], NULL_HANDLE, true), rid, WebDocument(c.document), c.cut == 0);
    BodyStep(s, p1, rid, c, document, body, c.cut != 0, k1);
    var p2 := RequireLast(TakeHandle(p1, rid, WebBody(Nth(p1.held, 0), c.body), c.cut == 1));
    var call := CreateHeading(Nth(p2.held, 0), c);
    var names, h := [document, body], |s.blink.dom.classes|;
    ElementStep(s, p2, rid, call, c.cut == 2, s.blink.dom, document, names, cls, c.cut != 0 && c.cut != 1, k2);
    assert names + [h] == [document, body, h];
    CreatedDom(s.blink.dom, cls);
    var p3 := TakeHandle(p2, rid, call, c.cut == 2);
    TextStep(s, p3, rid, c.cut == 3, CreateElement(s.blink.dom, cls), document, [document, body, h], 2, HEADING_TEXT,
             c.cut > 2, k2 + 1);
  }

  lemma ButtonStart(s: Site, p4: Progress, rid: nat, c: StartChoices, dom: Dom, document: nat, body: nat, heading: nat,
                    cls: ElementKind, used: nat)
    requires Underway(s, p4, rid, dom, document, [document, body, heading], c.cut > 3) && Used(s, p4, used)
    requires p4.subscription == NULL_HANDLE && c.buttonClass == Some(cls)
    ensures var d2 := WithElement(dom, cls, FIRST_TEXT);
            var d3 := AppendedTo(d2, body, heading);
            AcquireButton(p4, rid, c).going <==>
              && p4.going && IsA(ClassOf(dom, document), DocumentClass)
              && c.buttonThrows.None? && c.button.rootAlloc && !IsA(cls, HTMLScriptElementClass)
              && HasRoomAfter(s.realm.nodes, used, c.button.tableAlloc)
              && c.click.rootAlloc && c.click.accept && CanReserve(s.realm.subs, c.click.tableAlloc) && c.cut >= 8
              && IsA(ClassOf(d2, body), ElementClass) && IsA(ClassOf(d2, heading), ElementClass)
              && ParentOf(d2, heading) == None && !Contains(d2, heading, body)
              && IsA(ClassOf(d3, body), ElementClass) && IsA(ClassOf(d3, |dom.classes|), ElementClass)
              && ParentOf(d3, |dom.classes|) == None && !Contains(d3, |dom.classes|, body)
  {
    hide OnTrack, PageIs, Stage, Ask, SiteOK, TakeHandle, TakeVoid, TakeSubscription, CreateElement, ReplaceText, IsA,
         AppendedTo, Contains, ParentOf, HasRoomAfter, SlotsTaken, CanReserve;
    var names := [document, body, heading, |dom.classes|];
    var call4 := CreateButton(Nth(p4.held, 0), c);
    ElementStep(s, p4, rid, call4, c.cut == 4, dom, document, [document, body, heading], cls, c.cut > 3, used);
    assert [document, body, heading] + [|dom.classes|] == names;
    CreatedDom(dom, cls);
    var p5 := TakeHandle(p4, rid, call4, c.cut == 4);
    SameSubscription(p4, rid, call4, c.cut == 4);
    TextStep(s, p5, rid, c.cut == 5, CreateElement(dom, cls), document, names, 3, FIRST_TEXT, c.cut > 4, used + 1);
    var p6 := TakeVoid(p5, rid, SetText(Nth(p5.held, 3), FIRST_TEXT), c.cut == 5);
    SameSubscription(p5, rid, SetText(Nth(p5.held, 3), FIRST_TEXT), c.cut == 5);
    var d2 := WithElement(dom, cls, FIRST_TEXT);
    ListenStep(s, p6, rid, c, c.cut == 6, d2, document, names, 3, c.cut > 5, used + 1);
    var p7 := TakeSubscription(p6, rid, ListenForClicks(Nth(p6.held, 3), c), c.cut == 6);
    AppendStep(s, p7, rid, c.cut == 7, d2, document, names, 1, 2, c.cut > 6);
    var p8 := TakeVoid(p7, rid, WebAppendChild(Nth(p7.held, 1), Nth(p7.held, 2)), c.cut == 7);
    AppendStep(s, p8, rid, c.cut == 8, AppendedTo(d2, body, heading), document, names, 1, 3, c.cut > 7);
  }

  lemma SameSubscription(p: Progress, rid: nat, call: Call, cut: bool)
    ensures TakeHandle(p, rid, call, cut).subscription == p.subscription
    ensures TakeVoid(p, rid, call, cut).subscription == p.subscription
  {
    hide Ask;
  }

  // What a start needs, all of it known before the first call or answered by Blink: a
  // document with a body element; both handles to be had; an element that is not a script
  // for each name, and no exception; memory for the roots and room in both tables; Blink
  // taking the listener; and no invalidation before the last call.
  ghost predicate Startable(s: Site, document: nat, c: StartChoices) {
    var nodes, b := s.realm.nodes, s.blink;
    && IsA(ClassOf(b.dom, document), DocumentClass)
    && document in b.bodies && IsA(ClassOf(b.dom, b.bodies[document]), ElementClass)
    && HeadingNeeded(nodes, document, b.bodies[document], c)
    && c.headingClass.Some? && c.headingClass.value != HTMLScriptElementClass
    && c.buttonThrows.None? && c.buttonClass.Some? && c.buttonClass.value != HTMLScriptElementClass
    && c.button.rootAlloc
    && HasRoomAfter(nodes, SlotsForBoth(nodes, document, b.bodies[document]) + 1, c.button.tableAlloc)
    && c.click.rootAlloc && c.click.accept && CanReserve(s.realm.subs, c.click.tableAlloc)
    && c.cut >= 8
  }

  // In any realm, whatever it holds, the counter starts if and only if it is idle, the realm
  // is alive and all of that holds.
  lemma StartsExactly(s: Site, rid: nat, counter: Counter, c: StartChoices)
    requires SiteOK(s, rid)
    ensures Start(s, rid, counter, c).success <==>
              && !counter.active && s.realm.alive
              && s.realm.document.Some? && Startable(s, s.realm.document.value, c)
  {
    hide SiteOK, Acquire, AcquireHeading, AcquireButton, Startable, ReleaseAll, DisposeIfLive;
    AliveHasDocument(s, rid);
    if !counter.active && s.realm.alive {
      AcquireIs(s, rid, c);
      AliveExisting(s, rid);
      AcquiresExactly(s, rid, c, s.realm.document.value);
    }
  }

  lemma AcquiresExactly(s: Site, rid: nat, c: StartChoices, document: nat)
    requires SiteOK(s, rid) && s.realm.alive && !s.realm.freed && s.realm.document == Some(document)
    ensures AcquireButton(AcquireHeading(s, rid, c), rid, c).going <==> Startable(s, document, c)
  {
    hide SiteOK, AcquireHeading, AcquireButton, Stage, OnTrack, WithElement, AppendedTo, IsA, Forest, Contains,
         ParentOf,
         HeadingNeeded, HasRoomAfter, SlotsForBoth, CanReserve, Used, Underway;
    var p4 := AcquireHeading(s, rid, c);
    HeadingNeeds(s, rid, c, document);
    HeadingBalanced(s, rid, c);
    TrackedSite(s, p4, rid);
    ClassPicked(p4, rid, c);
    if document in s.blink.bodies && c.headingClass.Some? && c.buttonClass.Some? {
      var body := s.blink.bodies[document];
      var heading, button := c.headingClass.value, c.buttonClass.value;
      SiteBounds(s, rid);
      SiteForest(s, rid);
      HeadingStart(s, rid, c, document, body, heading);
      ButtonStart(s, p4, rid, c, WithElement(s.blink.dom, heading, HEADING_TEXT), document, body,
                  |s.blink.dom.classes|, button, SlotsForBoth(s.realm.nodes, document, body) + 1);
      HeadingFree(s.blink.dom, document, body, heading, button);
      ButtonFree(s.blink.dom, body, heading, button);
      OnlyScripts(heading);
      OnlyScripts(button);
      Kinds(ClassOf(s.blink.dom, document));
    }
  }

  // No class inherits from the script element's, and no document is an element.
  lemma OnlyScripts(c: BlinkClass)
    ensures IsA(c, HTMLScriptElementClass) <==> c == HTMLScriptElementClass
  {
    Chain(c);
  }

  lemma Kinds(c: BlinkClass)
    ensures !(IsA(c, DocumentClass) && IsA(c, ElementClass))
  {
    Chain(c);
  }

  // ----- in a new realm -----

  // What that comes to in a realm as a host makes it: memory for four node roots, a listener's
  // root and the first slots of both tables, the only ones these nine calls have to allocate.
  ghost predicate Favourable(b: Blink, document: nat, c: StartChoices) {
    && IsA(ClassOf(b.dom, document), DocumentClass)
    && document in b.bodies && IsA(ClassOf(b.dom, b.bodies[document]), ElementClass)
    && c.document.rootAlloc && c.document.tableAlloc && c.body.rootAlloc
    && c.headingThrows.None? && c.headingClass.Some?
    && c.headingClass.value != HTMLScriptElementClass && c.heading.rootAlloc
    && c.buttonThrows.None? && c.buttonClass.Some?
    && c.buttonClass.value != HTMLScriptElementClass && c.button.rootAlloc
    && c.click.rootAlloc && c.click.accept && c.click.tableAlloc
    && c.cut >= 8
  }

  lemma StartsInNewRealm(b: Blink, roots: Roots, rid: nat, document: nat, dispatch: bool, counter: Counter,
                         c: StartChoices)
    requires SiteOK(Site(NewRealm(document, dispatch), b, roots), rid)
    ensures Start(Site(NewRealm(document, dispatch), b, roots), rid, counter, c).success <==>
              !counter.active && Favourable(b, document, c)
  {
    var s := Site(NewRealm(document, dispatch), b, roots);
    hide SiteOK, Start, HeadingNeeded, HasRoomAfter, SlotsForBoth, CanReserve, IsA;
    StartsExactly(s, rid, counter, c);
    EmptySubs(c.click.tableAlloc);
    Kinds(ClassOf(b.dom, document));
    if document in b.bodies && b.bodies[document] != document {
      EmptyNodes(document, b.bodies[document], c);
    }
  }

  lemma EmptySubs(alloc: bool)
    ensures CanReserve(Empty<RootPointer>(true), alloc) <==> alloc
  {
  }

  lemma EmptyNodes(document: nat, body: nat, c: StartChoices)
    requires body != document
    ensures var nodes := Empty<NodePointer>(true);
            && SlotsForBoth(nodes, document, body) == 2
            && HasRoomAfter(nodes, 3, c.button.tableAlloc)
            && (HeadingNeeded(nodes, document, body, c) <==>
                  && c.document.rootAlloc && c.document.tableAlloc && c.body.rootAlloc
                  && c.headingThrows.None? && c.heading.rootAlloc)
  {
    assert Live(Empty<NodePointer>(true)) == map[];
    FirstCapacity(1);
    FirstCapacity(2);
    FirstCapacity(3);
    hide Live, CapacityFor;
    assert CapacityFor(0) == 0 by { NoCapacity(); }
  }

  lemma NoCapacity()
    ensures CapacityFor(0) == 0
  {
  }

  lemma {:induction false} FirstCapacity(n: nat)
    requires 1 <= n <= 16
    ensures CapacityFor(n) == 16
  {
    if n == 1 {
      assert CapacityFor(0) == 0;
    } else {
      FirstCapacity(n - 1);
    }
  }
}
