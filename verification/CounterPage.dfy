/** What a successful start of the counter leaves on the page: the heading and then the
    button at the end of the body, each with one text node, and nothing else moved. */
module CounterPage {
  import opened Abi
  import opened Heaps
  import opened TableSpec
  import opened TableInvariant
  import opened HandleMap
  import opened TableLaws
  import opened WebTypes
  import opened Doms
  import opened Bridge
  import opened BridgeInvariant
  import opened SiteLaws
  import opened Counters
  import opened CapsuleLaws
  import opened CounterText

  // ----- what a call leaves of the page's data -----

  lemma {:induction false} CancelAllPage(b: Blink, roots: seq<Root>, rid: nat)
    ensures CancelAll(b, roots, rid).dom == b.dom && CancelAll(b, roots, rid).bodies == b.bodies
    decreases |roots|
  {
    if roots == [] {
    } else {
      CancelAllPage(CancelRoot(b, roots[0], rid), roots[1..], rid);
    }
  }

  lemma {:induction false} DropAllPage(b: Blink, nodes: seq<nat>, rid: nat)
    ensures DropAll(b, nodes, rid).dom == b.dom && DropAll(b, nodes, rid).bodies == b.bodies
    decreases |nodes|
  {
    if nodes == [] {
    } else {
      DropAllPage(Log(b, DroppedNode(rid, nodes[0])), nodes[1..], rid);
    }
  }

  lemma InvalidatePage(s: Site, rid: nat)
    ensures InvalidateRealm(s, rid).blink.dom == s.blink.dom && InvalidateRealm(s, rid).blink.bodies == s.blink.bodies
  {
    hide InvalidationCalls, Invalidate, CancelAll, DropAll;
    var b0 := Log(s.blink, Effect.Invalidated(rid));
    CancelAllPage(b0, Ats(InvalidationCalls(s.realm.subs)), rid);
    DropAllPage(CancelAll(b0, Ats(InvalidationCalls(s.realm.subs)), rid), Ats(InvalidationCalls(s.realm.nodes)), rid);
  }

  lemma PerformBodies(s: Site, rid: nat, call: Call)
    ensures Perform(s, rid, true, call).site.blink.bodies == s.blink.bodies
  {
    hide ResolveNode, Intern, TableSpec.Retain, TableSpec.Release, Insert, AppendGuard, Matches, IsA;
  }

  lemma AskPage(s: Site, rid: nat, call: Call, cut: bool)
    ensures Ask(s, rid, call, cut).site.blink.dom == Perform(s, rid, true, call).site.blink.dom
    ensures Ask(s, rid, call, cut).site.blink.bodies == s.blink.bodies
  {
    PerformBodies(s, rid, call);
    InvalidatePage(Perform(s, rid, true, call).site, rid);
    hide Perform, InvalidateRealm;
  }

  lemma {:induction false} ReleaseAllPage(s: Site, rid: nat, held: seq<Handle>)
    ensures ReleaseAll(s, rid, held).blink.dom == s.blink.dom
    decreases |held|
  {
    if held == [] {
    } else {
      ReleasePage(s, rid, held[|held| - 1]);
      hide ReleaseIfLive;
      ReleaseAllPage(ReleaseIfLive(s, rid, held[|held| - 1]), rid, held[..|held| - 1]);
    }
  }

  lemma ReleasePage(s: Site, rid: nat, h: Handle)
    ensures ReleaseIfLive(s, rid, h).blink.dom == s.blink.dom
  {
    hide TableSpec.Release, Matches;
  }

  // ----- handles keep their nodes -----

  lemma NamesPersist(s: Site, rid: nat, call: Call, h: Handle, n: nat)
    requires SiteOK(s, rid) && !s.realm.freed && Names(s, h, n)
    requires TakesNode(call) || call.WebSetTextContent? || call.WebAppendChild? || call.WebAddEventListener?
    ensures Names(Perform(s, rid, true, call).site, h, n)
  {
    hide SiteOK, Live, Perform;
    if TakesNode(call) {
      TakesOneEdge(s, rid, call);
    } else if call.WebAddEventListener? {
      ListenerTakesOneSub(s, rid, call);
    } else {
      VoidCallsTakeNothing(s, rid, call);
    }
  }

  // While the start is going its handles name these nodes, and the tree is this one.
  ghost predicate PageIs(p: Progress, b0: Blink, dom: Dom, document: nat, names: seq<nat>) {
    p.going ==>
      && p.site.blink.dom == dom && p.site.blink.bodies == b0.bodies
      && |p.held| == |names|
      && (p.site.realm.alive ==>
            && p.site.realm.document == Some(document)
            && forall k :: 0 <= k < |names| ==> Names(p.site, p.held[k], names[k]))
  }

  // A call that was answered Ok found the realm alive, and its site still has the names.
  lemma Answered(s: Site, rid: nat, call: Call, cut: bool)
    requires SiteOK(s, rid) && !s.realm.freed && Ask(s, rid, call, cut).status == Ok
    ensures var r := Ask(s, rid, call, cut);
            && s.realm.alive && r.status == Perform(s, rid, true, call).status
            && r.handle == Perform(s, rid, true, call).handle
            && r.site.blink.dom == Perform(s, rid, true, call).site.blink.dom
            && r.site.blink.bodies == s.blink.bodies
            && (r.site.realm.alive ==> r == Perform(s, rid, true, call) && r.site.realm.document == s.realm.document)
  {
    hide SiteOK, Perform, Follows, InvalidateRealm, Touches;
    AskPage(s, rid, call, cut);
    AskFollows(s, rid, call, cut);
    PerformKeeps(s, rid, true, call);
    if !s.realm.alive { Gated(s, rid, true, call); }
  }

  lemma TakenPage(s0: Site, p: Progress, rid: nat, call: Call, cut: bool, dom: Dom, dom': Dom, document: nat,
                  names: seq<nat>, node: nat)
    requires OnTrack(s0, p, rid) && PageIs(p, s0.blink, dom, document, names) && TakesNode(call)
    requires p.going && p.site.realm.alive && Perform(p.site, rid, true, call).status == Ok ==>
               var r := Perform(p.site, rid, true, call);
               r.site.blink.dom == dom' && (r.handle.generation != 0 ==> Names(r.site, r.handle, node))
    ensures PageIs(RequireLast(TakeHandle(p, rid, call, cut)), s0.blink, dom', document, names + [node])
    ensures !call.WebBody? ==> PageIs(TakeHandle(p, rid, call, cut), s0.blink, dom', document, names + [node])
  {
    hide SiteOK, Perform, Names, Touches, Balanced, Ask;
    var q := TakeHandle(p, rid, call, cut);
    if q.going {
      Answered(p.site, rid, call, cut);
      if !call.WebBody? { NeverNull(p.site, rid, call); }
      if q.site.realm.alive {
        forall k | 0 <= k < |names| ensures Names(q.site, q.held[k], names[k]) {
          NamesPersist(p.site, rid, call, p.held[k], names[k]);
        }
      }
    }
  }

  // Only a missing body is answered with the null handle.
  lemma NeverNull(s: Site, rid: nat, call: Call)
    requires SiteOK(s, rid) && !s.realm.freed && (call.WebDocument? || call.WebCreateElement?)
    ensures Perform(s, rid, true, call).status == Ok ==> Perform(s, rid, true, call).handle.generation != 0
  {
    if s.realm.alive {
      SiteInterned(s, rid);
      SiteForest(s, rid);
      Opened(s, rid, call);
      hide SiteOK, Inv, Interned, Perform, Intern, ResolveNode, CreateElement, Forest, Live, IsA;
      match call
      case WebDocument(c) => ReplyNames(s, rid, s.realm.document.value, c);
      case WebCreateElement(_, _, _, cls, c) =>
        if cls.Some? {
          NewNode(s.blink.dom, cls.value);
          InternedGrows(s.realm.nodes, s.blink.dom, CreateElement(s.blink.dom, cls.value));
          InternNames(s.realm.nodes, s.roots, rid, CreateElement(s.blink.dom, cls.value), |s.blink.dom.classes|, c);
        }
    } else {
      Gated(s, rid, true, call);
    }
  }

  lemma VoidPage(s0: Site, p: Progress, rid: nat, call: Call, cut: bool, dom: Dom, dom': Dom, document: nat,
                 names: seq<nat>)
    requires OnTrack(s0, p, rid) && PageIs(p, s0.blink, dom, document, names)
    requires call.WebSetTextContent? || call.WebAppendChild?
    requires p.going && p.site.realm.alive && Perform(p.site, rid, true, call).status == Ok ==>
               Perform(p.site, rid, true, call).site.blink.dom == dom'
    ensures PageIs(TakeVoid(p, rid, call, cut), s0.blink, dom', document, names)
  {
    hide SiteOK, Perform, Names, Touches, Balanced, Ask;
    var q := TakeVoid(p, rid, call, cut);
    if q.going {
      Answered(p.site, rid, call, cut);
      if q.site.realm.alive {
        forall k | 0 <= k < |names| ensures Names(q.site, q.held[k], names[k]) {
          NamesPersist(p.site, rid, call, p.held[k], names[k]);
        }
      }
    }
  }

  lemma ListenPage(s0: Site, p: Progress, rid: nat, call: Call, cut: bool, dom: Dom, document: nat, names: seq<nat>)
    requires OnTrack(s0, p, rid) && PageIs(p, s0.blink, dom, document, names) && call.WebAddEventListener?
    ensures PageIs(TakeSubscription(p, rid, call, cut), s0.blink, dom, document, names)
  {
    hide SiteOK, Perform, Names, Touches, Balanced, Ask;
    var q := TakeSubscription(p, rid, call, cut);
    if q.going {
      Answered(p.site, rid, call, cut);
      ListenerDom(p.site, rid, call);
      if q.site.realm.alive {
        forall k | 0 <= k < |names| ensures Names(q.site, q.held[k], names[k]) {
          NamesPersist(p.site, rid, call, p.held[k], names[k]);
        }
      }
    }
  }

  lemma ListenerDom(s: Site, rid: nat, call: Call)
    requires call.WebAddEventListener?
    ensures Perform(s, rid, true, call).site.blink.dom == s.blink.dom
  {
    hide ResolveNode, Insert;
  }

  // ----- what the calls do to the tree, given what their handles name -----

  lemma BodyIs(s: Site, rid: nat, h: Handle, c: InternChoices, document: nat)
    requires SiteOK(s, rid) && s.realm.alive && Names(s, h, document)
    ensures var r := Perform(s, rid, true, WebBody(h, c));
            r.status == Ok ==>
              && r.site.blink.dom == s.blink.dom
              && (r.handle.generation != 0 ==>
                    document in s.blink.bodies && Names(r.site, r.handle, s.blink.bodies[document]))
  {
    BodyNamed(s, rid, h, c);
    BodyDom(s, rid, h, c);
    hide SiteOK, Perform, Live, IsA;
  }

  lemma BodyDom(s: Site, rid: nat, h: Handle, c: InternChoices)
    ensures Perform(s, rid, true, WebBody(h, c)).site.blink.dom == s.blink.dom
    ensures Perform(s, rid, true, WebDocument(c)).site.blink.dom == s.blink.dom
  {
    hide ResolveNode, Intern;
  }

  lemma TextIs(s: Site, rid: nat, h: Handle, text: string, n: nat)
    requires SiteOK(s, rid) && s.realm.alive && Names(s, h, n)
    ensures var r := Perform(s, rid, true, SetText(h, text));
            r.status == Ok ==> r.site.blink.dom == ReplaceText(s.blink.dom, n, text)
  {
    Opened(s, rid, SetText(h, text));
    ResolvesNode(s, rid, h);
    hide SiteOK, Perform, Names, ResolveNode, IsA, ReplaceText;
  }

  lemma AppendIs(s: Site, rid: nat, parent: Handle, child: Handle, p: nat, c: nat)
    requires SiteOK(s, rid) && s.realm.alive && Names(s, parent, p) && Names(s, child, c)
    ensures var r := Perform(s, rid, true, WebAppendChild(parent, child));
            r.status == Ok ==> r.site.blink.dom == AppendedTo(s.blink.dom, p, c)
  {
    Opened(s, rid, WebAppendChild(parent, child));
    ResolvesNode(s, rid, parent);
    ResolvesNode(s, rid, child);
    hide SiteOK, Perform, Names, ResolveNode, AppendGuard;
  }

  function AppendedTo(dom: Dom, parent: nat, child: nat): Dom {
    if parent < |dom.children| && child < |dom.parent| then AppendChild(dom, parent, child) else dom
  }

  // ----- stages of a start -----

  ghost predicate Stage(s: Site, p: Progress, rid: nat, dom: Dom, document: nat, names: seq<nat>) {
    OnTrack(s, p, rid) && PageIs(p, s.blink, dom, document, names)
  }

  lemma AliveStage(s: Site, p: Progress, rid: nat, dom: Dom, document: nat, names: seq<nat>)
    requires Stage(s, p, rid, dom, document, names)
    ensures SiteOK(p.site, rid) && !p.site.realm.freed
    ensures p.going ==> p.site.blink.dom == dom && p.site.blink.bodies == s.blink.bodies && |p.held| == |names|
    ensures p.going && p.site.realm.alive ==>
              p.site.realm.document == Some(document)
              && forall k :: 0 <= k < |names| ==> Names(p.site, Nth(p.held, k), names[k])
  {
    hide SiteOK, Touches, Balanced, Names;
  }

  lemma StageDocument(s: Site, rid: nat, c: StartChoices, document: nat)
    requires SiteOK(s, rid) && s.realm.alive && s.realm.document == Some(document)
    ensures var p1 := TakeHandle(Progress(s, [], NULL_HANDLE, true), rid, WebDocument(c.document), c.cut == 0);
            Stage(s, p1, rid, s.blink.dom, document, [document])
  {
    var p0 := Progress(s, [], NULL_HANDLE, true);
    var call0 := WebDocument(c.document);
    BeginOnTrack(s, rid);
    DocumentNamed(s, rid, c.document);
    BodyDom(s, rid, NULL_HANDLE, c.document);
    hide OnTrack, Ask, SiteOK, Names, Perform, TakeHandle;
    TakenPage(s, p0, rid, call0, c.cut == 0, s.blink.dom, s.blink.dom, document, [], document);
    assert [] + [document] == [document];
    TakeHandleKeeps(s, p0, rid, call0, c.cut == 0);
  }

  lemma GoesOn(p: Progress, rid: nat, call: Call, cut: bool)
    ensures RequireLast(TakeHandle(p, rid, call, cut)).going ==>
              p.going && Ask(p.site, rid, call, cut).status == Ok && Ask(p.site, rid, call, cut).handle.generation != 0
  {
    hide Ask;
  }

  // The start goes on only if there is a body.
  lemma NeedsBody(s: Site, p: Progress, rid: nat, c: StartChoices, document: nat)
    requires Stage(s, p, rid, s.blink.dom, document, [document])
    ensures RequireLast(TakeHandle(p, rid, WebBody(Nth(p.held, 0), c.body), c.cut == 1)).going ==>
              document in s.blink.bodies
  {
    var call := WebBody(Nth(p.held, 0), c.body);
    hide SiteOK, Perform, Ask, Stage, PageIs, OnTrack, Names, Live, InvalidateRealm, TakeHandle, RequireLast;
    AliveStage(s, p, rid, s.blink.dom, document, [document]);
    GoesOn(p, rid, call, c.cut == 1);
    if p.going && Ask(p.site, rid, call, c.cut == 1).status == Ok {
      Answered(p.site, rid, call, c.cut == 1);
      assert Names(p.site, Nth(p.held, 0), [document][0]);
      BodyIs(p.site, rid, Nth(p.held, 0), c.body, document);
    }
  }

  lemma BodyOnTrack(s: Site, p: Progress, rid: nat, call: Call, cut: bool)
    requires OnTrack(s, p, rid) && call.WebBody?
    ensures OnTrack(s, RequireLast(TakeHandle(p, rid, call, cut)), rid)
  {
    hide OnTrack, TakeHandle;
    TakeHandleKeeps(s, p, rid, call, cut);
    SameBooks(s, TakeHandle(p, rid, call, cut), RequireLast(TakeHandle(p, rid, call, cut)), rid);
  }

  lemma StageBody(s: Site, p: Progress, rid: nat, c: StartChoices, document: nat, body: nat)
    requires Stage(s, p, rid, s.blink.dom, document, [document])
    requires document in s.blink.bodies && s.blink.bodies[document] == body
    ensures var q := RequireLast(TakeHandle(p, rid, WebBody(Nth(p.held, 0), c.body), c.cut == 1));
            Stage(s, q, rid, s.blink.dom, document, [document, body])
  {
    var call := WebBody(Nth(p.held, 0), c.body);
    hide SiteOK, Names, Perform, TakeHandle, RequireLast, OnTrack, PageIs, Live;
    AliveStage(s, p, rid, s.blink.dom, document, [document]);
    if p.going && p.site.realm.alive {
      assert Names(p.site, Nth(p.held, 0), [document][0]);
      BodyIs(p.site, rid, Nth(p.held, 0), c.body, document);
    }
    BodyOnTrack(s, p, rid, call, c.cut == 1);
    TakenPage(s, p, rid, call, c.cut == 1, s.blink.dom, s.blink.dom, document, [document], body);
    assert [document] + [body] == [document, body];
  }

  // A new element.
  lemma StageElement(s: Site, p: Progress, rid: nat, call: Call, cut: bool, dom: Dom, document: nat, names: seq<nat>,
                     cls: ElementKind)
    requires Stage(s, p, rid, dom, document, names) && call.WebCreateElement? && call.elementClass == Some(cls)
    ensures Stage(s, TakeHandle(p, rid, call, cut), rid, CreateElement(dom, cls), document, names + [|dom.classes|])
  {
    AliveStage(s, p, rid, dom, document, names);
    TakeHandleKeeps(s, p, rid, call, cut);
    if p.going && p.site.realm.alive { ElementNamed(p.site, rid, call); }
    hide SiteOK, Names, Perform, TakeHandle, OnTrack, PageIs, CreateElement;
    TakenPage(s, p, rid, call, cut, dom, CreateElement(dom, cls), document, names, |dom.classes|);
  }

  lemma ClassChosen(p: Progress, rid: nat, call: Call, cut: bool)
    requires SiteOK(p.site, rid) && !p.site.realm.freed && call.WebCreateElement?
    ensures TakeHandle(p, rid, call, cut).going ==> p.going && call.elementClass.Some?
  {
    hide SiteOK, Perform, Ask, Names, CreateElement;
    if p.going && Ask(p.site, rid, call, cut).status == Ok {
      Answered(p.site, rid, call, cut);
      ElementNamed(p.site, rid, call);
    }
  }

  lemma StageText(s: Site, p: Progress, rid: nat, cut: bool, dom: Dom, document: nat, names: seq<nat>, k: nat,
                  text: string)
    requires Stage(s, p, rid, dom, document, names) && k < |names|
    ensures var q := TakeVoid(p, rid, SetText(Nth(p.held, k), text), cut);
            Stage(s, q, rid, ReplaceText(dom, names[k], text), document, names) && (q.going ==> p.going)
  {
    var call := SetText(Nth(p.held, k), text);
    AliveStage(s, p, rid, dom, document, names);
    TakeVoidKeeps(s, p, rid, call, cut);
    if p.going && p.site.realm.alive { TextIs(p.site, rid, Nth(p.held, k), text, names[k]); }
    hide SiteOK, Names, Perform, Ask, OnTrack, PageIs, ReplaceText;
    VoidPage(s, p, rid, call, cut, dom, ReplaceText(dom, names[k], text), document, names);
  }

  lemma StageAppend(s: Site, p: Progress, rid: nat, cut: bool, dom: Dom, document: nat, names: seq<nat>, j: nat, k: nat)
    requires Stage(s, p, rid, dom, document, names) && j < |names| && k < |names|
    ensures var q := TakeVoid(p, rid, WebAppendChild(Nth(p.held, j), Nth(p.held, k)), cut);
            Stage(s, q, rid, AppendedTo(dom, names[j], names[k]), document, names) && (q.going ==> p.going)
  {
    var call := WebAppendChild(Nth(p.held, j), Nth(p.held, k));
    AliveStage(s, p, rid, dom, document, names);
    TakeVoidKeeps(s, p, rid, call, cut);
    if p.going && p.site.realm.alive { AppendIs(p.site, rid, Nth(p.held, j), Nth(p.held, k), names[j], names[k]); }
    hide SiteOK, Names, Perform, Ask, OnTrack, PageIs, AppendedTo;
    VoidPage(s, p, rid, call, cut, dom, AppendedTo(dom, names[j], names[k]), document, names);
  }

  lemma StageListen(s: Site, p: Progress, rid: nat, call: Call, cut: bool, dom: Dom, document: nat, names: seq<nat>)
    requires Stage(s, p, rid, dom, document, names) && call.WebAddEventListener? && p.subscription == NULL_HANDLE
    ensures var q := TakeSubscription(p, rid, call, cut);
            Stage(s, q, rid, dom, document, names) && (q.going ==> p.going)
  {
    TakeSubscriptionKeeps(s, p, rid, call, cut);
    hide SiteOK, Names, Perform, Ask, OnTrack, PageIs;
    ListenPage(s, p, rid, call, cut, dom, document, names);
  }

  // ----- the whole start -----

  function WithElement(dom: Dom, c: BlinkClass, text: string): Dom {
    ReplaceText(CreateElement(dom, c), |dom.classes|, text)
  }

  // The page as a start builds it.
  function Built(dom: Dom, body: nat, heading: BlinkClass, button: BlinkClass): Dom {
    var d1 := WithElement(dom, heading, HEADING_TEXT);
    var d2 := WithElement(d1, button, FIRST_TEXT);
    AppendedTo(AppendedTo(d2, body, |dom.classes|), body, |d1.classes|)
  }

  lemma HeadingPage(s: Site, rid: nat, c: StartChoices, document: nat, body: nat, cls: ElementKind)
    requires SiteOK(s, rid) && s.realm.alive && s.realm.document == Some(document)
    requires document in s.blink.bodies && s.blink.bodies[document] == body && c.headingClass == Some(cls)
    ensures Stage(s, AcquireHeading(s, rid, c), rid, WithElement(s.blink.dom, cls, HEADING_TEXT), document,
                  [document, body, |s.blink.dom.classes|])
  {
    hide OnTrack, PageIs, Stage, Ask, SiteOK, TakeHandle, TakeVoid, RequireLast, CreateElement, ReplaceText;
    StageDocument(s, rid, c, document);
    var p1 := TakeHandle(Progress(s, [], NULL_HANDLE, true), rid, WebDocument(c.document), c.cut == 0);
    StageBody(s, p1, rid, c, document, body);
    var p2 := RequireLast(TakeHandle(p1, rid, WebBody(Nth(p1.held, 0), c.body), c.cut == 1));
    var call := CreateHeading(Nth(p2.held, 0), c);
    var names, h := [document, body], |s.blink.dom.classes|;
    StageElement(s, p2, rid, call, c.cut == 2, s.blink.dom, document, names, cls);
    StageText(s, TakeHandle(p2, rid, call, c.cut == 2), rid, c.cut == 3, CreateElement(s.blink.dom, cls), document,
              names + [h], 2, HEADING_TEXT);
    assert names + [h] == [document, body, h];
  }

  // A start that gets past the heading found a body and got an element.
  lemma HeadingNeeds(s: Site, rid: nat, c: StartChoices, document: nat)
    requires SiteOK(s, rid) && s.realm.alive && s.realm.document == Some(document)
    ensures AcquireHeading(s, rid, c).going ==> document in s.blink.bodies && c.headingClass.Some?
  {
    hide OnTrack, PageIs, Stage, Ask, SiteOK, TakeHandle, TakeVoid, RequireLast;
    StageDocument(s, rid, c, document);
    var p1 := TakeHandle(Progress(s, [], NULL_HANDLE, true), rid, WebDocument(c.document), c.cut == 0);
    NeedsBody(s, p1, rid, c, document);
    var q := TakeHandle(p1, rid, WebBody(Nth(p1.held, 0), c.body), c.cut == 1);
    var p2 := RequireLast(q);
    SoundAfterBody(s, p1, rid, c, document);
    var call := CreateHeading(Nth(p2.held, 0), c);
    ClassChosen(p2, rid, call, c.cut == 2);
    var p3 := TakeHandle(p2, rid, call, c.cut == 2);
    StopsVoid(p3, rid, SetText(Nth(p3.held, 2), HEADING_TEXT), c.cut == 3);
  }

  lemma SoundAfterBody(s: Site, p: Progress, rid: nat, c: StartChoices, document: nat)
    requires Stage(s, p, rid, s.blink.dom, document, [document])
    ensures var q := RequireLast(TakeHandle(p, rid, WebBody(Nth(p.held, 0), c.body), c.cut == 1));
            SiteOK(q.site, rid) && !q.site.realm.freed
  {
    hide SiteOK, Perform, TakeHandle, PageIs, Balanced, Touches;
    TakeHandleKeeps(s, p, rid, WebBody(Nth(p.held, 0), c.body), c.cut == 1);
  }

  lemma StopsVoid(p: Progress, rid: nat, call: Call, cut: bool)
    ensures TakeVoid(p, rid, call, cut).going ==> p.going
  {
    hide Ask;
  }

  lemma ButtonPage(s: Site, p4: Progress, rid: nat, c: StartChoices, dom: Dom, document: nat, body: nat, heading: nat,
                   cls: ElementKind)
    requires Stage(s, p4, rid, dom, document, [document, body, heading]) && p4.subscription == NULL_HANDLE
    requires c.buttonClass == Some(cls)
    ensures var p := AcquireButton(p4, rid, c);
            p.going ==>
              && p.site.blink.dom ==
                 AppendedTo(AppendedTo(WithElement(dom, cls, FIRST_TEXT), body, heading), body, |dom.classes|)
              && (p.site.realm.alive ==> Names(p.site, Nth(p.held, 3), |dom.classes|))
  {
    hide OnTrack, PageIs, Ask, SiteOK, CreateElement, ReplaceText, AppendedTo, Stage, AcquireButton;
    var names := [document, body, heading, |dom.classes|];
    var call4 := CreateButton(Nth(p4.held, 0), c);
    StageElement(s, p4, rid, call4, c.cut == 4, dom, document, [document, body, heading], cls);
    assert [document, body, heading] + [|dom.classes|] == names;
    ButtonStages(s, p4, TakeHandle(p4, rid, call4, c.cut == 4), rid, c, dom, document, names, cls);
    AliveStage(s, AcquireButton(p4, rid, c), rid,
               AppendedTo(AppendedTo(WithElement(dom, cls, FIRST_TEXT), body, heading), body, |dom.classes|), document,
               names);
  }

  lemma ButtonStages(s: Site, p4: Progress, p5: Progress, rid: nat, c: StartChoices, dom: Dom, document: nat,
                     names: seq<nat>, cls: ElementKind)
    requires |names| == 4 && c.buttonClass == Some(cls) && p5.subscription == NULL_HANDLE
    requires p5 == TakeHandle(p4, rid, CreateButton(Nth(p4.held, 0), c), c.cut == 4)
    requires Stage(s, p5, rid, CreateElement(dom, cls), document, names) && names[3] == |dom.classes|
    ensures var p := AcquireButton(p4, rid, c);
            Stage(s, p, rid,
                  AppendedTo(AppendedTo(WithElement(dom, cls, FIRST_TEXT), names[1], names[2]), names[1], names[3]),
                  document, names)
  {
    hide OnTrack, PageIs, Ask, SiteOK, CreateElement, ReplaceText, AppendedTo, Stage, TakeHandle, TakeSubscription;
    StageText(s, p5, rid, c.cut == 5, CreateElement(dom, cls), document, names, 3, FIRST_TEXT);
    var p6 := TakeVoid(p5, rid, SetText(Nth(p5.held, 3), FIRST_TEXT), c.cut == 5);
    var call6 := ListenForClicks(Nth(p6.held, 3), c);
    var d := WithElement(dom, cls, FIRST_TEXT);
    StageListen(s, p6, rid, call6, c.cut == 6, d, document, names);
    var p7 := TakeSubscription(p6, rid, call6, c.cut == 6);
    StageAppend(s, p7, rid, c.cut == 7, d, document, names, 1, 2);
    var p8 := TakeVoid(p7, rid, WebAppendChild(Nth(p7.held, 1), Nth(p7.held, 2)), c.cut == 7);
    StageAppend(s, p8, rid, c.cut == 8, AppendedTo(d, names[1], names[2]), document, names, 1, 3);
  }

  // What the page then is: heading and button are new, last in the body in this order, each
  // holding one text node, with the heading's text and "Count: 0"; no other node moved.
  lemma BuiltPage(dom: Dom, body: nat, heading: ElementKind, button: ElementKind)
    requires Forest(dom) && body < |dom.classes|
    ensures var d := Built(dom, body, heading, button);
            var h, b := |dom.classes|, |dom.classes| + 2;
            && |d.parent| == |d.children| == |d.classes|
            && d.classes == dom.classes + [heading, CharacterData, button, CharacterData]
            && d.data == dom.data + ["", "Native TypeScript", "", "Count: 0"]
            && d.children[body] == dom.children[body] + [h, b]
            && d.children[h] == [h + 1] && d.children[b] == [b + 1]
            && (forall k: nat :: k < |dom.classes| && k != body ==> d.children[k] == dom.children[k])
  {
    hide Forest, IsA, AppendedTo, WithElement, ParentOf;
    BuiltInOrder(dom, body, heading, button);
    var d1 := WithElement(dom, heading, HEADING_TEXT);
    var d2 := WithElement(d1, button, FIRST_TEXT);
    ElementAdded(dom, heading, HEADING_TEXT);
    ElementAdded(d1, button, FIRST_TEXT);
    AddedLast(d2, body, |dom.classes|);
    AddedLast(AppendedTo(d2, body, |dom.classes|), body, |d1.classes|);
  }

  lemma BuiltParents(dom: Dom, body: nat, heading: ElementKind, button: ElementKind)
    requires Forest(dom) && body < |dom.classes|
    ensures var d := Built(dom, body, heading, button);
            var h, b := |dom.classes|, |dom.classes| + 2;
            && ParentOf(d, h) == Some(body) && ParentOf(d, b) == Some(body)
            && ParentOf(d, h + 1) == Some(h) && ParentOf(d, b + 1) == Some(b)
            && (forall k: nat :: k < |dom.classes| ==> ParentOf(d, k) == ParentOf(dom, k))
  {
    ParentsInside(dom);
    hide Forest, IsA, AppendedTo, WithElement, ParentOf;
    var d1 := WithElement(dom, heading, HEADING_TEXT);
    var d2 := WithElement(d1, button, FIRST_TEXT);
    ElementAdded(dom, heading, HEADING_TEXT);
    ElementAdded(d1, button, FIRST_TEXT);
    var d3 := AppendedTo(d2, body, |dom.classes|);
    AddedLast(d2, body, |dom.classes|);
    AddedLast(d3, body, |d1.classes|);
    forall k: nat | k < |dom.classes|
      ensures ParentOf(AppendedTo(d3, body, |d1.classes|), k) == ParentOf(dom, k)
    {
      assert ParentOf(d3, k) == ParentOf(d2, k) == ParentOf(d1, k) == ParentOf(dom, k);
    }
  }

  lemma ParentsInside(dom: Dom)
    requires Forest(dom)
    ensures |dom.parent| == |dom.children| == |dom.data| == |dom.classes|
    ensures forall k: nat :: k < |dom.classes| && ParentOf(dom, k).Some? ==> ParentOf(dom, k).value < |dom.classes|
  {
    hide Ranked;
  }

  lemma BuiltInOrder(dom: Dom, body: nat, heading: ElementKind, button: ElementKind)
    requires Forest(dom)
    ensures |dom.parent| == |dom.children| == |dom.data| == |dom.classes|
    ensures dom.data + ["", HEADING_TEXT] + ["", FIRST_TEXT] == dom.data + ["", HEADING_TEXT, "", FIRST_TEXT]
    ensures [heading, CharacterData] + [button, CharacterData] == [heading, CharacterData, button, CharacterData]
    ensures dom.classes + [heading, CharacterData] + [button, CharacterData] ==
            dom.classes + [heading, CharacterData, button, CharacterData]
  {
  }

  lemma ElementAdded(dom: Dom, c: ElementKind, text: string)
    requires |dom.parent| == |dom.children| == |dom.data| == |dom.classes| && text != ""
    ensures var d := WithElement(dom, c, text);
            var n := |dom.classes|;
            && |d.classes| == |d.parent| == |d.children| == n + 2 && d.classes == dom.classes + [c, CharacterData]
            && d.data == dom.data + ["", text]
            && d.children[n] == [n + 1] && ParentOf(d, n) == None
            && d.children[n + 1] == [] && ParentOf(d, n + 1) == Some(n)
            && (forall k: nat :: k < n ==>
                  d.children[k] == dom.children[k]
                  && (ParentOf(dom, k) != Some(n) ==> ParentOf(d, k) == ParentOf(dom, k)))
  {
    Chain(c);
    hide IsA;
  }

  lemma AddedLast(dom: Dom, parent: nat, child: nat)
    requires |dom.parent| == |dom.children| == |dom.classes| && parent < |dom.classes| && child < |dom.classes|
    ensures var d := AppendedTo(dom, parent, child);
            && d.classes == dom.classes && d.data == dom.data && |d.parent| == |d.children| == |dom.classes|
            && d.children[parent] == dom.children[parent] + [child] && ParentOf(d, child) == Some(parent)
            && (forall k: nat :: k < |dom.classes| && k != parent ==> d.children[k] == dom.children[k])
            && (forall k: nat :: k != child ==> ParentOf(d, k) == ParentOf(dom, k))
  {
  }

  // A successful start found a body and built exactly this page.
  lemma StartBuilds(s: Site, rid: nat, counter: Counter, c: StartChoices)
    requires SiteOK(s, rid) && !s.realm.freed
    ensures var r := Start(s, rid, counter, c);
            r.success ==>
              && s.realm.document.Some? && s.realm.document.value in s.blink.bodies
              && c.headingClass.Some? && c.buttonClass.Some?
              && r.site.blink.dom ==
                 Built(s.blink.dom, s.blink.bodies[s.realm.document.value], c.headingClass.value, c.buttonClass.value)
              && (r.site.realm.alive ==> Names(r.site, r.counter.button, |s.blink.dom.classes| + 2))
  {
    hide SiteOK, Acquire, AcquireHeading, AcquireButton, Stage, OnTrack, WithElement, AppendedTo, ReleaseAll, Names,
         Forest, Wired, ParentOf;
    var r := Start(s, rid, counter, c);
    if r.success {
      var document := s.realm.document.value;
      AcquireIs(s, rid, c);
      HeadingNeeds(s, rid, c, document);
      HeadingBalanced(s, rid, c);
      var p4 := AcquireHeading(s, rid, c);
      TrackedSite(s, p4, rid);
      ClassPicked(p4, rid, c);
      var body := s.blink.bodies[document];
      HeadingPage(s, rid, c, document, body, c.headingClass.value);
      ButtonPage(s, p4, rid, c, WithElement(s.blink.dom, c.headingClass.value, HEADING_TEXT), document, body,
                 |s.blink.dom.classes|, c.buttonClass.value);
      var p := Acquire(s, rid, c);
      ReleaseAllPage(p.site, rid, p.held[..if |p.held| < 3 then |p.held| else 3]);
      SiteForest(s, rid);
      ElementAdded(s.blink.dom, c.headingClass.value, HEADING_TEXT);
      ButtonBalanced(s, p4, rid, c);
      ButtonKept(s, p, rid, |s.blink.dom.classes| + 2);
    }
  }

  // Releasing the other handles leaves the button's.
  lemma ButtonKept(s: Site, p: Progress, rid: nat, b: nat)
    requires OnTrack(s, p, rid) && Wired(p) && p.going && |p.held| == 4
    requires p.site.realm.alive ==> Names(p.site, p.held[3], b)
    ensures var s' := ReleaseAll(p.site, rid, p.held[..3]);
            s'.realm.alive ==> Names(s', p.held[3], b)
  {
    hide OnTrack, Wired, ReleaseAll, Live, Follows, Writable, OnElement;
    StartSucceeds(s, p, rid);
  }

  // From the start on the button's text is that of the count.
  lemma StartDisplays(s: Site, rid: nat, counter: Counter, c: StartChoices)
    requires SiteOK(s, rid) && !s.realm.freed
    ensures var r := Start(s, rid, counter, c);
            r.success && r.site.realm.alive ==> Displays(r.site, r.counter.button, CountText(r.counter.count))
  {
    hide SiteOK, Start, Built, Names, Forest, Follows, Live, Writable, OnElement;
    StartBuilds(s, rid, counter, c);
    StartConserves(s, rid, counter, c);
    SiteForest(s, rid);
    SiteBounds(s, rid);
    var r := Start(s, rid, counter, c);
    if r.success {
      var body := s.blink.bodies[s.realm.document.value];
      BuiltPage(s.blink.dom, body, c.headingClass.value, c.buttonClass.value);
      BuiltParents(s.blink.dom, body, c.headingClass.value, c.buttonClass.value);
      if r.site.realm.alive {
        var b := |s.blink.dom.classes| + 2;
        assert IsTextOf(r.site.blink.dom, b + 1, b, CountText(0));
        assert Names(r.site, r.counter.button, b) && r.site.blink.dom.children[b] == [b + 1];
      }
    }
  }

  lemma TrackedSite(s: Site, p: Progress, rid: nat)
    requires OnTrack(s, p, rid)
    ensures SiteOK(p.site, rid) && !p.site.realm.freed
  {
    hide SiteOK, Touches, Balanced;
  }

  lemma ClassPicked(p4: Progress, rid: nat, c: StartChoices)
    requires SiteOK(p4.site, rid) && !p4.site.realm.freed
    ensures AcquireButton(p4, rid, c).going ==> p4.going && c.buttonClass.Some?
  {
    ClassChosen(p4, rid, CreateButton(Nth(p4.held, 0), c), c.cut == 4);
    hide Ask, SiteOK, TakeHandle;
  }
}
