/** The ways a realm ends: its context is destroyed, it is invalidated, it is destroyed; in
    any order and as often as Blink and the embedder like. */
module Lifecycle {
  import opened Abi
  import opened Heaps
  import opened TableSpec
  import opened TableInvariant
  import opened TableTheorems
  import opened HandleMap
  import opened TableLaws
  import opened WebTypes
  import opened Doms
  import opened Bridge
  import opened BridgeInvariant
  import opened RegistryLaws
  import opened SiteLaws
  import opened Teardown
  import opened Worlds
  import opened WorldTheorems

  // The observer of a live realm is attached to it.
  ghost predicate Watched(w: World) {
    && |w.observers| == |w.realms|
    && forall i :: 0 <= i < |w.realms| && w.realms[i].alive ==> w.observers[i] == Some(i)
  }

  lemma EndedDead(w: World, rid: nat)
    requires WorldOK(w) && Exists(w, rid)
    ensures var s := InvalidateRealm(SiteAt(w, rid), rid);
            !s.realm.alive && !s.realm.freed
    ensures var s := FreeRealm(SiteAt(w, rid), rid);
            !s.realm.alive && s.realm.freed
  {
    hide SiteOK, BlinkOK, Dead, Bare, Gone, PointsTo, InvalidateRealm, FreeRealm, Touches, Live, NoneAttached;
    assert SiteOK(SiteAt(w, rid), rid);
    InvalidateKeepsSite(SiteAt(w, rid), rid);
    FreeKeepsSite(SiteAt(w, rid), rid);
  }

  lemma NextWatched(w: World, step: WorldStep)
    requires WorldOK(w) && Watched(w)
    ensures Watched(Next(w, step))
  {
    hide SiteOK, BlinkOK, Dead, Bare, Gone, PointsTo, Perform, InvalidateRealm, FreeRealm, Touches;
    match step
    case CallRealm(rid, current, call) =>
      if Exists(w, rid) {
        assert SiteOK(SiteAt(w, rid), rid);
        PerformKeeps(SiteAt(w, rid), rid, current, call);
      }
    case InvalidateWebRealm(rid) => if Exists(w, rid) { EndedDead(w, rid); }
    case DestroyWebRealm(rid) => if Exists(w, rid) { EndedDead(w, rid); }
    case ContextDestroyed(o) => if o < |w.observers| && w.observers[o].Some? { EndedDead(w, o); }
    case _ =>
  }

  lemma {:induction false} RunWatched(w: World, steps: seq<WorldStep>)
    requires WorldOK(w) && Watched(w)
    ensures Watched(RunWorld(w, steps))
    decreases |steps|
  {
    hide WorldOK, Watched, Next;
    if steps == [] {
    } else {
      NextKeeps(w, steps[0]);
      NextWatched(w, steps[0]);
      RunWatched(Next(w, steps[0]), steps[1..]);
    }
  }

  // One of the steps that end this realm.
  predicate Ends(step: WorldStep, rid: nat) {
    step == WorldStep.ContextDestroyed(rid) || step == InvalidateWebRealm(rid) || step == DestroyWebRealm(rid)
  }

  // Whichever comes first empties the realm: the end of its context always reaches it, and
  // no other realm changes.
  lemma EndReaches(w0: World, steps: seq<WorldStep>, rid: nat, step: WorldStep)
    requires Initial(w0) && rid < |RunWorld(w0, steps).realms| && Ends(step, rid)
    ensures var w := RunWorld(w0, steps);
            var w' := Next(w, step);
            && |w'.realms| == |w.realms|
            && Emptied(SiteAt(w', rid), rid)
            && (w'.realms[rid].freed <==> step.DestroyWebRealm? || w.realms[rid].freed)
            && (forall j :: 0 <= j < |w.realms| && j != rid ==> w'.realms[j] == w.realms[j])
  {
    var w := RunWorld(w0, steps);
    StartsWatched(w0);
    ReachableOK(w0, steps);
    RunWatched(w0, steps);
    hide RunWorld, Initial;
    EndedOnce(w, rid, step);
  }

  lemma StartsWatched(w0: World)
    requires Initial(w0)
    ensures Watched(w0) && WorldOK(w0)
  {
    InitialOK(w0);
  }

  lemma EndedOnce(w: World, rid: nat, step: WorldStep)
    requires WorldOK(w) && Watched(w) && rid < |w.realms| && Ends(step, rid)
    ensures var w' := Next(w, step);
            && |w'.realms| == |w.realms|
            && Emptied(SiteAt(w', rid), rid)
            && (w'.realms[rid].freed <==> step.DestroyWebRealm? || w.realms[rid].freed)
            && (forall j :: 0 <= j < |w.realms| && j != rid ==> w'.realms[j] == w.realms[j])
  {
    hide SiteOK, BlinkOK, Dead, Bare, Gone, PointsTo, InvalidateRealm, FreeRealm, Emptied;
    if Exists(w, rid) { EndedDead(w, rid); }
    FreedIsDead(w, rid);
    NextKeeps(w, step);
    SiteInWorld(Next(w, step), rid);
    DeadIsEmptied(SiteAt(Next(w, step), rid), rid);
  }

  lemma FreedIsDead(w: World, rid: nat)
    requires WorldOK(w) && rid < |w.realms|
    ensures w.realms[rid].freed ==> !w.realms[rid].alive
  {
    hide BlinkOK, Dead, Bare, Gone, PointsTo, Linked;
    assert SiteOK(SiteAt(w, rid), rid);
  }

  lemma SiteInWorld(w: World, rid: nat)
    requires WorldOK(w) && rid < |w.realms|
    ensures SiteOK(SiteAt(w, rid), rid)
  {
    hide SiteOK, BlinkOK, Dead, Bare, Gone, PointsTo;
  }

  // Whatever comes after that, in whatever order: nothing is removed, detached or dropped
  // again; a later destruction only frees.
  lemma EndedTwice(w0: World, steps: seq<WorldStep>, rid: nat, step: WorldStep)
    requires Initial(w0) && rid < |RunWorld(w0, steps).realms| && !RunWorld(w0, steps).realms[rid].alive
    requires Ends(step, rid)
    ensures var w := RunWorld(w0, steps);
            var w' := Next(w, step);
            && w'.blink == w.blink.(trace := w'.blink.trace)
            && w'.blink.trace == w.blink.trace + (if step.DestroyWebRealm? && Exists(w, rid) then [Freed(rid)] else [])
            && (!step.DestroyWebRealm? ==> w'.realms == w.realms)
  {
    ReachableOK(w0, steps);
    hide RunWorld, Initial, WorldOK, Next;
    EndedAgain(RunWorld(w0, steps), rid, step);
  }

  lemma EndedAgain(w: World, rid: nat, step: WorldStep)
    requires WorldOK(w) && rid < |w.realms| && !w.realms[rid].alive && Ends(step, rid)
    ensures var w' := Next(w, step);
            && w'.blink == w.blink.(trace := w'.blink.trace)
            && w'.blink.trace == w.blink.trace + (if step.DestroyWebRealm? && Exists(w, rid) then [Freed(rid)] else [])
            && (!step.DestroyWebRealm? ==> w'.realms == w.realms)
  {
    hide SiteOK, BlinkOK, Dead, Bare, Gone, PointsTo, InvalidateRealm, FreeRealm;
    assert w.blink.trace + [] == w.blink.trace;
    assert w.realms[rid := w.realms[rid]] == w.realms;
    SiteInWorld(w, rid);
    if Exists(w, rid) { AlreadyDead(SiteAt(w, rid), rid); }
  }

  lemma AlreadyDead(s: Site, rid: nat)
    requires SiteOK(s, rid) && !s.realm.freed && !s.realm.alive
    ensures InvalidateRealm(s, rid) == s
    ensures FreeRealm(s, rid).blink == Log(s.blink, Freed(rid))
  {
    hide SiteOK, DestroyCalls, Destroy;
    FreeKeepsSite(s, rid);
  }

  // ----- a realm's beginning -----

  // While it lives, a realm keeps its document and its dispatcher.
  ghost predicate KeepsParts(r: Realm, r': Realm) {
    r'.alive ==> r.alive && r'.document == r.document && r'.dispatch == r.dispatch
  }

  lemma NextKeepsParts(w: World, step: WorldStep, rid: nat)
    requires WorldOK(w) && rid < |w.realms|
    ensures rid < |Next(w, step).realms| && KeepsParts(w.realms[rid], Next(w, step).realms[rid])
  {
    hide SiteOK, BlinkOK, Dead, Bare, Gone, PointsTo, Perform, InvalidateRealm, FreeRealm, Touches;
    match step
    case CallRealm(r, current, call) =>
      if Exists(w, r) {
        SiteInWorld(w, r);
        PerformKeeps(SiteAt(w, r), r, current, call);
      }
    case InvalidateWebRealm(r) => if Exists(w, r) { EndedDead(w, r); }
    case DestroyWebRealm(r) => if Exists(w, r) { EndedDead(w, r); }
    case ContextDestroyed(o) => if o < |w.observers| && w.observers[o].Some? { EndedDead(w, o); }
    case _ =>
  }

  lemma {:induction false} RunKeepsParts(w: World, steps: seq<WorldStep>, rid: nat)
    requires WorldOK(w) && rid < |w.realms|
    ensures rid < |RunWorld(w, steps).realms| && KeepsParts(w.realms[rid], RunWorld(w, steps).realms[rid])
    decreases |steps|
  {
    hide WorldOK, Next;
    if steps == [] {
    } else {
      NextKeeps(w, steps[0]);
      NextKeepsParts(w, steps[0], rid);
      RunKeepsParts(Next(w, steps[0]), steps[1..], rid);
    }
  }

  // A realm is made exactly for a document that has an execution context, if there is memory
  // for it. It starts alive, observed and empty, and for as long as it lives it has the
  // document and the dispatcher, or none, that it was made with.
  lemma CreatedRealm(w0: World, steps: seq<WorldStep>, of: Option<nat>, dispatch: bool, alloc: bool,
                     more: seq<WorldStep>)
    requires Initial(w0)
    ensures var w := RunWorld(w0, steps);
            var rid, w1 := |w.realms|, Next(w, CreateRealm(of, dispatch, alloc));
            var w2 := RunWorld(w1, more);
            if && of.Some? && of.value in w.blink.contexts && alloc
               && ClassOf(w.blink.dom, of.value) == DocumentClass
            then
              && |w1.realms| == rid + 1 && w1.realms[..rid] == w.realms && w1.blink == w.blink
              && w1.realms[rid].alive && !w1.realms[rid].freed
              && w1.realms[rid].document == of && w1.realms[rid].dispatch == dispatch
              && Live(w1.realms[rid].nodes) == map[] && Live(w1.realms[rid].subs) == map[]
              && |w1.observers| == rid + 1 && w1.observers[rid] == Some(rid)
              && rid < |w2.realms|
              && (w2.realms[rid].alive ==> w2.realms[rid].document == of && w2.realms[rid].dispatch == dispatch)
            else w1 == w
  {
    ReachableOK(w0, steps);
    var w := RunWorld(w0, steps);
    var w1 := Next(w, CreateRealm(of, dispatch, alloc));
    NextKeeps(w, CreateRealm(of, dispatch, alloc));
    EmptyLaw<NodePointer>(true);
    EmptyLaw<RootPointer>(true);
    hide RunWorld, Initial, SiteOK, BlinkOK, Dead, Bare, Gone, PointsTo, Live;
    if |w1.realms| > |w.realms| { RunKeepsParts(w1, more, |w.realms|); }
  }

  // ----- the effects of a realm's end -----

  function Cancels(roots: seq<Root>, rid: nat): (r: seq<Effect>)
    ensures |r| == |roots| && forall k :: 0 <= k < |r| ==> r[k] == Cancelled(roots[k].listener, rid)
  {
    seq(|roots|, k requires 0 <= k < |roots| => Cancelled(roots[k].listener, rid))
  }

  function Drops(nodes: seq<nat>, rid: nat): (r: seq<Effect>)
    ensures |r| == |nodes| && forall k :: 0 <= k < |r| ==> r[k] == DroppedNode(rid, nodes[k])
  {
    seq(|nodes|, k requires 0 <= k < |nodes| => DroppedNode(rid, nodes[k]))
  }

  lemma {:induction false} CancelAllTrace(b: Blink, roots: seq<Root>, rid: nat)
    requires forall k :: 0 <= k < |roots| ==> roots[k].active
    ensures CancelAll(b, roots, rid).trace == b.trace + Cancels(roots, rid)
    decreases |roots|
  {
    hide CancelRoot;
    if roots == [] {
    } else {
      var e := Cancelled(roots[0].listener, rid);
      CancelTrace(b, roots[0], rid);
      CancelAllTrace(CancelRoot(b, roots[0], rid), roots[1..], rid);
      assert Cancels(roots, rid) == [e] + Cancels(roots[1..], rid);
      OneMore(b.trace, e, Cancels(roots[1..], rid));
    }
  }

  lemma CancelTrace(b: Blink, root: Root, rid: nat)
    requires root.active
    ensures CancelRoot(b, root, rid).trace == b.trace + [Cancelled(root.listener, rid)]
  {
  }

  lemma OneMore(before: seq<Effect>, e: Effect, after: seq<Effect>)
    ensures before + [e] + after == before + ([e] + after)
  {
  }

  lemma {:induction false} DropAllTrace(b: Blink, nodes: seq<nat>, rid: nat)
    ensures DropAll(b, nodes, rid).trace == b.trace + Drops(nodes, rid)
    decreases |nodes|
  {
    if nodes == [] {
    } else {
      var e := DroppedNode(rid, nodes[0]);
      DropAllTrace(Log(b, e), nodes[1..], rid);
      assert Drops(nodes, rid) == [e] + Drops(nodes[1..], rid);
      OneMore(b.trace, e, Drops(nodes[1..], rid));
    }
  }

  predicate NoRepeats(nodes: seq<nat>) {
    forall j, k :: 0 <= j < k < |nodes| ==> nodes[j] != nodes[k]
  }

  // The nodes that invalidation hands to the hook are those with live handles, each once.
  lemma RootedNodes(nodes: Table<NodePointer>, dom: Dom)
    requires nodes.hooked && !nodes.invalidated && Interned(nodes, dom)
    ensures var ns := Ats(InvalidationCalls(nodes));
            && NoRepeats(ns)
            && forall n: nat :: n in ns <==> exists h :: h in Live(nodes) && Live(nodes)[h].token.at == n
  {
    NodesDown(nodes, dom, |nodes.cells|);
    hide Live, TokensDown, TypeOf, Interned;
    var calls := InvalidationCalls(nodes);
    var ns := Ats(calls);
    forall n: nat ensures n in ns <==> exists h :: h in Live(nodes) && Live(nodes)[h].token.at == n {
      if n in ns {
        var k :| 0 <= k < |ns| && ns[k] == n;
        InvalidationTakesLive(nodes, calls[k]);
      }
      if h :| h in Live(nodes) && Live(nodes)[h].token.at == n {
        InvalidationTakesLive(nodes, Live(nodes)[h].token);
        var k :| 0 <= k < |calls| && calls[k] == Live(nodes)[h].token;
        assert ns[k] == n;
      }
    }
  }

  lemma {:induction false} NodesDown(nodes: Table<NodePointer>, dom: Dom, i: nat)
    requires Interned(nodes, dom) && i <= |nodes.cells|
    ensures NoRepeats(Ats(TokensDown(nodes.cells, i)))
  {
    hide Live, TypeOf, Interned;
    if i == 0 {
    } else {
      NodesDown(nodes, dom, i - 1);
      var rest := Ats(TokensDown(nodes.cells, i - 1));
      if nodes.cells[i - 1].entry.Some? {
        var first := nodes.cells[i - 1].entry.value.token;
        forall k | 0 <= k < |rest| ensures rest[k] != first.at {
          var x := TokensDown(nodes.cells, i - 1)[k];
          InTokensDown(nodes.cells, i - 1, x);
          var j :| 0 <= j < i - 1 && nodes.cells[j].entry.Some? && nodes.cells[j].entry.value.token == x;
          NodesApart(nodes, dom, j, i - 1);
        }
        assert TokensDown(nodes.cells, i) == [first] + TokensDown(nodes.cells, i - 1);
        assert Ats(TokensDown(nodes.cells, i)) == [first.at] + rest;
      }
    }
  }

  lemma NodesApart(nodes: Table<NodePointer>, dom: Dom, i: nat, j: nat)
    requires Interned(nodes, dom) && i < j < |nodes.cells| && nodes.cells[i].entry.Some? && nodes.cells[j].entry.Some?
    ensures nodes.cells[i].entry.value.token.at != nodes.cells[j].entry.value.token.at
  {
    hide TypeOf;
    GenerationStep(nodes.cells[i].resets);
    GenerationStep(nodes.cells[j].resets);
    assert Matches(nodes, HandleAt(nodes, i)) && Matches(nodes, HandleAt(nodes, j));
    assert HandleAt(nodes, i) in Live(nodes) && HandleAt(nodes, j) in Live(nodes);
  }

  // Ending a live realm has exactly these effects, in this order: it is marked invalidated,
  // each listener that still points to it is removed and detached once, each node with a
  // handle is dropped once, and the document is dropped.
  lemma EndEffects(s: Site, rid: nat)
    requires SiteOK(s, rid) && s.realm.alive
    ensures exists roots: seq<Root>, nodes: seq<nat> ::
              && DistinctListeners(roots) && (forall l :: InRoots(roots, l) <==> PointsTo(s.blink, l, rid))
              && NoRepeats(nodes)
              && (forall n: nat :: n in nodes <==>
                    exists h :: h in Live(s.realm.nodes) && Live(s.realm.nodes)[h].token.at == n)
              && InvalidateRealm(s, rid).blink.trace ==
                 s.blink.trace + [Effect.Invalidated(rid)] + Cancels(roots, rid) + Drops(nodes, rid)
                 + [DroppedDocument(rid)]
  {
    hide SiteOK, Live, InvalidationCalls, CancelAll, DropAll, Interned, TypeOf, Inv, Linked, BlinkOK, PointsTo,
         Invalidate;
    AliveParts(s, rid);
    var roots, nodes := Ats(InvalidationCalls(s.realm.subs)), Ats(InvalidationCalls(s.realm.nodes));
    InvalidationListeners(s.realm.subs, rid, s.blink);
    PointedRoots(s.realm.subs, rid, s.blink);
    RootedNodes(s.realm.nodes, s.blink.dom);
    var b0 := Log(s.blink, Effect.Invalidated(rid));
    CancelAllTrace(b0, roots, rid);
    DropAllTrace(CancelAll(b0, roots, rid), nodes, rid);
  }

  lemma AliveParts(s: Site, rid: nat)
    requires SiteOK(s, rid) && s.realm.alive
    ensures s.realm.subs.hooked && !s.realm.subs.invalidated && Linked(s.realm.subs, rid, s.blink)
    ensures s.realm.nodes.hooked && !s.realm.nodes.invalidated && Interned(s.realm.nodes, s.blink.dom)
  {
    hide Linked, BlinkOK, Inv, Interned, Dead, Bare, Gone;
  }

  lemma PointedRoots(subs: Table<RootPointer>, rid: nat, b: Blink)
    requires subs.hooked && !subs.invalidated && Linked(subs, rid, b)
    ensures var roots := Ats(InvalidationCalls(subs));
            && (forall k :: 0 <= k < |roots| ==> roots[k].active)
            && (forall l :: InRoots(roots, l) <==> PointsTo(b, l, rid))
  {
    InvalidationRoots(subs, rid, b);
    hide Live, InvalidationCalls, PointsTo, InRoots, RootLinked, DistinctListeners;
    var roots := Ats(InvalidationCalls(subs));
    forall l ensures InRoots(roots, l) <==> PointsTo(b, l, rid) {
      if InRoots(roots, l) { RootOf(roots, rid, b, l); }
    }
  }
}
