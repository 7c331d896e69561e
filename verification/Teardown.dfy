/** Invalidating and freeing a realm: listeners go before node roots, node roots before the
    document root, and nothing is left for the destructors of the tables. */
module Teardown {
  import opened Abi
  import opened Heaps
  import opened TableSpec
  import opened TableInvariant
  import opened TableTheorems
  import opened HandleMap
  import opened TableLaws
  import opened Doms
  import opened Bridge
  import opened BridgeInvariant
  import opened RegistryLaws
  import opened SiteLaws

  // No two of them share a listener.
  lemma {:induction false} ListenersDown(subs: Table<RootPointer>, rid: nat, b: Blink, i: nat)
    requires Linked(subs, rid, b) && i <= |subs.cells|
    ensures DistinctListeners(Ats(TokensDown(subs.cells, i)))
  {
    hide Live, RootLinked, HasSub, PointsTo;
    if i == 0 {
    } else {
      ListenersDown(subs, rid, b, i - 1);
      var rest := Ats(TokensDown(subs.cells, i - 1));
      if subs.cells[i - 1].entry.Some? {
        var first := subs.cells[i - 1].entry.value.token;
        forall k | 0 <= k < |rest| ensures rest[k].listener != first.at.listener {
          var x := TokensDown(subs.cells, i - 1)[k];
          InTokensDown(subs.cells, i - 1, x);
          var j :| 0 <= j < i - 1 && subs.cells[j].entry.Some? && subs.cells[j].entry.value.token == x;
          ListenersApart(subs, rid, b, j, i - 1);
        }
        assert TokensDown(subs.cells, i) == [first] + TokensDown(subs.cells, i - 1);
        assert Ats(TokensDown(subs.cells, i)) == [first.at] + rest;
      }
    }
  }

  lemma ListenersApart(subs: Table<RootPointer>, rid: nat, b: Blink, i: nat, j: nat)
    requires Linked(subs, rid, b) && i < j < |subs.cells| && subs.cells[i].entry.Some? && subs.cells[j].entry.Some?
    ensures subs.cells[i].entry.value.token.at.listener != subs.cells[j].entry.value.token.at.listener
  {
    hide RootLinked, HasSub, PointsTo;
    GenerationStep(subs.cells[i].resets);
    GenerationStep(subs.cells[j].resets);
    assert Matches(subs, HandleAt(subs, i)) && Matches(subs, HandleAt(subs, j));
    assert HandleAt(subs, i) in Live(subs) && HandleAt(subs, j) in Live(subs);
  }

  lemma InvalidationListeners(subs: Table<RootPointer>, rid: nat, b: Blink)
    requires subs.hooked && !subs.invalidated && Linked(subs, rid, b)
    ensures DistinctListeners(Ats(InvalidationCalls(subs)))
  {
    ListenersDown(subs, rid, b, |subs.cells|);
    hide Linked, TokensDown;
  }

  // The roots that invalidation hands to the hook are those of the live subscriptions.
  lemma InvalidationRoots(subs: Table<RootPointer>, rid: nat, b: Blink)
    requires subs.hooked && !subs.invalidated && Linked(subs, rid, b)
    ensures RegisteredRoots(Ats(InvalidationCalls(subs)), rid, b) && Cancelable(Ats(InvalidationCalls(subs)), b)
    ensures forall l :: InRoots(Ats(InvalidationCalls(subs)), l) <==> HasSub(subs, l)
  {
    hide Live, InvalidationCalls;
    var calls := InvalidationCalls(subs);
    var roots := Ats(calls);
    assert DistinctListeners(roots) by { InvalidationListeners(subs, rid, b); }
    forall k | 0 <= k < |roots|
      ensures roots[k].active && PointsTo(b, roots[k].listener, rid)
      ensures RegistrationOf(roots[k]) in b.registrations && HasSub(subs, roots[k].listener)
    {
      InvalidationTakesLive(subs, calls[k]);
      var h :| h in Live(subs) && Live(subs)[h].token == calls[k];
      assert RootLinked(Live(subs)[h], rid, b);
    }
    forall l | HasSub(subs, l) ensures InRoots(roots, l) {
      var h :| h in Live(subs) && Live(subs)[h].token.at.listener == l;
      InvalidationTakesLive(subs, Live(subs)[h].token);
      var k :| 0 <= k < |calls| && calls[k] == Live(subs)[h].token;
      assert roots[k].listener == l;
    }
  }

  // Dropping node roots changes nothing but the trace, which stays in order.
  lemma {:induction false} DropAllEffect(b: Blink, nodes: seq<nat>, rid: nat)
    requires BlinkOK(b) && NoneAttached(b.trace, rid) && !Closed(b.trace, rid)
    ensures var b' := DropAll(b, nodes, rid);
            && b' == b.(trace := b'.trace) && BlinkOK(b')
            && Attached(b'.trace) == Attached(b.trace)
            && (forall r :: SamePhase(b.trace, b'.trace, r))
            && b.trace <= b'.trace
    decreases |nodes|
  {
    hide Forest, Attached, Ordered, Dead, Bare, Gone;
    if nodes == [] {
      forall r ensures SamePhase(b.trace, b.trace, r) {}
    } else {
      var e := DroppedNode(rid, nodes[0]);
      var c := Log(b, e);
      Append(b.trace, e);
      LoggedBlink(b, e);
      forall r ensures SamePhase(b.trace, c.trace, r) {}
      NoneAttachedSame(b.trace, c.trace, rid);
      assert SamePhase(b.trace, c.trace, rid);
      DropAllEffect(c, nodes[1..], rid);
      forall r ensures SamePhase(b.trace, DropAll(b, nodes, rid).trace, r) {
        assert SamePhase(b.trace, c.trace, r) && SamePhase(c.trace, DropAll(b, nodes, rid).trace, r);
      }
    }
  }

  lemma LoggedBlink(b: Blink, e: Effect)
    requires BlinkOK(b) && Allowed(b.trace, e) && !e.Registered? && !e.Cancelled?
    ensures BlinkOK(Log(b, e))
  {
    hide Forest, Attached, Ordered, Allowed;
    Append(b.trace, e);
    var b' := Log(b, e);
    forall reg: Registration | reg in b'.registrations ensures exists r :: PointsTo(b', reg.listener, r) {
      var r :| PointsTo(b, reg.listener, r);
      assert PointsTo(b', reg.listener, r);
    }
  }

  // The first phase: with the realm marked dead, every listener is removed and detached
  // while node roots and the document root are still there.
  ghost predicate Quiet(b: Blink, b': Blink, rid: nat) {
    && BlinkOK(b') && Dead(b'.trace, rid) && !Closed(b'.trace, rid) && NoneAttached(b'.trace, rid)
    && (forall reg: Registration :: reg in b'.registrations ==> reg in b.registrations)
    && (forall reg: Registration :: reg in b'.registrations ==> !PointsTo(b, reg.listener, rid))
    && b'.dom == b.dom && b'.contexts == b.contexts && b'.bodies == b.bodies && b'.accepted == b.accepted
    && |b'.listeners| == |b.listeners|
    && Touches(rid, b, b')
  }

  // The realm is marked dead; nothing else has happened yet.
  lemma MarkedDead(s: Site, rid: nat)
    requires SiteOK(s, rid) && s.realm.alive
    ensures var b0 := Log(s.blink, Effect.Invalidated(rid));
            var roots := Ats(InvalidationCalls(s.realm.subs));
            && BlinkOK(s.blink) && BlinkOK(b0) && Linked(s.realm.subs, rid, s.blink)
            && RegisteredRoots(roots, rid, b0) && Cancelable(roots, b0)
            && (forall l :: InRoots(roots, l) <==> HasSub(s.realm.subs, l))
            && Dead(b0.trace, rid) && !Closed(b0.trace, rid)
            && (forall r :: r != rid ==> SamePhase(s.blink.trace, b0.trace, r))
  {
    hide Forest, Attached, Ordered, Live, Inv, Interned, Dead, Bare, Gone, InvalidationCalls, InRoots, HasSub;
    var e := Effect.Invalidated(rid);
    Append(s.blink.trace, e);
    LoggedBlink(s.blink, e);
    InvalidationRoots(s.realm.subs, rid, s.blink);
  }

  lemma Silenced(s: Site, rid: nat)
    requires SiteOK(s, rid) && s.realm.alive
    ensures var b0 := Log(s.blink, Effect.Invalidated(rid));
            Quiet(s.blink, CancelAll(b0, Ats(InvalidationCalls(s.realm.subs)), rid), rid)
  {
    MarkedDead(s, rid);
    hide SiteOK, BlinkOK, Linked, Quiet, RegisteredRoots, Cancelable, CancelledFrom, PointsTo, InRoots, HasSub, Dead,
         Bare, Gone, InvalidationCalls;
    var b0 := Log(s.blink, Effect.Invalidated(rid));
    var roots := Ats(InvalidationCalls(s.realm.subs));
    CancelAllEffect(b0, roots, rid);
    CancelKeepsBlink(b0, CancelAll(b0, roots, rid), roots, rid);
    SilencedMore(s.realm.subs, s.blink, b0, CancelAll(b0, roots, rid), roots, rid);
  }

  lemma SilencedMore(subs: Table<RootPointer>, b: Blink, b0: Blink, b1: Blink, roots: seq<Root>, rid: nat)
    requires b0 == b.(trace := b0.trace) && BlinkOK(b) && BlinkOK(b0) && BlinkOK(b1) && Linked(subs, rid, b)
    requires CancelledFrom(b0, b1, roots, rid) && RegisteredRoots(roots, rid, b0)
    requires forall l :: InRoots(roots, l) <==> HasSub(subs, l)
    requires Dead(b0.trace, rid) && !Closed(b0.trace, rid) && forall r :: r != rid ==> SamePhase(b.trace, b0.trace, r)
    requires forall l, r :: r != rid ==> (PointsTo(b0, l, r) <==> PointsTo(b1, l, r))
    ensures Quiet(b, b1, rid)
  {
    hide Forest, Attached, Ordered, Live, Dead, Bare, Gone, HasSub, InRoots;
    forall l, r ensures PointsTo(b, l, r) <==> PointsTo(b0, l, r) {}
    forall l ensures !PointsTo(b1, l, rid) {
      CancelPoints(b0, b1, roots, rid, l, rid);
      if PointsTo(b, l, rid) { assert HasSub(subs, l); }
    }
    forall l ensures Attachment(l, rid) !in Attached(b1.trace) { assert !PointsTo(b1, l, rid); }
    forall reg: Registration | reg in b1.registrations ensures !PointsTo(b, reg.listener, rid) {
      var r :| PointsTo(b1, reg.listener, r);
      assert r != rid && PointsTo(b0, reg.listener, r);
    }
    forall reg: Registration, r | r != rid && PointsTo(b, reg.listener, r)
      ensures reg in b.registrations <==> reg in b1.registrations
    {
      if InRoots(roots, reg.listener) { RootOf(roots, rid, b0, reg.listener); }
    }
    forall r | r != rid ensures SamePhase(b.trace, b1.trace, r) {
      assert SamePhase(b.trace, b0.trace, r) && SamePhase(b0.trace, b1.trace, r);
    }
    assert SamePhase(b0.trace, b1.trace, rid);
  }

  // After invalidation the realm holds nothing: no handle, no subscription, no document,
  // no dispatcher, and no accepted listener points at it.
  ghost predicate Emptied(s: Site, rid: nat) {
    && !s.realm.alive && !s.realm.dispatch && s.realm.document.None?
    && Live(s.realm.nodes) == map[] && Live(s.realm.subs) == map[]
    && NoneAttached(s.blink.trace, rid)
    && (forall l :: !PointsTo(s.blink, l, rid))
  }

  lemma DeadIsEmptied(s: Site, rid: nat)
    requires SiteOK(s, rid) && !s.realm.alive
    ensures Emptied(s, rid)
  {
    hide Forest, Attached, Ordered, Interned, Live, Dead, Bare, Gone;
    if !s.realm.freed {
      InvalidatedLive(s.realm.nodes);
      InvalidatedLive(s.realm.subs);
    }
    forall l ensures !PointsTo(s.blink, l, rid) {
      assert PointsTo(s.blink, l, rid) ==> HasSub(s.realm.subs, l);
    }
    forall l ensures Attachment(l, rid) !in Attached(s.blink.trace) { assert !PointsTo(s.blink, l, rid); }
  }

  lemma InvalidatedLive<T>(t: Table<T>)
    requires Inv(t) && t.invalidated
    ensures Live(t) == map[]
  {
    forall h ensures h !in Live(t) {
      assert h in Live(t) <==> Matches(t, h);
    }
  }

  lemma InvalidateKeepsSite(s: Site, rid: nat)
    requires SiteOK(s, rid) && !s.realm.freed
    ensures var s' := InvalidateRealm(s, rid);
            && SiteOK(s', rid) && Touches(rid, s.blink, s'.blink)
            && Emptied(s', rid) && s'.realm.freed == s.realm.freed
  {
    hide SiteOK, Touches, Inv, Interned, Linked, Live, Attached, Ordered, Dead, Bare, Gone, Forest, InvalidationCalls,
         Invalidate,
         BlinkOK, NoneAttached;
    TouchesRefl(rid, s.blink);
    if s.realm.alive {
      Silenced(s, rid);
      var b1 := CancelAll(Log(s.blink, Effect.Invalidated(rid)), Ats(InvalidationCalls(s.realm.subs)), rid);
      DropAllEffect(b1, Ats(InvalidationCalls(s.realm.nodes)), rid);
      var b2 := DropAll(b1, Ats(InvalidationCalls(s.realm.nodes)), rid);
      var b3 := Log(b2, DroppedDocument(rid));
      NoneAttachedSame(b1.trace, b2.trace, rid);
      assert SamePhase(b1.trace, b2.trace, rid);
      LoggedBlink(b2, DroppedDocument(rid));
      Append(b2.trace, DroppedDocument(rid));
      NoneAttachedSame(b1.trace, b3.trace, rid);
      forall r | r != rid ensures SamePhase(b1.trace, b3.trace, r) { assert SamePhase(b1.trace, b2.trace, r); }
      TraceOnly(s.blink, b1, b3, rid);
      InvalidatedTables(s, rid);
      InvalidateFinish(s, rid, b3, InvalidateRealm(s, rid).roots);
    }
    DeadIsEmptied(InvalidateRealm(s, rid), rid);
  }

  lemma NoneAttachedSame(t: seq<Effect>, t': seq<Effect>, rid: nat)
    requires NoneAttached(t, rid) && Attached(t') == Attached(t)
    ensures NoneAttached(t', rid)
  {
    hide Attached;
  }

  lemma TraceOnly(b: Blink, b1: Blink, b3: Blink, rid: nat)
    requires Touches(rid, b, b1) && b3 == b1.(trace := b3.trace)
    requires forall r :: r != rid ==> SamePhase(b1.trace, b3.trace, r)
    ensures Touches(rid, b, b3)
  {
    hide Dead, Bare, Gone;
    forall l, r ensures PointsTo(b1, l, r) <==> PointsTo(b3, l, r) {}
    forall r | r != rid ensures SamePhase(b.trace, b3.trace, r) {
      assert SamePhase(b.trace, b1.trace, r) && SamePhase(b1.trace, b3.trace, r);
    }
    hide PointsTo;
  }

  lemma InvalidatedTables(s: Site, rid: nat)
    requires SiteOK(s, rid) && s.realm.alive
    ensures var nodes, subs := Invalidate(s.realm.nodes), Invalidate(s.realm.subs);
            && Inv(nodes) && nodes.invalidated && nodes.hooked && Live(nodes) == map[]
            && Inv(subs) && subs.invalidated && subs.hooked && Live(subs) == map[]
  {
    hide Inv, Live, Invalidate, Linked, BlinkOK, Interned;
    InvalidateLaw(s.realm.nodes);
    InvalidateLaw(s.realm.subs);
  }

  lemma InvalidateFinish(s: Site, rid: nat, b: Blink, roots: Roots)
    requires SiteOK(s, rid) && s.realm.alive
    requires BlinkOK(b) && Dead(b.trace, rid) && NoneAttached(b.trace, rid) && b.dom == s.blink.dom
    requires Bare(b.trace, rid) && (Gone(b.trace, rid) <==> s.realm.freed)
    requires var nodes, subs := Invalidate(s.realm.nodes), Invalidate(s.realm.subs);
             && Inv(nodes) && nodes.invalidated && nodes.hooked && Live(nodes) == map[]
             && Inv(subs) && subs.invalidated && subs.hooked && Live(subs) == map[]
    ensures SiteOK(Site(Realm(false, s.realm.freed, None, false, Invalidate(s.realm.nodes),
                              Invalidate(s.realm.subs)), b, roots), rid)
  {
    hide Inv, Live, Invalidate, Forest, Attached, Ordered, Dead, Bare, Gone;
    var nodes, subs := Invalidate(s.realm.nodes), Invalidate(s.realm.subs);
    assert Interned(nodes, b.dom);
    assert Linked(subs, rid, b) by {
      forall l ensures PointsTo(b, l, rid) ==> HasSub(subs, l) {
        assert PointsTo(b, l, rid) <==> Attachment(l, rid) in Attached(b.trace);
      }
    }
    hide BlinkOK, Linked, Interned, NoneAttached;
  }

  // Destroying a realm, invalidated before or not: the destructors of the two tables find
  // no occupied slot, so no hook runs; afterwards nothing accepted points at the realm.
  lemma FreeKeepsSite(s: Site, rid: nat)
    requires SiteOK(s, rid) && !s.realm.freed
    ensures var s1 := InvalidateRealm(s, rid);
            var s' := FreeRealm(s, rid);
            && DestroyCalls(s1.realm.subs) == [] && DestroyCalls(s1.realm.nodes) == []
            && SiteOK(s', rid) && Touches(rid, s.blink, s'.blink) && Emptied(s', rid) && s'.realm.freed
  {
    hide SiteOK, Touches, Inv, Interned, Linked, Live, Attached, Ordered, Dead, Bare, Gone, Forest, BlinkOK,
         NoneAttached,
         InvalidateRealm, DestroyCalls, Destroy;
    InvalidateKeepsSite(s, rid);
    var s1 := InvalidateRealm(s, rid);
    NothingToDestroy(s1.realm.subs);
    NothingToDestroy(s1.realm.nodes);
    assert CancelAll(s1.blink, [], rid) == s1.blink;
    assert DropAll(s1.blink, [], rid) == s1.blink;
    var b := Log(s1.blink, Freed(rid));
    Append(s1.blink.trace, Freed(rid));
    forall r | r != rid ensures SamePhase(s1.blink.trace, b.trace, r) {}
    TraceOnly(s.blink, s1.blink, b, rid);
    DestroyedIsEmpty(s1.realm.nodes);
    DestroyedIsEmpty(s1.realm.subs);
    FreedBlink(s1, rid);
    FreeFinish(s1, rid, FreeRealm(s, rid).roots);
    DeadIsEmptied(FreeRealm(s, rid), rid);
  }

  lemma FreedBlink(s: Site, rid: nat)
    requires SiteOK(s, rid) && Emptied(s, rid) && !s.realm.freed
    ensures BlinkOK(Log(s.blink, Freed(rid)))
  {
    hide Linked, RealmOK, BlinkOK, Live, PointsTo, NoneAttached;
    FreedAllowed(s, rid);
    LoggedBlink(s.blink, Freed(rid));
  }

  lemma FreedAllowed(s: Site, rid: nat)
    requires SiteOK(s, rid) && Emptied(s, rid) && !s.realm.freed
    ensures Allowed(s.blink.trace, Freed(rid))
  {
    hide Forest, Attached, Ordered, Dead, Bare, Gone, Live, Inv, Interned, Linked, BlinkOK, NoneAttached;
  }

  lemma DestroyedIsEmpty<T>(t: Table<T>)
    ensures Live(Destroy(t)) == map[]
  {
    assert forall h :: !Matches(Destroy(t), h);
  }

  lemma FreeFinish(s: Site, rid: nat, roots: Roots)
    requires SiteOK(s, rid) && Emptied(s, rid) && BlinkOK(Log(s.blink, Freed(rid)))
    requires Live(Destroy(s.realm.nodes)) == map[] && Live(Destroy(s.realm.subs)) == map[]
    ensures SiteOK(Site(s.realm.(freed := true, nodes := Destroy(s.realm.nodes), subs := Destroy(s.realm.subs)),
                        Log(s.blink, Freed(rid)), roots), rid)
  {
    hide Inv, Live, Destroy, Forest, Attached, Ordered, Dead, Bare, Gone, Interned, BlinkOK, NoneAttached;
    Append(s.blink.trace, Freed(rid));
    forall l ensures !PointsTo(Log(s.blink, Freed(rid)), l, rid) { assert !PointsTo(s.blink, l, rid); }
  }

  // ----- events -----

  // Detach makes late calls safe: a listener that still holds a realm pointer belongs to a
  // live realm that was not freed, through a live subscription.
  lemma PointerMeansLive(s: Site, rid: nat, l: nat)
    requires SiteOK(s, rid) && PointsTo(s.blink, l, rid)
    ensures s.realm.alive && !s.realm.freed && HasSub(s.realm.subs, l)
    ensures Attachment(l, rid) in Attached(s.blink.trace) && !Dead(s.blink.trace, rid) && !Closed(s.blink.trace, rid)
  {
    hide Forest, Ordered, Attached, Dead, Bare, Gone, Inv, Interned, Live;
    if !s.realm.alive { DeadIsEmptied(s, rid); }
  }

  lemma DispatchKeepsSite(s: Site, rid: nat, l: nat)
    requires SiteOK(s, rid) && PointsTo(s.blink, l, rid)
    ensures SiteOK(s.(blink := Log(s.blink, Dispatched(l, rid))), rid)
    ensures Touches(rid, s.blink, Log(s.blink, Dispatched(l, rid)))
  {
    hide SiteOK, Touches, Attached, Dead, Bare, Gone, PointsTo;
    PointerMeansLive(s, rid, l);
    Logged(s, rid, Dispatched(l, rid));
  }
}
