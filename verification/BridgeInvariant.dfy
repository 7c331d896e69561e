/** What every call into a realm keeps: the node registry's bijection, the exact agreement
    between subscription handles and the listeners registered in Blink, and an ordering of
    the trace in which nothing a listener could reach is dropped while it is attached. */
module BridgeInvariant {
  import opened Abi
  import opened TableSpec
  import opened TableInvariant
  import opened HandleMap
  import opened WebTypes
  import opened Doms
  import opened Bridge

  // ----- the trace -----

  datatype Attachment = Attachment(listener: nat, realm: nat)

  // How one effect changes which listeners are attached to which realm.
  function Attach(before: set<Attachment>, e: Effect): set<Attachment> {
    if e.Registered? then before + {Attachment(e.listener, e.realm)}
    else if e.Cancelled? then before - {Attachment(e.listener, e.realm)}
    else before
  }

  // The listeners registered for a realm and not cancelled since.
  function Attached(trace: seq<Effect>): set<Attachment> {
    if trace == [] then {} else Attach(Attached(trace[..|trace| - 1]), trace[|trace| - 1])
  }

  predicate Dead(trace: seq<Effect>, rid: nat) {
    Effect.Invalidated(rid) in trace
  }

  // The document root is gone.
  predicate Bare(trace: seq<Effect>, rid: nat) {
    DroppedDocument(rid) in trace
  }

  predicate Gone(trace: seq<Effect>, rid: nat) {
    Freed(rid) in trace
  }

  // Nothing of the realm is left to touch.
  predicate Closed(trace: seq<Effect>, rid: nat) {
    Bare(trace, rid) || Gone(trace, rid)
  }

  predicate SamePhase(t: seq<Effect>, t': seq<Effect>, rid: nat) {
    && (Dead(t, rid) <==> Dead(t', rid))
    && (Bare(t, rid) <==> Bare(t', rid))
    && (Gone(t, rid) <==> Gone(t', rid))
  }

  ghost predicate NoneAttached(trace: seq<Effect>, rid: nat) {
    forall l :: Attachment(l, rid) !in Attached(trace)
  }

  // What must have happened before an effect is allowed.
  ghost predicate Allowed(before: seq<Effect>, e: Effect) {
    match e
    case Registered(l, r) => Attachment(l, r) !in Attached(before) && !Dead(before, r) && !Closed(before, r)
    case Cancelled(l, r) => Attachment(l, r) in Attached(before) && !Closed(before, r)
    case Invalidated(r) => !Dead(before, r) && !Closed(before, r)
    // Once invalidation has begun, every listener goes before any node root, and every node
    // root before the document root.
    case DroppedNode(r, _) => (Dead(before, r) ==> NoneAttached(before, r)) && !Closed(before, r)
    case DroppedDocument(r) => Dead(before, r) && NoneAttached(before, r) && !Closed(before, r)
    case Freed(r) => Dead(before, r) && NoneAttached(before, r) && Bare(before, r) && !Gone(before, r)
    case Dispatched(l, r) => Attachment(l, r) in Attached(before) && !Dead(before, r) && !Closed(before, r)
  }

  ghost predicate Ordered(trace: seq<Effect>) {
    trace == [] || (Ordered(trace[..|trace| - 1]) && Allowed(trace[..|trace| - 1], trace[|trace| - 1]))
  }

  lemma {:induction false} OrderedAt(trace: seq<Effect>, k: nat)
    requires Ordered(trace) && k < |trace|
    ensures Allowed(trace[..k], trace[k])
  {
    var n := |trace| - 1;
    if k == n {
    } else {
      OrderedAt(trace[..n], k);
      assert trace[..n][..k] == trace[..k];
    }
  }

  lemma Append(trace: seq<Effect>, e: Effect)
    ensures Ordered(trace + [e]) <==> Ordered(trace) && Allowed(trace, e)
    ensures Attached(trace + [e]) == Attach(Attached(trace), e)
    ensures forall r :: Dead(trace + [e], r) <==> Dead(trace, r) || e == Effect.Invalidated(r)
    ensures forall r :: Bare(trace + [e], r) <==> Bare(trace, r) || e == DroppedDocument(r)
    ensures forall r :: Gone(trace + [e], r) <==> Gone(trace, r) || e == Freed(r)
  {
    assert (trace + [e])[..|trace|] == trace;
  }

  // ----- the invariant -----

  // Live handles and rooted nodes correspond one to one, and each carries its node's type.
  ghost predicate Interned(nodes: Table<NodePointer>, dom: Dom) {
    && (forall h :: h in Live(nodes) ==>
          && Live(nodes)[h].token.at < |dom.classes|
          && Live(nodes)[h].typeId == TypeOf(dom.classes[Live(nodes)[h].token.at]))
    && (forall g, h :: g in Live(nodes) && h in Live(nodes) ==>
          Live(nodes)[g].token.at == Live(nodes)[h].token.at ==> g == h)
  }

  ghost predicate RealmOK(r: Realm, dom: Dom) {
    && (r.alive ==> !r.freed && r.document.Some? && r.document.value < |dom.classes|)
    && (!r.alive ==> r.document.None? && !r.dispatch)
    && (r.freed ==> Live(r.nodes) == map[] && Live(r.subs) == map[])
    && (!r.freed ==>
          && Inv(r.nodes) && r.nodes.hooked && r.nodes.invalidated == !r.alive
          && Inv(r.subs) && r.subs.hooked && r.subs.invalidated == !r.alive
          && Interned(r.nodes, dom))
  }

  // The subscription root of a live handle: its listener is registered and points back.
  ghost predicate RootLinked(e: Entry<RootPointer>, rid: nat, b: Blink) {
    && e.references == 1 && e.token.at.active
    && PointsTo(b, e.token.at.listener, rid)
    && RegistrationOf(e.token.at) in b.registrations
  }

  // An accepted listener still holding a realm pointer.
  predicate PointsTo(b: Blink, l: nat, rid: nat) {
    l in b.accepted && l < |b.listeners| && b.listeners[l].realm == Some(rid)
  }

  ghost predicate HasSub(subs: Table<RootPointer>, l: nat) {
    exists h :: h in Live(subs) && Live(subs)[h].token.at.listener == l
  }

  // Live subscriptions and attached listeners correspond one to one.
  ghost predicate Linked(subs: Table<RootPointer>, rid: nat, b: Blink) {
    && (forall h :: h in Live(subs) ==> RootLinked(Live(subs)[h], rid, b))
    && (forall g, h :: g in Live(subs) && h in Live(subs) ==>
          Live(subs)[g].token.at.listener == Live(subs)[h].token.at.listener ==> g == h)
    && (forall l :: PointsTo(b, l, rid) ==> HasSub(subs, l))
  }

  ghost predicate BlinkOK(b: Blink) {
    && Forest(b.dom)
    && (forall d :: d in b.bodies ==> b.bodies[d] < |b.dom.classes|)
    && (forall l :: l in b.accepted ==> l < |b.listeners|)
    && (forall reg: Registration :: reg in b.registrations ==> exists r :: PointsTo(b, reg.listener, r))
    && (forall x, y :: x in b.registrations && y in b.registrations && x.listener == y.listener ==> x == y)
    && (forall l, r :: Attachment(l, r) in Attached(b.trace) <==> PointsTo(b, l, r))
    && Ordered(b.trace)
  }

  ghost predicate SiteOK(s: Site, rid: nat) {
    && RealmOK(s.realm, s.blink.dom)
    && BlinkOK(s.blink)
    && Linked(s.realm.subs, rid, s.blink)
    && (Dead(s.blink.trace, rid) <==> !s.realm.alive)
    && (Bare(s.blink.trace, rid) <==> !s.realm.alive)
    && (Gone(s.blink.trace, rid) <==> s.realm.freed)
  }

  // What a call into realm `rid` leaves alone.
  ghost predicate Touches(rid: nat, b: Blink, b': Blink) {
    && b.dom.classes <= b'.dom.classes
    && b.accepted <= b'.accepted && |b.listeners| <= |b'.listeners|
    && (forall l, r :: r != rid ==> (PointsTo(b, l, r) <==> PointsTo(b', l, r)))
    && (forall reg: Registration, r :: r != rid && PointsTo(b, reg.listener, r) ==>
          (reg in b.registrations <==> reg in b'.registrations))
    && (forall r :: r != rid ==> SamePhase(b.trace, b'.trace, r))
  }

  // Listeners keep the token they were made with.
  predicate TokensKept(b: Blink, b': Blink) {
    |b.listeners| <= |b'.listeners|
    && forall l :: 0 <= l < |b.listeners| ==> b'.listeners[l].token == b.listeners[l].token
  }

  // ----- cancelling roots -----

  ghost predicate InRoots(roots: seq<Root>, l: nat) {
    exists k :: 0 <= k < |roots| && roots[k].listener == l
  }

  ghost predicate Cancelable(roots: seq<Root>, b: Blink) {
    forall k :: 0 <= k < |roots| ==> roots[k].active && roots[k].listener < |b.listeners|
  }

  predicate DistinctListeners(roots: seq<Root>) {
    forall j, k :: 0 <= j < k < |roots| ==> roots[j].listener != roots[k].listener
  }

  // Every root's listener is attached, and none is listed twice.
  ghost predicate EachAttached(roots: seq<Root>, trace: seq<Effect>, rid: nat) {
    && DistinctListeners(roots)
    && forall k :: 0 <= k < |roots| ==> Attachment(roots[k].listener, rid) in Attached(trace)
  }

  // b' is b with the listeners of `roots` removed from Blink and detached.
  ghost predicate CancelledFrom(b: Blink, b': Blink, roots: seq<Root>, rid: nat) {
    && b'.dom == b.dom && b'.contexts == b.contexts && b'.bodies == b.bodies
    && b'.accepted == b.accepted && |b'.listeners| == |b.listeners|
    && (forall l :: 0 <= l < |b.listeners| ==>
          b'.listeners[l].realm == if InRoots(roots, l) then None else b.listeners[l].realm)
    && (forall reg: Registration :: reg in b'.registrations ==> reg in b.registrations)
    && (forall reg: Registration :: reg in b.registrations && !InRoots(roots, reg.listener) ==> reg in b'.registrations)
    && (forall k :: 0 <= k < |roots| ==> RegistrationOf(roots[k]) !in b'.registrations)
    && (forall l, r :: Attachment(l, r) in Attached(b'.trace) <==>
          Attachment(l, r) in Attached(b.trace) && !(r == rid && InRoots(roots, l)))
    && (Ordered(b.trace) && !Closed(b.trace, rid) && EachAttached(roots, b.trace, rid) ==> Ordered(b'.trace))
    && (forall r :: SamePhase(b.trace, b'.trace, r))
  }

  lemma CancelOne(b: Blink, root: Root, rid: nat)
    requires root.active && root.listener < |b.listeners|
    ensures CancelledFrom(b, CancelRoot(b, root, rid), [root], rid)
  {
    Append(b.trace, Cancelled(root.listener, rid));
    assert [root][0] == root;
  }

  lemma CancelTrans(b: Blink, c: Blink, d: Blink, x: seq<Root>, y: seq<Root>, rid: nat)
    requires CancelledFrom(b, c, x, rid) && CancelledFrom(c, d, y, rid)
    ensures CancelledFrom(b, d, x + y, rid)
  {
    forall l ensures InRoots(x + y, l) <==> InRoots(x, l) || InRoots(y, l) {
      if InRoots(x, l) {
        var k :| 0 <= k < |x| && x[k].listener == l;
        assert (x + y)[k].listener == l;
      }
      if InRoots(y, l) {
        var k :| 0 <= k < |y| && y[k].listener == l;
        assert (x + y)[|x| + k].listener == l;
      }
    }
    hide Attached, Ordered, Dead, Bare, Gone, EachAttached;
    forall r ensures SamePhase(b.trace, d.trace, r) {
      assert SamePhase(b.trace, c.trace, r) && SamePhase(c.trace, d.trace, r);
    }
    assert SamePhase(b.trace, c.trace, rid);
    if EachAttached(x + y, b.trace, rid) { AttachedParts(b, c, x, y, rid); }
  }

  lemma AttachedParts(b: Blink, c: Blink, x: seq<Root>, y: seq<Root>, rid: nat)
    requires EachAttached(x + y, b.trace, rid) && CancelledFrom(b, c, x, rid)
    ensures EachAttached(x, b.trace, rid) && EachAttached(y, c.trace, rid)
  {
    hide Attached, Ordered, Dead, Bare, Gone;
    forall k | 0 <= k < |x| ensures x[k] == (x + y)[k] {}
    forall k | 0 <= k < |y| ensures y[k] == (x + y)[|x| + k] && !InRoots(x, y[k].listener) {
      forall j | 0 <= j < |x| ensures x[j].listener != y[k].listener {
        assert (x + y)[j] == x[j] && (x + y)[|x| + k] == y[k];
      }
    }
    assert DistinctListeners(y) by {
      forall j, k | 0 <= j < k < |y| ensures y[j].listener != y[k].listener {
        assert (x + y)[|x| + j] == y[j] && (x + y)[|x| + k] == y[k];
      }
    }
    assert DistinctListeners(x) by {
      forall j, k | 0 <= j < k < |x| ensures x[j].listener != x[k].listener {
        assert (x + y)[j] == x[j] && (x + y)[k] == x[k];
      }
    }
  }

  lemma {:induction false} CancelAllEffect(b: Blink, roots: seq<Root>, rid: nat)
    requires Cancelable(roots, b)
    ensures CancelledFrom(b, CancelAll(b, roots, rid), roots, rid)
    decreases |roots|
  {
    if roots == [] {
      assert CancelledFrom(b, b, [], rid);
    } else {
      var c := CancelRoot(b, roots[0], rid);
      CancelOne(b, roots[0], rid);
      assert Cancelable(roots[1..], c);
      CancelAllEffect(c, roots[1..], rid);
      CancelTrans(b, c, CancelAll(c, roots[1..], rid), [roots[0]], roots[1..], rid);
      assert [roots[0]] + roots[1..] == roots;
    }
  }
}
