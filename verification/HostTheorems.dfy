/** The counter and its hosts, end to end: which events count, when a host starts, and what
    becomes of every realm a host ever made. */
module HostTheorems {
  import opened Abi
  import opened TableInvariant
  import opened TableTheorems
  import opened HandleMap
  import opened WebTypes
  import opened Doms
  import opened Bridge
  import opened BridgeInvariant
  import opened CapsuleLaws
  import opened Teardown
  import opened Worlds
  import opened WorldTheorems
  import opened Counters
  import opened CounterText
  import opened StartOutcomes
  import opened Hosts

  // ----- which events count -----

  // Blink delivers an event, in the document's own context, to the listener of the click
  // subscription that the started counter keeps, while its realm is alive.
  ghost predicate OwnClick(s: System, step: WorldStep, rid: nat) {
    && s.display.counter.realm == Some(rid) && rid < |s.world.realms| && s.world.realms[rid].alive
    && step.Event? && step.hasEvent && step.context.Some?
    && s.world.realms[rid].document.Some?
    && s.world.realms[rid].document.value in s.world.blink.contexts
    && s.world.blink.contexts[s.world.realms[rid].document.value] == step.context.value
    && s.display.counter.subscription in Live(s.world.realms[rid].subs)
    && Live(s.world.realms[rid].subs)[s.display.counter.subscription].token.at.listener == step.listener
  }

  // Such an event reaches the dispatcher with the client's own token.
  lemma OwnClickDispatched(s: System, step: WorldStep, rid: nat)
    requires SystemOK(s) && Holdings(s) && OwnClick(s, step, rid)
    ensures Next(s.world, step) == s.world.(blink := Log(s.world.blink, Dispatched(step.listener, rid)))
    ensures step.listener < |s.world.blink.listeners|
    ensures s.world.blink.listeners[step.listener] == Listener(Some(rid), CLICK_CALLBACK)
  {
    hide WorldOK, Agrees, Shows, SiteOK, Live, Writable, OnElement;
    NamedExists(s, rid);
    SubscriptionPoints(SiteAt(s.world, rid), rid, s.display.counter.subscription);
  }

  // It is counted, and written to the page.
  lemma OwnClickCounts(s: System, step: WorldStep, rid: nat)
    requires SystemOK(s) && Holdings(s) && OwnClick(s, step, rid) && Private(s, Elsewhere(step))
    ensures var s' := DoElsewhere(s, step);
            && s'.heard == s.heard + [Delivery(true, true)]
            && s'.display.counter.button == s.display.counter.button && s'.display.counter.realm == Some(rid)
            && rid < |s'.world.realms|
            && Displays(SiteAt(s'.world, rid), s'.display.counter.button, s'.display.shown)
  {
    hide SystemOK, Holdings, Private, Next, Displays, Deliver, Decimal, Live, Hears;
    OwnClickDispatched(s, step, rid);
    WorldHoldings(s, step);
    var s1 := s.(world := Next(s.world, step));
    TraceGrew(s.world.blink, Dispatched(step.listener, rid));
    HeardCall(s, step);
    ClickAccepted(s1, rid);
    HeardIsWritten(s1, rid, CLICK_CALLBACK);
    DeliverSameLife(s1.display, HandleEvent(SiteAt(s1.world, rid), rid, s1.display, CLICK_CALLBACK).delivery);
    HearsParts(s1, rid, CLICK_CALLBACK);
  }

  lemma TraceGrew(b: Blink, e: Effect)
    ensures Log(b, e).trace != b.trace
  {
  }

  lemma HeardCall(s: System, step: WorldStep)
    requires step.Event? && step.listener < |s.world.blink.listeners|
    requires s.world.blink.listeners[step.listener].realm.Some?
    ensures var l := s.world.blink.listeners[step.listener];
            Heard(s, step, true) == Some((l.realm.value, l.token))
  {
  }

  lemma HearsParts(s: System, rid: nat, token: CallbackToken)
    requires rid < |s.world.realms|
    ensures var h := HandleEvent(SiteAt(s.world, rid), rid, s.display, token);
            && Hears(s, rid, token).display == h.display && Hears(s, rid, token).heard == s.heard + [h.delivery]
            && |Hears(s, rid, token).world.realms| == |s.world.realms|
  {
    hide HandleEvent;
  }

  lemma ClickAccepted(s: System, rid: nat)
    requires SystemOK(s) && Holdings(s) && s.display.counter.realm == Some(rid) && rid < |s.world.realms|
    requires s.world.realms[rid].alive
    ensures HandleEvent(SiteAt(s.world, rid), rid, s.display, CLICK_CALLBACK).delivery == Delivery(true, true)
  {
    hide WorldOK, Agrees, Shows, SiteOK, Live, Writable, OnElement, Perform, Deliver, Decimal, Holds;
    var site := SiteAt(s.world, rid);
    NamedExists(s, rid);
    AliveHasDocument(site, rid);
    HeldIsWritable(s.display.counter, site);
    WritableMeansOk(site, rid, s.display.counter.button, NextText(s.display.counter));
  }

  // No other step of the world counts.
  lemma OthersDoNotCount(s: System, step: WorldStep)
    requires SystemOK(s) && Holdings(s) && Private(s, Elsewhere(step))
    requires forall rid: nat :: !OwnClick(s, step, rid)
    ensures var s' := DoElsewhere(s, step);
            s'.display == s.display && Accepted(s'.heard) == Accepted(s.heard)
  {
    hide SystemOK, Holdings, Private, Next, Decimal, Live, Hears, OwnClick, HandleEvent, Permitted;
    if Permitted(s, step) {
      WorldHoldings(s, step);
      var s1 := s.(world := Next(s.world, step));
      var call := Heard(s, step, s1.world.blink.trace != s.world.blink.trace);
      if call.Some? && call.value.0 < |s1.world.realms| {
        var r, token := call.value.0, call.value.1;
        HearsParts(s1, r, token);
        var d := HandleEvent(SiteAt(s1.world, r), r, s1.display, token).delivery;
        NotAccepted(s1, r, token);
        if d.accepted { AcceptedIsOwn(s, step, r, token); }
        assert (s.heard + [d])[..|s.heard|] == s.heard;
      }
    }
  }

  lemma NotAccepted(s: System, rid: nat, token: CallbackToken)
    requires rid < |s.world.realms|
    ensures var h := HandleEvent(SiteAt(s.world, rid), rid, s.display, token);
            && (!h.delivery.accepted ==> h.display == s.display)
            && (h.delivery.accepted ==> s.display.counter.realm == Some(rid))
  {
    hide Perform, Decimal;
  }

  lemma AcceptedIsOwn(s: System, step: WorldStep, r: nat, token: CallbackToken)
    requires SystemOK(s) && Holdings(s)
    requires Heard(s, step, Next(s.world, step).blink.trace != s.world.blink.trace) == Some((r, token))
    requires s.display.counter.realm == Some(r)
    ensures OwnClick(s, step, r)
  {
    hide WorldOK, Agrees, Shows, SiteOK, Live, Writable, OnElement, MayDispatch, Holds;
    EventOutcome(s.world, step.listener, step.context, step.hasEvent);
    var rid: nat :| MayDispatch(s.world, step.listener, rid, step.context);
    NamedExists(s, r);
    assert Holds(s.display.counter, SiteAt(s.world, r));
    OnlySubscription(s.display.counter, s.world, step.listener, rid, step.context, r);
  }

  lemma OnlySubscription(c: Counter, w: World, l: nat, rid: nat, context: Option<nat>, r: nat)
    requires MayDispatch(w, l, rid, context) && l < |w.blink.listeners| && w.blink.listeners[l].realm == Some(r)
    requires r < |w.realms| && Holds(c, SiteAt(w, r))
    ensures r == rid && w.realms[r].alive && c.subscription in Live(w.realms[r].subs)
    ensures Live(w.realms[r].subs)[c.subscription].token.at.listener == l
  {
    hide Live, Writable, OnElement;
  }

  // After any run in which hosted realms are called only by their counters: a step of the
  // world is counted if and only if it delivers an event, in the document's own context, to
  // the listener of the started counter's subscription while the realm is alive. Then one
  // more click is accepted, and the button's text gives the clicks accepted since the start.
  lemma ClicksExactly(s0: System, steps: seq<HostStep>, step: WorldStep)
    requires InitialSystem(s0) && PrivateRun(s0, steps) && Private(RunSystem(s0, steps), Elsewhere(step))
    ensures var s := RunSystem(s0, steps);
            var s' := NextSystem(s, Elsewhere(step));
            && (forall rid: nat :: OwnClick(s, step, rid) ==>
                  && Accepted(s'.heard) == Accepted(s.heard) + 1
                  && s'.display.counter.count == Accepted(s'.heard) % (UINT32_MAX + 1)
                  && rid < |s'.world.realms|
                  && Displays(SiteAt(s'.world, rid), s'.display.counter.button,
                              CountText(Accepted(s'.heard) % (UINT32_MAX + 1))))
            && ((forall rid: nat :: !OwnClick(s, step, rid)) ==>
                  s'.display == s.display && Accepted(s'.heard) == Accepted(s.heard))
  {
    hide InitialSystem, RunSystem, PrivateRun, SystemOK, Holdings, Private, DoElsewhere, Displays, Decimal, OwnClick;
    StartsHolding(s0);
    PrivateRunKeeps(s0, steps);
    var s := RunSystem(s0, steps);
    var s' := NextSystem(s, Elsewhere(step));
    if rid: nat :| OwnClick(s, step, rid) {
      OwnClickCounts(s, step, rid);
      assert (s.heard + [Delivery(true, true)])[..|s.heard|] == s.heard;
      NextSystemKeeps(s, Elsewhere(step));
      NextHoldings(s, Elsewhere(step));
      AllUpdates(s');
      ShowsClicks(s');
      NamedExists(s', rid);
      OwnRealm(s, step, rid);
    } else {
      OthersDoNotCount(s, step);
    }
  }

  lemma OwnRealm(s: System, step: WorldStep, rid: nat)
    requires OwnClick(s, step, rid)
    ensures forall r: nat :: OwnClick(s, step, r) ==> r == rid
  {
    hide Live;
  }

  // A started counter in a living realm always has such a listener.
  lemma ClickListens(s0: System, steps: seq<HostStep>, rid: nat)
    requires InitialSystem(s0) && PrivateRun(s0, steps)
    ensures var s := RunSystem(s0, steps);
            s.display.counter.realm == Some(rid) && rid < |s.world.realms| && s.world.realms[rid].alive ==>
              && s.display.counter.subscription in Live(s.world.realms[rid].subs)
              && var l := Live(s.world.realms[rid].subs)[s.display.counter.subscription].token.at.listener;
              && l in s.world.blink.accepted && l < |s.world.blink.listeners|
              && s.world.blink.listeners[l] == Listener(Some(rid), CallbackToken(1, 1))
              && s.world.realms[rid].dispatch
  {
    hide InitialSystem, RunSystem, PrivateRun, WorldOK, Agrees, Shows, SiteOK, Live, Writable, OnElement;
    StartsHolding(s0);
    PrivateRunKeeps(s0, steps);
    var s := RunSystem(s0, steps);
    if s.display.counter.realm == Some(rid) && rid < |s.world.realms| && s.world.realms[rid].alive {
      NamedExists(s, rid);
      SubscriptionPoints(SiteAt(s.world, rid), rid, s.display.counter.subscription);
    }
  }

  // ----- what becomes of a host's realm -----

  // The realm was destroyed, in order, and nothing of it is left.
  ghost predicate Destroyed(w: World, rid: nat) {
    && rid < |w.realms| == |w.observers| && w.realms[rid].freed && w.observers[rid].None?
    && Emptied(SiteAt(w, rid), rid)
    && Effect.Invalidated(rid) in w.blink.trace && DroppedDocument(rid) in w.blink.trace && Freed(rid) in w.blink.trace
  }

  lemma FreedIsDestroyed(w: World, rid: nat)
    requires WorldOK(w) && rid < |w.realms| && w.realms[rid].freed
    ensures Destroyed(w, rid)
  {
    hide Emptied, BlinkOK, Linked, PointsTo, Inv, Interned;
    assert SiteOK(SiteAt(w, rid), rid);
    DeadIsEmptied(SiteAt(w, rid), rid);
  }

  // Deleting a started host destroys its realm and leaves the counter idle.
  lemma HostDestroyed(s0: System, steps: seq<HostStep>, i: nat)
    requires InitialSystem(s0)
    ensures var s := RunSystem(s0, steps);
            var s' := NextSystem(s, DestroyHost(i));
            i < |s.hosts| && s.hosts[i].Some? ==>
              && Destroyed(s'.world, s.hosts[i].value)
              && s'.hosts == s.hosts[i := None] && s'.display.counter == IDLE
  {
    hide InitialSystem, RunSystem, SystemOK, DoDestroyHost, Destroyed;
    ReachableSystem(s0, steps);
    var s := RunSystem(s0, steps);
    if i < |s.hosts| && s.hosts[i].Some? {
      var s' := NextSystem(s, DestroyHost(i));
      NextSystemKeeps(s, DestroyHost(i));
      DestroyedHost(s, i);
      SystemWorld(s');
      FreedIsDestroyed(s'.world, s.hosts[i].value);
    }
  }

  lemma SystemWorld(s: System)
    requires SystemOK(s)
    ensures WorldOK(s.world)
  {
    hide WorldOK, Agrees, Shows;
  }

  lemma DestroyedHost(s: System, i: nat)
    requires SystemOK(s) && i < |s.hosts| && s.hosts[i].Some?
    ensures var rid := s.hosts[i].value;
            var s' := DoDestroyHost(s, i);
            && rid < |s.world.realms| == |s'.world.realms| && s'.world.realms[rid].freed
            && s'.hosts == s.hosts[i := None] && s'.display.counter == IDLE && s'.made == s.made
            && forall r :: 0 <= r < |s.world.realms| && r != rid ==> s'.world.realms[r] == s.world.realms[r]
  {
    hide WorldOK, Shows, Quit;
    StoppedAgrees(s.display.counter, s.hosts, i);
    QuitKeeps(s.world, s.hosts[i].value, s.display.counter);
    QuitFrees(SiteAt(s.world, s.hosts[i].value), s.hosts[i].value, s.display.counter);
  }

  // Every realm a host ever made is freed exactly when no host holds it.
  ghost predicate MadeOK(s: System) {
    forall rid :: rid in s.made ==> rid < |s.world.realms| && (s.world.realms[rid].freed <==> !Hosted(s, rid))
  }

  // There is no other started host.
  lemma OneHost(s: System, s': System, i: nat, rid: nat, r: nat)
    requires SystemOK(s) && i < |s.hosts| && s.hosts[i] == Some(rid) && s'.hosts == s.hosts[i := None]
    ensures Hosted(s, r) ==> r == rid
    ensures !Hosted(s', r)
  {
    hide WorldOK, Shows;
  }

  lemma DestroyMade(s: System, i: nat)
    requires SystemOK(s) && MadeOK(s)
    ensures MadeOK(DoDestroyHost(s, i))
  {
    hide SystemOK, DoDestroyHost, Hosted;
    if i < |s.hosts| && s.hosts[i].Some? {
      var s' := DoDestroyHost(s, i);
      DestroyedHost(s, i);
      forall rid | rid in s'.made
        ensures rid < |s'.world.realms| && (s'.world.realms[rid].freed <==> !Hosted(s', rid))
      {
        OneHost(s, s', i, s.hosts[i].value, rid);
      }
    } else {
      assert DoDestroyHost(s, i) == s by { NoSuchHost(s, i); }
    }
  }

  lemma NoSuchHost(s: System, i: nat)
    ensures i >= |s.hosts| || s.hosts[i].None? ==> DoDestroyHost(s, i) == s
  {
    hide Quit;
  }

  // A host that is started holds its new realm; one that is not has destroyed it again.
  lemma StartMade(s: System, document: Option<nat>, hostAlloc: bool, realmAlloc: bool, c: StartChoices)
    requires SystemOK(s)
    ensures var s' := DoStartHost(s, document, hostAlloc, realmAlloc, c);
            && |s.world.realms| <= |s'.world.realms|
            && (forall r: nat :: r in s'.made <==> r in s.made || |s.world.realms| <= r < |s'.world.realms|)
            && (forall r :: 0 <= r < |s.world.realms| ==> s'.world.realms[r] == s.world.realms[r])
            && (forall r: nat :: r < |s.world.realms| ==> (Hosted(s', r) <==> Hosted(s, r)))
            && (forall r :: |s.world.realms| <= r < |s'.world.realms| ==>
                  (s'.world.realms[r].freed <==> !Hosted(s', r)))
  {
    hide WorldOK, Launch, Shows, DoCreate, SiteOK;
    var w := s.world;
    var alloc := realmAlloc && hostAlloc;
    CreatedWorld(w, document, alloc);
    OnlyAppends(w, document, alloc);
    var w1 := DoCreate(w, document, true, alloc);
    if |w1.realms| != |w.realms| {
      var rid := |w.realms|;
      LaunchKeeps(w, w1, rid, document.value, s.display.counter, c);
      LaunchFrees(w.blink, w.roots, rid, document.value, s.display.counter, c);
      var s' := DoStartHost(s, document, hostAlloc, realmAlloc, c);
      if Launch(w.blink, w.roots, rid, document.value, s.display.counter, c).success {
        assert s'.hosts[|s.hosts|] == Some(rid);
        forall r: nat | r < rid ensures Hosted(s', r) <==> Hosted(s, r) { AppendedHost(s, s', rid, r); }
      } else {
        HostsOlder(s, rid);
        assert s'.hosts == s.hosts;
      }
    }
  }

  lemma OnlyAppends(w: World, document: Option<nat>, alloc: bool)
    ensures var w1 := DoCreate(w, document, true, alloc);
            |w.realms| <= |w1.realms| && forall r :: 0 <= r < |w.realms| ==> w1.realms[r] == w.realms[r]
  {
  }

  lemma AppendedHost(s: System, s': System, rid: nat, r: nat)
    requires s'.hosts == s.hosts + [Some(rid)] && r != rid
    ensures Hosted(s', r) <==> Hosted(s, r)
  {
    if Hosted(s, r) {
      var i :| 0 <= i < |s.hosts| && s.hosts[i] == Some(r);
      assert s'.hosts[i] == Some(r);
    }
  }

  lemma HostsOlder(s: System, rid: nat)
    requires SystemOK(s) && rid >= |s.world.realms|
    ensures !Hosted(s, rid)
  {
    hide WorldOK, Shows;
  }

  lemma ElsewhereMade(s: System, step: WorldStep)
    requires SystemOK(s) && MadeOK(s)
    ensures MadeOK(DoElsewhere(s, step))
  {
    hide WorldOK, Agrees, Shows, Next, Hosted, HandleEvent, Exists;
    if Permitted(s, step) {
      ElsewhereKeeps(s, step);
      var s1 := s.(world := Next(s.world, step));
      forall rid | rid in s.made
        ensures rid < |s1.world.realms| && (s1.world.realms[rid].freed <==> !Hosted(s1, rid))
      {
        ElsewhereFreed(s, step, rid);
        SameHosts(s, s1, rid);
      }
      var call := Heard(s, step, s1.world.blink.trace != s.world.blink.trace);
      if call.Some? && call.value.0 < |s1.world.realms| {
        HandledWorld(s1.world, call.value.0, s1.display, call.value.1);
        var s2 := Hears(s1, call.value.0, call.value.1);
        assert s2.world.realms == s1.world.realms;
        forall rid: nat ensures Hosted(s2, rid) <==> Hosted(s1, rid) { SameHosts(s1, s2, rid); }
      }
    }
  }

  lemma SameHosts(s: System, s': System, rid: nat)
    requires s'.hosts == s.hosts
    ensures Hosted(s', rid) <==> Hosted(s, rid)
  {
  }

  lemma ElsewhereFreed(s: System, step: WorldStep, rid: nat)
    requires SystemOK(s) && Permitted(s, step) && rid < |s.world.realms|
    requires s.world.realms[rid].freed <==> !Hosted(s, rid)
    ensures rid < |Next(s.world, step).realms| && (Next(s.world, step).realms[rid].freed <==> !Hosted(s, rid))
  {
    hide WorldOK, Agrees, Shows, Next, Hosted, Evolves;
    NextEvolves(s.world, step, rid);
    if Hosted(s, rid) { OthersExist(s.world, step, rid); }
  }

  lemma NextMade(s: System, step: HostStep)
    requires SystemOK(s) && MadeOK(s)
    ensures MadeOK(NextSystem(s, step))
  {
    hide SystemOK, DoStartHost, DoDestroyHost, DoElsewhere, Hosted;
    match step
    case StartHost(document, hostAlloc, realmAlloc, c) => StartMade(s, document, hostAlloc, realmAlloc, c);
    case DestroyHost(i) => DestroyMade(s, i);
    case Elsewhere(step) => ElsewhereMade(s, step);
  }

  lemma {:induction false} RunMade(s: System, steps: seq<HostStep>)
    requires SystemOK(s) && MadeOK(s)
    ensures SystemOK(RunSystem(s, steps)) && MadeOK(RunSystem(s, steps))
    decreases |steps|
  {
    hide SystemOK, NextSystem, MadeOK;
    if steps == [] {
    } else {
      NextSystemKeeps(s, steps[0]);
      NextMade(s, steps[0]);
      RunMade(NextSystem(s, steps[0]), steps[1..]);
    }
  }

  // Over every run, each realm that a host ever made is still there exactly while a host
  // holds it; otherwise it was destroyed, and nothing of it is left. A realm is a host's
  // from the attempt that made it on.
  lemma HostRealms(s0: System, steps: seq<HostStep>, rid: nat)
    requires InitialSystem(s0)
    ensures var s := RunSystem(s0, steps);
            rid in s.made ==>
              && rid < |s.world.realms|
              && (Hosted(s, rid) ==> !s.world.realms[rid].freed)
              && (!Hosted(s, rid) ==> Destroyed(s.world, rid))
    ensures forall document, hostAlloc, realmAlloc, c ::
              var s := RunSystem(s0, steps);
              var s' := NextSystem(s, StartHost(document, hostAlloc, realmAlloc, c));
              forall r: nat :: |s.world.realms| <= r < |s'.world.realms| ==> r in s'.made
  {
    InitialOK(s0.world);
    hide Initial, RunSystem, SystemOK, Hosted, Destroyed, DoStartHost;
    RunMade(s0, steps);
    var s := RunSystem(s0, steps);
    SystemWorld(s);
    if rid in s.made && !Hosted(s, rid) { FreedIsDestroyed(s.world, rid); }
    forall document, hostAlloc, realmAlloc, c ensures
      var s' := NextSystem(s, StartHost(document, hostAlloc, realmAlloc, c));
      forall r: nat :: |s.world.realms| <= r < |s'.world.realms| ==> r in s'.made
    {
      StartMade(s, document, hostAlloc, realmAlloc, c);
    }
  }

  // ----- when a host starts -----

  // After any run, an attempt starts a host exactly when there is a document with an
  // execution context, memory for host and realm, no other host started, and the counter's
  // nine calls can succeed. Then the host holds a new realm, named by the counter, whose
  // click count is 0; otherwise hosts and counter stay as they are.
  lemma HostStarts(s0: System, steps: seq<HostStep>, document: Option<nat>, hostAlloc: bool, realmAlloc: bool,
                   c: StartChoices)
    requires InitialSystem(s0)
    ensures var s := RunSystem(s0, steps);
            var s' := NextSystem(s, StartHost(document, hostAlloc, realmAlloc, c));
            if && document.Some? && document.value in s.world.blink.contexts && hostAlloc && realmAlloc
               && (forall i :: 0 <= i < |s.hosts| ==> s.hosts[i].None?)
               && Favourable(s.world.blink, document.value, c)
            then
              && s'.hosts == s.hosts + [Some(|s.world.realms|)] && |s'.world.realms| == |s.world.realms| + 1
              && s'.display.counter.active && s'.display.counter.realm == Some(|s.world.realms|)
              && s'.display.counter.count == 0 && s'.display.shown == CountText(0) && s'.heard == []
            else s'.hosts == s.hosts && s'.display == s.display && s'.heard == s.heard
  {
    hide InitialSystem, RunSystem, WorldOK, Shows, Launch, DoCreate, Favourable, SiteOK;
    ReachableSystem(s0, steps);
    var s := RunSystem(s0, steps);
    var w, alloc := s.world, realmAlloc && hostAlloc;
    CreatedWorld(w, document, alloc);
    CreatedExactly(w, document, alloc);
    if document.Some? { FavourableDocument(w.blink, document.value, c); }
    var w1 := DoCreate(w, document, true, alloc);
    if |w1.realms| != |w.realms| {
      LaunchKeeps(w, w1, |w.realms|, document.value, s.display.counter, c);
      LaunchExactly(w1, w, document.value, s.display.counter, c);
    }
  }

  lemma CreatedExactly(w: World, document: Option<nat>, alloc: bool)
    ensures |DoCreate(w, document, true, alloc).realms| == |w.realms| + 1 <==>
              && document.Some? && document.value in w.blink.contexts && alloc
              && ClassOf(w.blink.dom, document.value) == DocumentClass
    ensures |DoCreate(w, document, true, alloc).realms| != |w.realms| + 1 ==> DoCreate(w, document, true, alloc) == w
  {
  }

  lemma FavourableDocument(b: Blink, document: nat, c: StartChoices)
    ensures Favourable(b, document, c) ==> ClassOf(b.dom, document) == DocumentClass
  {
    Chain(ClassOf(b.dom, document));
  }

  lemma LaunchExactly(w1: World, w: World, document: nat, counter: Counter, c: StartChoices)
    requires |w.realms| < |w1.realms| && w1.blink == w.blink && SiteOK(SiteAt(w1, |w.realms|), |w.realms|)
    requires SiteAt(w1, |w.realms|) == Site(NewRealm(document, true), w.blink, w.roots)
    ensures Launch(w.blink, w.roots, |w.realms|, document, counter, c).success <==>
              !counter.active && Favourable(w.blink, document, c)
  {
    hide SiteOK, Start, FreeRealm, Favourable;
    StartsInNewRealm(w.blink, w.roots, |w.realms|, document, true, counter, c);
  }

  // ----- one event -----

  // The event handler in full, also for a button whose handle is gone.
  lemma EventAnswers(s: Site, rid: nat, d: Display, token: CallbackToken)
    requires SiteOK(s, rid) && !s.realm.freed
    ensures var h := HandleEvent(s, rid, d, token);
            var counter, count := d.counter, (d.counter.count + 1) % (UINT32_MAX + 1);
            if !counter.active || counter.failed || counter.realm != Some(rid) || token != CallbackToken(1, 1)
               || !s.realm.alive
            then h.site == s && h.display == d
            else if !Writable(s, counter.button) then
              h.site == s && h.display == Display(counter.(count := count, failed := true), d.shown)
            else
              && h.display == Display(counter.(count := count), CountText(count))
              && h.site.realm == s.realm
              && (OnElement(s, counter.button) ==> Displays(h.site, counter.button, CountText(count)))
  {
    hide SiteOK, Live, Writable, OnElement, Perform, Decimal, Displays;
    AliveHasDocument(s, rid);
    var text := NextText(d.counter);
    CountTextFits((d.counter.count + 1) % (UINT32_MAX + 1));
    WritableMeansOk(s, rid, d.counter.button, text);
    VoidCallsTakeNothing(s, rid, SetText(d.counter.button, text));
    if s.realm.alive {
      RefusalKeepsSite(s, rid, d.counter.button, text);
      if Writable(s, d.counter.button) && OnElement(s, d.counter.button) {
        TextDisplayed(s, rid, d.counter.button, text);
      }
    }
  }

  lemma RefusalKeepsSite(s: Site, rid: nat, h: Handle, text: string)
    requires SiteOK(s, rid) && s.realm.alive
    ensures Perform(s, rid, true, SetText(h, text)).status != Ok ==> Perform(s, rid, true, SetText(h, text)).site == s
  {
    hide SiteOK, Perform;
    RefusedText(s, rid, h, true, text);
  }
}
