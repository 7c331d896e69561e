/** The counter host of chromium/bridge/nts_blink_counter_host.cc over the whole system: any
    sequence of starting and destroying hosts, overlapping attempts included, interleaved
    with everything else a page and other realms may do. */
module Hosts {
  import opened Abi
  import opened TableInvariant
  import opened HandleMap
  import opened TableLaws
  import opened WebTypes
  import opened Bridge
  import opened BridgeInvariant
  import opened SiteLaws
  import opened CapsuleLaws
  import opened Teardown
  import opened Worlds
  import opened Counters
  import opened CounterText

  // The world, the counter's static state with the text it last wrote, the hosts ever
  // allocated (each with its realm pointer; None once deleted), the realms hosts ever made,
  // and the events the counter heard since it was last started.
  datatype System = System(
    world: World,
    display: Display,
    hosts: seq<Option<nat>>,
    made: set<nat>,
    heard: seq<Delivery>)

  datatype HostStep =
    | StartHost(document: Option<nat>, hostAlloc: bool, realmAlloc: bool, choices: StartChoices)
    | DestroyHost(host: nat)
    | Elsewhere(step: WorldStep)

  // ----- one host -----

  // The constructor once it has a realm: start the counter, or destroy the realm.
  ghost function Launch(b: Blink, roots: Roots, rid: nat, document: nat, counter: Counter, c: StartChoices): Started {
    var r := Start(Site(NewRealm(document, true), b, roots), rid, counter, c);
    if r.success then r else Started(FreeRealm(r.site, rid), r.counter, false)
  }

  // The destructor of a started host.
  ghost function Quit(s: Site, rid: nat, counter: Counter): Stopped {
    var r := Stop(s, rid, counter);
    Stopped(FreeRealm(r.site, rid), r.counter)
  }

  // Either way the realm is destroyed in the end, unless the start succeeded.
  lemma LaunchFrees(b: Blink, roots: Roots, rid: nat, document: nat, counter: Counter, c: StartChoices)
    ensures var l := Launch(b, roots, rid, document, counter, c);
            !l.success ==> l.site.realm.freed
  {
    hide Start, InvalidateRealm;
  }

  lemma QuitFrees(s: Site, rid: nat, counter: Counter)
    ensures Quit(s, rid, counter).site.realm.freed
  {
    hide Stop, InvalidateRealm;
  }

  // ----- the system -----

  function DetachObserver(w: World, rid: nat): World {
    if rid < |w.observers| then w.(observers := w.observers[rid := None]) else w
  }

  predicate Hosted(s: System, rid: nat) {
    exists i :: 0 <= i < |s.hosts| && s.hosts[i] == Some(rid)
  }

  // A realm is destroyed by whoever created it; a host keeps its pointer to itself.
  predicate Permitted(s: System, step: WorldStep) {
    step.DestroyWebRealm? ==> !Hosted(s, step.rid)
  }

  ghost function DoStartHost(s: System, document: Option<nat>, hostAlloc: bool, realmAlloc: bool,
                             c: StartChoices): System {
    var w := s.world;
    var w1 := DoCreate(w, document, true, realmAlloc && hostAlloc);
    if document.None? || |w1.realms| == |w.realms| then s
    else
      var rid := |w.realms|;
      var l := Launch(w.blink, w.roots, rid, document.value, s.display.counter, c);
      var w2 := WithSite(w1, rid, l.site);
      if l.success then System(w2, Display(l.counter, CountText(0)), s.hosts + [Some(rid)], s.made + {rid}, [])
      else s.(world := DetachObserver(w2, rid), display := s.display.(counter := l.counter), made := s.made + {rid})
  }

  // nts_counter_stop follows the static realm pointer, then the host destroys its own realm.
  ghost function DoDestroyHost(s: System, host: nat): System {
    if host >= |s.hosts| || s.hosts[host].None? then s
    else
      var rid := s.hosts[host].value;
      var w := s.world;
      if !Exists(w, rid)
         || (s.display.counter.active && s.display.counter.realm != Some(rid)) then
        s.(world := w.(fault := true))
      else
        var r := Quit(SiteAt(w, rid), rid, s.display.counter);
        System(DetachObserver(WithSite(w, rid, r.site), rid), s.display.(counter := r.counter),
               s.hosts[host := None], s.made, s.heard)
  }

  // The realm and the token of the event that was just dispatched, if one was.
  function Heard(s: System, step: WorldStep, dispatched: bool): Option<(nat, CallbackToken)> {
    if step.Event? && dispatched && step.listener < |s.world.blink.listeners|
       && s.world.blink.listeners[step.listener].realm.Some? then
      Some((s.world.blink.listeners[step.listener].realm.value, s.world.blink.listeners[step.listener].token))
    else None
  }

  // The counter's handler runs.
  ghost function Hears(s: System, rid: nat, token: CallbackToken): System
    requires rid < |s.world.realms|
  {
    var h := HandleEvent(SiteAt(s.world, rid), rid, s.display, token);
    System(WithSite(s.world, rid, h.site), h.display, s.hosts, s.made, s.heard + [h.delivery])
  }

  ghost function DoElsewhere(s: System, step: WorldStep): System {
    if !Permitted(s, step) then s
    else
      var s1 := s.(world := Next(s.world, step));
      match Heard(s, step, s1.world.blink.trace != s.world.blink.trace)
      case Some(call) => if call.0 < |s1.world.realms| then Hears(s1, call.0, call.1) else s1
      case None => s1
  }

  ghost function NextSystem(s: System, step: HostStep): System {
    match step
    case StartHost(document, hostAlloc, realmAlloc, c) => DoStartHost(s, document, hostAlloc, realmAlloc, c)
    case DestroyHost(i) => DoDestroyHost(s, i)
    case Elsewhere(step) => DoElsewhere(s, step)
  }

  ghost function RunSystem(s: System, steps: seq<HostStep>): System
    decreases |steps|
  {
    if steps == [] then s else RunSystem(NextSystem(s, steps[0]), steps[1..])
  }

  ghost predicate InitialSystem(s: System) {
    Initial(s.world) && s.display.counter == IDLE && s.hosts == [] && s.made == {} && s.heard == []
  }

  // ----- agreement -----

  // The counter is active exactly while one host is started, and then names its realm.
  ghost predicate Agrees(counter: Counter, hosts: seq<Option<nat>>) {
    && (counter.active <==> exists i :: 0 <= i < |hosts| && hosts[i].Some?)
    && (forall i :: 0 <= i < |hosts| && hosts[i].Some? ==> counter.realm == hosts[i])
    && (forall i, j :: 0 <= i < |hosts| && 0 <= j < |hosts| && hosts[i].Some? && hosts[j].Some? ==> i == j)
    && (!counter.active ==> counter == IDLE)
  }

  // Count and text are what the events heard since the start have made of them.
  ghost predicate Shows(s: System) {
    s.display.counter.active ==>
      s.display == DeliverAll(Display(s.display.counter.(count := 0, failed := false), CountText(0)), s.heard)
  }

  ghost predicate SystemOK(s: System) {
    && WorldOK(s.world)
    && Agrees(s.display.counter, s.hosts)
    && (forall rid :: s.display.counter.realm == Some(rid) ==> Exists(s.world, rid))
    && Shows(s)
  }

  // ----- starting -----

  lemma FreedSite(w: World, rid: nat, s: Site)
    requires WorldOK(w) && rid < |w.realms| && !w.realms[rid].freed && SiteOK(s, rid) && Touches(rid, w.blink, s.blink)
    requires w.blink.trace <= s.blink.trace && !s.realm.freed
    ensures WorldOK(DetachObserver(WithSite(w, rid, FreeRealm(s, rid)), rid))
  {
    hide SiteOK, Touches, FreeRealm, Dead, Bare, Gone, PointsTo, BlinkOK;
    PutKeeps(w, rid, s);
    var w1 := WithSite(w, rid, s);
    DestroyKeeps(w1, rid);
    assert SiteAt(w1, rid) == s;
    assert w1.realms[rid := FreeRealm(s, rid).realm] == w.realms[rid := FreeRealm(s, rid).realm];
  }

  lemma CreatedWorld(w: World, document: Option<nat>, alloc: bool)
    requires WorldOK(w)
    ensures var w1 := DoCreate(w, document, true, alloc);
            && WorldOK(w1) && |w1.observers| == |w1.realms|
            && (w1 != w ==> document.Some? && |w1.realms| == |w.realms| + 1 && w1.blink == w.blink)
            && (|w1.realms| != |w.realms| ==>
                  SiteAt(w1, |w.realms|) == Site(NewRealm(document.value, true), w.blink, w.roots)
                  && SiteOK(SiteAt(w1, |w.realms|), |w.realms|))
            && (forall r: nat :: Exists(w, r) ==> Exists(w1, r))
  {
    hide SiteOK, BlinkOK, Dead, Bare, Gone, PointsTo;
    CreateKeeps(w, document, true, alloc);
  }

  // A host is started only while none is.
  lemma StartedAgrees(counter: Counter, counter': Counter, hosts: seq<Option<nat>>, rid: nat)
    requires Agrees(counter, hosts) && !counter.active && counter'.active && counter'.realm == Some(rid)
    ensures Agrees(counter', hosts + [Some(rid)])
  {
    assert (hosts + [Some(rid)])[|hosts|].Some?;
  }

  lemma JustHeard(counter: Counter)
    requires counter.count == 0 && !counter.failed
    ensures Display(counter, CountText(0)) ==
            DeliverAll(Display(counter.(count := 0, failed := false), CountText(0)), [])
  {
  }

  lemma LaunchKeeps(w: World, w1: World, rid: nat, document: nat, counter: Counter, c: StartChoices)
    requires WorldOK(w1) && rid < |w1.realms| && SiteOK(SiteAt(w1, rid), rid) && w1.blink == w.blink
    requires SiteAt(w1, rid) == Site(NewRealm(document, true), w.blink, w.roots)
    ensures var l := Launch(w.blink, w.roots, rid, document, counter, c);
            var w2 := WithSite(w1, rid, l.site);
            && WorldOK(if l.success then w2 else DetachObserver(w2, rid))
            && (!l.success ==> l.counter == counter)
            && (l.success ==> !counter.active && l.counter.active && l.counter.realm == Some(rid)
                              && l.counter.count == 0 && !l.counter.failed && !l.site.realm.freed)
  {
    hide SiteOK, Touches, Dead, Bare, Gone, PointsTo, BlinkOK, Start, FreeRealm, Live;
    StartConserves(SiteAt(w1, rid), rid, counter, c);
    var r := Start(SiteAt(w1, rid), rid, counter, c);
    if r.success { PutKeeps(w1, rid, r.site); } else { FreedSite(w1, rid, r.site); }
  }

  lemma StartHostKeeps(s: System, document: Option<nat>, hostAlloc: bool, realmAlloc: bool, c: StartChoices)
    requires SystemOK(s)
    ensures SystemOK(DoStartHost(s, document, hostAlloc, realmAlloc, c))
  {
    hide WorldOK, Launch, Agrees, DoCreate, SiteOK, DeliverAll;
    var w := s.world;
    CreatedWorld(w, document, realmAlloc && hostAlloc);
    var w1 := DoCreate(w, document, true, realmAlloc && hostAlloc);
    if |w1.realms| != |w.realms| {
      var rid := |w.realms|;
      LaunchKeeps(w, w1, rid, document.value, s.display.counter, c);
      var l := Launch(w.blink, w.roots, rid, document.value, s.display.counter, c);
      if l.success {
        StartedAgrees(s.display.counter, l.counter, s.hosts, rid);
        JustHeard(l.counter);
      }
    }
  }

  // ----- destroying -----

  lemma StoppedAgrees(counter: Counter, hosts: seq<Option<nat>>, i: nat)
    requires Agrees(counter, hosts) && i < |hosts| && hosts[i].Some?
    ensures counter.active && counter.realm == hosts[i]
    ensures Agrees(IDLE, hosts[i := None])
  {
  }

  lemma QuitKeeps(w: World, rid: nat, counter: Counter)
    requires WorldOK(w) && Exists(w, rid) && counter.active && counter.realm == Some(rid)
    ensures Quit(SiteAt(w, rid), rid, counter).counter == IDLE
    ensures WorldOK(DetachObserver(WithSite(w, rid, Quit(SiteAt(w, rid), rid, counter).site), rid))
  {
    hide SiteOK, Touches, Dead, Bare, Gone, PointsTo, BlinkOK, Stop, FreeRealm, Live, DropEdge;
    assert SiteOK(SiteAt(w, rid), rid);
    StopConserves(SiteAt(w, rid), rid, counter);
    FreedSite(w, rid, Stop(SiteAt(w, rid), rid, counter).site);
  }

  lemma DestroyHostKeeps(s: System, host: nat)
    requires SystemOK(s)
    ensures SystemOK(DoDestroyHost(s, host))
  {
    hide WorldOK, Quit, Agrees, DeliverAll;
    if host < |s.hosts| && s.hosts[host].Some? {
      StoppedAgrees(s.display.counter, s.hosts, host);
      QuitKeeps(s.world, s.hosts[host].value, s.display.counter);
    }
  }

  // ----- everything else -----

  // Only DestroyWebRealm ends a realm.
  lemma OthersExist(w: World, step: WorldStep, rid: nat)
    requires WorldOK(w) && Exists(w, rid) && (step.DestroyWebRealm? ==> step.rid != rid)
    ensures Exists(Next(w, step), rid)
  {
    hide SiteOK, BlinkOK, Dead, Bare, Gone, PointsTo, Perform, InvalidateRealm, FreeRealm, Touches;
    match step
    case CallRealm(r, current, call) =>
      if Exists(w, r) {
        assert SiteOK(SiteAt(w, r), r);
        PerformKeeps(SiteAt(w, r), r, current, call);
      }
    case InvalidateWebRealm(r) => if Exists(w, r) { InvalidateFreed(SiteAt(w, r), r); }
    case ContextDestroyed(o) => if o < |w.observers| && w.observers[o].Some? { InvalidateFreed(SiteAt(w, o), o); }
    case _ =>
  }

  lemma InvalidateFreed(s: Site, rid: nat)
    ensures InvalidateRealm(s, rid).realm.freed == s.realm.freed
  {
  }

  lemma HeardMore(d: Display, d0: Display, heard: seq<Delivery>, e: Delivery)
    requires d == DeliverAll(d0, heard)
    ensures Deliver(d, e) == DeliverAll(d0, heard + [e])
  {
    assert (heard + [e])[..|heard|] == heard;
  }

  lemma DeliverSameLife(d: Display, e: Delivery)
    ensures var c := Deliver(d, e).counter;
            c == d.counter.(count := c.count, failed := c.failed)
    ensures !d.counter.active ==> Deliver(d, e) == d
  {
    hide Decimal;
  }

  // The handler may write to the page, but leaves the realm and its tables alone.
  lemma HandledWorld(w: World, rid: nat, d: Display, token: CallbackToken)
    requires WorldOK(w) && rid < |w.realms|
    ensures var h := HandleEvent(SiteAt(w, rid), rid, d, token);
            && WorldOK(WithSite(w, rid, h.site)) && h.site.realm == w.realms[rid]
            && w.blink.dom.classes <= h.site.blink.dom.classes && TokensKept(w.blink, h.site.blink)
  {
    hide SiteOK, BlinkOK, Dead, Bare, Gone, PointsTo, Perform, Deliver, Touches, TokensKept;
    TokensRefl(w.blink, w.blink);
    var site := SiteAt(w, rid);
    var call := SetText(d.counter.button, NextText(d.counter));
    assert SiteOK(site, rid);
    VoidCallsTakeNothing(site, rid, call);
    AliveHasDocument(site, rid);
    assert w.realms[rid := w.realms[rid]] == w.realms;
    if HandleEvent(site, rid, d, token).site != site {
      AliveExists(w, rid);
      PerformFollows(site, rid, true, call);
      TouchesClasses(rid, w.blink, Perform(site, rid, true, call).site.blink);
      PutKeeps(w, rid, Perform(site, rid, true, call).site);
    }
  }

  lemma AliveExists(w: World, rid: nat)
    requires WorldOK(w) && rid < |w.realms| && w.realms[rid].alive
    ensures !w.realms[rid].freed
  {
    hide BlinkOK, Linked, Dead, Bare, Gone, PointsTo;
    assert SiteOK(SiteAt(w, rid), rid);
  }

  lemma HearsKeeps(s: System, rid: nat, token: CallbackToken)
    requires SystemOK(s) && rid < |s.world.realms|
    ensures SystemOK(Hears(s, rid, token))
  {
    hide WorldOK, Deliver, DeliverAll, Decimal, Perform;
    HandledWorld(s.world, rid, s.display, token);
    var e := HandleEvent(SiteAt(s.world, rid), rid, s.display, token).delivery;
    DeliverSameLife(s.display, e);
    if s.display.counter.active {
      HeardMore(s.display, Display(s.display.counter.(count := 0, failed := false), CountText(0)), s.heard, e);
    }
  }

  lemma ElsewhereKeeps(s: System, step: WorldStep)
    requires SystemOK(s)
    ensures SystemOK(DoElsewhere(s, step))
    ensures Permitted(s, step) ==> SystemOK(s.(world := Next(s.world, step)))
  {
    hide WorldOK, Agrees, Deliver, DeliverAll, Next, Exists, Hears, Decimal;
    if Permitted(s, step) {
      NextKeeps(s.world, step);
      forall rid | s.display.counter.realm == Some(rid) ensures Exists(Next(s.world, step), rid) {
        NamedIsHosted(s, rid);
        OthersExist(s.world, step, rid);
      }
      var s1 := s.(world := Next(s.world, step));
      var call := Heard(s, step, s1.world.blink.trace != s.world.blink.trace);
      if call.Some? && call.value.0 < |s1.world.realms| { HearsKeeps(s1, call.value.0, call.value.1); }
    }
  }

  lemma NamedIsHosted(s: System, rid: nat)
    requires Agrees(s.display.counter, s.hosts) && s.display.counter.realm == Some(rid)
    ensures Hosted(s, rid)
  {
    var i :| 0 <= i < |s.hosts| && s.hosts[i].Some?;
  }

  lemma NextSystemKeeps(s: System, step: HostStep)
    requires SystemOK(s)
    ensures SystemOK(NextSystem(s, step))
  {
    hide SystemOK, DoStartHost, DoDestroyHost, DoElsewhere;
    match step
    case StartHost(document, hostAlloc, realmAlloc, c) => StartHostKeeps(s, document, hostAlloc, realmAlloc, c);
    case DestroyHost(i) => DestroyHostKeeps(s, i);
    case Elsewhere(step) => ElsewhereKeeps(s, step);
  }

  lemma {:induction false} RunSystemKeeps(s: System, steps: seq<HostStep>)
    requires SystemOK(s)
    ensures SystemOK(RunSystem(s, steps))
    decreases |steps|
  {
    hide SystemOK, NextSystem;
    if steps == [] {
    } else {
      NextSystemKeeps(s, steps[0]);
      RunSystemKeeps(NextSystem(s, steps[0]), steps[1..]);
    }
  }

  lemma ReachableSystem(s0: System, steps: seq<HostStep>)
    requires InitialSystem(s0)
    ensures SystemOK(RunSystem(s0, steps))
  {
    InitialOK(s0.world);
    hide Initial, WorldOK;
    RunSystemKeeps(s0, steps);
  }

  // ----- the theorems -----

  // After any run the static counter state is active exactly while one started host exists,
  // and then it names that host's realm, which was not freed: it never outlives the realm.
  lemma HostAgreement(s0: System, steps: seq<HostStep>)
    requires InitialSystem(s0)
    ensures var s := RunSystem(s0, steps);
            && !s.world.fault
            && (s.display.counter.active <==> exists i :: 0 <= i < |s.hosts| && s.hosts[i].Some?)
            && (forall i :: 0 <= i < |s.hosts| && s.hosts[i].Some? ==>
                  s.display.counter.realm == s.hosts[i] && Exists(s.world, s.hosts[i].value))
            && (forall i, j :: 0 <= i < |s.hosts| && 0 <= j < |s.hosts| ==>
                  s.hosts[i].Some? && s.hosts[j].Some? ==> i == j)
            && (!s.display.counter.active ==> s.display.counter == IDLE)
  {
    hide InitialSystem, RunSystem, Shows, SiteOK, BlinkOK, Dead, Bare, Gone, PointsTo;
    ReachableSystem(s0, steps);
  }

  // After any run, as long as no update has failed, the text a started counter last wrote is
  // the number of clicks accepted since the start, modulo 2^32.
  lemma PageShowsClicks(s0: System, steps: seq<HostStep>)
    requires InitialSystem(s0)
    ensures var s := RunSystem(s0, steps);
            s.display.counter.active
            && (forall k :: 0 <= k < |s.heard| && s.heard[k].accepted ==> s.heard[k].updates) ==>
              && !s.display.counter.failed
              && s.display.counter.count == Accepted(s.heard) % (UINT32_MAX + 1)
              && s.display.shown == CountText(s.display.counter.count)
  {
    hide InitialSystem, RunSystem, SystemOK, Accepted, Decimal;
    ReachableSystem(s0, steps);
    var s := RunSystem(s0, steps);
    if forall k :: 0 <= k < |s.heard| && s.heard[k].accepted ==> s.heard[k].updates { ShowsClicks(s); }
  }

  lemma ShowsClicks(s: System)
    requires SystemOK(s) && forall k :: 0 <= k < |s.heard| && s.heard[k].accepted ==> s.heard[k].updates
    ensures s.display.counter.active ==>
              && !s.display.counter.failed
              && s.display.counter.count == Accepted(s.heard) % (UINT32_MAX + 1)
              && s.display.shown == CountText(s.display.counter.count)
  {
    hide WorldOK, Agrees, Accepted, DeliverAll, Decimal;
    if s.display.counter.active {
      ShowsCount(Display(s.display.counter.(count := 0, failed := false), CountText(0)), s.heard);
    }
  }

  // ----- what a started host holds -----

  // As long as a hosted realm is called only by its own counter.
  predicate Private(s: System, step: HostStep) {
    step.Elsewhere? && step.step.CallRealm? ==> !Hosted(s, step.step.rid)
  }

  ghost predicate PrivateRun(s: System, steps: seq<HostStep>)
    decreases |steps|
  {
    steps == [] || (Private(s, steps[0]) && PrivateRun(NextSystem(s, steps[0]), steps[1..]))
  }

  // One reference to the button's node, one click subscription on that node, nothing else;
  // and the button takes text.
  ghost predicate Holds(c: Counter, site: Site) {
    site.realm.alive ==>
      && c.button.generation != 0 && c.button in Live(site.realm.nodes)
      && Live(site.realm.nodes)[c.button].references == 1
      && Live(site.realm.nodes) == map[c.button := Live(site.realm.nodes)[c.button]]
      && c.subscription.generation != 0 && c.subscription in Live(site.realm.subs)
      && Live(site.realm.subs) == map[c.subscription := Live(site.realm.subs)[c.subscription]]
      && Live(site.realm.subs)[c.subscription].token.at.target == Live(site.realm.nodes)[c.button].token.at
      && HearsClicks(site.blink, Live(site.realm.subs)[c.subscription].token.at)
      && site.realm.dispatch
      && Writable(site, c.button) && OnElement(site, c.button)
  }

  ghost predicate Holdings(s: System) {
    && (forall rid :: s.display.counter.realm == Some(rid) && rid < |s.world.realms| ==>
          Holds(s.display.counter, SiteAt(s.world, rid)))
    && (forall k :: 0 <= k < |s.heard| && s.heard[k].accepted ==> s.heard[k].updates)
  }

  lemma FreshHolds(b: Blink, roots: Roots, rid: nat, document: nat, counter: Counter, r: Started)
    requires Conserves(Site(NewRealm(document, true), b, roots), rid, counter, r) && r.success
    ensures Holds(r.counter, r.site)
  {
    hide Live, Follows, Writable, OnElement, Emptied;
    SameDispatch(Site(NewRealm(document, true), b, roots), r.site, rid);
    EmptyLaw<NodePointer>(true);
    EmptyLaw<RootPointer>(true);
  }

  lemma SameDispatch(s0: Site, s: Site, rid: nat)
    requires Follows(s0, s, rid)
    ensures s.realm.alive ==> s.realm.dispatch == s0.realm.dispatch
  {
    hide SiteOK, Touches, TokensKept;
  }

  lemma HoldsOn(c: Counter, s: Site, s': Site, rid: nat)
    requires SiteOK(s, rid) && !s.realm.freed && Holds(c, s)
    requires s'.realm == s.realm || !s'.realm.alive
    requires s.blink.dom.classes <= s'.blink.dom.classes && TokensKept(s.blink, s'.blink)
    ensures Holds(c, s')
  {
    hide Live, SiteOK, Writable, OnElement;
    if s'.realm.alive { StillWritable(s, s', rid, c.button); }
  }

  // What happens elsewhere changes a realm only by invalidating it.
  lemma ElsewhereRealm(w: World, step: WorldStep, rid: nat)
    requires WorldOK(w) && rid < |w.realms|
    requires !(step.CallRealm? && step.rid == rid) && !(step.DestroyWebRealm? && step.rid == rid)
    ensures var w' := Next(w, step);
            && rid < |w'.realms| && (w'.realms[rid] == w.realms[rid] || !w'.realms[rid].alive)
            && w.blink.dom.classes <= w'.blink.dom.classes && TokensKept(w.blink, w'.blink)
  {
    hide SiteOK, BlinkOK, Dead, Bare, Gone, PointsTo, Perform, InvalidateRealm, FreeRealm, Touches, Emptied, TokensKept;
    NextTokens(w, step);
    match step
    case CallRealm(r, current, call) =>
      if Exists(w, r) {
        assert SiteOK(SiteAt(w, r), r);
        PerformKeeps(SiteAt(w, r), r, current, call);
        TouchesClasses(r, w.blink, Perform(SiteAt(w, r), r, current, call).site.blink);
      }
    case InvalidateWebRealm(r) => if Exists(w, r) { InvalidatedSite(w, r); }
    case ContextDestroyed(o) => if o < |w.observers| && w.observers[o].Some? { InvalidatedSite(w, o); }
    case DestroyWebRealm(r) =>
      if Exists(w, r) {
        assert SiteOK(SiteAt(w, r), r);
        FreeKeepsSite(SiteAt(w, r), r);
        TouchesClasses(r, w.blink, FreeRealm(SiteAt(w, r), r).blink);
      }
    case _ =>
  }

  lemma TouchesClasses(rid: nat, b: Blink, b': Blink)
    requires Touches(rid, b, b')
    ensures b.dom.classes <= b'.dom.classes
  {
  }

  lemma InvalidatedSite(w: World, rid: nat)
    requires WorldOK(w) && Exists(w, rid)
    ensures !InvalidateRealm(SiteAt(w, rid), rid).realm.alive
    ensures w.blink.dom.classes <= InvalidateRealm(SiteAt(w, rid), rid).blink.dom.classes
  {
    hide SiteOK, BlinkOK, Dead, Bare, Gone, PointsTo, InvalidateRealm, Touches;
    assert SiteOK(SiteAt(w, rid), rid);
    InvalidateKeepsSite(SiteAt(w, rid), rid);
    TouchesClasses(rid, w.blink, InvalidateRealm(SiteAt(w, rid), rid).blink);
  }

  // Every accepted click finds a button it can write to.
  lemma HearsHoldings(s: System, rid: nat, token: CallbackToken)
    requires SystemOK(s) && Holdings(s) && rid < |s.world.realms|
    ensures Holdings(Hears(s, rid, token))
  {
    hide SiteOK, WorldOK, Agrees, Shows, Live, Writable, OnElement, Perform, Deliver, Holds;
    var site := SiteAt(s.world, rid);
    var h := HandleEvent(site, rid, s.display, token);
    HandledWorld(s.world, rid, s.display, token);
    DeliverSameLife(s.display, h.delivery);
    if h.delivery.accepted {
      SiteOf(s.world, rid);
      HeldIsWritable(s.display.counter, site);
      WritableMeansOk(site, rid, s.display.counter.button, NextText(s.display.counter));
    }
    forall r | s.display.counter.realm == Some(r) && r < |s.world.realms|
      ensures Holds(h.display.counter, SiteAt(Hears(s, rid, token).world, r))
    {
      SiteOf(s.world, r);
      HoldsOn(s.display.counter, SiteAt(s.world, r), SiteAt(Hears(s, rid, token).world, r), r);
      SameHandles(s.display.counter, h.display.counter, SiteAt(Hears(s, rid, token).world, r));
    }
  }

  lemma HeldIsWritable(c: Counter, s: Site)
    requires Holds(c, s) && s.realm.alive
    ensures Writable(s, c.button) && OnElement(s, c.button)
  {
    hide Live, Writable, OnElement;
  }

  // Before the counter's handler runs, if it does.
  lemma WorldHoldings(s: System, step: WorldStep)
    requires SystemOK(s) && Holdings(s) && Private(s, Elsewhere(step)) && Permitted(s, step)
    ensures var s1 := s.(world := Next(s.world, step));
            SystemOK(s1) && Holdings(s1)
  {
    hide WorldOK, Agrees, Next, Shows, Holds, Hosted, DoElsewhere;
    var s1 := s.(world := Next(s.world, step));
    forall rid | s.display.counter.realm == Some(rid) && rid < |s1.world.realms|
      ensures Holds(s.display.counter, SiteAt(s1.world, rid))
    {
      NamedIsHosted(s, rid);
      ElsewhereRealm(s.world, step, rid);
      SiteOf(s.world, rid);
      HoldsOn(s.display.counter, SiteAt(s.world, rid), SiteAt(s1.world, rid), rid);
    }
    ElsewhereKeeps(s, step);
  }

  lemma ElsewhereHoldings(s: System, step: WorldStep)
    requires SystemOK(s) && Holdings(s) && Private(s, Elsewhere(step))
    ensures Holdings(DoElsewhere(s, step))
  {
    hide SystemOK, Holdings, Private, Permitted, Next, Hears;
    if Permitted(s, step) {
      WorldHoldings(s, step);
      var s1 := s.(world := Next(s.world, step));
      var call := Heard(s, step, s1.world.blink.trace != s.world.blink.trace);
      if call.Some? && call.value.0 < |s1.world.realms| { HearsHoldings(s1, call.value.0, call.value.1); }
    }
  }

  lemma SiteOf(w: World, rid: nat)
    requires WorldOK(w) && Exists(w, rid)
    ensures SiteOK(SiteAt(w, rid), rid) && !SiteAt(w, rid).realm.freed
  {
    hide SiteOK, BlinkOK, Dead, Bare, Gone, PointsTo;
  }

  lemma SameHandles(c: Counter, c': Counter, s: Site)
    requires Holds(c, s) && c' == c.(count := c'.count, failed := c'.failed)
    ensures Holds(c', s)
  {
    hide Live, Writable, OnElement;
  }

  lemma LaunchClasses(w: World, w1: World, rid: nat, document: nat, counter: Counter, c: StartChoices)
    requires WorldOK(w1) && rid < |w1.realms| && SiteOK(SiteAt(w1, rid), rid) && w1.blink == w.blink
    requires SiteAt(w1, rid) == Site(NewRealm(document, true), w.blink, w.roots)
    ensures var l := Launch(w.blink, w.roots, rid, document, counter, c);
            && w.blink.dom.classes <= l.site.blink.dom.classes && TokensKept(w.blink, l.site.blink)
            && (l.success ==> Holds(l.counter, l.site))
  {
    hide SiteOK, Touches, Dead, Bare, Gone, PointsTo, BlinkOK, Start, FreeRealm, Live, Holds, WorldOK, Emptied,
         Writable, OnElement;
    StartConserves(SiteAt(w1, rid), rid, counter, c);
    var r := Start(SiteAt(w1, rid), rid, counter, c);
    TouchesClasses(rid, w.blink, r.site.blink);
    if r.success {
      FreshHolds(w.blink, w.roots, rid, document, counter, r);
    } else {
      FreeKeepsSite(r.site, rid);
      TouchesClasses(rid, r.site.blink, FreeRealm(r.site, rid).blink);
      FreeTokens(r.site, rid);
    }
  }

  lemma StartHostHoldings(s: System, document: Option<nat>, hostAlloc: bool, realmAlloc: bool, c: StartChoices)
    requires SystemOK(s) && Holdings(s)
    ensures Holdings(DoStartHost(s, document, hostAlloc, realmAlloc, c))
  {
    hide WorldOK, Launch, Agrees, SiteOK, Shows, Holds;
    var w := s.world;
    CreatedWorld(w, document, realmAlloc && hostAlloc);
    var w1 := DoCreate(w, document, true, realmAlloc && hostAlloc);
    if |w1.realms| != |w.realms| {
      var rid := |w.realms|;
      LaunchClasses(w, w1, rid, document.value, s.display.counter, c);
      LaunchKeeps(w, w1, rid, document.value, s.display.counter, c);
      var s' := DoStartHost(s, document, hostAlloc, realmAlloc, c);
      if !Launch(w.blink, w.roots, rid, document.value, s.display.counter, c).success {
        forall r | s.display.counter.realm == Some(r) && r < |s'.world.realms|
          ensures Holds(s'.display.counter, SiteAt(s'.world, r))
        {
          SiteOf(w, r);
          HoldsOn(s.display.counter, SiteAt(w, r), SiteAt(s'.world, r), r);
        }
      }
    }
  }

  lemma NextHoldings(s: System, step: HostStep)
    requires SystemOK(s) && Holdings(s) && Private(s, step)
    ensures Holdings(NextSystem(s, step))
  {
    hide DoStartHost, DoElsewhere, Quit, Holds, WorldOK, Shows;
    match step
    case StartHost(document, hostAlloc, realmAlloc, c) => StartHostHoldings(s, document, hostAlloc, realmAlloc, c);
    case DestroyHost(i) =>
      if i < |s.hosts| && s.hosts[i].Some? {
        StoppedAgrees(s.display.counter, s.hosts, i);
        QuitKeeps(s.world, s.hosts[i].value, s.display.counter);
      }
    case Elsewhere(step) => ElsewhereHoldings(s, step);
  }

  lemma {:induction false} PrivateRunKeeps(s: System, steps: seq<HostStep>)
    requires SystemOK(s) && Holdings(s) && PrivateRun(s, steps)
    ensures SystemOK(RunSystem(s, steps)) && Holdings(RunSystem(s, steps))
    decreases |steps|
  {
    hide SystemOK, NextSystem, Holdings, Private;
    if steps == [] {
    } else {
      NextSystemKeeps(s, steps[0]);
      NextHoldings(s, steps[0]);
      PrivateRunKeeps(NextSystem(s, steps[0]), steps[1..]);
    }
  }

  // After any run in which hosted realms are called only by their counters, a started host's
  // realm holds exactly one reference, to the button, and one click subscription, on it; or
  // nothing at all if it was invalidated. No update ever fails, so the text last
  // written gives the number of accepted clicks.
  lemma StartedHostHolds(s0: System, steps: seq<HostStep>, rid: nat)
    requires InitialSystem(s0) && PrivateRun(s0, steps)
    ensures var s := RunSystem(s0, steps);
            s.display.counter.realm == Some(rid) ==>
              && Exists(s.world, rid)
              && Holds(s.display.counter, SiteAt(s.world, rid))
              && (!s.world.realms[rid].alive ==> Emptied(SiteAt(s.world, rid), rid))
              && !s.display.counter.failed
              && s.display.shown == CountText(Accepted(s.heard) % (UINT32_MAX + 1))
  {
    hide InitialSystem, RunSystem, WorldOK, Accepted, DeliverAll, Decimal, Holds, Emptied, PrivateRun, SystemOK;
    StartsHolding(s0);
    PrivateRunKeeps(s0, steps);
    PageShowsClicks(s0, steps);
    var s := RunSystem(s0, steps);
    if s.display.counter.realm == Some(rid) {
      NamedExists(s, rid);
      if !s.world.realms[rid].alive { DeadIsEmptied(SiteAt(s.world, rid), rid); }
    }
  }

  lemma NamedExists(s: System, rid: nat)
    requires SystemOK(s) && s.display.counter.realm == Some(rid)
    ensures s.display.counter.active && Exists(s.world, rid) && SiteOK(SiteAt(s.world, rid), rid)
  {
    hide WorldOK, Shows, SiteOK;
    SiteOf(s.world, rid);
  }

  lemma StartsHolding(s0: System)
    requires InitialSystem(s0)
    ensures SystemOK(s0) && Holdings(s0)
  {
    InitialOK(s0.world);
    hide Initial, WorldOK;
  }

  lemma TextDisplayed(s: Site, rid: nat, h: Handle, text: string)
    requires SiteOK(s, rid) && s.realm.alive && Writable(s, h) && OnElement(s, h) && text != ""
    ensures var r := Perform(s, rid, true, SetText(h, text));
            r.status == Ok && Displays(r.site, h, text)
  {
    AliveSite(s, rid);
    WritableMeansOk(s, rid, h, text);
    TextReplaced(s, rid, h, true, text);
    hide SiteOK, Live, Perform, Writable, OnElement, HoldsText, Names, Displays;
    var r := Perform(s, rid, true, SetText(h, text));
    var n: nat :| Names(s, h, n) && HoldsText(s.blink.dom, r.site.blink.dom, n, text);
    DisplaysText(s, r.site, h, n, text);
  }

  lemma DisplaysText(s: Site, s': Site, h: Handle, n: nat, text: string)
    requires Names(s, h, n) && OnElement(s, h) && s'.realm == s.realm && text != ""
    requires HoldsText(s.blink.dom, s'.blink.dom, n, text)
    ensures Displays(s', h, text)
  {
    hide Live, IsA, IsTextOf;
    var t := |s.blink.dom.classes|;
    assert Names(s', h, n) && s'.blink.dom.children[n] == [t] && IsTextOf(s'.blink.dom, t, n, text);
  }

  lemma AliveSite(s: Site, rid: nat)
    requires SiteOK(s, rid) && s.realm.alive
    ensures !s.realm.freed
  {
    hide BlinkOK, Linked, Inv, Interned, Dead, Bare, Gone;
  }

  // A click that the counter hears and accepts is written to the page: afterwards the
  // button's element holds one text node, and its text is what the counter shows.
  lemma HeardIsWritten(s: System, rid: nat, token: CallbackToken)
    requires SystemOK(s) && Holdings(s) && rid < |s.world.realms|
    ensures var h := HandleEvent(SiteAt(s.world, rid), rid, s.display, token);
            h.delivery.accepted ==>
              && s.display.counter.realm == Some(rid) && h.display.counter.button == s.display.counter.button
              && Displays(SiteAt(Hears(s, rid, token).world, rid), s.display.counter.button, h.display.shown)
  {
    hide WorldOK, Agrees, SiteOK, Holds, Perform, Displays, Decimal, Live, Writable, OnElement, Shows;
    var site := SiteAt(s.world, rid);
    var h := HandleEvent(site, rid, s.display, token);
    if h.delivery.accepted {
      NamedExists(s, rid);
      ShowsClicks(s);
      CountTextFits((s.display.counter.count + 1) % (UINT32_MAX + 1));
      HeldIsWritable(s.display.counter, site);
      TextDisplayed(site, rid, s.display.counter.button, NextText(s.display.counter));
      VoidCallsTakeNothing(site, rid, SetText(s.display.counter.button, NextText(s.display.counter)));
    }
  }

  // After any run in which hosted realms are called only by their counters, the next click
  // that the counter accepts leaves one text node in its button, which gives the number of
  // clicks accepted since the start.
  lemma ClickIsWritten(s0: System, steps: seq<HostStep>, step: WorldStep, rid: nat)
    requires InitialSystem(s0) && PrivateRun(s0, steps) && Private(RunSystem(s0, steps), Elsewhere(step))
    ensures var s := RunSystem(s0, steps);
            var s' := NextSystem(s, Elsewhere(step));
            && s.heard <= s'.heard
            && (|s.heard| < |s'.heard| && s'.heard[|s.heard|].accepted && s'.display.counter.realm == Some(rid) ==>
                  && rid < |s'.world.realms|
                  && Displays(SiteAt(s'.world, rid), s'.display.counter.button,
                              CountText(Accepted(s'.heard) % (UINT32_MAX + 1))))
  {
    hide InitialSystem, RunSystem, PrivateRun, SystemOK, Holdings, Private, Next, Displays, Decimal, Accepted,
         Permitted;
    StartsHolding(s0);
    PrivateRunKeeps(s0, steps);
    var s := RunSystem(s0, steps);
    ElsewhereHoldings(s, step);
    NextSystemKeeps(s, Elsewhere(step));
    var s' := NextSystem(s, Elsewhere(step));
    AllUpdates(s');
    ShowsClicks(s');
    if Permitted(s, step) {
      WorldHoldings(s, step);
      var s1 := s.(world := Next(s.world, step));
      var call := Heard(s, step, s1.world.blink.trace != s.world.blink.trace);
      if call.Some? && call.value.0 < |s1.world.realms| {
        HeardIsWritten(s1, call.value.0, call.value.1);
        var r := call.value.0;
        DeliverSameLife(s1.display, HandleEvent(SiteAt(s1.world, r), r, s1.display, call.value.1).delivery);
        if s'.display.counter.realm == Some(rid) { NamedExists(s', rid); }
      }
    }
  }

  lemma AllUpdates(s: System)
    requires Holdings(s)
    ensures forall k :: 0 <= k < |s.heard| && s.heard[k].accepted ==> s.heard[k].updates
  {
    hide Holds;
  }

  // Stopping then gives everything back before the realm is destroyed: its teardown finds
  // nothing left to drop.
  lemma QuitReturnsAll(s: Site, rid: nat, counter: Counter)
    requires SiteOK(s, rid) && !s.realm.freed && counter.active && counter.realm == Some(rid) && Holds(counter, s)
    ensures var r := Stop(s, rid, counter);
            r.counter == IDLE && Live(r.site.realm.nodes) == map[] && Live(r.site.realm.subs) == map[]
  {
    hide SiteOK, Live, Touches, Stop, Emptied, Writable, OnElement;
    StopConserves(s, rid, counter);
    if s.realm.alive {
      assert Live(s.realm.subs) - {counter.subscription} == map[];
      assert Live(s.realm.nodes) - {counter.button} == map[];
    } else {
      DeadIsEmptied(Stop(s, rid, counter).site, rid);
      EmptiedMaps(Stop(s, rid, counter).site, rid);
    }
  }

  lemma EmptiedMaps(s: Site, rid: nat)
    requires Emptied(s, rid)
    ensures Live(s.realm.nodes) == map[] && Live(s.realm.subs) == map[]
  {
    hide Live, NoneAttached, PointsTo;
  }
}
