/** The counter client as the C program runs it: nine calls with an early way out, the
    cleanup ladder, the event handler and stop, on the static state. Proved against the
    functions of Counters and CounterText. */
module CounterClients {
  import opened Abi
  import opened Bridge
  import opened BridgeInvariant
  import opened Counters
  import opened CounterText
  import opened RealmObjects

  // The cleanup on five named handles, in its order.
  ghost function Rungs(s: Site, rid: nat, click: Handle, taken: Handle, heading: Handle, body: Handle,
                       document: Handle): Site {
    ReleaseIfLive(ReleaseIfLive(ReleaseIfLive(ReleaseIfLive(
      DisposeIfLive(s, rid, click), rid, taken), rid, heading), rid, body), rid, document)
  }

  // It releases the handles taken so far, last one first.
  lemma Ladder(s: Site, rid: nat, click: Handle, held: seq<Handle>)
    requires |held| <= 4
    ensures ReleaseAll(DisposeIfLive(s, rid, click), rid, held) ==
            Rungs(s, rid, click, Nth(held, 3), Nth(held, 2), Nth(held, 1), Nth(held, 0))
  {
    LadderOfFour(DisposeIfLive(s, rid, click), rid, held);
    hide Perform;
  }

  lemma LadderOfFour(s: Site, rid: nat, held: seq<Handle>)
    requires |held| <= 4
    ensures ReleaseAll(s, rid, held) ==
            ReleaseIfLive(ReleaseIfLive(ReleaseIfLive(ReleaseIfLive(
              s, rid, Nth(held, 3)), rid, Nth(held, 2)), rid, Nth(held, 1)), rid, Nth(held, 0))
  {
    hide Perform;
    LadderFrom(s, rid, held);
    if |held| > 0 {
      var a := held[..|held| - 1];
      LadderFrom(ReleaseIfLive(s, rid, held[|held| - 1]), rid, a);
      if |a| > 0 {
        var b := a[..|a| - 1];
        var s2 := ReleaseIfLive(ReleaseIfLive(s, rid, held[|held| - 1]), rid, a[|a| - 1]);
        LadderFrom(s2, rid, b);
        if |b| > 0 {
          var s3 := ReleaseIfLive(s2, rid, b[|b| - 1]);
          LadderFrom(s3, rid, b[..|b| - 1]);
          if |b| > 1 {
            var d := b[..|b| - 1];
            LadderFrom(ReleaseIfLive(s3, rid, d[|d| - 1]), rid, d[..|d| - 1]);
          }
        }
      }
    }
  }

  lemma StartOutcome(s: Site, rid: nat, counter: Counter, c: StartChoices, p: Progress)
    requires p == Acquire(s, rid, c) && !counter.active && IsAlive(s.realm, true)
    requires |p.held| <= 4 && (p.going ==> |p.held| >= 3)
    ensures Counters.Start(s, rid, counter, c) ==
            if p.going then
              Started(Rungs(p.site, rid, NULL_HANDLE, NULL_HANDLE, Nth(p.held, 2), Nth(p.held, 1), Nth(p.held, 0)),
                      Counter(Some(rid), Nth(p.held, 3), p.subscription, 0, true, false), true)
            else
              Started(Rungs(p.site, rid, p.subscription, Nth(p.held, 3), Nth(p.held, 2), Nth(p.held, 1),
                            Nth(p.held, 0)), counter, false)
  {
    hide Acquire, ReleaseAll, Rungs;
    Ladder(p.site, rid, NULL_HANDLE, p.held[..if |p.held| < 3 then |p.held| else 3]);
    Ladder(p.site, rid, p.subscription, p.held);
  }

  lemma LadderFrom(s: Site, rid: nat, held: seq<Handle>)
    ensures held == [] ==> ReleaseAll(s, rid, held) == s
    ensures held != [] ==>
              ReleaseAll(s, rid, held) ==
              ReleaseAll(ReleaseIfLive(s, rid, held[|held| - 1]), rid, held[..|held| - 1])
  {
    hide Perform;
  }

  // Once a step has failed, the later ones do nothing.
  lemma HeadingSteps(s: Site, rid: nat, c: StartChoices)
    ensures var p1 := TakeHandle(Progress(s, [], NULL_HANDLE, true), rid, WebDocument(c.document), c.cut == 0);
            var p2 := RequireLast(TakeHandle(p1, rid, WebBody(Nth(p1.held, 0), c.body), c.cut == 1));
            var p3 := TakeHandle(p2, rid, CreateHeading(Nth(p2.held, 0), c), c.cut == 2);
            var p4 := TakeVoid(p3, rid, SetText(Nth(p3.held, 2), HEADING_TEXT), c.cut == 3);
            AcquireHeading(s, rid, c) ==
              if !p1.going then p1 else if !p2.going then p2 else if !p3.going then p3 else p4
  {
    hide Counters.Ask;
  }

  lemma ButtonSteps(p4: Progress, rid: nat, c: StartChoices)
    requires p4.going
    ensures var p5 := TakeHandle(p4, rid, CreateButton(Nth(p4.held, 0), c), c.cut == 4);
            var p6 := TakeVoid(p5, rid, SetText(Nth(p5.held, 3), FIRST_TEXT), c.cut == 5);
            var p7 := TakeSubscription(p6, rid, ListenForClicks(Nth(p6.held, 3), c), c.cut == 6);
            var p8 := TakeVoid(p7, rid, WebAppendChild(Nth(p7.held, 1), Nth(p7.held, 2)), c.cut == 7);
            var p9 := TakeVoid(p8, rid, WebAppendChild(Nth(p8.held, 1), Nth(p8.held, 3)), c.cut == 8);
            AcquireButton(p4, rid, c) ==
              if !p5.going then p5 else if !p6.going then p6 else if !p7.going then p7 else if !p8.going then p8 else p9
  {
    hide Counters.Ask;
  }

  lemma FollowsOK(s0: Site, s: Site, rid: nat)
    requires Follows(s0, s, rid)
    ensures SiteOK(s, rid)
  {
    hide SiteOK, Touches;
  }

  class CounterClient {
    var realm: NtsWebRealm?
    var button: Handle
    var clickSubscription: Handle
    var count: nat
    var active: bool
    var failed: bool
    // The text last written to the button.
    ghost var shown: string

    ghost function View(): Counter
      reads this
    {
      Counter(if realm == null then None else Some(realm.id), button, clickSubscription, count, active, failed)
    }

    constructor ()
      ensures View() == IDLE
    {
      realm, button, clickSubscription := null, NULL_HANDLE, NULL_HANDLE;
      count, active, failed := 0, false, false;
    }

    method ReleaseHandle(r: NtsWebRealm, h: Handle)
      requires r.Valid()
      modifies r.Footprint()
      ensures r.Valid() && fresh(r.Footprint() - old(r.Footprint()))
      ensures r.Here() == ReleaseIfLive(old(r.Here()), r.id, h)
    {
      hide NtsWebRealm.Valid, Perform;
      if h.generation == 0 { return; }
      var status := r.WebRelease(true, h);
    }

    method DisposeHandle(r: NtsWebRealm, h: Handle)
      requires r.Valid()
      modifies r.Footprint()
      ensures r.Valid() && fresh(r.Footprint() - old(r.Footprint()))
      ensures r.Here() == DisposeIfLive(old(r.Here()), r.id, h)
    {
      hide NtsWebRealm.Valid, Perform;
      if h.generation == 0 { return; }
      var status := r.WebDispose(true, h);
    }

    // One call; `cut` when the realm is invalidated during it.
    method Ask(r: NtsWebRealm, call: Call, cut: bool) returns (status: Status, handle: Handle)
      requires r.Valid() && SiteOK(r.Here(), r.id)
      modifies r.Footprint()
      ensures r.Valid() && fresh(r.Footprint() - old(r.Footprint()))
      ensures Reply(r.Here(), status, handle) == Counters.Ask(old(r.Here()), r.id, call, cut)
      ensures SiteOK(r.Here(), r.id)
    {
      hide NtsWebRealm.Valid, NtsWebRealm.View, Perform, InvalidateRealm, SiteOK, Touches, Follows;
      r.StillThere();
      AskFollows(r.Here(), r.id, call, cut);
      FollowsOK(r.Here(), Counters.Ask(r.Here(), r.id, call, cut).site, r.id);
      status, handle := r.Invoke(call);
      if cut { r.Invalidate(); }
    }

    // nts_take_handle_result: the handle of a call that succeeded.
    method TakeNode(r: NtsWebRealm, call: Call, cut: bool, ghost p: Progress)
      returns (ok: bool, handle: Handle, ghost q: Progress)
      requires r.Valid() && SiteOK(r.Here(), r.id) && p.going && p.site == r.Here()
      modifies r.Footprint()
      ensures r.Valid() && fresh(r.Footprint() - old(r.Footprint())) && SiteOK(r.Here(), r.id)
      ensures q == TakeHandle(p, r.id, call, cut) && q.site == r.Here() && q.going == ok
      ensures q.held == (if ok then p.held + [handle] else p.held) && q.subscription == p.subscription
      ensures !ok ==> handle == NULL_HANDLE
    {
      hide NtsWebRealm.Valid, Counters.Ask, SiteOK;
      q := TakeHandle(p, r.id, call, cut);
      var status;
      status, handle := Ask(r, call, cut);
      ok := status == Ok;
      if !ok { handle := NULL_HANDLE; }
    }

    // nts_take_void_result.
    method TakeNothing(r: NtsWebRealm, call: Call, cut: bool, ghost p: Progress) returns (ok: bool, ghost q: Progress)
      requires r.Valid() && SiteOK(r.Here(), r.id) && p.going && p.site == r.Here()
      modifies r.Footprint()
      ensures r.Valid() && fresh(r.Footprint() - old(r.Footprint())) && SiteOK(r.Here(), r.id)
      ensures q == TakeVoid(p, r.id, call, cut) && q.site == r.Here() && q.going == ok
      ensures q.held == p.held && q.subscription == p.subscription
    {
      hide NtsWebRealm.Valid, Counters.Ask, SiteOK;
      q := TakeVoid(p, r.id, call, cut);
      var status, _ := Ask(r, call, cut);
      ok := status == Ok;
    }

    // nts_take_subscription_result.
    method TakeClick(r: NtsWebRealm, call: Call, cut: bool, ghost p: Progress)
      returns (ok: bool, click: Handle, ghost q: Progress)
      requires r.Valid() && SiteOK(r.Here(), r.id) && p.going && p.site == r.Here() && p.subscription == NULL_HANDLE
      modifies r.Footprint()
      ensures r.Valid() && fresh(r.Footprint() - old(r.Footprint())) && SiteOK(r.Here(), r.id)
      ensures q == TakeSubscription(p, r.id, call, cut) && q.site == r.Here() && q.going == ok
      ensures q.held == p.held && q.subscription == click
    {
      hide NtsWebRealm.Valid, Counters.Ask, SiteOK;
      q := TakeSubscription(p, r.id, call, cut);
      var status;
      status, click := Ask(r, call, cut);
      ok := status == Ok;
      if !ok { click := NULL_HANDLE; }
    }

    // Document, body, heading and its text; without `p.going` it is the way to the cleanup.
    method TakeHeading(r: NtsWebRealm, c: StartChoices)
      returns (going: bool, document: Handle, body: Handle, heading: Handle, ghost p: Progress)
      requires r.Valid() && SiteOK(r.Here(), r.id)
      modifies r.Footprint()
      ensures r.Valid() && fresh(r.Footprint() - old(r.Footprint())) && SiteOK(r.Here(), r.id)
      ensures p == AcquireHeading(old(r.Here()), r.id, c) && p.site == r.Here() && p.going == going
      ensures |p.held| <= 3 && document == Nth(p.held, 0) && body == Nth(p.held, 1) && heading == Nth(p.held, 2)
    {
      hide NtsWebRealm.Valid, NtsWebRealm.View, NtsWebRealm.Here, SiteOK, TakeHandle, TakeVoid, Counters.Ask,
           AcquireHeading;
      HeadingSteps(r.Here(), r.id, c);
      document, body, heading := NULL_HANDLE, NULL_HANDLE, NULL_HANDLE;
      p := Progress(r.Here(), [], NULL_HANDLE, true);
      going, document, p := TakeNode(r, WebDocument(c.document), c.cut == 0, p);
      if !going { return; }
      going, body, p := TakeNode(r, WebBody(document, c.body), c.cut == 1, p);
      p := RequireLast(p);
      if !going || body.generation == 0 { going := false; return; }
      going, heading, p := TakeNode(r, CreateHeading(document, c), c.cut == 2, p);
      if !going { return; }
      going, p := TakeNothing(r, SetText(heading, HEADING_TEXT), c.cut == 3, p);
    }

    // Button, its text, the click listener, and both elements appended.
    method TakeButton(r: NtsWebRealm, c: StartChoices, document: Handle, body: Handle, heading: Handle,
                      ghost before: Progress)
      returns (going: bool, taken: Handle, click: Handle, ghost p: Progress)
      requires r.Valid() && SiteOK(r.Here(), r.id) && before.going && before.site == r.Here()
      requires |before.held| == 3 && before.held == [document, body, heading] && before.subscription == NULL_HANDLE
      modifies r.Footprint()
      ensures r.Valid() && fresh(r.Footprint() - old(r.Footprint()))
      ensures p == AcquireButton(before, r.id, c) && p.site == r.Here() && p.going == going && p.subscription == click
      ensures 3 <= |p.held| <= 4 && taken == Nth(p.held, 3) && p.held[..3] == before.held
    {
      hide NtsWebRealm.Valid, NtsWebRealm.View, NtsWebRealm.Here, SiteOK, TakeHandle, TakeVoid, TakeSubscription,
           Counters.Ask, AcquireButton;
      ButtonSteps(before, r.id, c);
      taken, click := NULL_HANDLE, NULL_HANDLE;
      going, taken, p := TakeNode(r, CreateButton(document, c), c.cut == 4, before);
      if !going { return; }
      going, p := TakeNothing(r, SetText(taken, FIRST_TEXT), c.cut == 5, p);
      if !going { return; }
      going, click, p := TakeClick(r, ListenForClicks(taken, c), c.cut == 6, p);
      if !going { return; }
      going, p := TakeNothing(r, WebAppendChild(body, heading), c.cut == 7, p);
      if !going { return; }
      going, p := TakeNothing(r, WebAppendChild(body, taken), c.cut == 8, p);
    }

    // The ladder's last rungs: heading, body, document.
    method Cleanup(r: NtsWebRealm, click: Handle, taken: Handle, heading: Handle, body: Handle, document: Handle)
      requires r.Valid()
      modifies r.Footprint()
      ensures r.Valid() && fresh(r.Footprint() - old(r.Footprint()))
      ensures r.Here() ==
              Rungs(old(r.Here()), r.id, click, taken, heading, body, document)
    {
      hide NtsWebRealm.Valid, NtsWebRealm.View, NtsWebRealm.Here, ReleaseIfLive, DisposeIfLive;
      DisposeHandle(r, click);
      ReleaseHandle(r, taken);
      ReleaseHandle(r, heading);
      ReleaseHandle(r, body);
      ReleaseHandle(r, document);
    }

    // The nine calls, as far as they go.
    method Acquire(r: NtsWebRealm, c: StartChoices)
      returns (going: bool, document: Handle, body: Handle, heading: Handle, taken: Handle, click: Handle,
               ghost p: Progress)
      requires r.Valid() && SiteOK(r.Here(), r.id) && r.alive
      modifies r.Footprint()
      ensures r.Valid() && fresh(r.Footprint() - old(r.Footprint()))
      ensures p == Counters.Acquire(old(r.Here()), r.id, c) && p.site == r.Here() && p.going == going
      ensures |p.held| <= 4 && document == Nth(p.held, 0) && body == Nth(p.held, 1) && heading == Nth(p.held, 2)
      ensures taken == Nth(p.held, 3) && click == p.subscription && (going ==> |p.held| >= 3)
    {
      hide NtsWebRealm.Valid, NtsWebRealm.View, NtsWebRealm.Here, SiteOK, AcquireHeading, AcquireButton, OnTrack;
      r.AliveHere();
      HeadingBalanced(r.Here(), r.id, c);
      going, document, body, heading, p := TakeHeading(r, c);
      taken, click := NULL_HANDLE, NULL_HANDLE;
      if going {
        assert p.held == [document, body, heading];
        going, taken, click, p := TakeButton(r, c, document, body, heading, p);
      } else {
        Halted(p, r.id, c);
      }
    }

    method Start(r: NtsWebRealm, c: StartChoices) returns (success: bool)
      requires r.Valid() && SiteOK(r.Here(), r.id)
      requires this as object !in r.Footprint()
      modifies this, r.Footprint()
      ensures r.Valid() && fresh(r.Footprint() - old(r.Footprint()))
      ensures Started(r.Here(), View(), success) == Counters.Start(old(r.Here()), r.id, old(View()), c)
      ensures success ==> realm == r && shown == CountText(0)
      ensures !success ==> unchanged(this)
    {
      hide NtsWebRealm.Valid, NtsWebRealm.View, NtsWebRealm.Here, SiteOK, Counters.Acquire, Rungs, Counters.Start;
      r.AliveHere();
      success := false;
      Refused(r.Here(), r.id, View(), c);
      if active || !r.alive || r.document.None? { return; }
      var going, document, body, heading, taken, click;
      ghost var p;
      ghost var s := r.Here();
      going, document, body, heading, taken, click, p := Acquire(r, c);
      StartOutcome(s, r.id, View(), c, p);
      if going {
        realm, button, clickSubscription := r, taken, click;
        count, active, failed := 0, true, false;
        shown := CountText(0);
        // Ownership moved into the static state.
        taken, click := NULL_HANDLE, NULL_HANDLE;
        success := true;
      }
      Cleanup(r, click, taken, heading, body, document);
    }

    lemma Refused(s: Site, rid: nat, counter: Counter, c: StartChoices)
      ensures counter.active || !IsAlive(s.realm, true) ==>
                Counters.Start(s, rid, counter, c) == Started(s, counter, false)
    {
      hide Counters.Acquire;
    }

    // Once on the way to the cleanup, nothing more is taken.
    lemma Halted(p: Progress, rid: nat, c: StartChoices)
      requires !p.going
      ensures AcquireButton(p, rid, c) == p
    {
      hide Perform;
    }

    // Realms are told apart by their numbers, as the C code does by their addresses.
    method DispatchEvent(r: NtsWebRealm, token: CallbackToken)
      requires r.Valid() && (realm == null || realm == r || realm.id != r.id)
      requires this as object !in r.Footprint()
      modifies this, r.page
      ensures r.Valid()
      ensures var h := HandleEvent(old(r.Here()), r.id, old(Display(View(), shown)), token);
              r.Here() == h.site && Display(View(), shown) == h.display
      ensures realm == old(realm)
    {
      hide NtsWebRealm.Valid, Perform, Decimal;
      if !active || failed || r != realm || token.slot != CLICK_CALLBACK.slot
         || token.generation != CLICK_CALLBACK.generation || !r.alive || r.document.None? {
        return;
      }
      count := (count + 1) % (UINT32_MAX + 1);
      var text := CountText(count);
      if |text| >= TEXT_SIZE {
        failed := true;
        return;
      }
      var status := r.WebSetTextContent(true, button, true, text);
      if status == Ok { shown := text; } else { failed := true; }
    }

    method Stop()
      requires active ==> realm != null && realm.Valid() && this as object !in realm.Footprint()
      modifies this, if realm == null then {} else realm.Footprint()
      ensures View() == if old(active) then IDLE else old(View())
      ensures old(active) ==>
                var r: NtsWebRealm := old(realm);
                && r.Valid() && fresh(r.Footprint() - old(r.Footprint()))
                && Stopped(r.Here(), View()) == Counters.Stop(old(r.Here()), r.id, old(View()))
    {
      hide NtsWebRealm.Valid, NtsWebRealm.View, NtsWebRealm.Here, ReleaseIfLive, DisposeIfLive;
      if !active { return; }
      realm.AliveHere();
      if realm.alive && realm.document.Some? {
        DisposeHandle(realm, clickSubscription);
        ReleaseHandle(realm, button);
      }
      realm, button, clickSubscription := null, NULL_HANDLE, NULL_HANDLE;
      count, active, failed := 0, false, false;
    }
  }
}
