/** BlinkCounterHost: the object that ties a realm and the counter's static state together.
    Proved against Hosts.Launch and Hosts.Quit. */
module HostObjects {
  import opened Bridge
  import opened BridgeInvariant
  import opened Counters
  import opened CounterClients
  import opened Registries
  import opened RealmObjects
  import opened Hosts

  class BlinkCounterHost {
    var realm: NtsWebRealm?

    // `alloc`: whether the realm can be allocated.
    constructor (id: nat, page: Page, client: CounterClient, document: nat, alloc: bool, c: StartChoices)
      requires SiteOK(Site(NewRealm(document, true), page.b, page.roots), id)
      modifies page, client
      ensures alloc && document in old(page.b).contexts ==>
                var l := Launch(old(page.b), old(page.roots), id, document, old(client.View()), c);
                && page.b == l.site.blink && page.roots == l.site.roots && client.View() == l.counter
                && (realm != null <==> l.success)
                && (realm != null ==> realm.id == id && realm.page == page && realm.View() == l.site.realm)
      ensures !(alloc && document in old(page.b).contexts) ==>
                && realm == null && page.b == old(page.b) && page.roots == old(page.roots)
                && client.View() == old(client.View())
      ensures realm != null ==> client.realm == realm && realm.Valid() && fresh(realm.Footprint() - {page})
      ensures realm == null ==> client.realm == old(client.realm)
    {
      realm := null;
      new;
      hide NtsWebRealm.Valid, NtsWebRealm.View, SiteOK, Start, FreeRealm, NewRealm, CounterClient.View,
           NodeRegistry.Valid, SubscriptionRegistry.Valid, Touches, Perform;
      if !alloc || document !in page.b.contexts { return; }
      var r := new NtsWebRealm(id, page, document, true);
      var started := StartOrFree(r, client, c);
      if started { realm := r; }
    }

    // A realm in which the counter does not start is destroyed again.
    static method StartOrFree(r: NtsWebRealm, client: CounterClient, c: StartChoices) returns (started: bool)
      requires r.Valid() && SiteOK(r.Here(), r.id) && (client as object) !in r.Footprint()
      modifies client, r.Footprint(), r.observer
      ensures var s := Start(old(r.Here()), r.id, old(client.View()), c);
              Started(r.Here(), client.View(), started) ==
              if s.success then s else Started(FreeRealm(s.site, r.id), s.counter, false)
      ensures started ==> client.realm == r && r.Valid() && fresh(r.Footprint() - old(r.Footprint()))
      ensures !started ==> client.realm == old(client.realm)
    {
      hide NtsWebRealm.Valid, NtsWebRealm.View, SiteOK, Start, FreeRealm;
      started := client.Start(r, c);
      if !started { r.Free(); }
    }

    // The destructor. A started host is the one the static state names.
    method Destroy(client: CounterClient)
      requires realm != null ==>
                 && realm.Valid() && client.active && client.realm == realm
                 && (client as object) !in realm.Footprint() && (this as object) !in realm.Footprint()
      modifies this, client, if realm == null then {} else realm.Footprint() + {realm.observer}
      ensures realm == null
      ensures old(realm) == null ==> client.View() == old(client.View())
      ensures old(realm) != null ==>
                var r: NtsWebRealm := old(realm);
                && r.observer.realm == null && r.freed
                && Stopped(r.Here(), client.View()) == Quit(old(r.Here()), r.id, old(client.View()))
    {
      hide NtsWebRealm.Valid, NtsWebRealm.View, Stop, FreeRealm;
      if realm == null { return; }
      client.Stop();
      realm.Free();
      realm := null;
    }
  }
}
