# The handle table, the Blink bridge and the counter, verified

Compiled programs in this repository hold Blink objects through generation-checked handles.
This project models the C handle table, the C++ registries and realm built on it, the C
entry points, the counter client and its host, and proves what they promise. It is written
for Dafny 4.11; `dafny verify dfyconfig.toml` checks all of it.

## How the model is laid out

* **The handle table.** `HandleTables.HandleTable` is the C code: slots in an array, the
  free list threaded through `nextFree`, counts and generations updated in place, the
  destroy hook called where the C code calls it. `TableSpec` says what each operation
  computes on a value (cells that count their resets, a stack of reusable indices, a log),
  `HandleMemory` says how memory represents that value, and `HandleMap` is the still
  simpler machine a client may think of: a map from live handles to entries. A hook call is
  a finite script of table operations whose nested hook calls carry scripts of their own;
  statements hold for every script, so also for hooks that decide as they go.
* **The bridge.** `Registries` and `RealmObjects` hold the node registry, the subscription
  registry and `NtsWebRealm` as classes over that table, with the C entry points as methods.
  `Bridge` gives the functions they are proved against; `Outcomes` says exactly when each
  entry point succeeds and with which status it is refused, and `CapsuleLaws` what a success
  means to a caller. The roots that the registries allocate and delete live on a heap
  (`Heaps`) that counts what is freed; `RootOwnership` shows who owns each. Blink is an
  environment: a DOM forest with node classes and text, execution contexts, bodies,
  listeners and registrations. Its answers (refusals, exceptions, allocation failures, what
  `createElement` makes) are parameters.
* **The world.** `Worlds` lets any number of realms share one Blink and interleaves API
  calls, events, navigation, context destruction, invalidation, realm destruction and
  arbitrary changes to the tree. Blink may deliver an event to any listener it ever accepted
  and may announce the end of a context to any observer, repeatedly, and may drop a
  registration by itself; following a pointer to a freed realm sets a fault flag, and the
  theorems show that it stays clear.
* **The client.** `Counters`, `CounterText` and `CounterClients` model the counter program
  and its static state, `CounterPage` the page it builds, `StartOutcomes` when it starts at
  all; `Hosts` and `HostObjects` model the object that starts and stops it, and
  `HostTheorems` follows hosts and clicks from end to end.
* **Exceptions.** `Exceptions` and `ExceptionObjects` model exception records whose buffers
  live on the C heap.

The C code assumes in passing that `size_t` is wider than 32 bits: otherwise its growth
limit wraps to 0 and no table can grow (`TableTheorems.GrowthNeedsWideSize`). The model
takes 64 bits. The documentation (`docs/architecture.md`, `docs/bindings-generation.md`)
speaks of stale-handle checks without a limit; the exact truth, proved here, is that a stale
handle is refused until its slot has been reset a multiple of 2^32 - 1 times, and
`TableTheorems.StaleHandleReturns` shows one that is accepted then.

## Model

| member | source | states |
|---|---|---|
| HandleTables.HandleTable.Init | src/runtime/nts_handle_table.c:79-83 | A zeroed structure becomes a valid, empty table with the given hooks. |
| HandleTables.HandleTable.Grow | src/runtime/nts_handle_table.c:52-69 | The clamped size arithmetic asks for exactly the next doubling; old slots are kept, new ones are zeroed, and a failed realloc changes nothing. |
| HandleTables.HandleTable.ReserveSlot | src/runtime/nts_handle_table.c:40-77 | A slot is reserved exactly when one is reusable, or the array has or gets room below the sentinel; it is the top of the free list, or else a new index. |
| HandleTables.HandleTable.Occupy | src/runtime/nts_handle_table.c:129-139 | Filling the reserved slot yields the specified table and handle. |
| HandleTables.HandleTable.Insert | src/runtime/nts_handle_table.c:117-140 | Status, handle and new table are those of the specification; an invalidated table, also one whose sweep is still running, refuses with the documented status and is left untouched. |
| HandleTables.HandleTable.Retain | src/runtime/nts_handle_table.c:142-152 | The same for retain, with the count saturating as an error. |
| HandleTables.HandleTable.Release | src/runtime/nts_handle_table.c:154-163 | The same for release, whatever the destroy hook does to this table meanwhile; the hook calls made are the ones the log records. |
| HandleTables.HandleTable.SlotReset | src/runtime/nts_handle_table.c:13-31 | The table is valid again before the hook runs, and afterwards is what the hook made of it. |
| HandleTables.HandleTable.RunHook | src/runtime/nts_handle_table.c:28-30 | A hook may run any nesting of operations: a valid table stays valid and follows the script; an invalidated one is not changed at all. |
| HandleTables.HandleTable.Resolve | src/runtime/nts_handle_table.c:165-187 | Token and type of a matching handle of an accepted type; otherwise the documented status and no token. An invalidated table, also one whose sweep is still running, never answers Ok. |
| HandleTables.HandleTable.SweepAll | src/runtime/nts_handle_table.c:105-114 | The downward loop resets every occupied slot, calls the hook for each, and threads all slots in index order. |
| HandleTables.HandleTable.Invalidate | src/runtime/nts_handle_table.c:100-115 | The one-way invalidation, with any hook; a second one does nothing. |
| HandleTables.HandleTable.LiveCount | src/runtime/nts_handle_table.c:189-196 | The number of occupied slots. |
| HandleTables.HandleTable.Destroy | src/runtime/nts_handle_table.c:85-98 | Every live token goes to the hook in index order, and the structure is zeroed. |
| HandleMemory.FreeListShape | src/runtime/nts_handle_table.c:40-48 | Following the links from the head terminates, repeats nothing, visits exactly the unoccupied slots, and after invalidation visits 0, 1, 2, ... |
| HandleMemory.OccupyEffect | src/runtime/nts_handle_table.c:129-139 | Writing one slot completes the abstract insert; the generation is never 0. |
| HandleMemory.SweepEnd | src/runtime/nts_handle_table.c:100-115 | What the invalidation loop leaves in memory represents the invalidated table. |
| TableInvariant.StepInv | src/runtime/nts_handle_table.c:100-163 | Every operation, with every nesting of hook calls, keeps the table's invariant. |
| TableInvariant.RunInv | src/runtime/nts_handle_table.c:100-163 | So does every run. |
| TableTheorems.InvalidatedIsFrozen | src/runtime/nts_handle_table.c:100-163 | Nothing a hook or caller attempts changes an invalidated table. |
| TableTheorems.ReleaseIsReentrant | src/runtime/nts_handle_table.c:154-163 | The hook of a release sees a valid table that refuses the released handle; whatever it does, the token was handed over once and other issues are disturbed only by their own resets. |
| TableTheorems.GenerationStep | src/runtime/nts_handle_table.c:7-11 | The 32-bit step with its skipped zero is "resets modulo 2^32 - 1, plus 1". |
| TableTheorems.StalenessBound | src/runtime/nts_handle_table.c:33-38 | After any run a once live handle matches if and only if its slot is occupied and was reset a multiple of 2^32 - 1 times; within the bound it then names its own token. |
| TableTheorems.StaleAfterLastRelease | src/runtime/nts_handle_table.c:154-163 | A handle whose last reference was released stays refused inside the bound. |
| TableTheorems.IssuesAreFresh | src/runtime/nts_handle_table.c:117-140 | No slot and generation is issued twice within that window. |
| TableTheorems.StaleHandleReturns | src/runtime/nts_handle_table.c:33-38 | The bound is tight: after 2^32 - 1 rounds the first handle resolves to another token. |
| TableTheorems.Conservation | src/runtime/nts_handle_table.c:85-163 | Accepted tokens are the live ones plus those handed to the hook, as multisets; invalidate and destroy hand over all the rest, and destroy after invalidate nothing. |
| TableTheorems.RetiredExactlyAtZero | src/runtime/nts_handle_table.c:142-163 | An issue is retired at most once, and before invalidation exactly when inserts and retains minus releases reach 0. |
| TableTheorems.CapacityShape | src/runtime/nts_handle_table.c:52-60 | The capacity is 16 * 2^k with k at most 28, and less than twice the high-water mark once above 16. |
| TableTheorems.GrowthIsDoubling | src/runtime/nts_handle_table.c:52-60 | On 64 bits the clamping never changes the doubling, and the result always has room. |
| TableTheorems.GrowthNeedsWideSize | src/runtime/nts_handle_table.c:53-59 | For every width of `size_t`, an empty table can grow if and only if it is wider than 32 bits; at 32 bits or fewer no table can. |
| TableTheorems.HighWaterMark | src/runtime/nts_handle_table.c:40-77 | The slot count is the largest number of handles ever live at once; insertion runs out of memory exactly at 2^32 - 1 live handles or when a needed realloc fails; the sentinel is never issued. |
| HandleMap.InsertRefines | src/runtime/nts_handle_table.c:117-140 | Insert answers as the map machine does, with a handle not live before; a refusal changes nothing. |
| HandleMap.RetainRefines | src/runtime/nts_handle_table.c:142-152 | Retain refines the map machine; a refusal changes nothing. |
| HandleMap.ReleaseRefines | src/runtime/nts_handle_table.c:154-163 | Release refines the map machine; a refusal changes nothing. |
| HandleMap.InvalidateRefines | src/runtime/nts_handle_table.c:100-115 | Invalidation empties the map. |
| HandleMap.ResolveRefines | src/runtime/nts_handle_table.c:165-187 | Resolving depends on the map of live handles alone. |
| HandleMap.TableImplementsMap | src/runtime/nts_handle_table.c:79-187 | Every run from init, hook calls included, is a run of the map machine. |
| TableLaws.InvalidationTakesLive | src/runtime/nts_handle_table.c:105-114 | The tokens invalidation hands over are exactly those of live handles. |
| TableLaws.NothingToDestroy | src/runtime/nts_handle_table.c:85-98 | Destroying an invalidated table calls no hook. |
| WebTypes.TypeAcceptsIsClosure | chromium/bridge/nts_blink_node_registry.cc:110-126 | The subtype test is the reflexive and transitive closure of interface inheritance, on all type ids. |
| WebTypes.TypeOfDecidesInstance | chromium/bridge/nts_blink_node_registry.cc:100-126 | The subtype test on a node's type decides exactly whether it is an instance of the interface. |
| Doms.GuardImpliesPreInsertValid | chromium/bridge/nts_blink_dom.cc:264-277 | What the append guard lets through passes every check of "ensure pre-insert validity", section 4.2.3 of the DOM Standard. |
| Doms.GuardExact | chromium/bridge/nts_blink_dom.cc:264-277 | The guard lets through exactly a child element without a parent, below an element that is not among its host-including inclusive descendants. |
| Doms.AppendChildKeepsForest | chromium/bridge/nts_blink_dom.cc:264-282 | A guarded append keeps single parents, consistent child lists and no cycles, also through shadow hosts. |
| Doms.CreateElementKeepsForest | chromium/bridge/nts_blink_dom.cc:202-216 | So does creating an element. |
| Doms.ReplaceTextKeepsForest | chromium/bridge/nts_blink_dom.cc:236-245 | So does replacing a node's children, or a text node's data, by a text. |
| Doms.ContainsIncludingHostElements | chromium/bridge/nts_blink_dom.cc:274 | The walk up the tree ends and decides host-including inclusive ancestry. |
| Doms.ContainsIsHostIncluding | chromium/bridge/nts_blink_dom.cc:274 | That walk reaches exactly the host-including inclusive ancestors as section 4.7 of the DOM Standard defines them, by parents within a tree and from roots through their hosts. |
| Registries.NodeRegistry.FindRoot | chromium/bridge/nts_blink_node_registry.cc:143-155 | The scan finds the first slot rooting the node, with the generation now in it. |
| Registries.NodeRegistry.Intern | chromium/bridge/nts_blink_node_registry.cc:35-60 | Status, handle, table and heap are those of the specified intern: the root that is allocated is deleted again when the insert fails. |
| Registries.NodeRegistry.Resolve | chromium/bridge/nts_blink_node_registry.cc:62-78 | The same for the checked lookup. |
| Registries.NodeRegistry.Release | chromium/bridge/nts_blink_node_registry.cc:85-88 | The same for release, with the root dropped and deleted by the hook. |
| Registries.NodeRegistry.Invalidate | chromium/bridge/nts_blink_node_registry.cc:90-93 | Every rooted node is dropped and its root deleted, in the table's order. |
| Registries.NodeRegistry.Destroy | chromium/bridge/nts_blink_node_registry.cc:30-33 | What is still rooted is dropped and deleted, and the table zeroed. |
| Registries.SubscriptionRegistry.Cancel | chromium/bridge/nts_blink_subscription_registry.cc:29-40 | An active root takes its listener out of Blink and detaches it; an inactive one does nothing. |
| Registries.SubscriptionRegistry.DeleteRoot | chromium/bridge/nts_blink_subscription_registry.cc:29-40 | `delete root`: the destructor's effect, and the object's memory is given back. |
| Registries.SubscriptionRegistry.Create | chromium/bridge/nts_blink_subscription_registry.cc:79-110 | Status, subscription, table, Blink and heap are those of the specified creation, on every branch; both branches that fail with a root delete it. |
| Registries.SubscriptionRegistry.Dispose | chromium/bridge/nts_blink_subscription_registry.cc:112-116 | The same for disposal. |
| Registries.SubscriptionRegistry.Invalidate | chromium/bridge/nts_blink_subscription_registry.cc:118-121 | Every live root is cancelled and deleted, in the table's order. |
| Registries.SubscriptionRegistry.Destroy | chromium/bridge/nts_blink_subscription_registry.cc:74-77 | What is still live is cancelled and deleted, and the table zeroed. |
| RegistryLaws.FindRootLive | chromium/bridge/nts_blink_node_registry.cc:143-155 | The scan answers whether some live handle roots the node. |
| RegistryLaws.InternLaw | chromium/bridge/nts_blink_node_registry.cc:35-60 | Interning keeps handles and nodes one to one; a rooted node gives its one handle and one more edge, any other a new handle of its own type and exactly one new root; a failure changes neither the handles nor the allocated roots. |
| RegistryLaws.InternStatus | chromium/bridge/nts_blink_node_registry.cc:35-60 | Interning fails only for want of memory: exactly when the count of a rooted node is saturated, or a root or slot cannot be had for another. |
| RegistryLaws.InternRefused | chromium/bridge/nts_blink_node_registry.cc:38-39 | A null node is an invalid argument, an invalidated registry a destroyed context, in this order, and nothing changes. |
| RegistryLaws.ReleaseNodeLaw | chromium/bridge/nts_blink_node_registry.cc:85-88 | Release takes one edge; exactly with the last it drops the node and frees that root, once. |
| RegistryLaws.ResolveNodeLaw | chromium/bridge/nts_blink_node_registry.cc:62-78 | A live handle resolves at an interface if and only if its node is an instance of it, and then to that node. |
| RegistryLaws.CreateLaw | chromium/bridge/nts_blink_subscription_registry.cc:79-110 | Success adds exactly one live subscription, one registration and one root; every failing branch leaves all three as they were and no accepted listener pointing here, so no root leaks. |
| RegistryLaws.DisposeLaw | chromium/bridge/nts_blink_subscription_registry.cc:112-116 | Disposing succeeds exactly on live subscriptions and takes away that one handle, registration, pointer and root. |
| Interning.InternsAddEdges | chromium/bridge/nts_blink_node_registry.cc:35-60 | k interns of a node give one handle with k references. |
| Interning.InternsNeedReleases | chromium/bridge/nts_blink_node_registry.cc:35-88 | k interns need k releases: the first k - 1 drop nothing, the k-th drops the root once and restores the registry's handles. |
| RealmObjects.NtsWebRealm.constructor | chromium/bridge/nts_blink_realm.cc:50-63 | A new realm is alive, with its document, two empty registries and a lifecycle observer of its own that points back to it. |
| RealmObjects.BlinkRealmLifecycleObserver.Detach | chromium/bridge/nts_blink_realm.cc:29-32 | A detached observer has no realm pointer. |
| RealmObjects.BlinkRealmLifecycleObserver.ContextDestroyed | chromium/bridge/nts_blink_realm.cc:39-43 | With a realm it invalidates that realm once and forgets it; detached or called again it does nothing. |
| RealmObjects.NtsWebRealm.Invalidate | chromium/bridge/nts_blink_realm.cc:82-95 | Listeners, then node roots, then the document root; a second time does nothing. |
| RealmObjects.NtsWebRealm.Free | chromium/bridge/nts_blink_realm.cc:65-72 | The destructor: the observer is detached, then invalidation, then the two registries' destructors. |
| RealmObjects.NtsWebRealm.DispatchNativeEvent | chromium/bridge/nts_blink_realm.cc:102-108 | The dispatcher is called exactly when the realm is alive, has one, and the context is its document's own. |
| RealmObjects.NtsWebRealm.Check | chromium/bridge/nts_blink_dom.cc:128-133 | The gate in front of every entry point. |
| RealmObjects.NtsWebRealm.WebRetain | chromium/bridge/nts_blink_realm.cc:142-148 | The gated entry point does what the specification says. |
| RealmObjects.NtsWebRealm.WebRelease | chromium/bridge/nts_blink_realm.cc:150-156 | The same for release. |
| RealmObjects.NtsWebRealm.WebDispose | chromium/bridge/nts_blink_realm.cc:158-165 | The same for disposing a subscription. |
| RealmObjects.NtsWebRealm.WebDocument | chromium/bridge/nts_blink_dom.cc:149-160 | The same for the document capsule. |
| RealmObjects.NtsWebRealm.WebBody | chromium/bridge/nts_blink_dom.cc:162-184 | The same for the body capsule; a missing body is the zero handle. |
| RealmObjects.NtsWebRealm.WebCreateElement | chromium/bridge/nts_blink_dom.cc:186-218 | The same for createElement, with Blink's exception or refusal passed on. |
| RealmObjects.NtsWebRealm.WebSetTextContent | chromium/bridge/nts_blink_dom.cc:220-246 | The same for setTextContent with its text; script elements are refused before the text is decoded. |
| RealmObjects.NtsWebRealm.Guard | chromium/bridge/nts_blink_dom.cc:264-277 | The refusals, in order, decide the append guard. |
| RealmObjects.NtsWebRealm.WebAppendChild | chromium/bridge/nts_blink_dom.cc:248-283 | The same for appendChild. |
| RealmObjects.NtsWebRealm.WebAddEventListener | chromium/bridge/nts_blink_events.cc:44-71 | The same for addEventListener, with a fresh listener per call. |
| SiteLaws.PerformKeeps | chromium/bridge/nts_blink_dom.cc:149-283 | Every entry point, whatever Blink answers, keeps the bridge invariant, concerns no other realm, and neither revives nor ends this one. |
| CapsuleLaws.Gated | chromium/bridge/nts_blink_dom.cc:128-133 | On the wrong sequence or in a dead realm every entry point only reports it. |
| CapsuleLaws.DocumentNamed | chromium/bridge/nts_blink_dom.cc:149-160 | The document capsule returns a handle to the realm's document. |
| CapsuleLaws.BodyNamed | chromium/bridge/nts_blink_dom.cc:162-184 | The body capsule answers only for handles to documents: with a handle to the body, or the null handle exactly when there is none. |
| CapsuleLaws.ElementNamed | chromium/bridge/nts_blink_dom.cc:186-218 | createElement answers only for handles to documents, with a handle not live before to a node that did not exist before. |
| CapsuleLaws.NewNode | chromium/bridge/nts_blink_dom.cc:202-205 | That node has the class Blink chose, no parent and no children, and no other node moved. |
| CapsuleLaws.TextReplaced | chromium/bridge/nts_blink_dom.cc:220-246 | setTextContent succeeds exactly on well-formed text and live handles to anything but script elements. An element or fragment then holds one text node with exactly this text, or none for the empty text; a text node holds the text itself; no other node's text changed. |
| CapsuleLaws.Appends | chromium/bridge/nts_blink_dom.cc:248-283 | appendChild succeeds exactly on live handles to an element and a parentless element that is not a host-including inclusive ancestor of it; the child becomes the last child and nothing else moves. |
| CapsuleLaws.ListenerAdded | chromium/bridge/nts_blink_events.cc:44-71 | addEventListener adds exactly one registration, of a new listener with the caller's token, on the target's node. |
| CapsuleLaws.RefusalChangesNothing | chromium/bridge/nts_blink_dom.cc:149-283 | A refused call leaves every handle, subscription, registration, parent link and allocated root as it was. |
| Outcomes.DocumentAnswers | chromium/bridge/nts_blink_dom.cc:149-160 | In a live realm the document capsule adds one edge to the document, or reports out of memory exactly when no edge can be had. |
| Outcomes.BodyAnswers | chromium/bridge/nts_blink_dom.cc:162-184 | The body capsule refuses anything but a live handle to a document as invalid, answers null exactly without a body, and otherwise adds one edge or is out of memory. |
| Outcomes.ElementAnswers | chromium/bridge/nts_blink_dom.cc:186-218 | The exact status of createElement: invalid handle, malformed name, the status of what Blink raised, no element, out of memory, or a new handle to the new node. |
| Outcomes.TextAnswers | chromium/bridge/nts_blink_dom.cc:220-246 | The exact status of setTextContent, in the order of its refusals. |
| Outcomes.AppendAnswers | chromium/bridge/nts_blink_dom.cc:248-283 | appendChild answers Ok if and only if both handles are live, both nodes are elements, and the child has no parent and is not a host-including inclusive ancestor; any other pair of live handles is refused as disabled. |
| Outcomes.CreateStatus | chromium/bridge/nts_blink_subscription_registry.cc:79-110 | The exact status of creating a subscription: invalidated, no memory for the root, refused by Blink, no slot, or Ok. |
| Outcomes.ListenerAnswers | chromium/bridge/nts_blink_events.cc:44-71 | addEventListener answers Ok if and only if the token has a generation, the handle is live, to a node of any class, the type decodes, there is memory for root and slot, and Blink accepts; each refusal has its own status. |
| Outcomes.DisposeAnswers | chromium/bridge/nts_blink_realm.cc:158-165 | Disposing a live subscription takes away just its handle and registration and detaches its listener; anything else is an invalid handle. |
| Outcomes.RetainAnswers | chromium/bridge/nts_blink_realm.cc:142-148 | Retain adds one edge to a live handle unless its count is saturated; anything else is an invalid handle. |
| Outcomes.ReleaseAnswers | chromium/bridge/nts_blink_realm.cc:150-156 | Release takes one edge from a live handle and drops node and root exactly with the last; anything else is an invalid handle. |
| Teardown.InvalidateKeepsSite | chromium/bridge/nts_blink_realm.cc:82-95 | Invalidation keeps the invariant and leaves no handle, subscription, document, dispatcher or pointer to the realm. |
| Teardown.FreeKeepsSite | chromium/bridge/nts_blink_realm.cc:65-72 | When a realm is freed its tables are empty, so no hook runs in their destructors, and nothing accepted points to it. |
| Teardown.PointerMeansLive | chromium/bridge/nts_blink_event_listener.h:17-21 | The raw pointer's contract: a listener that still has one belongs to a live realm through a live subscription. |
| Worlds.NextKeeps | chromium/bridge/nts_blink_realm.cc:29-132 | Every step of the world keeps the invariant of all realms, and no freed realm is ever reached. |
| Worlds.RunKeeps | chromium/bridge/nts_blink_realm.cc:29-132 | So does every run. |
| Worlds.DanglingFaults | chromium/bridge/nts_blink_event_listener.cc:19-23 | An event or a context's end that followed a pointer to a realm that is gone would set the fault flag, which the theorems show to be clear. |
| WorldTheorems.NoLateDispatch | chromium/bridge/nts_blink_event_listener.cc:19-23 | After any run, an accepted listener reaches the dispatcher if and only if its subscription is live, its realm alive and the context the document's own; nothing dangling is followed. |
| WorldTheorems.TraceInOrder | chromium/bridge/nts_blink_realm.cc:87-95 | In every run, each effect is allowed by those before it: a listener is registered only while not attached and cancelled only while attached; dispatches reach attached listeners of realms not invalidated; in a dying realm all listeners go before any node root, the node roots before the document root, and the memory only after that, each of the last two once. |
| WorldTheorems.LastRites | chromium/bridge/nts_blink_realm.cc:65-95 | Once an invalidated realm has dropped a node root no listener of it is registered, cancelled or called again; after the document root only its memory goes; after that nothing concerns it. |
| WorldTheorems.SubscriptionsExact | chromium/bridge/nts_blink_subscription_registry.cc:16-47 | In every reachable world the registrations are exactly the active roots of live subscriptions, one each, with reference count 1, except for those Blink dropped by itself. |
| WorldTheorems.TeardownSafe | chromium/bridge/nts_blink_realm.cc:65-95 | However it died, a dead realm holds nothing and no listener points to it; a freed one has no observer either. |
| Lifecycle.EndReaches | chromium/bridge/nts_blink_realm.cc:39-43 | After any run, context destruction, invalidation and destruction each empty the realm, whichever comes first; only destruction frees it, and no other realm changes. |
| Lifecycle.EndedTwice | chromium/bridge/nts_blink_realm.cc:65-95 | Repeating them in any order removes, detaches and drops nothing again. |
| Lifecycle.EndEffects | chromium/bridge/nts_blink_realm.cc:82-95 | Ending a live realm has exactly these effects in this order: marked invalidated, each listener pointing to it removed and detached once, each node with a handle dropped once, the document dropped. |
| Lifecycle.CreatedRealm | chromium/bridge/nts_blink_realm.cc:50-63 | A realm is made exactly for a document with an execution context when there is memory; it starts alive, observed and empty, and keeps its document and dispatcher for as long as it lives. |
| WorldTheorems.HandlesNameNodes | chromium/bridge/nts_blink_node_registry.cc:56-78 | In every reachable world live handles and nodes are one to one, and a handle resolves at an interface if and only if its node is an instance. |
| WorldTheorems.PageStaysForest | chromium/bridge/nts_blink_dom.cc:248-283 | The tree is a forest in every reachable world. |
| WorldTheorems.SecondDisposeRefused | chromium/bridge/nts_blink_subscription_registry.cc:112-116 | A disposed subscription is refused ever after, within the generation bound, and the refusal changes nothing. |
| WorldTheorems.NodeHandlesStayStale | chromium/bridge/nts_blink_node_registry.cc:53-60 | A node handle that is live later, within the bound, was never reset and still names the same node. |
| WorldTheorems.ReinternedDiffers | chromium/bridge/nts_blink_node_registry.cc:35-60 | After the last release of any node handle, no later intern, of the same node or another, returns that handle again within the generation bound, whatever happened in between. |
| RootOwnership.RootsExact | chromium/bridge/nts_blink_subscription_registry.cc:16-110 | In every reachable world each allocated root is the token of exactly one live handle of one registry; every other root ever allocated was deleted exactly once, and nothing was deleted twice. |
| RootOwnership.SweptRoots | src/runtime/nts_handle_table.c:105-114 | Invalidating a registry deletes the root of each live handle once and no other block. |
| Counters.LadderDrops | examples/counter/app.c:141-148 | The cleanup ladder takes back exactly the handles taken so far, one edge each. |
| Counters.StartConserves | examples/counter/app.c:76-148 | For every pattern of refusals among the nine calls, a null body, and invalidation during any call: failure leaves handles and subscriptions as they were; success adds exactly the button and a click subscription on it, whose listener carries the token (1, 1) and points to this realm. |
| Counters.StopConserves | examples/counter/app.c:178-190 | Stopping gives exactly these back while the realm lives, and always leaves the client idle. |
| Counters.StartThenStop | examples/counter/app.c:76-190 | A start and a stop together change nothing, whatever Blink answered. |
| CounterPage.StartBuilds | examples/counter/app.c:89-131 | A successful start found a body and left exactly the page described by the next two rows; the handle it keeps names the button. |
| CounterPage.BuiltPage | examples/counter/app.c:97-131 | Heading and button are new and last in the body, in this order, each with one text node, reading "Native TypeScript" and "Count: 0"; no other child list or text changed. |
| CounterPage.BuiltParents | examples/counter/app.c:97-131 | The same for parent links. |
| CounterPage.StartDisplays | examples/counter/app.c:108-139 | After a successful start the button holds one text node, reading what the counter's count gives. |
| StartOutcomes.StartsExactly | examples/counter/app.c:76-148 | In any realm the counter starts if and only if it is idle, the realm is alive, and page, tables and answers satisfy conditions spelled out on the state before the first call. |
| StartOutcomes.StartsInNewRealm | examples/counter/app.c:76-148 | The same for a realm just made: a document with a body element, elements that are not scripts, memory for the roots and the first slots, Blink accepting the listener, and no invalidation before the last call. |
| CounterClients.CounterClient.TakeHeading | examples/counter/app.c:89-106 | The first four calls with their early exits follow the specification. |
| CounterClients.CounterClient.TakeButton | examples/counter/app.c:108-131 | So do the other five. |
| CounterClients.CounterClient.Cleanup | examples/counter/app.c:141-148 | The five statements of the ladder release in reverse order of taking. |
| CounterClients.CounterClient.Start | examples/counter/app.c:76-148 | The C function, with its static state, refines the specified start. |
| CounterClients.CounterClient.DispatchEvent | examples/counter/app.c:150-176 | The event handler refines the specified one; the text it formats is the argument of the call. |
| CounterClients.CounterClient.Stop | examples/counter/app.c:178-190 | The C function refines the specified stop. |
| CounterText.CountTextFits | examples/counter/app.c:162-167 | The text of any 32-bit count parses back to it and always fits the 64-byte buffer. |
| CounterText.ShowsCount | examples/counter/app.c:150-176 | After n accepted events without a failure the last text written is that of n modulo 2^32. |
| CounterText.FrozenAfterFailure | examples/counter/app.c:150-176 | After a failed update count and text never change again. |
| CounterText.FirstFailure | examples/counter/app.c:150-176 | The first failed update leaves the count one ahead of the text, for good. |
| Hosts.HostAgreement | chromium/bridge/nts_blink_counter_host.cc:14-65 | After any run of starts and destructions, overlapping ones included, the counter is active if and only if exactly one started host exists, and names its realm, which was not freed. |
| Hosts.PageShowsClicks | examples/counter/app.c:150-176 | In every reachable system without a failed update the last text written gives the accepted clicks. |
| Hosts.ClickIsWritten | examples/counter/app.c:150-176 | While only its counter calls into a hosted realm, every accepted click leaves exactly one text node in the button, and its data gives the number of clicks accepted since the start. |
| HostTheorems.ClicksExactly | examples/counter/app.c:150-176 | While only its counter calls into a hosted realm, a step of the world is counted if and only if it delivers an event, in the document's own context, to the listener of the started counter's subscription in a living realm; then exactly one more click is accepted and the button's text gives their number. |
| HostTheorems.ClickListens | examples/counter/app.c:122-126 | A started counter in a living realm always has such a listener: accepted by Blink, with the token (1, 1) and a pointer to the realm, which has a dispatcher. |
| HostTheorems.EventAnswers | examples/counter/app.c:150-176 | The handler in full, for any realm and token: what is ignored, what is counted and written, and that a button that takes no text only sets the failure flag. |
| HostTheorems.HostStarts | chromium/bridge/nts_blink_counter_host.cc:41-61 | After any run an attempt starts a host if and only if there is a document with an execution context, memory, no other started host, and the nine calls can succeed; otherwise hosts and counter stay as they are. |
| HostTheorems.HostDestroyed | chromium/bridge/nts_blink_counter_host.cc:28-33 | Deleting a started host destroys its realm, with its observer detached and nothing left of it, and leaves the counter idle. |
| HostTheorems.HostRealms | chromium/bridge/nts_blink_counter_host.cc:16-33 | Over every run, each realm a host ever made, in failed attempts too, is there exactly while a host holds it, and otherwise was destroyed in order. |
| Hosts.StartedHostHolds | chromium/bridge/nts_blink_counter_host.cc:16-39 | While only its counter calls into a hosted realm, the realm holds exactly one edge, to the button element, and one click subscription on it, or nothing once invalidated, and no update ever fails. |
| Hosts.QuitReturnsAll | chromium/bridge/nts_blink_counter_host.cc:28-33 | Stopping returns all of it, so the destruction that follows finds nothing left to drop. |
| HostObjects.BlinkCounterHost.constructor | chromium/bridge/nts_blink_counter_host.cc:16-23 | A host is started if and only if its realm could be made and the counter started in it; otherwise the realm is destroyed again. |
| HostObjects.BlinkCounterHost.Destroy | chromium/bridge/nts_blink_counter_host.cc:28-33 | The destructor stops the counter, then destroys the realm: it is freed and its observer detached. |
| Exceptions.CopyLaw | chromium/bridge/nts_blink_dom.cc:45-56 | A copy is a new block holding the bytes, or nothing at all. |
| Exceptions.CopyExceptionLaw | chromium/bridge/nts_blink_dom.cc:104-126 | A produced record carries copies of name and message in buffers of its own: the DOM name for DOM and security errors, the bytes of "RangeError", "TypeError" or "SyntaxError" for the others, each with its status; out of memory leaves a clean record and no buffer. |
| Exceptions.CopyExceptionStatus | chromium/bridge/nts_blink_dom.cc:58-126 | Out of memory exactly when a nonempty part cannot be copied; a legacy code exactly for DOM exceptions that have one. |
| Exceptions.DisposeIdempotent | src/runtime/nts_web_exception.c:5-17 | Disposing twice is disposing once. |
| Exceptions.BuffersConserved | chromium/bridge/nts_blink_dom.cc:45-126 | In every run each buffer is freed exactly once or still held by exactly one record; nothing else is freed. |
| Exceptions.AllDisposed | src/runtime/nts_web_exception.c:5-17 | Once every record is disposed the heap is empty. |
| ExceptionObjects.CHeap.CopyUtf8 | chromium/bridge/nts_blink_dom.cc:45-56 | The out-parameter code does what the specification says. |
| ExceptionObjects.WebException.CopyException | chromium/bridge/nts_blink_dom.cc:104-126 | The same for producing an exception, with its failure path. |
| ExceptionObjects.WebException.Dispose | src/runtime/nts_web_exception.c:5-17 | The same for disposing one. |

## Left out

- HandleTables.HandleTable.Destroy: the hook does not come back to the table during this loop, because the C code leaves the slots occupied there.
- HandleTables.HandleTable.Grow: `size_t` has 64 bits; narrower ones are only shown to refuse growth.
- HandleTables.HandleTable.Resolve: the `type_accepts` hook is a pure function; the only one in the repository is.
- Registries.NodeRegistry.Release: the hook's effects on Blink are applied right after the table call that fires it, in the order of the calls, instead of during it; the hook itself does not call the table.
- Registries.NodeRegistry.Resolve: a `Persistent` is never null while its root exists, so the branch for a lost node is not modelled.
- RealmObjects.NtsWebRealm.WebAppendChild: `AppendChild` returning another node is not modelled; Blink adopts and inserts as asked.
- RealmObjects.NtsWebRealm.WebSetTextContent: the text is the string the bytes decode to, decoding itself is a flag; Blink may keep an equal text node instead of replacing it, the model always replaces.
- RealmObjects.NtsWebRealm.WebCreateElement: the exception's text is modelled in `Exceptions`, not inside the capsule's result.
- Hosts.HostAgreement: a host that finds the static state naming another realm counts as a fault instead of acting on that realm; the theorem shows that it never happens.
- HostTheorems.HostRealms: nobody but the host destroys the realm it holds; anybody may invalidate it.
- Hosts.StartedHostHolds: assumes that nobody else calls into the hosted realm, whose pointer only the host and the counter have.
- Null tables, realms and out-parameters of the registries: these tests only return an error status.
- `nts_slot_reset` with `destroy_token` false: no caller passes it.
- Objects on Blink's heap (listeners, observers) and realm addresses are numbered values, not Dafny objects.
- Sequence checks are a boolean argument; a failed `CHECK` stops the process and is not modelled.
- Page script that Blink runs inside a call (a custom element's constructor under `createElement`, a mutation listener under `appendChild`): a call into a realm is one step of the world. Only the counter's start lets the realm be invalidated with a call, right after Blink's part of it.
- Blink's internals, V8 propagation, the Chromium patches, the build files and scripts, the designs under `docs/`.
- `examples/create-element/app.c`: short probes of the same calls.
- ABI structs that no code implements yet.
