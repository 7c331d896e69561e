/** Interning a node many times: every intern is one edge, and the root goes with the last. */
module Interning {
  import opened Abi
  import opened Heaps
  import opened TableSpec
  import opened TableInvariant
  import opened HandleMap
  import opened WebTypes
  import opened Doms
  import opened Bridge
  import opened BridgeInvariant
  import opened RegistryLaws

  // Interns of one node, one after the other, with Blink's answers to each.
  function InternAll(nodes: Table<NodePointer>, roots: Roots, rid: nat, dom: Dom, node: nat,
                     cs: seq<InternChoices>): NodeInterned {
    if cs == [] then NodeInterned(nodes, roots, Ok, NULL_HANDLE)
    else
      var r := InternAll(nodes, roots, rid, dom, node, cs[..|cs| - 1]);
      Intern(r.nodes, r.roots, rid, dom, Some(node), cs[|cs| - 1])
  }

  predicate AllOk(nodes: Table<NodePointer>, roots: Roots, rid: nat, dom: Dom, node: nat, cs: seq<InternChoices>) {
    cs == [] ||
    (AllOk(nodes, roots, rid, dom, node, cs[..|cs| - 1]) && InternAll(nodes, roots, rid, dom, node, cs).status == Ok)
  }

  // Every one of them answered Ok with the handle h.
  predicate AllGive(nodes: Table<NodePointer>, roots: Roots, rid: nat, dom: Dom, node: nat, cs: seq<InternChoices>,
                    h: Handle) {
    cs == [] ||
    (var r := InternAll(nodes, roots, rid, dom, node, cs);
     AllGive(nodes, roots, rid, dom, node, cs[..|cs| - 1], h) && r.status == Ok && r.handle == h)
  }

  ghost predicate Rooted(nodes: Table<NodePointer>, node: nat) {
    exists h :: h in Live(nodes) && Live(nodes)[h].token.at == node
  }

  // n interns of a node not rooted yet all give one handle, which then has n references to
  // the one root allocated; no other handle is disturbed.
  lemma {:induction false} InternsAddEdges(nodes: Table<NodePointer>, roots: Roots, rid: nat, dom: Dom, node: nat,
                                           cs: seq<InternChoices>)
    returns (h: Handle)
    requires Inv(nodes) && Interned(nodes, dom) && node < |dom.classes| && !Rooted(nodes, node)
    requires cs != [] && AllOk(nodes, roots, rid, dom, node, cs)
    ensures AllGive(nodes, roots, rid, dom, node, cs, h) && h !in Live(nodes) && |cs| <= UINT32_MAX
    ensures var t := InternAll(nodes, roots, rid, dom, node, cs).nodes;
            && Inv(t) && Interned(t, dom) && t.hooked == nodes.hooked && t.invalidated == nodes.invalidated == false
            && Live(t) ==
               Live(nodes)[h := Entry(Pointer(roots.mallocs, node), TypeOf(dom.classes[node]), |cs|)]
    ensures InternAll(nodes, roots, rid, dom, node, cs).roots == Malloc(roots, NodeRootOf(rid))
    decreases |cs|
  {
    hide Inv, Live, Intern, TypeOf, Interned, Malloc;
    var before := cs[..|cs| - 1];
    var u := InternAll(nodes, roots, rid, dom, node, before);
    var c := cs[|cs| - 1];
    if before == [] {
      FirstIntern(nodes, roots, rid, dom, node, c);
      h := Intern(nodes, roots, rid, dom, Some(node), c).handle;
    } else {
      h := InternsAddEdges(nodes, roots, rid, dom, node, before);
      NextIntern(u.nodes, u.roots, rid, dom, node, c, h);
      OneMore(Live(nodes), h, Entry(Pointer(roots.mallocs, node), TypeOf(dom.classes[node]), |before|));
    }
  }

  lemma FirstIntern(nodes: Table<NodePointer>, roots: Roots, rid: nat, dom: Dom, node: nat, c: InternChoices)
    requires Inv(nodes) && Interned(nodes, dom) && node < |dom.classes| && !Rooted(nodes, node)
    requires Intern(nodes, roots, rid, dom, Some(node), c).status == Ok
    ensures var r := Intern(nodes, roots, rid, dom, Some(node), c);
            && Inv(r.nodes) && Interned(r.nodes, dom) && r.nodes.hooked == nodes.hooked
            && r.nodes.invalidated == nodes.invalidated == false && r.handle !in Live(nodes)
            && Live(r.nodes) ==
               Live(nodes)[r.handle := Entry(Pointer(roots.mallocs, node), TypeOf(dom.classes[node]), 1)]
            && r.roots == Malloc(roots, NodeRootOf(rid))
  {
    hide Inv, Live, Intern, TypeOf, Interned, Malloc;
    InternLaw(nodes, roots, rid, dom, Some(node), c);
  }

  lemma NextIntern(nodes: Table<NodePointer>, roots: Roots, rid: nat, dom: Dom, node: nat, c: InternChoices, h: Handle)
    requires Inv(nodes) && Interned(nodes, dom) && node < |dom.classes|
    requires h in Live(nodes) && Live(nodes)[h].token.at == node
    requires Intern(nodes, roots, rid, dom, Some(node), c).status == Ok
    ensures var r := Intern(nodes, roots, rid, dom, Some(node), c);
            && Inv(r.nodes) && Interned(r.nodes, dom) && r.nodes.hooked == nodes.hooked
            && r.nodes.invalidated == nodes.invalidated == false && r.handle == h
            && Live(nodes)[h].references < UINT32_MAX && r.roots == roots
            && Live(r.nodes) == Live(nodes)[h := Live(nodes)[h].(references := Live(nodes)[h].references + 1)]
  {
    hide Inv, Live, Intern, TypeOf, Malloc;
    InternLaw(nodes, roots, rid, dom, Some(node), c);
    var g := Intern(nodes, roots, rid, dom, Some(node), c).handle;
    assert g in Live(nodes) && Live(nodes)[g].token.at == node;
  }

  lemma OneMore(m: map<Handle, Entry<NodePointer>>, h: Handle, e: Entry<NodePointer>)
    ensures e.references < UINT32_MAX ==>
              m[h := e][h := e.(references := e.references + 1)] == m[h := e.(references := e.references + 1)]
  {
  }

  function ReleaseTimes(nodes: Table<NodePointer>, b: Blink, roots: Roots, rid: nat, h: Handle, n: nat): NodeReleased {
    if n == 0 then NodeReleased(nodes, b, roots, Ok)
    else
      var r := ReleaseTimes(nodes, b, roots, rid, h, n - 1);
      ReleaseNode(r.nodes, r.blink, r.roots, rid, h)
  }

  // The live map with k references left to h.
  function Left(m: map<Handle, Entry<NodePointer>>, h: Handle, k: nat): map<Handle, Entry<NodePointer>>
    requires h in m && k <= UINT32_MAX
  {
    if k == 0 then m - {h} else m[h := m[h].(references := k)]
  }

  lemma OneLess(m: map<Handle, Entry<NodePointer>>, h: Handle, k: nat)
    requires h in m && 1 <= k <= UINT32_MAX
    ensures h in Left(m, h, k) && Left(m, h, k)[h] == m[h].(references := k)
    ensures k == 1 ==> Left(m, h, k) - {h} == Left(m, h, 0)
    ensures k > 1 ==> Left(m, h, k)[h := m[h].(references := k - 1)] == Left(m, h, k - 1)
    ensures Left(m, h, m[h].references) == m
  {
  }

  lemma {:induction false} ReleasesTakeEdges(nodes: Table<NodePointer>, dom: Dom, b: Blink, roots: Roots, rid: nat,
                                             h: Handle, n: nat)
    requires Inv(nodes) && Interned(nodes, dom) && nodes.hooked && !nodes.invalidated
    requires h in Live(nodes) && n <= Live(nodes)[h].references
    ensures var r := ReleaseTimes(nodes, b, roots, rid, h, n);
            var e := Live(nodes)[h];
            && Inv(r.nodes) && Interned(r.nodes, dom) && r.nodes.hooked && !r.nodes.invalidated && r.status == Ok
            && r.blink == (if n < e.references then b else Log(b, DroppedNode(rid, e.token.at)))
            && r.roots == (if n < e.references then roots else Delete(roots, e.token))
            && Live(r.nodes) == Left(Live(nodes), h, e.references - n)
  {
    hide Inv, Live, ReleaseNode, Interned, Left, Free;
    if n == 0 {
      OneLess(Live(nodes), h, Live(nodes)[h].references);
    } else {
      ReleasesTakeEdges(nodes, dom, b, roots, rid, h, n - 1);
      OneLess(Live(nodes), h, Live(nodes)[h].references - (n - 1));
      var r := ReleaseTimes(nodes, b, roots, rid, h, n - 1);
      ReleaseNodeLaw(r.nodes, dom, r.blink, r.roots, rid, h);
    }
  }

  // k interns need k releases: the first k - 1 drop nothing, the k-th drops the root, once,
  // gives its memory back, and leaves the handles as they were before the first intern.
  lemma InternsNeedReleases(nodes: Table<NodePointer>, dom: Dom, b: Blink, roots: Roots, rid: nat, node: nat,
                            cs: seq<InternChoices>, n: nat)
    returns (h: Handle)
    requires Inv(nodes) && Interned(nodes, dom) && nodes.hooked && node < |dom.classes| && !Rooted(nodes, node)
    requires cs != [] && AllOk(nodes, roots, rid, dom, node, cs) && n <= |cs| && HeapOK(roots)
    ensures AllGive(nodes, roots, rid, dom, node, cs, h) && h !in Live(nodes)
    ensures var t := InternAll(nodes, roots, rid, dom, node, cs);
            var r := ReleaseTimes(t.nodes, b, t.roots, rid, h, n);
            var live := Live(r.nodes);
            && r.status == Ok
            && r.blink == (if n < |cs| then b else Log(b, DroppedNode(rid, node)))
            && (n < |cs| ==>
                  && h in live && live[h].token == Pointer(roots.mallocs, node) && live[h].references == |cs| - n
                  && r.roots == Malloc(roots, NodeRootOf(rid)))
            && live - {h} == Live(nodes)
            && (n == |cs| ==> live == Live(nodes) && r.roots.blocks == roots.blocks && HeapOK(r.roots))
  {
    hide Inv, Live, Interned, TypeOf, AllOk, AllGive, InternAll, ReleaseTimes, Rooted, Log, Left, HeapOK, Free, Malloc;
    h := InternsAddEdges(nodes, roots, rid, dom, node, cs);
    var t := InternAll(nodes, roots, rid, dom, node, cs);
    ReleasesTakeEdges(t.nodes, dom, b, t.roots, rid, h, n);
    LeftAtAll(Live(nodes), Live(t.nodes), h, |cs| - n);
    MallocFree(roots, NodeRootOf(rid));
  }

  lemma LeftAtAll(before: map<Handle, Entry<NodePointer>>, after: map<Handle, Entry<NodePointer>>, h: Handle, k: nat)
    requires h !in before && h in after && after == before[h := after[h]] && k <= UINT32_MAX
    ensures k > 0 ==> h in Left(after, h, k) && Left(after, h, k)[h] == after[h].(references := k)
    ensures Left(after, h, k) - {h} == before
    ensures k == 0 ==> Left(after, h, k) == before
  {
  }
}
