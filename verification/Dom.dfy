/** The part of Blink's DOM that the capsules touch: node classes, parent links, child
    lists and shadow hosts, and the mutations createElement, appendChild and
    setTextContent. The guard
    is that of nts_web_node_append_child (chromium/bridge/nts_blink_dom.cc). */
module Doms {
  import opened Abi
  import opened WebTypes

  // Nodes are 0, 1, ..., n-1. `host` is set for shadow roots and template contents only.
  datatype Dom = Dom(
    classes: seq<BlinkClass>,
    parent: seq<Option<nat>>,
    host: seq<Option<nat>>,
    children: seq<seq<nat>>,
    data: seq<string>) // of text nodes; empty for the others

  function ClassOf(dom: Dom, n: nat): BlinkClass {
    if n < |dom.classes| then dom.classes[n] else NodeClass
  }

  function ParentOf(dom: Dom, n: nat): Option<nat> {
    if n < |dom.parent| then dom.parent[n] else None
  }

  // The next node up, through a shadow root to its host.
  function Up(dom: Dom, n: nat): Option<nat> {
    if ParentOf(dom, n).Some? then ParentOf(dom, n)
    else if n < |dom.host| then dom.host[n] else None
  }

  function Climb(dom: Dom, n: nat, steps: nat): Option<nat> {
    if steps == 0 then Some(n)
    else
      match Climb(dom, n, steps - 1)
      case None => None
      case Some(m) => Up(dom, m)
  }

  // a is a host-including inclusive ancestor of n.
  ghost predicate Contains(dom: Dom, a: nat, n: nat) {
    exists steps: nat :: Climb(dom, n, steps) == Some(a)
  }

  // The same relation as the DOM Standard defines it: by parent links alone, and from a root
  // on through its host.
  function ParentClimb(dom: Dom, n: nat, steps: nat): Option<nat> {
    if steps == 0 then Some(n)
    else
      match ParentClimb(dom, n, steps - 1)
      case None => None
      case Some(m) => ParentOf(dom, m)
  }

  ghost predicate InclusiveAncestor(dom: Dom, a: nat, n: nat) {
    exists steps: nat :: ParentClimb(dom, n, steps) == Some(a)
  }

  // r is the root of n's tree.
  ghost predicate IsRoot(dom: Dom, r: nat, n: nat) {
    InclusiveAncestor(dom, r, n) && ParentOf(dom, r) == None
  }

  // "Host-including inclusive ancestor" of the DOM Standard, section 4.7, through at most
  // this many hosts.
  ghost predicate HostIncluding(dom: Dom, a: nat, n: nat, hosts: nat)
    decreases hosts
  {
    || InclusiveAncestor(dom, a, n)
    || (hosts > 0 && exists r: nat :: IsRoot(dom, r, n) && r < |dom.host| && dom.host[r].Some?
                                      && HostIncluding(dom, a, dom.host[r].value, hosts - 1))
  }

  ghost predicate HostIncludingInclusiveAncestor(dom: Dom, a: nat, n: nat) {
    exists hosts: nat :: HostIncluding(dom, a, n, hosts)
  }

  // ----- the forest -----

  // Every way up loses rank, so no node is its own ancestor.
  ghost predicate Ranked(dom: Dom, rank: seq<nat>) {
    && |rank| == |dom.classes|
    && forall n :: 0 <= n < |rank| && Up(dom, n).Some? ==>
         Up(dom, n).value < |rank| && rank[Up(dom, n).value] < rank[n]
  }

  // Child lists and parent links say the same, each child is listed once.
  ghost predicate Consistent(dom: Dom) {
    && |dom.parent| == |dom.host| == |dom.children| == |dom.data| == |dom.classes|
    && (forall p, k :: 0 <= p < |dom.children| && 0 <= k < |dom.children[p]| ==>
          dom.children[p][k] < |dom.parent| && dom.parent[dom.children[p][k]] == Some(p))
    && (forall n :: 0 <= n < |dom.parent| && dom.parent[n].Some? ==>
          dom.parent[n].value < |dom.children| && n in dom.children[dom.parent[n].value])
    && (forall p, j, k :: 0 <= p < |dom.children| && 0 <= j < k < |dom.children[p]| ==>
          dom.children[p][j] != dom.children[p][k])
    && (forall n :: 0 <= n < |dom.host| && dom.host[n].Some? ==>
          dom.classes[n] == DocumentFragment && dom.parent[n] == None)
  }

  ghost predicate Forest(dom: Dom) {
    Consistent(dom) && exists rank :: Ranked(dom, rank)
  }

  // ----- the capsule's guard and Blink's mutations -----

  function NodeTypeAllowed(parent: BlinkClass, child: BlinkClass): bool {
    // Element::ChildTypeAllowed for an Element child.
    IsA(parent, ElementClass) && IsA(child, ElementClass)
  }

  ghost predicate AppendGuard(dom: Dom, parent: nat, child: nat) {
    && IsA(ClassOf(dom, parent), ContainerNode)
    && IsA(ClassOf(dom, parent), ElementClass)
    && IsA(ClassOf(dom, child), ElementClass)
    && ParentOf(dom, child).None?
    && !Contains(dom, child, parent)
    && NodeTypeAllowed(ClassOf(dom, parent), ClassOf(dom, child))
  }

  function CreateElement(dom: Dom, c: BlinkClass): Dom {
    Dom(dom.classes + [c], dom.parent + [None], dom.host + [None], dom.children + [[]],
        dom.data + [""])
  }

  function AppendChild(dom: Dom, parent: nat, child: nat): Dom
    requires parent < |dom.children| && child < |dom.parent|
  {
    dom.(parent := dom.parent[child := Some(parent)],
         children := dom.children[parent := dom.children[parent] + [child]])
  }

  function Orphaned(parent: seq<Option<nat>>, n: nat): (r: seq<Option<nat>>)
    ensures |r| == |parent|
    ensures forall i :: 0 <= i < |r| ==> r[i] == if parent[i] == Some(n) then None else parent[i]
  {
    seq(|parent|, i requires 0 <= i < |parent| => if parent[i] == Some(n) then None else parent[i])
  }

  // The children of n lose their parent.
  function RemoveChildren(dom: Dom, n: nat): Dom {
    if n < |dom.children| then dom.(parent := Orphaned(dom.parent, n), children := dom.children[n := []]) else dom
  }

  function AppendText(dom: Dom, n: nat, text: string): Dom {
    if n < |dom.children| then
      Dom(dom.classes + [CharacterData], dom.parent + [Some(n)], dom.host + [None],
          dom.children[n := dom.children[n] + [|dom.classes|]] + [[]], dom.data + [text])
    else dom
  }

  function WriteData(dom: Dom, n: nat, text: string): Dom {
    if n < |dom.data| then dom.(data := dom.data[n := text]) else dom
  }

  // Node::setTextContent: an element or fragment gets one text node instead of its children,
  // or none when the text is empty; a text node gets the text; nothing else has any.
  function ReplaceText(dom: Dom, n: nat, text: string): Dom {
    if IsA(ClassOf(dom, n), CharacterData) then WriteData(dom, n, text)
    else if !IsA(ClassOf(dom, n), ElementClass) && !IsA(ClassOf(dom, n), DocumentFragment) then dom
    else if text == "" then RemoveChildren(dom, n)
    else AppendText(RemoveChildren(dom, n), n, text)
  }

  // "Ensure pre-insert validity" of the DOM Standard, section 4.2.3, for inserting `node`
  // into `parent` before `before` (None appends).
  ghost predicate PreInsertValid(dom: Dom, node: nat, parent: nat, before: Option<nat>) {
    var c, p := ClassOf(dom, node), ClassOf(dom, parent);
    // 1. parent is a document, a fragment or an element
    && (IsA(p, DocumentClass) || IsA(p, DocumentFragment) || IsA(p, ElementClass))
    // 2. node is not a host-including inclusive ancestor of parent
    && !HostIncludingInclusiveAncestor(dom, node, parent)
    // 3. the reference child, if any, is a child of parent
    && (before.Some? ==> ParentOf(dom, before.value) == Some(parent))
    // 4. node can be a child at all
    && (IsA(c, DocumentFragment) || IsA(c, DocumentType) || IsA(c, ElementClass) || IsA(c, CharacterData))
    // 5. no text in a document, no doctype elsewhere
    && !(IsA(c, CharacterData) && IsA(p, DocumentClass))
    && !(IsA(c, DocumentType) && !IsA(p, DocumentClass))
    // 6. a document keeps at most one element child
    && (IsA(p, DocumentClass) && IsA(c, ElementClass) ==>
          forall n :: 0 <= n < |dom.parent| && dom.parent[n] == Some(parent) ==> !IsA(ClassOf(dom, n), ElementClass))
  }

  // The guard covers every check of the algorithm, so appending cannot raise.
  lemma GuardImpliesPreInsertValid(dom: Dom, parent: nat, child: nat)
    requires AppendGuard(dom, parent, child)
    ensures PreInsertValid(dom, child, parent, None)
  {
    ContainsIsHostIncluding(dom, child, parent);
    Chain(ClassOf(dom, parent));
    Chain(ClassOf(dom, child));
  }

  // And it lets through all it promises to: what is left of it are the four conditions on an
  // element below an element.
  lemma GuardExact(dom: Dom, parent: nat, child: nat)
    ensures AppendGuard(dom, parent, child) <==>
              && IsA(ClassOf(dom, parent), ElementClass) && IsA(ClassOf(dom, child), ElementClass)
              && ParentOf(dom, child) == None && !Contains(dom, child, parent)
  {
    hide Contains;
    Chain(ClassOf(dom, parent));
  }

  lemma CreateElementKeepsForest(dom: Dom, c: BlinkClass)
    requires Forest(dom) && IsA(c, ElementClass)
    ensures Forest(CreateElement(dom, c))
  {
    var rank :| Ranked(dom, rank);
    var dom' := CreateElement(dom, c);
    forall n | 0 <= n < |dom'.classes| ensures Up(dom', n) == if n < |dom.classes| then Up(dom, n) else None {}
    assert Ranked(dom', rank + [0]);
  }

  // Nodes below child, with host links, rise above the new parent; nothing else moves.
  lemma AppendChildKeepsForest(dom: Dom, parent: nat, child: nat)
    requires Forest(dom) && parent < |dom.classes| && child < |dom.classes|
    requires AppendGuard(dom, parent, child)
    ensures Forest(AppendChild(dom, parent, child))
  {
    var rank :| Ranked(dom, rank);
    AppendConsistent(dom, parent, child);
    AppendRanked(dom, parent, child, rank);
  }

  lemma AppendConsistent(dom: Dom, parent: nat, child: nat)
    requires Consistent(dom) && parent < |dom.classes| && child < |dom.classes|
    requires dom.parent[child].None? && IsA(dom.classes[child], ElementClass)
    ensures Consistent(AppendChild(dom, parent, child))
  {
    Chain(dom.classes[child]);
    var dom' := AppendChild(dom, parent, child);
    assert dom'.children[parent][|dom.children[parent]|] == child;
    forall n | 0 <= n < |dom'.parent| && dom'.parent[n].Some?
      ensures dom'.parent[n].value < |dom'.children| && n in dom'.children[dom'.parent[n].value]
    {
      if n != child {
        var p := dom.parent[n].value;
        assert n in dom.children[p];
      }
    }
  }

  lemma AppendRanked(dom: Dom, parent: nat, child: nat, rank: seq<nat>)
    requires Consistent(dom) && Ranked(dom, rank) && parent < |dom.classes| && child < |dom.classes|
    requires dom.parent[child].None? && IsA(dom.classes[child], ElementClass) && !Contains(dom, child, parent)
    ensures exists rank' :: Ranked(AppendChild(dom, parent, child), rank')
  {
    Chain(dom.classes[child]);
    hide IsA;
    var dom' := AppendChild(dom, parent, child);
    var lift := rank[parent] + 1;
    var rank' := Lifted(dom, child, rank, lift);
    forall n | 0 <= n < |rank'| && Up(dom', n).Some?
      ensures Up(dom', n).value < |rank'| && rank'[Up(dom', n).value] < rank'[n]
    {
      if n == child {
        assert Climb(dom, child, 0) == Some(child);
      } else {
        assert Up(dom', n) == Up(dom, n);
        ContainsUp(dom, child, n);
      }
    }
    assert Ranked(dom', rank');
  }

  ghost function Lifted(dom: Dom, child: nat, rank: seq<nat>, lift: nat): (r: seq<nat>)
    ensures |r| == |rank|
    ensures forall n :: 0 <= n < |r| ==> r[n] == rank[n] + if Contains(dom, child, n) then lift else 0
  {
    seq(|rank|, n requires 0 <= n < |rank| => rank[n] + if Contains(dom, child, n) then lift else 0)
  }

  lemma RemoveChildrenKeepsForest(dom: Dom, n: nat)
    requires Forest(dom)
    ensures Forest(RemoveChildren(dom, n))
  {
    var rank :| Ranked(dom, rank);
    var dom' := RemoveChildren(dom, n);
    forall i | 0 <= i < |dom'.parent| && dom'.parent[i].Some?
      ensures dom'.parent[i].value < |dom'.children| && i in dom'.children[dom'.parent[i].value]
    {
      assert i in dom.children[dom.parent[i].value];
    }
    forall i | 0 <= i < |rank| ensures Up(dom', i).Some? ==> Up(dom', i) == Up(dom, i) {}
    assert Ranked(dom', rank);
  }

  lemma AppendTextKeepsForest(dom: Dom, n: nat, text: string)
    requires Forest(dom)
    ensures Forest(AppendText(dom, n, text))
  {
    if n < |dom.children| {
      var rank :| Ranked(dom, rank);
      var dom' := AppendText(dom, n, text);
      AppendTextConsistent(dom, n, text);
      forall i | 0 <= i < |dom'.classes| ensures Up(dom', i) == if i < |dom.classes| then Up(dom, i) else Some(n) {}
      assert Ranked(dom', rank + [rank[n] + 1]);
    }
  }

  lemma AppendTextConsistent(dom: Dom, n: nat, text: string)
    requires Consistent(dom) && n < |dom.children|
    ensures Consistent(AppendText(dom, n, text))
  {
    var dom' := AppendText(dom, n, text);
    assert dom'.children[n][|dom.children[n]|] == |dom.classes|;
    forall i | 0 <= i < |dom'.parent| && dom'.parent[i].Some?
      ensures dom'.parent[i].value < |dom'.children| && i in dom'.children[dom'.parent[i].value]
    {
      if i < |dom.parent| {
        var p := dom.parent[i].value;
        assert i in dom.children[p];
      }
    }
  }

  lemma WriteDataKeepsForest(dom: Dom, n: nat, text: string)
    requires Forest(dom)
    ensures Forest(WriteData(dom, n, text))
  {
    var rank :| Ranked(dom, rank);
    var dom' := WriteData(dom, n, text);
    forall i ensures Up(dom', i) == Up(dom, i) {}
    assert Ranked(dom', rank);
  }

  lemma ReplaceTextKeepsForest(dom: Dom, n: nat, text: string)
    requires Forest(dom)
    ensures Forest(ReplaceText(dom, n, text)) && dom.classes <= ReplaceText(dom, n, text).classes
  {
    hide Forest, IsA;
    WriteDataKeepsForest(dom, n, text);
    RemoveChildrenKeepsForest(dom, n);
    AppendTextKeepsForest(RemoveChildren(dom, n), n, text);
  }

  // A node is below `a` exactly when it is `a` or the next node up is.
  lemma ContainsUp(dom: Dom, a: nat, n: nat)
    ensures Contains(dom, a, n) <==> n == a || (Up(dom, n).Some? && Contains(dom, a, Up(dom, n).value))
  {
    assert Climb(dom, n, 0) == Some(n);
    if Contains(dom, a, n) && n != a {
      var steps: nat :| Climb(dom, n, steps) == Some(a);
      ClimbFirst(dom, n, steps);
    }
    if Up(dom, n).Some? && Contains(dom, a, Up(dom, n).value) {
      var steps: nat :| Climb(dom, Up(dom, n).value, steps) == Some(a);
      ClimbFirst(dom, n, steps + 1);
      assert Climb(dom, n, steps + 1) == Some(a);
    }
  }

  lemma {:induction false} ClimbFirst(dom: Dom, n: nat, steps: nat)
    requires steps > 0
    ensures Climb(dom, n, steps) == match Up(dom, n) { case None => None case Some(m) => Climb(dom, m, steps - 1) }
  {
    if steps == 1 {
      assert Climb(dom, n, 0) == Some(n);
    } else {
      ClimbFirst(dom, n, steps - 1);
    }
  }

  lemma ParentFirst(dom: Dom, a: nat, n: nat)
    ensures ParentOf(dom, n).Some? && InclusiveAncestor(dom, a, ParentOf(dom, n).value) ==> InclusiveAncestor(dom, a, n)
    ensures InclusiveAncestor(dom, n, n)
  {
    assert ParentClimb(dom, n, 0) == Some(n);
    if ParentOf(dom, n).Some? && InclusiveAncestor(dom, a, ParentOf(dom, n).value) {
      var steps: nat :| ParentClimb(dom, ParentOf(dom, n).value, steps) == Some(a);
      ParentClimbFirst(dom, n, steps + 1);
      assert ParentClimb(dom, n, steps + 1) == Some(a);
    }
  }

  lemma {:induction false} ParentClimbFirst(dom: Dom, n: nat, steps: nat)
    requires steps > 0 && ParentOf(dom, n).Some?
    ensures ParentClimb(dom, n, steps) == ParentClimb(dom, ParentOf(dom, n).value, steps - 1)
  {
    if steps == 1 {
      assert ParentClimb(dom, n, 0) == Some(n);
    } else {
      ParentClimbFirst(dom, n, steps - 1);
    }
  }

  // What is above the parent is above n.
  lemma HostIncludingUp(dom: Dom, a: nat, n: nat, hosts: nat)
    requires ParentOf(dom, n).Some? && HostIncluding(dom, a, ParentOf(dom, n).value, hosts)
    ensures HostIncluding(dom, a, n, hosts)
  {
    var m := ParentOf(dom, n).value;
    ParentFirst(dom, a, n);
    if !InclusiveAncestor(dom, a, m) {
      var r: nat :| IsRoot(dom, r, m) && r < |dom.host| && dom.host[r].Some?
                    && HostIncluding(dom, a, dom.host[r].value, hosts - 1);
      ParentFirst(dom, r, n);
      assert IsRoot(dom, r, n);
    }
  }

  lemma {:induction false} ClimbIsHostIncluding(dom: Dom, a: nat, n: nat, steps: nat)
    requires Climb(dom, n, steps) == Some(a)
    ensures HostIncludingInclusiveAncestor(dom, a, n)
    decreases steps
  {
    ParentFirst(dom, n, n);
    if steps == 0 {
      assert HostIncluding(dom, a, n, 0);
    } else {
      ClimbFirst(dom, n, steps);
      var m := Up(dom, n).value;
      ClimbIsHostIncluding(dom, a, m, steps - 1);
      var hosts: nat :| HostIncluding(dom, a, m, hosts);
      if ParentOf(dom, n).Some? {
        HostIncludingUp(dom, a, n, hosts);
      } else {
        assert IsRoot(dom, n, n);
        assert HostIncluding(dom, a, n, hosts + 1);
      }
    }
  }

  lemma {:induction false} ParentClimbClimbs(dom: Dom, n: nat, steps: nat)
    ensures ParentClimb(dom, n, steps).Some? ==> Climb(dom, n, steps) == ParentClimb(dom, n, steps)
  {
    if steps == 0 {
    } else {
      ParentClimbClimbs(dom, n, steps - 1);
    }
  }

  lemma {:induction false} ClimbAdd(dom: Dom, n: nat, i: nat, j: nat)
    requires Climb(dom, n, i).Some?
    ensures Climb(dom, n, i + j) == Climb(dom, Climb(dom, n, i).value, j)
  {
    if j == 0 {
    } else {
      ClimbAdd(dom, n, i, j - 1);
    }
  }

  lemma {:induction false} HostIncludingClimbs(dom: Dom, a: nat, n: nat, hosts: nat)
    requires HostIncluding(dom, a, n, hosts)
    ensures Contains(dom, a, n)
    decreases hosts
  {
    if InclusiveAncestor(dom, a, n) {
      var steps: nat :| ParentClimb(dom, n, steps) == Some(a);
      ParentClimbClimbs(dom, n, steps);
    } else {
      var r: nat :| IsRoot(dom, r, n) && r < |dom.host| && dom.host[r].Some?
                    && HostIncluding(dom, a, dom.host[r].value, hosts - 1);
      var i: nat :| ParentClimb(dom, n, i) == Some(r);
      ParentClimbClimbs(dom, n, i);
      HostIncludingClimbs(dom, a, dom.host[r].value, hosts - 1);
      var j: nat :| Climb(dom, dom.host[r].value, j) == Some(a);
      assert Climb(dom, n, i + 1) == Some(dom.host[r].value);
      ClimbAdd(dom, n, i + 1, j);
    }
  }

  // The walk through parents and hosts reaches exactly the host-including inclusive ancestors.
  lemma ContainsIsHostIncluding(dom: Dom, a: nat, n: nat)
    ensures Contains(dom, a, n) <==> HostIncludingInclusiveAncestor(dom, a, n)
  {
    if Contains(dom, a, n) {
      var steps: nat :| Climb(dom, n, steps) == Some(a);
      ClimbIsHostIncluding(dom, a, n, steps);
    }
    if hosts: nat :| HostIncluding(dom, a, n, hosts) { HostIncludingClimbs(dom, a, n, hosts); }
  }

  // Node::ContainsIncludingHostElements: the walk up from n, which ends because rank falls.
  method ContainsIncludingHostElements(dom: Dom, a: nat, n: nat) returns (found: bool)
    requires Forest(dom) && n < |dom.classes|
    ensures found <==> Contains(dom, a, n)
  {
    ghost var rank :| Ranked(dom, rank);
    var current: Option<nat> := Some(n);
    while current.Some?
      invariant current.Some? ==> current.value < |rank|
      invariant Contains(dom, a, n) <==> current.Some? && Contains(dom, a, current.value)
      decreases if current.Some? then rank[current.value] + 1 else 0
    {
      ContainsUp(dom, a, current.value);
      if current.value == a { return true; }
      current := Up(dom, current.value);
    }
    found := false;
  }
}
