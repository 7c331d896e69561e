/** The interface types that handles carry and their subtype test (`TypeOf` and
    `TypeAccepts` of chromium/bridge/nts_blink_node_registry.cc), against Blink's class
    hierarchy. */
module WebTypes {
  import opened Abi

  const NODE: nat := 0x3468032d
  const DOCUMENT: nat := 0xf843faf4
  const ELEMENT: nat := 0x7d376697
  const HTML_ELEMENT: nat := 0x88f8d4b8
  const HTML_BODY_ELEMENT: nat := 0xaf0e6ca4

  // The interface each modelled interface inherits from.
  function ParentType(typeId: nat): Option<nat> {
    if typeId == HTML_BODY_ELEMENT then Some(HTML_ELEMENT)
    else if typeId == HTML_ELEMENT then Some(ELEMENT)
    else if typeId == ELEMENT || typeId == DOCUMENT then Some(NODE)
    else None
  }

  function TypeAccepts(actual: nat, expected: nat): bool {
    if actual == expected then true
    else if actual == HTML_BODY_ELEMENT then expected == HTML_ELEMENT || expected == ELEMENT || expected == NODE
    else if actual == HTML_ELEMENT then expected == ELEMENT || expected == NODE
    else if actual == ELEMENT || actual == DOCUMENT then expected == NODE
    else false
  }

  // n steps up the inheritance chain.
  function AncestorType(typeId: nat, n: nat): Option<nat> {
    if n == 0 then Some(typeId)
    else
      match AncestorType(typeId, n - 1)
      case None => None
      case Some(t) => ParentType(t)
  }

  // The subtype test is the reflexive and transitive closure of inheritance, on all type ids.
  lemma TypeAcceptsIsClosure(actual: nat, expected: nat)
    ensures TypeAccepts(actual, expected) <==> exists n: nat :: AncestorType(actual, n) == Some(expected)
  {
    if TypeAccepts(actual, expected) {
      var n: nat := if actual == expected then 0
                    else if ParentType(actual) == Some(expected) then 1
                    else if expected == ELEMENT then 2
                    else if actual == HTML_BODY_ELEMENT then 3 else 2;
      Unroll(actual);
      assert AncestorType(actual, n) == Some(expected);
    }
    forall n: nat | AncestorType(actual, n) == Some(expected) ensures TypeAccepts(actual, expected) {
      AcceptsAncestor(actual, n);
    }
  }

  lemma Unroll(typeId: nat)
    ensures AncestorType(typeId, 0) == Some(typeId) && AncestorType(typeId, 1) == ParentType(typeId)
    ensures AncestorType(typeId, 2) == match ParentType(typeId) { case None => None case Some(t) => ParentType(t) }
    ensures AncestorType(typeId, 3) == match AncestorType(typeId, 2) { case None => None case Some(t) => ParentType(t) }
  {
    assert AncestorType(typeId, 0) == Some(typeId);
    assert AncestorType(typeId, 1) == ParentType(typeId);
    assert AncestorType(typeId, 2) == match ParentType(typeId) { case None => None case Some(t) => ParentType(t) };
  }

  lemma {:induction false} AcceptsAncestor(actual: nat, n: nat)
    ensures AncestorType(actual, n).Some? ==> TypeAccepts(actual, AncestorType(actual, n).value)
  {
    if n == 0 {
    } else {
      AcceptsAncestor(actual, n - 1);
    }
  }

  // ----- Blink's classes -----

  datatype BlinkClass =
    | NodeClass
    | CharacterData
    | DocumentType
    | ContainerNode
    | DocumentFragment
    | DocumentClass
    | ElementClass
    | HTMLElementClass
    | HTMLBodyElementClass
    | HTMLScriptElementClass

  function Superclass(c: BlinkClass): Option<BlinkClass> {
    match c
    case NodeClass => None
    case CharacterData => Some(NodeClass)
    case DocumentType => Some(NodeClass)
    case ContainerNode => Some(NodeClass)
    case DocumentFragment => Some(ContainerNode)
    case DocumentClass => Some(ContainerNode)
    case ElementClass => Some(ContainerNode)
    case HTMLElementClass => Some(ElementClass)
    case HTMLBodyElementClass => Some(HTMLElementClass)
    case HTMLScriptElementClass => Some(HTMLElementClass)
  }

  function Height(c: BlinkClass): nat {
    match c
    case NodeClass => 0
    case CharacterData => 1
    case DocumentType => 1
    case ContainerNode => 1
    case DocumentFragment => 2
    case DocumentClass => 2
    case ElementClass => 2
    case HTMLElementClass => 3
    case HTMLBodyElementClass => 4
    case HTMLScriptElementClass => 4
  }

  // blink::IsA and DynamicTo: c is `d` or inherits from it.
  predicate IsA(c: BlinkClass, d: BlinkClass)
    decreases Height(c)
  {
    c == d || (Superclass(c).Some? && IsA(Superclass(c).value, d))
  }

  function TypeOf(c: BlinkClass): nat {
    if IsA(c, HTMLBodyElementClass) then HTML_BODY_ELEMENT
    else if IsA(c, HTMLElementClass) then HTML_ELEMENT
    else if IsA(c, ElementClass) then ELEMENT
    else if IsA(c, DocumentClass) then DOCUMENT
    else NODE
  }

  predicate Modelled(typeId: nat) {
    typeId in [NODE, DOCUMENT, ELEMENT, HTML_ELEMENT, HTML_BODY_ELEMENT]
  }

  // The Blink class an interface type stands for.
  function ClassOfType(typeId: nat): BlinkClass {
    if typeId == HTML_BODY_ELEMENT then HTMLBodyElementClass
    else if typeId == HTML_ELEMENT then HTMLElementClass
    else if typeId == ELEMENT then ElementClass
    else if typeId == DOCUMENT then DocumentClass
    else NodeClass
  }

  // A node's type is the most derived modelled one, so the subtype test on it decides
  // exactly whether the node is an instance of the expected interface.
  lemma TypeOfDecidesInstance(c: BlinkClass, expected: nat)
    requires Modelled(expected)
    ensures Modelled(TypeOf(c)) && IsA(c, ClassOfType(TypeOf(c)))
    ensures TypeAccepts(TypeOf(c), expected) <==> IsA(c, ClassOfType(expected))
  {
    Chain(c);
  }

  // The whole inheritance chain of a class, spelled out.
  lemma Chain(c: BlinkClass)
    ensures forall d :: IsA(c, d) <==>
              match c {
                case NodeClass => d == NodeClass
                case CharacterData => d in {c, NodeClass}
                case DocumentType => d in {c, NodeClass}
                case ContainerNode => d in {c, NodeClass}
                case DocumentFragment => d in {c, ContainerNode, NodeClass}
                case DocumentClass => d in {c, ContainerNode, NodeClass}
                case ElementClass => d in {c, ContainerNode, NodeClass}
                case HTMLElementClass => d in {c, ElementClass, ContainerNode, NodeClass}
                case HTMLBodyElementClass => d in {c, HTMLElementClass, ElementClass, ContainerNode, NodeClass}
                case HTMLScriptElementClass => d in {c, HTMLElementClass, ElementClass, ContainerNode, NodeClass}
              }
  {
    forall d ensures IsA(NodeClass, d) <==> d == NodeClass {}
    forall d ensures IsA(ContainerNode, d) <==> d == ContainerNode || d == NodeClass {}
    forall d ensures IsA(ElementClass, d) <==> d == ElementClass || IsA(ContainerNode, d) {}
    forall d ensures IsA(HTMLElementClass, d) <==> d == HTMLElementClass || IsA(ElementClass, d) {}
  }
}
