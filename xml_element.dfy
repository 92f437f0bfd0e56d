/**
 * A JDOM `Element` as the descriptor reader sees it: a name, a namespace, attributes,
 * child elements and text. Parsing XML is not part of this model.
 */
module Xml {
  import opened Wrappers

  datatype Element = Element(
    name: string,
    namespaceUri: string,
    attributes: map<string, string>,
    children: seq<Element>,
    text: string)
  {
    /** `getAttributeValue(attribute)`. */
    function AttributeValue(attribute: string): Option<string> {
      if attribute in attributes then Some(attributes[attribute]) else None
    }

    /** `getChildren(childName)`: the children with that name, in document order. */
    function ChildrenNamed(childName: string): seq<Element> {
      FilterByName(children, childName)
    }

    /** `getChild(childName)`: the first child with that name. */
    function Child(childName: string): Option<Element> {
      var named := ChildrenNamed(childName);
      if |named| == 0 then None else Some(named[0])
    }
  }

  function FilterByName(elements: seq<Element>, childName: string): (r: seq<Element>)
    ensures |r| <= |elements|
  {
    if |elements| == 0 then []
    else
      var tail := FilterByName(elements[1..], childName);
      if elements[0].name == childName then [elements[0]] + tail else tail
  }

  /** The children with a name are exactly the children that have that name. */
  lemma {:induction false} FilterByNameExact(elements: seq<Element>, childName: string, c: Element)
    ensures c in FilterByName(elements, childName) <==> c in elements && c.name == childName
    decreases |elements|
  {
    if |elements| > 0 {
      FilterByNameExact(elements[1..], childName, c);
      assert elements == [elements[0]] + elements[1..];
    }
  }

  /** The first child with a name is a child with that name; there is none only when no child has it. */
  lemma ChildExact(element: Element, childName: string)
    ensures var r := element.Child(childName);
      && (r.Some? ==> r.value in element.children && r.value.name == childName)
      && (r.None? <==> forall c :: c in element.children ==> c.name != childName)
  {
    var named := element.ChildrenNamed(childName);
    if |named| > 0 {
      FilterByNameExact(element.children, childName, named[0]);
    }
    forall c | c in element.children
      ensures c.name == childName ==> c in named
    {
      FilterByNameExact(element.children, childName, c);
    }
  }
}
