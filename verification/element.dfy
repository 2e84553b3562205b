/** The generic attributed tree the layer serialises itself into (AlElement):
    a tag name, attribute name to string value, and an ordered list of
    children.  `Option` stands for a possibly-null element pointer. */
module Elements {

  datatype Option<T> = None | Some(value: T)

  datatype Element = Element(tag: string, attrs: map<string, string>, children: seq<Element>)

  /** An element with the given tag, no attributes and no children, as
      `new AlElement(tag)` builds it. */
  function Empty(tag: string): (e: Element)
    ensures e.tag == tag && e.attrs == map[] && e.children == []
  {
    Element(tag, map[], [])
  }

  /** addAttr: sets one attribute, leaving the tag, the children and the
      other attributes as they were. */
  function AddAttr(e: Element, name: string, value: string): (r: Element)
    ensures r.tag == e.tag && r.children == e.children
    ensures r.attrs.Keys == e.attrs.Keys + {name}
    ensures name in r.attrs && r.attrs[name] == value
    ensures forall n :: n in e.attrs && n != name ==> n in r.attrs && r.attrs[n] == e.attrs[n]
  {
    e.(attrs := e.attrs[name := value])
  }

  /** addChild: appends one child after the existing ones. */
  function AddChild(e: Element, child: Element): (r: Element)
    ensures r.tag == e.tag && r.attrs == e.attrs
    ensures |r.children| == |e.children| + 1
    ensures r.children[..|e.children|] == e.children
    ensures r.children[|e.children|] == child
  {
    e.(children := e.children + [child])
  }
}
