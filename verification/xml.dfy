/** An abstract ElementTree: namespaced elements with attributes, optional text and
    ordered children, and the path lookups the protocol layer performs on them. */
module Xml {
  import opened Wrappers
  import opened Faults

  const AppNs: string := "http://www.w3.org/2007/app"
  const AtomNs: string := "http://www.w3.org/2005/Atom"
  const FotkiNs: string := "yandex:fotki"

  /** A qualified tag `{ns}local`; `ns` is empty for an unqualified tag. */
  datatype Name = Name(ns: string, local: string)

  function Atom(local: string): Name {
    Name(AtomNs, local)
  }

  /** An element; `text` is `None` when the element has no text, as in ElementTree. */
  datatype Element = Element(name: Name, attrs: map<string, string>, text: Option<string>, children: seq<Element>)

  /** The optional `[@key="value"]` predicate of a path step. */
  datatype Filter = AnyAttrs | AttrIs(key: string, value: string)

  predicate Matches(e: Element, name: Name, filter: Filter) {
    && e.name == name
    && (filter.AttrIs? ==> filter.key in e.attrs && e.attrs[filter.key] == filter.value)
  }

  /** Position of the first element of `es` that matches the path step. */
  function FirstMatch(es: seq<Element>, name: Name, filter: Filter): (r: Option<nat>)
    ensures r.Some? ==> r.value < |es| && Matches(es[r.value], name, filter)
    ensures r.Some? ==> forall j :: 0 <= j < r.value ==> !Matches(es[j], name, filter)
    ensures r.None? <==> forall j :: 0 <= j < |es| ==> !Matches(es[j], name, filter)
  {
    if |es| == 0 then None
    else if Matches(es[0], name, filter) then Some(0)
    else match FirstMatch(es[1..], name, filter)
      case None => None
      case Some(i) => Some(i + 1)
  }

  /** ElementTree's `find`: the first direct child matching the path step, if any. */
  function Find(e: Element, name: Name, filter: Filter): (r: Option<Element>)
    ensures r.Some? <==> exists j :: 0 <= j < |e.children| && Matches(e.children[j], name, filter)
    ensures r.Some? ==> Matches(r.value, name, filter)
  {
    match FirstMatch(e.children, name, filter)
    case None => None
    case Some(i) => Some(e.children[i])
  }

  /** `attrib[key]`, raising KeyError when the attribute is absent. */
  function Attr(e: Element, key: string): (r: Result<string, Fault>)
    ensures r.Success? <==> key in e.attrs
    ensures r.Success? ==> r.value == e.attrs[key]
    ensures r.Failure? ==> r.error == KeyError(key)
  {
    if key in e.attrs then Success(e.attrs[key]) else Failure(KeyError(key))
  }

  /** The elements of `es` carrying tag `name`, in document order. */
  function Select(es: seq<Element>, name: Name): (r: seq<Element>)
    ensures |r| <= |es|
    ensures forall i :: 0 <= i < |r| ==> r[i].name == name && r[i] in es
    ensures (forall i :: 0 <= i < |es| ==> es[i].name == name) ==> r == es
  {
    if |es| == 0 then []
    else if es[0].name == name then [es[0]] + Select(es[1..], name)
    else Select(es[1..], name)
  }

  /** ElementTree's `findall` on direct children. */
  function FindAll(e: Element, name: Name): seq<Element> {
    Select(e.children, name)
  }

  /** Every element strictly below `e`, in document (pre-)order, as `iter()` minus `e` itself. */
  function Descendants(e: Element): seq<Element>
    decreases e, 1
  {
    Forest(e.children)
  }

  /** Each element of `es` followed by its descendants, in order. */
  function Forest(es: seq<Element>): seq<Element>
    decreases es, 0
  {
    if |es| == 0 then [] else [es[0]] + Descendants(es[0]) + Forest(es[1..])
  }

  /** The same element with the text of child `i` replaced. */
  function WithChildText(e: Element, i: nat, t: string): (r: Element)
    requires i < |e.children|
    ensures r.name == e.name && r.attrs == e.attrs && r.text == e.text
    ensures |r.children| == |e.children|
    ensures r.children[i].text == Some(t)
    ensures r.children[i] == e.children[i].(text := Some(t))
    ensures forall j :: 0 <= j < |e.children| && j != i ==> r.children[j] == e.children[j]
  {
    e.(children := e.children[i := e.children[i].(text := Some(t))])
  }
}
