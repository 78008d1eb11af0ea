/** The part of a parsed XML document the loaders use: an element's name,
    its attributes, its text and its child elements in document order. */
module Xml {
  import opened Common

  datatype Element = Element(
    name: string,
    attributes: map<string, string>,
    text: Option<string>,
    children: seq<Element>)

  /** `Attribute(key)`: the attribute's value, None for a null pointer. */
  function Attribute(e: Element, key: string): Option<string> {
    if key in e.attributes then Some(e.attributes[key]) else None
  }

  /** Index of the first element of cs with the given name. */
  function FirstIndexNamed(cs: seq<Element>, name: string): (r: Option<nat>)
    ensures r.None? ==> forall j :: 0 <= j < |cs| ==> cs[j].name != name
    ensures r.Some? ==> r.value < |cs| && cs[r.value].name == name
    ensures r.Some? ==> forall j :: 0 <= j < r.value ==> cs[j].name != name
  {
    if |cs| == 0 then None
    else if cs[0].name == name then Some(0)
    else
      match FirstIndexNamed(cs[1..], name)
      case None => None
      case Some(k) => Some(k + 1)
  }

  /** `FirstChildElement(name)`: the first child with that name, None for a
      null pointer. */
  function FirstChildElement(e: Element, name: string): (r: Option<Element>)
    ensures r.None? <==> forall c :: c in e.children ==> c.name != name
    ensures r.Some? ==> r.value in e.children && r.value.name == name
    ensures r.Some? ==>
      FirstIndexNamed(e.children, name).Some? && r.value == e.children[FirstIndexNamed(e.children, name).value]
  {
    match FirstIndexNamed(e.children, name)
    case None => None
    case Some(i) => Some(e.children[i])
  }

  /** A parsed file: `RootElement()`, None when the document has no element. */
  datatype Document = Document(root: Option<Element>)
}
