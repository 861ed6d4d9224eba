/**
 * The abstract element tree the client works on. ElementTree/lxml parse and
 * serialise are not modelled; their elements are values of `Element`, and
 * `find`/`findall` are given for the path forms the client uses: `.` (the
 * element itself) and a single tag name.
 */
module Xml {
  import opened Wrappers

  /** An element: tag, text (None when absent), attributes and children in document order. */
  datatype Element = Element(
    tag: string,
    text: Option<string>,
    attrib: map<string, string>,
    children: seq<Element>)

  /** `ET.Element(tag)`: no text, no attributes, no children. */
  function Node(tag: string): Element
  {
    Element(tag, None, map[], [])
  }

  /** The prefix ElementTree gives to the tags of the Clusterpoint envelope namespace. */
  const Namespace: string := "{www.clusterpoint.com}"

  /** The position of the first element with the given tag. */
  function FirstIndex(children: seq<Element>, tag: string): (r: Option<nat>)
    ensures r.Some? ==> r.value < |children| && children[r.value].tag == tag
    ensures r.Some? ==> forall j :: 0 <= j < r.value ==> children[j].tag != tag
    ensures r.None? ==> forall j :: 0 <= j < |children| ==> children[j].tag != tag
  {
    if |children| == 0 then None
    else if children[0].tag == tag then Some(0)
    else match FirstIndex(children[1..], tag)
      case None => None
      case Some(k) => Some(k + 1)
  }

  /** `e.find(path)`: `.` is the element itself, a tag name its first child with that tag. */
  function Find(e: Element, path: string): Option<Element>
  {
    if path == "." then Some(e)
    else match FirstIndex(e.children, path)
      case None => None
      case Some(k) => Some(e.children[k])
  }

  /** The elements of `children` with the given tag, in order. */
  function Filter(children: seq<Element>, tag: string): (r: seq<Element>)
    ensures |r| <= |children|
    ensures forall x <- r :: x in children && x.tag == tag
    ensures forall c <- children :: c.tag == tag ==> c in r
  {
    if |children| == 0 then []
    else (if children[0].tag == tag then [children[0]] else []) + Filter(children[1..], tag)
  }

  /** `e.findall(path)`: `.` is the element alone, a tag name its children with that tag. */
  function FindAll(e: Element, path: string): seq<Element>
  {
    if path == "." then [e] else Filter(e.children, path)
  }

  /** `find` is the first element `findall` of the same path returns, or None when there is none. */
  lemma {:induction false} FindIsFirstOfFindAll(e: Element, path: string)
    ensures Find(e, path) == if FindAll(e, path) == [] then None else Some(FindAll(e, path)[0])
  {
    if path != "." {
      FirstOfFilter(e.children, path);
    }
  }

  lemma {:induction false} FirstOfFilter(children: seq<Element>, tag: string)
    ensures match FirstIndex(children, tag)
            case None => Filter(children, tag) == []
            case Some(k) => Filter(children, tag) != [] && Filter(children, tag)[0] == children[k]
  {
    if |children| > 0 && children[0].tag != tag {
      FirstOfFilter(children[1..], tag);
    }
  }
}
