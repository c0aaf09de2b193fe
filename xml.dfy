/** The parsed form of an XML document, as `xml.etree.ElementTree` hands it
    to the reader, and the three lookups the reader performs on it. Parsing
    the bytes of a file is not modelled: the file system gives the tree. */
module Xml {
  import opened Wrappers

  /** An element: its tag, its `text` (`None` when no text precedes its first
      child) and its child elements in document order. */
  datatype Element = Element(tag: string, text: Option<string>, children: seq<Element>)

  /** The first element of `cs` with the given tag. */
  function FirstTagged(cs: seq<Element>, tag: string): (r: Option<Element>)
    ensures r.Some? ==> r.value.tag == tag
  {
    if |cs| == 0 then None
    else if cs[0].tag == tag then Some(cs[0])
    else FirstTagged(cs[1..], tag)
  }

  /** `FirstTagged` finds nothing exactly when no element carries the tag,
      and otherwise the element at the first index that does. */
  lemma {:induction false} FirstTaggedIsFirst(cs: seq<Element>, tag: string)
    ensures FirstTagged(cs, tag).None? <==> forall i :: 0 <= i < |cs| ==> cs[i].tag != tag
    ensures FirstTagged(cs, tag).Some? ==>
              exists k :: 0 <= k < |cs| && cs[k] == FirstTagged(cs, tag).value && forall i :: 0 <= i < k ==> cs[i].tag != tag
  {
    if |cs| > 0 && cs[0].tag != tag {
      FirstTaggedIsFirst(cs[1..], tag);
      assert forall i :: 1 <= i < |cs| ==> cs[i] == cs[1..][i - 1];
      if FirstTagged(cs, tag).Some? {
        var k :| 0 <= k < |cs[1..]| && cs[1..][k] == FirstTagged(cs, tag).value && forall i :: 0 <= i < k ==> cs[1..][i].tag != tag;
        assert cs[k + 1] == FirstTagged(cs, tag).value;
      }
    } else if |cs| > 0 {
      assert cs[0] == FirstTagged(cs, tag).value;
    }
  }

  /** `e.find(tag)`: the first child with that tag, or `None`. */
  function Find(e: Element, tag: string): Option<Element>
  {
    FirstTagged(e.children, tag)
  }

  /** The first `inner` child of the `outer` children of `cs`, taken in order. */
  function FirstNested(cs: seq<Element>, outer: string, inner: string): (r: Option<Element>)
    ensures r.Some? ==> r.value.tag == inner
  {
    if |cs| == 0 then None
    else if cs[0].tag == outer && Find(cs[0], inner).Some? then Find(cs[0], inner)
    else FirstNested(cs[1..], outer, inner)
  }

  /** `FirstNested` finds nothing exactly when no `outer` element has an
      `inner` child. */
  lemma {:induction false} FirstNestedNone(cs: seq<Element>, outer: string, inner: string)
    ensures FirstNested(cs, outer, inner).None? <==> forall i :: 0 <= i < |cs| ==> cs[i].tag == outer ==> Find(cs[i], inner).None?
  {
    if |cs| > 0 {
      FirstNestedNone(cs[1..], outer, inner);
      assert forall i :: 1 <= i < |cs| ==> cs[i] == cs[1..][i - 1];
    }
  }

  /** `e.find(outer + "/" + inner)`. */
  function FindNested(e: Element, outer: string, inner: string): Option<Element>
  {
    FirstNested(e.children, outer, inner)
  }

  /** `e.iter(tag)`: the element itself and all its descendants with that
      tag, in document order (pre-order). */
  function Iter(e: Element, tag: string): (r: seq<Element>)
    ensures forall i :: 0 <= i < |r| ==> r[i].tag == tag
    decreases e, |e.children| + 1
  {
    (if e.tag == tag then [e] else []) + IterFrom(e, 0, tag)
  }

  /** The matches under the children of `e` from index `k` on. */
  function IterFrom(e: Element, k: nat, tag: string): (r: seq<Element>)
    ensures forall i :: 0 <= i < |r| ==> r[i].tag == tag
    decreases e, |e.children| - k
  {
    if k >= |e.children| then [] else Iter(e.children[k], tag) + IterFrom(e, k + 1, tag)
  }

  /** When no element below a child of `e` carries the tag (in a VOC
      document, no `object` nests inside another element than the root),
      `iter` yields exactly the matching children in order. */
  lemma {:induction false} IterFlat(e: Element, k: nat, tag: string)
    requires forall i :: 0 <= i < |e.children| ==> IterFrom(e.children[i], 0, tag) == []
    ensures IterFrom(e, k, tag) == TaggedFrom(e.children, k, tag)
    decreases |e.children| - k
  {
    if k < |e.children| {
      IterFlat(e, k + 1, tag);
    }
  }

  /** The shape of a VOC annotation with one object: `iter('object')` finds
      just that object, although it has children of its own. */
  lemma IterOneObject(fileName: Element, obj: Element)
    requires fileName.tag == "filename" && fileName.children == []
    requires obj.tag == "object" && |obj.children| == 2
    requires obj.children[0].tag == "name" && obj.children[0].children == []
    requires obj.children[1].tag == "bndbox" && forall i :: 0 <= i < |obj.children[1].children| ==> obj.children[1].children[i].tag != "object" && obj.children[1].children[i].children == []
    ensures Iter(Element("annotation", None, [fileName, obj]), "object") == [obj]
  {
    var doc := Element("annotation", None, [fileName, obj]);
    LeavesFrom(obj.children[1], "object", 0);
    assert Iter(obj.children[1], "object") == [];
    assert IterFrom(obj, 1, "object") == [];
    assert IterFrom(obj.children[0], 0, "object") == [];
    assert IterFrom(obj, 0, "object") == [];
    assert IterFrom(fileName, 0, "object") == [];
    IterFlat(doc, 0, "object");
    assert TaggedFrom(doc.children, 2, "object") == [];
    assert TaggedFrom(doc.children, 1, "object") == [obj];
  }

  /** When the children of `e` from index `k` on are leaves without the
      tag, nothing under them matches. */
  lemma {:induction false} LeavesFrom(e: Element, tag: string, k: nat)
    requires forall i :: 0 <= i < |e.children| ==> e.children[i].tag != tag && e.children[i].children == []
    ensures IterFrom(e, k, tag) == []
    decreases |e.children| - k
  {
    if k < |e.children| {
      LeavesFrom(e, tag, k + 1);
      assert IterFrom(e.children[k], 0, tag) == [];
    }
  }

  /** The elements of `cs` from index `k` on that carry the tag. */
  function TaggedFrom(cs: seq<Element>, k: nat, tag: string): seq<Element>
    decreases |cs| - k
  {
    if k >= |cs| then [] else (if cs[k].tag == tag then [cs[k]] else []) + TaggedFrom(cs, k + 1, tag)
  }
}
