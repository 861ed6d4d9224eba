/**
 * Conversions between element trees and their dict/list representation
 * (pycps/converters.py). A mapping is given as its items in the order the
 * dict iterates them; where the conversion builds a dict itself, the order in
 * which it iterates is the `IterationOrder` parameter.
 */
module Converters {
  import opened Wrappers
  import opened Errors
  import opened Xml
  import opened Values
  import opened Dicts

  /**
   * The dict/list representation of a document: a scalar leaf, a mapping from
   * tags to representations (its items in iteration order), or a list whose
   * items are all added to the same parent.
   */
  datatype Dv = DScalar(v: Scalar) | DDict(entries: seq<(string, Dv)>) | DList(items: seq<Dv>)

  // ---------------------------------------------------------------------------
  // etree_to_dict

  /** No two elements share a tag. */
  predicate DistinctTags(cs: seq<Element>)
  {
    forall i, j :: 0 <= i < j < |cs| ==> cs[i].tag != cs[j].tag
  }

  /** The child at `i` has the tag of an earlier child. */
  predicate Repeats(cs: seq<Element>, i: nat)
    requires i < |cs|
  {
    exists j :: 0 <= j < i && cs[j].tag == cs[i].tag
  }

  /**
   * The position of the first child whose tag an earlier child already has,
   * where `etree_to_dict_recursive` switches from a dict to a list; the
   * number of children when all tags are distinct.
   */
  function FirstRepeat(cs: seq<Element>): (k: nat)
    ensures k <= |cs| && DistinctTags(cs[..k])
    ensures k < |cs| ==> Repeats(cs, k)
    ensures forall m :: 0 <= m < |cs| && Repeats(cs, m) ==> k <= m
    ensures k == |cs| <==> DistinctTags(cs)
  {
    var k := FirstRepeatFrom(cs, 0);
    assert cs[..|cs|] == cs;
    k
  }

  function FirstRepeatFrom(cs: seq<Element>, i: nat): (k: nat)
    requires i <= |cs| && DistinctTags(cs[..i])
    ensures i <= k <= |cs| && DistinctTags(cs[..k])
    ensures k < |cs| ==> Repeats(cs, k)
    ensures forall m :: i <= m < |cs| && Repeats(cs, m) ==> k <= m
    decreases |cs| - i
  {
    if i == |cs| || Repeats(cs, i) then i
    else
      DistinctSnoc(cs, i);
      FirstRepeatFrom(cs, i + 1)
  }

  /** A tag repeats in one more child exactly when it repeated before or the new child repeats an earlier one. */
  lemma {:induction false} DistinctSnoc(cs: seq<Element>, i: nat)
    requires i < |cs|
    ensures DistinctTags(cs[..i + 1]) <==>
      DistinctTags(cs[..i]) && forall k :: 0 <= k < i ==> cs[k].tag != cs[i].tag
  {
    var p, q := cs[..i], cs[..i + 1];
    assert forall k :: 0 <= k < i ==> p[k] == cs[k] && q[k] == cs[k];
    assert q[i] == cs[i];
    if DistinctTags(p) && forall k :: 0 <= k < i ==> cs[k].tag != cs[i].tag {
      forall a, b | 0 <= a < b < i + 1
        ensures q[a].tag != q[b].tag
      {
        if b < i {
          assert p[a].tag != p[b].tag;
        }
      }
    }
  }

  /** A childless element stands for its text, `None` when it has none. */
  function Leaf(text: Option<string>): Dv
  {
    DScalar(if text.None? then PyNone else PyStr(text.value))
  }

  /**
   * What `etree_to_dict_recursive` returns: a leaf's text, a mapping when the
   * children's tags are distinct, otherwise a list of one-entry mappings, one
   * per child.
   */
  function ValueOf(e: Element, order: IterationOrder): (r: Dv)
    decreases e, 2
    ensures r.DScalar? <==> |e.children| == 0
    ensures r.DDict? ==> |r.entries| == |e.children|
    ensures r.DList? ==> |r.items| == |e.children|
  {
    if |e.children| == 0 then Leaf(e.text)
    else if DistinctTags(e.children) then DDict(Visited(e, order))
    else DList(Singles(Visited(e, order)))
  }

  /** One item per child, its tag and its representation, in document order. */
  function DocEntries(e: Element, order: IterationOrder): (r: seq<(string, Dv)>)
    decreases e, 0
    ensures |r| == |e.children|
    ensures forall i :: 0 <= i < |r| ==> r[i] == (e.children[i].tag, ValueOf(e.children[i], order))
  {
    seq(|e.children|, i requires 0 <= i < |e.children| => (e.children[i].tag, ValueOf(e.children[i], order)))
  }

  /**
   * The items in the order `etree_to_dict_recursive` hands them out: the
   * children before the first repeated tag in the order their dict iterates
   * them, the children from there on in document order.
   */
  function Visited(e: Element, order: IterationOrder): (r: seq<(string, Dv)>)
    decreases e, 1
    ensures |r| == |e.children|
  {
    var k := FirstRepeat(e.children);
    ArrangeFront(DocEntries(e, order), k, order(Tags(e.children[..k])))
  }

  /** The children's tags as dict keys. */
  function Tags(cs: seq<Element>): (r: seq<Scalar>)
    ensures |r| == |cs|
    ensures forall i :: 0 <= i < |cs| ==> r[i] == PyStr(cs[i].tag)
  {
    seq(|cs|, i requires 0 <= i < |cs| => PyStr(cs[i].tag))
  }

  /** The keys of a mapping's items as dict keys. */
  function KeysOf<V>(items: seq<(string, V)>): (r: seq<Scalar>)
    ensures |r| == |items|
    ensures forall i :: 0 <= i < |items| ==> r[i] == PyStr(items[i].0)
  {
    seq(|items|, i requires 0 <= i < |items| => PyStr(items[i].0))
  }

  /** Each item as a mapping of its own. */
  function Singles(items: seq<(string, Dv)>): (r: seq<Dv>)
    ensures |r| == |items|
    ensures forall i :: 0 <= i < |items| ==> r[i] == DDict([items[i]])
  {
    seq(|items|, i requires 0 <= i < |items| => DDict([items[i]]))
  }

  /** The visit order: the dict's order up to the first repeated tag, document order after it. */
  lemma {:induction false} VisitedParts(e: Element, order: IterationOrder)
    ensures var k := FirstRepeat(e.children);
            var p := order(Tags(e.children[..k]));
            IsArrangement(p, k) &&
            (forall i :: 0 <= i < k ==> Visited(e, order)[i] == (e.children[p[i]].tag, ValueOf(e.children[p[i]], order))) &&
            (forall i :: k <= i < |e.children| ==> Visited(e, order)[i] == (e.children[i].tag, ValueOf(e.children[i], order)))
  {
  }

  /** Every child is visited: its tag with its representation is among the visited items, and nothing else is. */
  lemma {:induction false} VisitedKeepsChildren(e: Element, order: IterationOrder)
    ensures forall c <- e.children :: (c.tag, ValueOf(c, order)) in Visited(e, order)
    ensures forall x <- Visited(e, order) :: exists c <- e.children :: x == (c.tag, ValueOf(c, order))
  {
    var k := FirstRepeat(e.children);
    var es := DocEntries(e, order);
    var p := order(Tags(e.children[..k]));
    var entry := (c: Element) => (c.tag, ValueOf(c, order));
    assert forall i :: 0 <= i < |es| ==> es[i] == entry(e.children[i]);
    ArrangeFrontPointwise(es, e.children, entry, k, p);
    assert Visited(e, order) == ArrangeFront(es, k, p);
  }

  /**
   * A leaf maps to its text. An element with children maps to a mapping
   * exactly when their tags are distinct: one item per child, in the order
   * the dict iterates the tags. Otherwise it maps to a list of one-key
   * mappings, one per child: those before the first repeated tag in the order
   * the dict iterates them, the rest in document order.
   */
  lemma {:induction false} ValueShape(e: Element, order: IterationOrder)
    ensures |e.children| == 0 ==> ValueOf(e, order) == Leaf(e.text)
    ensures |e.children| > 0 ==> (ValueOf(e, order).DDict? <==> DistinctTags(e.children))
    ensures ValueOf(e, order).DDict? ==>
      var p := order(Tags(e.children));
      IsArrangement(p, |e.children|) &&
      |ValueOf(e, order).entries| == |e.children| &&
      forall i :: 0 <= i < |e.children| ==>
        ValueOf(e, order).entries[i] == (e.children[p[i]].tag, ValueOf(e.children[p[i]], order))
    ensures ValueOf(e, order).DDict? ==>
      forall c <- e.children :: (c.tag, ValueOf(c, order)) in ValueOf(e, order).entries
    ensures ValueOf(e, order).DList? ==>
      var k := FirstRepeat(e.children);
      var p := order(Tags(e.children[..k]));
      0 < k < |e.children| && Repeats(e.children, k) && DistinctTags(e.children[..k]) &&
      |ValueOf(e, order).items| == |e.children| &&
      (forall i :: 0 <= i < k ==>
        ValueOf(e, order).items[i] == DDict([(e.children[p[i]].tag, ValueOf(e.children[p[i]], order))])) &&
      (forall i :: k <= i < |e.children| ==>
        ValueOf(e, order).items[i] == DDict([(e.children[i].tag, ValueOf(e.children[i], order))]))
  {
    VisitedParts(e, order);
    VisitedKeepsChildren(e, order);
    assert e.children[..|e.children|] == e.children;
  }

  /** The keys collected so far are the tags of the children seen so far. */
  lemma {:induction false} HasKeyOfEntries(e: Element, order: IterationOrder, i: nat, tag: string)
    requires i <= |e.children|
    ensures HasKey(DocEntries(e, order)[..i], tag) <==> exists k :: 0 <= k < i && e.children[k].tag == tag
  {
    var d := DocEntries(e, order)[..i];
    if HasKey(d, tag) {
      var k :| 0 <= k < |d| && d[k].0 == tag;
      assert e.children[k].tag == tag;
    }
    if exists k :: 0 <= k < i && e.children[k].tag == tag {
      var k :| 0 <= k < i && e.children[k].tag == tag;
      assert d[k].0 == tag;
    }
  }

  /** The keys of a mapping given as its items. */
  predicate HasKey(d: seq<(string, Dv)>, key: string)
  {
    exists k :: 0 <= k < |d| && d[k].0 == key
  }

  lemma {:induction false} EntriesStep(e: Element, order: IterationOrder, i: nat, sub: Dv)
    requires i < |e.children| && sub == ValueOf(e.children[i], order)
    ensures DocEntries(e, order)[..i] + [(e.children[i].tag, sub)] == DocEntries(e, order)[..i + 1]
  {
    var es := DocEntries(e, order);
    TakeOneMore(es, i);
  }

  /** The dict's keys in insertion order are the tags of the children read so far. */
  lemma {:induction false} KeysOfEntries(e: Element, order: IterationOrder, i: nat)
    requires i <= |e.children|
    ensures KeysOf(DocEntries(e, order)[..i]) == Tags(e.children[..i])
  {
  }

  /** Switching to the list form at the first repeated tag: the dict's items, in its order, become single-key mappings. */
  lemma {:induction false} SwitchToList(e: Element, order: IterationOrder, d: seq<(string, Dv)>)
    requires FirstRepeat(e.children) < |e.children|
    requires d == DocEntries(e, order)[..FirstRepeat(e.children)]
    ensures Singles(Arrange(d, order(KeysOf(d)))) == Singles(Visited(e, order)[..FirstRepeat(e.children)])
  {
    var k := FirstRepeat(e.children);
    KeysOfEntries(e, order, k);
    ArrangeFrontPrefix(DocEntries(e, order), k, order(Tags(e.children[..k])));
  }

  /** A child whose tag is already a key of the dict is the first repeated tag: the list form starts there. */
  lemma {:induction false} SwitchHere(e: Element, order: IterationOrder, i: nat, d: seq<(string, Dv)>)
    requires i < |e.children| && i <= FirstRepeat(e.children)
    requires d == DocEntries(e, order)[..i] && HasKey(d, e.children[i].tag)
    ensures FirstRepeat(e.children) == i
    ensures Singles(Arrange(d, order(KeysOf(d)))) == Singles(Visited(e, order)[..i])
  {
    HasKeyOfEntries(e, order, i, e.children[i].tag);
    assert Repeats(e.children, i);
    SwitchToList(e, order, d);
  }

  /** A child whose tag is not yet a key of the dict is not the first repeated tag. */
  lemma {:induction false} NoSwitchYet(e: Element, order: IterationOrder, i: nat, d: seq<(string, Dv)>)
    requires i < |e.children| && i <= FirstRepeat(e.children)
    requires d == DocEntries(e, order)[..i] && !HasKey(d, e.children[i].tag)
    ensures i < FirstRepeat(e.children)
  {
    HasKeyOfEntries(e, order, i, e.children[i].tag);
    assert !Repeats(e.children, i);
  }

  /** Past the first repeated tag, each child is appended in document order. */
  lemma {:induction false} ListStep(e: Element, order: IterationOrder, i: nat, sub: Dv)
    requires FirstRepeat(e.children) <= i < |e.children| && sub == ValueOf(e.children[i], order)
    ensures Singles(Visited(e, order)[..i]) + [DDict([(e.children[i].tag, sub)])] == Singles(Visited(e, order)[..i + 1])
  {
    var k := FirstRepeat(e.children);
    var es := DocEntries(e, order);
    var v := Visited(e, order);
    assert v == ArrangeFront(es, k, order(Tags(e.children[..k])));
    assert v[i] == es[i];
    TakeOneMore(v, i);
    SinglesSnoc(v[..i], v[i]);
  }

  /** One more item, one more one-key mapping. */
  lemma {:induction false} SinglesSnoc(items: seq<(string, Dv)>, item: (string, Dv))
    ensures Singles(items + [item]) == Singles(items) + [DDict([item])]
  {
    var a, b := Singles(items + [item]), Singles(items) + [DDict([item])];
    forall j | 0 <= j < |a|
      ensures a[j] == b[j]
    {
      if j < |items| {
        assert (items + [item])[j] == items[j];
      }
    }
  }

  /** With distinct tags, the finished dict iterates in the visit order. */
  lemma {:induction false} DictDone(e: Element, order: IterationOrder, d: seq<(string, Dv)>)
    requires |e.children| > 0 && FirstRepeat(e.children) >= |e.children|
    requires d == DocEntries(e, order)[..|e.children|]
    ensures DDict(Arrange(d, order(KeysOf(d)))) == ValueOf(e, order)
  {
    var n := |e.children|;
    var es := DocEntries(e, order);
    assert es[..n] == es && e.children[..n] == e.children;
    KeysOfEntries(e, order, n);
    ArrangeFrontAll(d, order(KeysOf(d)));
    assert Arrange(d, order(KeysOf(d))) == Visited(e, order);
  }

  /** Once the list form has taken every child, it is the representation. */
  lemma {:induction false} ListDone(e: Element, order: IterationOrder, l: seq<Dv>)
    requires FirstRepeat(e.children) < |e.children|
    requires l == Singles(Visited(e, order)[..|e.children|])
    ensures DList(l) == ValueOf(e, order)
  {
    var v := Visited(e, order);
    assert v[..|e.children|] == v;
  }

  /**
   * Where the loop of `etree_to_dict_recursive` stands after `i` children: the
   * `identical_children` flag is set exactly when a tag has repeated; until
   * then `d` holds the items in document order, from then on `l` holds the
   * one-key mappings in visit order.
   */
  predicate Progress(e: Element, order: IterationOrder, i: nat, identical: bool, d: seq<(string, Dv)>, l: seq<Dv>)
  {
    i <= |e.children| &&
    (identical <==> FirstRepeat(e.children) < i) &&
    (!identical ==> d == DocEntries(e, order)[..i]) &&
    (identical ==> l == Singles(Visited(e, order)[..i]))
  }

  /** The method form of `etree_to_dict_recursive`, with its `identical_children` flag. */
  method EtreeToDictRecursive(parent: Element, order: IterationOrder) returns (v: Dv)
    ensures v == ValueOf(parent, order)
    decreases parent, 1
  {
    var children := parent.children;
    if |children| == 0 {
      return Leaf(parent.text);
    }
    var d: seq<(string, Dv)> := [];
    var l: seq<Dv> := [];
    var identical := false;
    var i := 0;
    while i < |children|
      invariant Progress(parent, order, i, identical, d, l)
    {
      identical, d, l := VisitChild(parent, order, i, identical, d, l);
      i := i + 1;
    }
    if identical {
      ListDone(parent, order, l);
      v := DList(l);
    } else {
      DictDone(parent, order, d);
      v := DDict(Arrange(d, order(KeysOf(d))));
    }
  }

  /**
   * One turn of the loop over the children: the child at `i` goes into the
   * dict, or starts the list form when its tag is already a key, or goes into
   * the list.
   */
  method VisitChild(parent: Element, order: IterationOrder, i: nat, identical: bool, d: seq<(string, Dv)>, l: seq<Dv>)
    returns (identical': bool, d': seq<(string, Dv)>, l': seq<Dv>)
    requires i < |parent.children| && Progress(parent, order, i, identical, d, l)
    ensures Progress(parent, order, i + 1, identical', d', l')
    decreases parent, 0
  {
    var child := parent.children[i];
    assert child in parent.children;
    identical', d', l' := identical, d, l;
    if !identical {
      if HasKey(d, child.tag) {
        SwitchHere(parent, order, i, d);
        identical' := true;
        var sub := EtreeToDictRecursive(child, order);
        ListStep(parent, order, i, sub);
        l' := Singles(Arrange(d, order(KeysOf(d)))) + [DDict([(child.tag, sub)])];
      } else {
        NoSwitchYet(parent, order, i, d);
        var sub := EtreeToDictRecursive(child, order);
        EntriesStep(parent, order, i, sub);
        d' := d + [(child.tag, sub)];
      }
    } else {
      var sub := EtreeToDictRecursive(child, order);
      ListStep(parent, order, i, sub);
      l' := l + [DDict([(child.tag, sub)])];
    }
  }

  /** What `etree_to_dict` is given: an element, a tree (read through its root), or something else. */
  datatype Source =
    | SrcNone
    | SrcText(s: string)
    | SrcElement(e: Element)
    | SrcTree(root: Element)
    | SrcDict(entries: seq<(string, Dv)>)
    | SrcOther

  /** The element a source stands for, when it is an element or a tree. */
  function RootOf(source: Source): Option<Element>
  {
    match source
    case SrcElement(e) => Some(e)
    case SrcTree(r) => Some(r)
    case _ => None
  }

  /**
   * `etree_to_dict`: a one-key mapping from the root's tag to its
   * representation; anything without a tag raises TypeError.
   */
  method EtreeToDict(source: Source, order: IterationOrder) returns (r: Outcome<Dv>)
    ensures RootOf(source).None? ==> r == Err(TypeError)
    ensures RootOf(source).Some? ==>
      r == Ok(DDict([(RootOf(source).value.tag, ValueOf(RootOf(source).value, order))]))
  {
    var root := RootOf(source);
    if root.None? {
      return Err(TypeError);
    }
    var v := EtreeToDictRecursive(root.value, order);
    r := Ok(DDict([(root.value.tag, v)]));
  }

  // ---------------------------------------------------------------------------
  // dict_to_etree

  /**
   * What `dict_to_etree_recursive(v, parent)` leaves in `parent`: a mapping
   * appends one child per item (the item's key, built from its value), a list
   * adds every item to `parent` itself, a scalar sets the text to `str(v)`.
   */
  function Attach(v: Dv, parent: Element): (r: Element)
    decreases v, 1, 0
    ensures r.tag == parent.tag && r.attrib == parent.attrib
  {
    match v
    case DScalar(s) => parent.(text := Some(Str(s)))
    case DDict(_) => AttachEntries(v, 0, parent)
    case DList(_) => AttachItems(v, 0, parent)
  }

  function AttachEntries(v: Dv, i: nat, parent: Element): (r: Element)
    requires v.DDict? && i <= |v.entries|
    decreases v, 0, |v.entries| - i
    ensures r.tag == parent.tag && r.attrib == parent.attrib
  {
    if i == |v.entries| then parent
    else
      var (key, value) := v.entries[i];
      AttachEntries(v, i + 1, parent.(children := parent.children + [Attach(value, Node(key))]))
  }

  function AttachItems(v: Dv, i: nat, parent: Element): (r: Element)
    requires v.DList? && i <= |v.items|
    decreases v, 0, |v.items| - i
    ensures r.tag == parent.tag && r.attrib == parent.attrib
  {
    if i == |v.items| then parent
    else AttachItems(v, i + 1, Attach(v.items[i], parent))
  }

  /** The children a mapping's items become, one per item, tagged with its key. */
  function Subtrees(entries: seq<(string, Dv)>): (r: seq<Element>)
    ensures |r| == |entries|
    ensures forall i :: 0 <= i < |r| ==> r[i] == Attach(entries[i].1, Node(entries[i].0))
    ensures forall i :: 0 <= i < |r| ==> r[i].tag == entries[i].0
  {
    if |entries| == 0 then []
    else [Attach(entries[0].1, Node(entries[0].0))] + Subtrees(entries[1..])
  }

  lemma {:induction false} AttachEntriesAppends(v: Dv, i: nat, parent: Element)
    requires v.DDict? && i <= |v.entries|
    ensures AttachEntries(v, i, parent) == parent.(children := parent.children + Subtrees(v.entries[i..]))
    decreases |v.entries| - i
  {
    if i == |v.entries| {
      assert parent.children + Subtrees(v.entries[i..]) == parent.children;
    } else {
      var child := Attach(v.entries[i].1, Node(v.entries[i].0));
      var next := parent.(children := parent.children + [child]);
      assert AttachEntries(v, i, parent) == AttachEntries(v, i + 1, next);
      AttachEntriesAppends(v, i + 1, next);
      SubtreesCons(v.entries, i);
      ChildrenJoin(parent, child, Subtrees(v.entries[i + 1..]), Subtrees(v.entries[i..]));
    }
  }

  /**
   * A mapping adds exactly one child per item, in the mapping's order, each
   * tagged with its key; the parent keeps its tag, attributes and text.
   */
  lemma {:induction false} DictAddsOneChildPerKey(entries: seq<(string, Dv)>, parent: Element)
    ensures Attach(DDict(entries), parent) == parent.(children := parent.children + Subtrees(entries))
  {
    AttachEntriesAppends(DDict(entries), 0, parent);
    assert entries[0..] == entries;
  }

  /** A scalar sets the parent's text to its `str()` and adds no child. */
  lemma {:induction false} ScalarSetsText(s: Scalar, parent: Element)
    ensures Attach(DScalar(s), parent).text == Some(Str(s))
    ensures Attach(DScalar(s), parent).children == parent.children
  {
  }

  /** Adding the items of a list one after another is adding them in one go. */
  lemma {:induction false} ListAddsEachItem(items: seq<Dv>, parent: Element)
    requires |items| > 0
    ensures Attach(DList(items), parent) == Attach(DList(items[1..]), Attach(items[0], parent))
  {
    ListItemsShift(items, 1, Attach(items[0], parent));
  }

  lemma {:induction false} ListItemsShift(items: seq<Dv>, i: nat, parent: Element)
    requires 1 <= i <= |items|
    ensures AttachItems(DList(items), i, parent) == AttachItems(DList(items[1..]), i - 1, parent)
    decreases |items| - i
  {
    if i < |items| {
      assert items[1..][i - 1] == items[i];
      ListItemsShift(items, i + 1, Attach(items[i], parent));
    }
  }

  /** The method form of `dict_to_etree_recursive`: loops over items, the tree returned instead of updated. */
  method AttachTo(v: Dv, parent: Element) returns (r: Element)
    ensures r == Attach(v, parent)
    decreases v
  {
    match v
    case DScalar(s) =>
      r := parent.(text := Some(Str(s)));
    case DDict(entries) =>
      r := parent;
      var i := 0;
      while i < |entries|
        invariant 0 <= i <= |entries|
        invariant AttachEntries(v, i, r) == Attach(v, parent)
      {
        var (key, value) := entries[i];
        assert entries[i] in entries;
        var sub := AttachTo(value, Node(key));
        r := r.(children := r.children + [sub]);
        i := i + 1;
      }
    case DList(items) =>
      r := parent;
      var i := 0;
      while i < |items|
        invariant 0 <= i <= |items|
        invariant AttachItems(v, i, r) == Attach(v, parent)
      {
        assert items[i] in items;
        r := AttachTo(items[i], r);
        i := i + 1;
      }
  }

  /** What `dict_to_etree` returns: one root, or the list of roots of a mapping with several keys. */
  datatype Built = Single(root: Element) | Roots(roots: seq<Element>)

  /**
   * `dict_to_etree(source, root_tag)`. With a root tag the whole source is
   * built under it. Without one a one-key mapping uses its key as the root and
   * any other mapping gives one root per key; a list or a string has no
   * `keys` (AttributeError) and `len` of None or a number raises TypeError.
   */
  function DictToEtreeOf(source: Dv, rootTag: Option<string>): (r: Outcome<Built>)
    ensures r.Err? <==> rootTag.None? && !source.DDict?
    ensures r.Err? ==> r.error == (if source.DScalar? && !source.v.PyStr? then TypeError else AttributeError)
    ensures r.Ok? ==> (r.value.Single? <==> rootTag.Some? || |source.entries| == 1)
    ensures r.Ok? && r.value.Single? ==>
      r.value.root.tag == (if rootTag.Some? then rootTag.value else source.entries[0].0)
    ensures r.Ok? && r.value.Roots? ==>
      |r.value.roots| == |source.entries| &&
      forall i :: 0 <= i < |source.entries| ==> r.value.roots[i].tag == source.entries[i].0
  {
    if rootTag.Some? then Ok(Single(Attach(source, Node(rootTag.value))))
    else match source
      case DDict(entries) =>
        if |entries| == 1 then Ok(Single(Attach(entries[0].1, Node(entries[0].0))))
        else Ok(Roots(Subtrees(entries)))
      case DList(_) => Err(AttributeError)
      case DScalar(s) => if s.PyStr? then Err(AttributeError) else Err(TypeError)
  }

  /** The method form of `dict_to_etree`, with its loop over the roots. */
  method DictToEtree(source: Dv, rootTag: Option<string>) returns (r: Outcome<Built>)
    ensures r == DictToEtreeOf(source, rootTag)
  {
    if rootTag.None? {
      match source
      case DList(_) =>
        return Err(AttributeError);
      case DScalar(s) =>
        return if s.PyStr? then Err(AttributeError) else Err(TypeError);
      case DDict(entries) =>
        if |entries| != 1 {
          var roots := BuildRoots(entries);
          return Ok(Roots(roots));
        }
        var root := AttachTo(entries[0].1, Node(entries[0].0));
        return Ok(Single(root));
    }
    var root := AttachTo(source, Node(rootTag.value));
    r := Ok(Single(root));
  }

  /** The loop of `dict_to_etree` over the keys of a mapping: one root per item. */
  method BuildRoots(entries: seq<(string, Dv)>) returns (roots: seq<Element>)
    ensures roots == Subtrees(entries)
  {
    roots := [];
    var i := 0;
    while i < |entries|
      invariant 0 <= i <= |entries|
      invariant roots == Subtrees(entries)[..i]
    {
      var root := AttachTo(entries[i].1, Node(entries[i].0));
      TakeOneMore(Subtrees(entries), i);
      roots := roots + [root];
      i := i + 1;
    }
    assert Subtrees(entries)[..i] == Subtrees(entries);
  }

  /** Without a root tag, a one-key mapping builds the same root as naming that key as the root tag. */
  lemma {:induction false} OneKeyIsRootTag(key: string, value: Dv)
    ensures DictToEtreeOf(DDict([(key, value)]), None) == DictToEtreeOf(value, Some(key))
  {
  }

  // ---------------------------------------------------------------------------
  // Round trip

  /**
   * The trees the dict form describes completely: no attributes, text exactly
   * at the leaves.
   */
  predicate Plain(e: Element)
    decreases e
  {
    e.attrib == map[] &&
    (if |e.children| == 0 then e.text.Some? else e.text.None?) &&
    forall i :: 0 <= i < |e.children| ==> Plain(e.children[i])
  }

  /**
   * The tree a round trip gives back: every element keeps its tag, text and
   * attributes, and its children come back in the order `etree_to_dict`
   * visited them (the dict's order up to the first repeated tag, document
   * order after it).
   */
  function Rearranged(e: Element, order: IterationOrder): (r: Element)
    decreases e, 1
    ensures r.tag == e.tag && r.text == e.text && r.attrib == e.attrib
    ensures |r.children| == |e.children|
  {
    var k := FirstRepeat(e.children);
    e.(children := ArrangeFront(EachRearranged(e, order), k, order(Tags(e.children[..k]))))
  }

  /** The children of `e`, each rearranged, in document order. */
  function EachRearranged(e: Element, order: IterationOrder): (r: seq<Element>)
    decreases e, 0
    ensures |r| == |e.children|
    ensures forall i :: 0 <= i < |r| ==> r[i] == Rearranged(e.children[i], order)
  {
    seq(|e.children|, i requires 0 <= i < |e.children| => Rearranged(e.children[i], order))
  }

  /** Rearranging only moves children: the children that come back are exactly the original ones, each rearranged. */
  lemma {:induction false} RearrangedChildren(e: Element, order: IterationOrder)
    ensures forall c <- e.children :: Rearranged(c, order) in Rearranged(e, order).children
    ensures forall x <- Rearranged(e, order).children :: exists c <- e.children :: x == Rearranged(c, order)
  {
    var cs := e.children;
    var k := FirstRepeat(cs);
    var rs := EachRearranged(e, order);
    ArrangeFrontKeepsItems(rs, k, order(Tags(cs[..k])));
    SameItemsPointwise(rs, cs, (c: Element) => Rearranged(c, order));
  }

  /** With dicts that iterate in insertion order, nothing moves. */
  lemma {:induction false} RearrangedInInsertionOrder(e: Element)
    ensures Rearranged(e, InsertionOrder) == e
    decreases e
  {
    var cs := e.children;
    forall j | 0 <= j < |cs|
      ensures Rearranged(cs[j], InsertionOrder) == cs[j]
    {
      assert cs[j] in cs;
      RearrangedInInsertionOrder(cs[j]);
    }
    var rs := EachRearranged(e, InsertionOrder);
    assert rs == cs;
    var k := FirstRepeat(cs);
    assert InsertionOrder(Tags(cs[..k])) == Positions(k);
    ArrangeFrontInInsertionOrder(rs, k);
  }

  /** A list of one-key mappings adds one child per mapping, in order. */
  lemma {:induction false} SinglesAdd(items: seq<(string, Dv)>, parent: Element)
    ensures Attach(DList(Singles(items)), parent) == parent.(children := parent.children + Subtrees(items))
  {
    SinglesAppend(items, 0, parent);
    assert items[0..] == items;
  }

  lemma {:induction false} SinglesAppend(items: seq<(string, Dv)>, i: nat, parent: Element)
    requires i <= |items|
    ensures AttachItems(DList(Singles(items)), i, parent) == parent.(children := parent.children + Subtrees(items[i..]))
    decreases |items| - i
  {
    if i == |items| {
      assert parent.children + Subtrees(items[i..]) == parent.children;
    } else {
      var child := Attach(items[i].1, Node(items[i].0));
      var next := parent.(children := parent.children + [child]);
      SingleStep(items, i, parent);
      SinglesAppend(items, i + 1, next);
      SubtreesCons(items, i);
      ChildrenJoin(parent, child, Subtrees(items[i + 1..]), Subtrees(items[i..]));
    }
  }

  lemma {:induction false} ChildrenJoin(parent: Element, child: Element, rest: seq<Element>, whole: seq<Element>)
    requires whole == [child] + rest
    ensures var next := parent.(children := parent.children + [child]);
      next.(children := next.children + rest) == parent.(children := parent.children + whole)
  {
    assert parent.children + [child] + rest == parent.children + whole;
  }

  lemma {:induction false} SingleStep(items: seq<(string, Dv)>, i: nat, parent: Element)
    requires i < |items|
    ensures AttachItems(DList(Singles(items)), i, parent) ==
      AttachItems(DList(Singles(items)), i + 1, parent.(children := parent.children + [Attach(items[i].1, Node(items[i].0))]))
  {
    var v := DList(Singles(items));
    assert v.items[i] == DDict([items[i]]);
    DictAddsOneChildPerKey([items[i]], parent);
    assert Subtrees([items[i]]) == [Attach(items[i].1, Node(items[i].0))];
  }

  lemma {:induction false} SubtreesCons(items: seq<(string, Dv)>, i: nat)
    requires i < |items|
    ensures Subtrees(items[i..]) == [Attach(items[i].1, Node(items[i].0))] + Subtrees(items[i + 1..])
  {
    assert items[i..][1..] == items[i + 1..];
  }

  /** Building the visited items, child by child, gives the rearranged children. */
  lemma {:induction false} SubtreesOfVisited(e: Element, order: IterationOrder)
    requires forall j :: 0 <= j < |e.children| ==>
      Attach(ValueOf(e.children[j], order), Node(e.children[j].tag)) == Rearranged(e.children[j], order)
    ensures Subtrees(Visited(e, order)) == Rearranged(e, order).children
  {
    var cs := e.children;
    var k := FirstRepeat(cs);
    var p := order(Tags(cs[..k]));
    var rs := EachRearranged(e, order);
    var es := DocEntries(e, order);
    var out := Rearranged(e, order).children;
    var st := Subtrees(Visited(e, order));
    forall i | 0 <= i < |cs|
      ensures st[i] == out[i]
    {
      var j := if i < k then p[i] else i;
      assert out[i] == rs[j];
      assert Visited(e, order)[i] == es[j];
    }
  }

  /**
   * Building a plain element's representation under a node of its tag gives
   * the element back, with its children in the order they were visited.
   */
  lemma {:induction false} RebuildPlain(e: Element, order: IterationOrder)
    requires Plain(e)
    ensures Attach(ValueOf(e, order), Node(e.tag)) == Rearranged(e, order)
    decreases e
  {
    var cs := e.children;
    if |cs| > 0 {
      forall j | 0 <= j < |cs|
        ensures Attach(ValueOf(cs[j], order), Node(cs[j].tag)) == Rearranged(cs[j], order)
      {
        assert cs[j] in cs;
        RebuildPlain(cs[j], order);
      }
      SubtreesOfVisited(e, order);
      RebuildNode(e, order);
    }
  }

  /** An element with children is rebuilt from the subtrees of its visited items. */
  lemma {:induction false} RebuildNode(e: Element, order: IterationOrder)
    requires |e.children| > 0 && e.attrib == map[] && e.text.None?
    requires Subtrees(Visited(e, order)) == Rearranged(e, order).children
    ensures Attach(ValueOf(e, order), Node(e.tag)) == Rearranged(e, order)
  {
    var v := Visited(e, order);
    var r := Rearranged(e, order);
    AttachVisited(e, order);
    assert Node(e.tag).children + Subtrees(v) == r.children;
    assert Node(e.tag).(children := r.children) == r;
  }

  /** An element with children attaches one subtree per visited item, whether its tags repeat or not. */
  lemma {:induction false} AttachVisited(e: Element, order: IterationOrder)
    requires |e.children| > 0 && e.attrib == map[] && e.text.None?
    ensures Attach(ValueOf(e, order), Node(e.tag)) == Node(e.tag).(children := Subtrees(Visited(e, order)))
  {
    var v := Visited(e, order);
    var parent := Node(e.tag);
    assert parent.children + Subtrees(v) == Subtrees(v);
    if DistinctTags(e.children) {
      assert ValueOf(e, order) == DDict(v);
      DictAddsOneChildPerKey(v, parent);
    } else {
      assert ValueOf(e, order) == DList(Singles(v));
      SinglesAdd(v, parent);
    }
  }

  /**
   * `dict_to_etree(etree_to_dict(e))` gives back `e`, up to the order of
   * siblings, for every tree without attributes whose text sits exactly at its
   * leaves: each element's children come back in the order its dict iterated
   * them. With dicts that iterate in insertion order it is `e` itself.
   */
  lemma {:induction false} RoundTrip(e: Element, order: IterationOrder)
    requires Plain(e)
    ensures DictToEtreeOf(DDict([(e.tag, ValueOf(e, order))]), None) == Ok(Single(Rearranged(e, order)))
    ensures DictToEtreeOf(DDict([(e.tag, ValueOf(e, InsertionOrder))]), None) == Ok(Single(e))
  {
    RoundTripIn(e, order);
    RoundTripIn(e, InsertionOrder);
    RearrangedInInsertionOrder(e);
  }

  lemma {:induction false} RoundTripIn(e: Element, order: IterationOrder)
    requires Plain(e)
    ensures DictToEtreeOf(DDict([(e.tag, ValueOf(e, order))]), None) == Ok(Single(Rearranged(e, order)))
  {
    RebuildPlain(e, order);
    OneKeyIsRootTag(e.tag, ValueOf(e, order));
  }

  /** An empty leaf does not survive the round trip: its `None` comes back as the text "None". */
  lemma {:induction false} EmptyLeafComesBackAsNone(tag: string, order: IterationOrder)
    ensures DictToEtreeOf(DDict([(tag, ValueOf(Node(tag), order))]), None) == Ok(Single(Node(tag).(text := Some("None"))))
  {
  }

  // ---------------------------------------------------------------------------
  // to_etree and to_raw_xml

  /**
   * `to_etree` with `ElementTree.get_root` as written: a tree object has no
   * such method, so a tree source raises AttributeError.
   */
  function ToEtreeAsWritten(source: Source, rootTag: Option<string>, parse: string -> Option<Element>): (r: Outcome<Built>)
    ensures source.SrcTree? ==> r == Err(AttributeError)
    ensures !source.SrcTree? ==> r == ToEtree(source, rootTag, parse)
  {
    if source.SrcTree? then Err(AttributeError) else ToEtree(source, rootTag, parse)
  }

  /**
   * `to_etree`: a tree gives its root, an element itself, a string its parse
   * (XMLError carrying the string when it does not parse), a mapping its
   * `dict_to_etree`; anything else raises XMLError.
   */
  function ToEtree(source: Source, rootTag: Option<string>, parse: string -> Option<Element>): (r: Outcome<Built>)
    ensures RootOf(source).Some? ==> r == Ok(Single(RootOf(source).value))
    ensures source.SrcText? ==>
      (r.Err? <==> parse(source.s).None?) &&
      (r.Err? ==> r.error == XmlError(Some(source.s))) &&
      (r.Ok? ==> r.value == Single(parse(source.s).value))
    ensures source.SrcNone? || source.SrcOther? ==> r == Err(XmlError(None))
    ensures source.SrcDict? ==> r == DictToEtreeOf(DDict(source.entries), rootTag)
  {
    match source
    case SrcTree(root) => Ok(Single(root))
    case SrcElement(e) => Ok(Single(e))
    case SrcText(s) =>
      (match parse(s)
       case None => Err(XmlError(Some(s)))
       case Some(e) => Ok(Single(e)))
    case SrcDict(entries) => DictToEtreeOf(DDict(entries), rootTag)
    case _ => Err(XmlError(None))
  }

  /**
   * `to_raw_xml` with a tree read through its root: a string is returned
   * unchanged, an element or a tree's root is serialised, a mapping is
   * serialised through `dict_to_etree` (a mapping with other than one key
   * gives a list, which has no tag to serialise: AttributeError); anything
   * else raises TypeError.
   */
  function ToRawXml(source: Source, serialise: Element -> string): (r: Outcome<string>)
    ensures source.SrcText? ==> r == Ok(source.s)
    ensures RootOf(source).Some? ==> r == Ok(serialise(RootOf(source).value))
    ensures source.SrcNone? || source.SrcOther? ==> r == Err(TypeError)
    ensures source.SrcDict? && |source.entries| == 1 ==>
      r == Ok(serialise(Attach(source.entries[0].1, Node(source.entries[0].0))))
    ensures source.SrcDict? && |source.entries| != 1 ==> r == Err(AttributeError)
  {
    match source
    case SrcText(s) => Ok(s)
    case SrcElement(e) => Ok(serialise(e))
    case SrcTree(root) => Ok(serialise(root))
    case SrcDict(entries) =>
      (match DictToEtreeOf(DDict(entries), None)
       case Ok(Single(root)) => Ok(serialise(root))
       case Ok(Roots(_)) => Err(AttributeError)
       case Err(e) => Err(e))
    case _ => Err(TypeError)
  }

  /**
   * `to_raw_xml` as written: an ElementTree is handed to `tostring` itself
   * instead of its root, and serialising reads a `tag` that a tree object
   * does not have, so a tree source raises AttributeError.
   */
  function ToRawXmlAsWritten(source: Source, serialise: Element -> string): (r: Outcome<string>)
    ensures source.SrcTree? ==> r == Err(AttributeError)
    ensures !source.SrcTree? ==> r == ToRawXml(source, serialise)
  {
    if source.SrcTree? then Err(AttributeError) else ToRawXml(source, serialise)
  }

  /**
   * A plain tree read into a mapping and written back out is serialised as the
   * tree with its siblings in the order the dicts visited them; with dicts that
   * iterate in insertion order, as the tree itself.
   */
  lemma {:induction false} RawXmlOfTreeDict(e: Element, order: IterationOrder, serialise: Element -> string)
    requires Plain(e)
    ensures ToRawXml(SrcDict([(e.tag, ValueOf(e, order))]), serialise) == Ok(serialise(Rearranged(e, order)))
    ensures ToRawXml(SrcDict([(e.tag, ValueOf(e, InsertionOrder))]), serialise) == ToRawXml(SrcElement(e), serialise)
  {
    RoundTrip(e, order);
  }
}
