/**
 Conversion of an XML element tree into nested dicts and lists
 (`arrayify_etree`). Only an element's tag, its text and its ordered child
 elements take part; attributes, tail text and namespaces are never read.
 */
module Etree {
  import opened Values
  import opened Pairs

  /** An XML element: tag, optional text (`None` for an empty element) and
      child elements in document order. */
  datatype Elem = Elem(tag: string, text: Option<string>, children: seq<Elem>)

  /** The dict key an element contributes. */
  function Key(e: Elem): Value {
    VStr(e.tag)
  }

  /** The single-entry dict `{k: v}`. */
  function Entry(k: string, v: Value): Value {
    VMap(map[VStr(k) := v])
  }

  /** An element's text as a value: `None` stays `None`. */
  function TextValue(t: Option<string>): Value {
    match t
    case None => VNull
    case Some(s) => VStr(s)
  }

  /** The scan of `etree_list_items_all_have_same_tag`: `last` is the tag of
      the previous element, `None` before the first one. */
  function SameTagScan(l: seq<Elem>, last: Option<string>): (b: bool)
    ensures last.Some? ==> (b <==> forall i :: 0 <= i < |l| ==> l[i].tag == last.value)
    ensures last.None? ==> (b <==> forall i :: 0 <= i < |l| ==> l[i].tag == l[0].tag)
    decreases |l|
  {
    if |l| == 0 then
      true
    else if last.Some? && last.value != l[0].tag then
      false
    else
      SameTagScan(l[1..], Some(l[0].tag))
  }

  /** `etree_list_items_all_have_same_tag`: every element carries the first
      element's tag; vacuously true for zero or one element. */
  function AllSameTag(l: seq<Elem>): (b: bool)
    ensures b <==> forall i, j :: 0 <= i < |l| && 0 <= j < |l| ==> l[i].tag == l[j].tag
    ensures |l| <= 1 ==> b
  {
    SameTagScan(l, None)
  }

  /** `arrayify_etree`: always a single-entry dict keyed by the element's own
      tag. */
  function Arrayify(e: Elem): (r: Value)
    ensures r.VMap? && r.entries.Keys == {Key(e)}
    decreases e
  {
    var cs := e.children;
    if |cs| == 0 then
      Entry(e.tag, TextValue(e.text))
    else if |cs| > 1 && AllSameTag(cs) then
      Entry(e.tag, Entry(cs[0].tag, VList(ListItems(cs))))
    else
      Entry(e.tag, VMap(Merge(cs)))
  }

  /** The list of the homogeneous branch: each child's value with its own tag
      stripped off, in document order. */
  function ListItems(cs: seq<Elem>): (l: seq<Value>)
    ensures |l| == |cs|
    ensures forall i :: 0 <= i < |cs| ==> l[i] == Arrayify(cs[i]).entries[Key(cs[i])]
    decreases cs
  {
    if |cs| == 0 then
      []
    else
      [Arrayify(cs[0]).entries[Key(cs[0])]] + ListItems(cs[1..])
  }

  /** The `d.update(arrayify_etree(child))` loop over the children, from an
      empty dict: `+` on maps keeps the right operand's value for a shared key,
      which is what `update` does. */
  function Merge(cs: seq<Elem>): (d: map<Value, Value>)
    ensures d.Keys == Tags(cs)
    decreases cs
  {
    if |cs| == 0 then
      map[]
    else
      Merge(cs[..|cs| - 1]) + Arrayify(cs[|cs| - 1]).entries
  }

  /** The value an element contributes under its own tag. */
  function Unwrapped(e: Elem): Value {
    Arrayify(e).entries[Key(e)]
  }

  /** An arrayified element is `{tag: value}` with its unwrapped value. */
  lemma ArrayifyIsEntry(e: Elem)
    ensures Arrayify(e) == Entry(e.tag, Unwrapped(e))
  {
  }

  /** The (tag, value) pair each child contributes to its parent. */
  function ChildPairs(cs: seq<Elem>): seq<(Value, Value)> {
    seq(|cs|, i requires 0 <= i < |cs| => (Key(cs[i]), Unwrapped(cs[i])))
  }

  /** The tags of a list of children. */
  function Tags(cs: seq<Elem>): set<Value> {
    set i | 0 <= i < |cs| :: Key(cs[i])
  }

  /** Merging the children's single-entry dicts one after another is building
      a dict from their (tag, value) pairs, later ones overwriting. */
  lemma {:induction false} MergeIsFromPairs(cs: seq<Elem>)
    ensures Merge(cs) == FromPairs(ChildPairs(cs))
    decreases |cs|
  {
    if |cs| > 0 {
      var init := cs[..|cs| - 1];
      var last := cs[|cs| - 1];
      MergeIsFromPairs(init);
      MergeStep(cs);
      ChildPairsStep(cs);
    }
  }

  /** One more child merged is one more key set. */
  lemma MergeStep(cs: seq<Elem>)
    requires |cs| > 0
    ensures Merge(cs) == Merge(cs[..|cs| - 1])[Key(cs[|cs| - 1]) := Unwrapped(cs[|cs| - 1])]
  {
    ArrayifyIsEntry(cs[|cs| - 1]);
  }

  /** One more child, one more pair, inserted last. */
  lemma ChildPairsStep(cs: seq<Elem>)
    requires |cs| > 0
    ensures FromPairs(ChildPairs(cs))
         == FromPairs(ChildPairs(cs[..|cs| - 1]))[Key(cs[|cs| - 1]) := Unwrapped(cs[|cs| - 1])]
  {
    var ps := ChildPairs(cs);
    assert ps[..|cs| - 1] == ChildPairs(cs[..|cs| - 1]);
  }

  /** A childless element maps its tag to its text, which is `None` exactly
      when the element has no text. */
  lemma ArrayifyLeaf(e: Elem)
    requires |e.children| == 0
    ensures Unwrapped(e).VStr? || Unwrapped(e).VNull?
    ensures Unwrapped(e) == VNull <==> e.text.None?
    ensures e.text.Some? ==> Unwrapped(e) == VStr(e.text.value)
  {
  }

  /** More than one child, all with one tag: `{tag: {childTag: L}}` where `L`
      lists the children's values in document order. */
  lemma ArrayifyHomogeneous(e: Elem)
    requires |e.children| > 1
    requires forall i :: 0 <= i < |e.children| ==> e.children[i].tag == e.children[0].tag
    ensures Unwrapped(e).VMap?
    ensures Unwrapped(e).entries.Keys == {Key(e.children[0])}
    ensures var l := Unwrapped(e).entries[Key(e.children[0])];
            && l.VList?
            && |l.elems| == |e.children|
            && forall i :: 0 <= i < |e.children| ==> l.elems[i] == Unwrapped(e.children[i])
  {
  }

  /** One child, or children with differing tags: the inner dict has exactly
      the children's tags as keys, and each key holds the value of the last
      child with that tag. */
  lemma ArrayifyMerged(e: Elem)
    requires |e.children| > 0
    requires |e.children| == 1 || exists i :: 0 <= i < |e.children| && e.children[i].tag != e.children[0].tag
    ensures Unwrapped(e).VMap?
    ensures Unwrapped(e).entries.Keys == Tags(e.children)
    ensures forall i :: LastTagged(e.children, i) ==>
              Unwrapped(e).entries[Key(e.children[i])] == Unwrapped(e.children[i])
  {
    MergeBranch(e);
    MergeKeysAndValues(e.children);
  }

  /** The merged dict of a list of children: keyed by their tags, each tag
      holding the value of the last child that carries it. */
  lemma MergeKeysAndValues(cs: seq<Elem>)
    ensures Merge(cs).Keys == Tags(cs)
    ensures forall i :: LastTagged(cs, i) ==> Merge(cs)[Key(cs[i])] == Unwrapped(cs[i])
  {
    var ps := ChildPairs(cs);
    MergeIsFromPairs(cs);
    TagsAreFirsts(cs);
    forall i | LastTagged(cs, i)
      ensures FromPairs(ps)[Key(cs[i])] == Unwrapped(cs[i])
    {
      assert LastFor(ps, i) by {
        forall j | i < j < |ps| ensures ps[j].0 != ps[i].0 {
          assert cs[j].tag != cs[i].tag;
        }
      }
      FromPairsLastWins(ps, i);
    }
  }

  /** The keys of the children's pairs are the children's tags. */
  lemma TagsAreFirsts(cs: seq<Elem>)
    ensures Firsts(ChildPairs(cs)) == Tags(cs)
  {
    var ps := ChildPairs(cs);
    assert forall i :: 0 <= i < |cs| ==> ps[i].0 == Key(cs[i]);
  }

  /** Which branch `arrayify_etree` takes when there are children that are
      not a homogeneous list. */
  lemma MergeBranch(e: Elem)
    requires |e.children| > 0
    requires |e.children| == 1 || exists i :: 0 <= i < |e.children| && e.children[i].tag != e.children[0].tag
    ensures Unwrapped(e) == VMap(Merge(e.children))
  {
    var cs := e.children;
    assert !(|cs| > 1 && AllSameTag(cs));
  }

  /** Child `i` is the last child carrying its tag. */
  predicate LastTagged(cs: seq<Elem>, i: int) {
    0 <= i < |cs| && forall j :: i < j < |cs| ==> cs[j].tag != cs[i].tag
  }

  /** A single child is never wrapped in a list: `{tag: {childTag: value}}`. */
  lemma ArrayifySingleChild(e: Elem)
    requires |e.children| == 1
    ensures Unwrapped(e) == Entry(e.children[0].tag, Unwrapped(e.children[0]))
  {
    ArrayifyMerged(e);
    assert LastTagged(e.children, 0);
    assert Tags(e.children) == {Key(e.children[0])};
  }
}
