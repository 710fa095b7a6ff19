/**
 Concrete inputs and what the model gives for them: examples of
 arrayification, adoption of pairs, raw fallback and scalar iteration.
 */
module Scenarios {
  import opened Values
  import opened Etree
  import opened Construction
  import opened DynamicView

  function Leaf(tag: string, text: string): Elem {
    Elem(tag, Some(text), [])
  }

  /** `<a><b>1</b><b>2</b></a>` gives `{"a": {"b": ["1", "2"]}}`. */
  lemma HomogeneousChildren()
    ensures Arrayify(Elem("a", None, [Leaf("b", "1"), Leaf("b", "2")]))
         == Entry("a", Entry("b", VList([VStr("1"), VStr("2")])))
  {
    var cs := [Leaf("b", "1"), Leaf("b", "2")];
    assert AllSameTag(cs);
    assert ListItems(cs) == [VStr("1"), VStr("2")];
  }

  /** `<a><b>1</b><c>2</c></a>` gives `{"a": {"b": "1", "c": "2"}}`. */
  lemma HeterogeneousChildren()
    ensures Arrayify(Elem("a", None, [Leaf("b", "1"), Leaf("c", "2")]))
         == Entry("a", VMap(map[VStr("b") := VStr("1"), VStr("c") := VStr("2")]))
  {
    var cs := [Leaf("b", "1"), Leaf("c", "2")];
    assert cs[1].tag != cs[0].tag;
    MergeBranch(Elem("a", None, cs));
    ArrayifyIsEntry(Elem("a", None, cs));
    assert cs[..1] == [Leaf("b", "1")];
    assert cs[..1][..0] == [];
    assert Merge(cs[..1]) == map[VStr("b") := VStr("1")];
    assert Arrayify(cs[1]).entries == map[VStr("c") := VStr("2")];
    assert Merge(cs) == Merge(cs[..1]) + Arrayify(cs[1]).entries;
    assert Merge(cs) == map[VStr("b") := VStr("1"), VStr("c") := VStr("2")];
    assert Unwrapped(Elem("a", None, cs)) == VMap(map[VStr("b") := VStr("1"), VStr("c") := VStr("2")]);
  }

  /** `<a><b><c>1</c></b></a>` gives `{"a": {"b": {"c": "1"}}}`: a single
      child is not put in a list. */
  lemma SingleChildNotListed()
    ensures Arrayify(Elem("a", None, [Elem("b", None, [Leaf("c", "1")])]))
         == Entry("a", Entry("b", Entry("c", VStr("1"))))
  {
    var b := Elem("b", None, [Leaf("c", "1")]);
    ArrayifySingleChild(b);
    ArrayifySingleChild(Elem("a", None, [b]));
  }

  /** Repeated tags among mixed children: the last one wins.
      `<a><b>1</b><c>2</c><b>3</b></a>` gives `{"a": {"b": "3", "c": "2"}}`. */
  lemma LaterChildOverwrites()
    ensures Arrayify(Elem("a", None, [Leaf("b", "1"), Leaf("c", "2"), Leaf("b", "3")]))
         == Entry("a", VMap(map[VStr("b") := VStr("3"), VStr("c") := VStr("2")]))
  {
    var cs := [Leaf("b", "1"), Leaf("c", "2"), Leaf("b", "3")];
    assert cs[1].tag != cs[0].tag;
    MergeBranch(Elem("a", None, cs));
    ArrayifyIsEntry(Elem("a", None, cs));
    assert cs[..2] == [Leaf("b", "1"), Leaf("c", "2")];
    assert cs[..2][..1] == [Leaf("b", "1")];
    assert cs[..2][..1][..0] == [];
    assert Merge(cs[..2][..1]) == map[VStr("b") := VStr("1")];
    assert Arrayify(cs[1]).entries == map[VStr("c") := VStr("2")];
    assert Merge(cs[..2]) == Merge(cs[..2][..1]) + Arrayify(cs[1]).entries;
    assert Merge(cs[..2]) == map[VStr("b") := VStr("1"), VStr("c") := VStr("2")];
    assert Arrayify(cs[2]).entries == map[VStr("b") := VStr("3")];
    assert Merge(cs) == Merge(cs[..2]) + Arrayify(cs[2]).entries;
    assert Merge(cs) == map[VStr("b") := VStr("3"), VStr("c") := VStr("2")];
  }

  /** `[("x", 1), ("y", 2)]` is stored as `{"x": 1, "y": 2}`. */
  lemma PairsAdoptedAsDict(p: Parsers)
    ensures Construct(VList([VTuple([VStr("x"), VNum(1)]), VTuple([VStr("y"), VNum(2)])]), p)
         == Ok(VMap(map[VStr("x") := VNum(1), VStr("y") := VNum(2)]))
  {
    var items := [VTuple([VStr("x"), VNum(1)]), VTuple([VStr("y"), VNum(2)])];
    assert items[..1] == [VTuple([VStr("x"), VNum(1)])];
    assert items[..1][..0] == [];
  }

  /** A pair whose key is a list cannot be put in a dict: construction raises. */
  lemma UnhashablePairKeyRaises(p: Parsers)
    ensures Construct(VList([VTuple([VList([]), VNum(1)])]), p) == Raise(TypeError)
  {
    var items := [VTuple([VList([]), VNum(1)])];
    assert items[..0] == [];
  }

  /** Text no parser accepts is kept as it is. */
  lemma UnparseableTextKept()
    ensures Construct(VStr("not json, not <xml"),
                      Parsers(_ => None, Some(_ => None), _ => None))
         == Ok(VStr("not json, not <xml"))
  {
  }

  /** Iterating a view over an integer yields nothing and raises nothing. */
  lemma IntegerIteratesEmpty()
    ensures Iterate(VNum(42), []) == Iteration([], None)
  {
  }
}
