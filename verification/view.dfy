/**
 The read-only access protocol of an `Objectifier` whose `response_data` is
 `data`: wrapping of returned values, iteration, item and attribute lookup,
 containment, length and key listing, with Python 2 semantics.
 */
module DynamicView {
  import opened Values
  import opened Construction

  /** What an access hands back: a bare value, or a new `Objectifier`
      holding the given `response_data`. */
  datatype Item = Bare(value: Value) | View(data: Value)

  /** The result of `view[k]` or `view.k`. `ReturnsNone` is the sentinel of
      a caught error or a missing attribute; to the caller it is the same
      Python `None` as `Returns(Bare(VNull))`, the split only records which
      path produced it. */
  datatype Lookup = Returns(item: Item) | ReturnsNone | Raises(exc: Exc)

  /** `_objectify_if_needed`: a value with `pop` (a list or a dict) becomes a
      new view, constructed as `Objectifier(v)` would; anything else comes back
      bare. Constructing from a list of pairs with an unhashable key raises. */
  function Wrap(v: Value): (r: Outcome<Item>)
    ensures !HasPop(v) ==> r == Ok(Bare(v))
    ensures v.VMap? ==> r == Ok(View(v))
    ensures HasPop(v) && r.Ok? ==> r.value.View?
    ensures v.VList? && !IsListOfPairs(v) ==> r == Ok(View(v))
    ensures r.Raise? ==> IsListOfPairs(v) && r.exc == TypeError
  {
    if HasPop(v) then
      match AdoptContainer(v)
      case Ok(d) => Ok(View(d))
      case Raise(e) => Raise(e)
    else
      Ok(Bare(v))
  }

  /** A wrapped container is exactly the view `Objectifier(v)` constructs,
      whatever parsers are installed. */
  lemma WrapIsConstruction(v: Value, p: Parsers)
    requires HasPop(v)
    ensures Wrap(v).Ok? <==> Construct(v, p).Ok?
    ensures Wrap(v).Ok? ==> Wrap(v).value == View(Construct(v, p).value)
  {
  }

  /** A nested empty list is wrapped as a view over an empty dict. */
  lemma WrapEmptyList()
    ensures Wrap(VList([])) == Ok(View(VMap(map[])))
  {
  }

  /* ---------------------------------------------------------------------- */
  /* Iteration                                                                */

  /** One value produced by `__iter__`: a `(key, item)` tuple for a dict, a
      single item otherwise. */
  datatype Yielded = KeyItem(key: Value, item: Item) | Member(item: Item)

  /** Everything `__iter__` produces, and the exception that ends it early,
      if one does. */
  datatype Iteration = Iteration(yielded: seq<Yielded>, raised: Option<Exc>)

  /** `order` lists every key of the dict exactly once: a possible
      `iteritems()` order. */
  ghost predicate IsKeyOrder(order: seq<Value>, keys: set<Value>) {
    && (forall i, j :: 0 <= i < j < |order| ==> order[i] != order[j])
    && (forall k :: k in keys <==> k in order)
  }

  /** Iterating a dict: each key in `order` together with its wrapped value.
      A TypeError from wrapping is not among the errors the dict branch
      catches, so it ends the iteration by propagating. */
  function IterEntries(m: map<Value, Value>, order: seq<Value>): (it: Iteration)
    requires forall i :: 0 <= i < |order| ==> order[i] in m
    ensures |it.yielded| <= |order|
    ensures forall i :: 0 <= i < |it.yielded| ==>
              && it.yielded[i].KeyItem?
              && it.yielded[i].key == order[i]
              && Wrap(m[order[i]]) == Ok(it.yielded[i].item)
    ensures it.raised.None? <==> |it.yielded| == |order|
    ensures it.raised.Some? ==> Wrap(m[order[|it.yielded|]]) == Raise(it.raised.value)
    decreases |order|
  {
    if |order| == 0 then
      Iteration([], None)
    else
      match Wrap(m[order[0]])
      case Raise(e) => Iteration([], Some(e))
      case Ok(item) =>
        var rest := IterEntries(m, order[1..]);
        Iteration([KeyItem(order[0], item)] + rest.yielded, rest.raised)
  }

  /** Iterating a list or tuple: each item wrapped, in order. A TypeError
      from wrapping is caught and turned into the end of the iteration, so it
      ends silently. */
  function IterMembers(xs: seq<Value>): (ys: seq<Yielded>)
    ensures |ys| <= |xs|
    ensures forall i :: 0 <= i < |ys| ==> Wrap(xs[i]).Ok? && ys[i] == Member(Wrap(xs[i]).value)
    ensures |ys| < |xs| ==> Wrap(xs[|ys|]).Raise?
    decreases |xs|
  {
    if |xs| == 0 then
      []
    else
      match Wrap(xs[0])
      case Raise(_) => []
      case Ok(item) => [Member(item)] + IterMembers(xs[1..])
  }

  /** Iterating a string: each character as a one-character string. */
  function IterChars(s: string): seq<Yielded> {
    seq(|s|, i requires 0 <= i < |s| => Member(Bare(VStr([s[i]]))))
  }

  /** `__iter__`. A dict is walked in `order`, its `iteritems()` order; a
      value that is neither a dict nor iterable yields nothing. */
  function Iterate(data: Value, order: seq<Value>): (it: Iteration)
    requires data.VMap? ==> IsKeyOrder(order, data.entries.Keys)
    ensures it.raised.Some? ==> data.VMap? && it.raised.value == TypeError
    ensures data.VNull? || data.VNum? ==> it == Iteration([], None)
    ensures data.VStr? ==> it.yielded == IterChars(data.s)
    ensures data.VMap? ==> it == IterEntries(data.entries, order)
    ensures data.VList? || data.VTuple? ==> it == Iteration(IterMembers(data.elems), None)
  {
    match data
    case VMap(m) => IterEntries(m, order)
    case VList(xs) => Iteration(IterMembers(xs), None)
    case VTuple(xs) => Iteration(IterMembers(xs), None)
    case VStr(s) => Iteration(IterChars(s), None)
    case _ => Iteration([], None)
  }

  /** A key order of `keys` has exactly as many entries as there are keys. */
  lemma {:induction false} KeyOrderLength(order: seq<Value>, keys: set<Value>)
    requires IsKeyOrder(order, keys)
    ensures |order| == |keys|
    decreases |order|
  {
    if |order| > 0 {
      var last := order[|order| - 1];
      var init := order[..|order| - 1];
      assert IsKeyOrder(init, keys - {last}) by {
        forall k ensures k in keys - {last} <==> k in init {
          if k in init {
            var i :| 0 <= i < |init| && init[i] == k;
            assert order[i] != order[|order| - 1];
          }
          if k in keys - {last} {
            assert k in order;
            var i :| 0 <= i < |order| && order[i] == k;
            assert i < |order| - 1;
            assert init[i] == k;
          }
        }
      }
      KeyOrderLength(init, keys - {last});
    } else {
      forall k ensures k !in keys {
        assert k !in order;
      }
      assert keys == {};
    }
  }

  /** One possible `iteritems()` order of a dict: every dict has one. */
  method KeyOrder(m: map<Value, Value>) returns (order: seq<Value>)
    ensures IsKeyOrder(order, m.Keys)
  {
    order := [];
    var rest := m.Keys;
    while rest != {}
      invariant rest <= m.Keys
      invariant forall i, j :: 0 <= i < j < |order| ==> order[i] != order[j]
      invariant forall k :: k in order ==> k in m.Keys && k !in rest
      invariant forall k :: k in m.Keys ==> k in rest || k in order
      decreases |rest|
    {
      var k :| k in rest;
      order := order + [k];
      rest := rest - {k};
    }
  }

  /** Iterating a dict whose values all wrap raises nothing and yields as
      many items as the dict has entries. */
  lemma IterateDictLength(m: map<Value, Value>, order: seq<Value>)
    requires IsKeyOrder(order, m.Keys)
    requires forall k :: k in m ==> Wrap(m[k]).Ok?
    ensures Iterate(VMap(m), order).raised.None?
    ensures |Iterate(VMap(m), order).yielded| == |m|
  {
    KeyOrderLength(order, m.Keys);
  }

  /** Iterating a dict whose values all wrap yields every key exactly once,
      each with its wrapped value. */
  lemma IterateDict(m: map<Value, Value>, order: seq<Value>)
    requires IsKeyOrder(order, m.Keys)
    requires forall k :: k in m ==> Wrap(m[k]).Ok?
    ensures forall k :: k in m ==>
              exists i :: 0 <= i < |order| && Iterate(VMap(m), order).yielded[i] == KeyItem(k, Wrap(m[k]).value)
    ensures forall i, j :: 0 <= i < j < |order| ==>
              Iterate(VMap(m), order).yielded[i].key != Iterate(VMap(m), order).yielded[j].key
  {
    var it := Iterate(VMap(m), order);
    assert |it.yielded| == |order|;
    forall k | k in m
      ensures exists i :: 0 <= i < |order| && it.yielded[i] == KeyItem(k, Wrap(m[k]).value)
    {
      assert k in order;
      var i :| 0 <= i < |order| && order[i] == k;
      assert it.yielded[i] == KeyItem(k, Wrap(m[k]).value);
    }
  }

  /** Iterating a list or tuple whose items all wrap yields each item,
      wrapped, in order. */
  lemma IterateSequence(data: Value, order: seq<Value>)
    requires data.VList? || data.VTuple?
    requires forall i :: 0 <= i < |data.elems| ==> Wrap(data.elems[i]).Ok?
    ensures Iterate(data, order).raised.None?
    ensures |Iterate(data, order).yielded| == |data.elems|
    ensures forall i :: 0 <= i < |data.elems| ==>
              Iterate(data, order).yielded[i] == Member(Wrap(data.elems[i]).value)
  {
  }

  /** A list item that cannot be wrapped ends a list's iteration silently,
      while the same value in a dict makes the iteration raise. */
  lemma IterationFailureAsymmetry(bad: Value)
    requires Wrap(bad).Raise?
    ensures Iterate(VList([VNum(1), bad]), []) == Iteration([Member(Bare(VNum(1)))], None)
    ensures Iterate(VMap(map[VStr("k") := bad]), [VStr("k")]).raised == Some(TypeError)
  {
    assert IterMembers([VNum(1), bad]) == [Member(Bare(VNum(1)))] by {
      assert [VNum(1), bad][1..] == [bad];
    }
  }

  /* ---------------------------------------------------------------------- */
  /* Item and attribute lookup                                                */

  /** The result of item lookup once the wrapped value is known: a TypeError
      becomes the `None` sentinel, any other exception propagates. */
  function CatchTypeError(w: Outcome<Item>): Lookup {
    match w
    case Ok(item) => Returns(item)
    case Raise(TypeError) => ReturnsNone
    case Raise(e) => Raises(e)
  }

  /** Item lookup on a list or tuple: integers only, negative ones counting
      from the end. A non-integer key, or an item that cannot be wrapped, gives
      `None`; an index out of range raises IndexError. */
  function IndexSeq(xs: seq<Value>, k: Value): (r: Lookup)
    ensures r != Raises(TypeError)
    ensures r == Raises(IndexError) <==> k.VNum? && !InRange(k.n, |xs|)
    ensures r == ReturnsNone <==>
              !k.VNum? || (InRange(k.n, |xs|) && Wrap(xs[Position(k.n, |xs|)]).Raise?)
    ensures r.Returns? ==>
              k.VNum? && InRange(k.n, |xs|) && Wrap(xs[Position(k.n, |xs|)]) == Ok(r.item)
    ensures r.Returns? || r == ReturnsNone || r == Raises(IndexError)
  {
    if !k.VNum? then ReturnsNone
    else if !InRange(k.n, |xs|) then Raises(IndexError)
    else CatchTypeError(Wrap(xs[Position(k.n, |xs|)]))
  }

  /** The length of a list, tuple or string. */
  predicate IsSequence(data: Value) {
    data.VList? || data.VTuple? || data.VStr?
  }

  function SeqLength(data: Value): nat
    requires IsSequence(data)
  {
    if data.VStr? then |data.s| else |data.elems|
  }

  /** Evaluating `wrap(data[k])` raises TypeError: the data cannot be
      indexed at all, the key has the wrong type or is unhashable, or the
      value found cannot be wrapped. */
  ghost predicate IndexingTypeError(data: Value, k: Value) {
    || data.VNull?
    || data.VNum?
    || (data.VMap? && !Hashable(k))
    || (data.VMap? && k in data.entries && Wrap(data.entries[k]).Raise?)
    || (IsSequence(data) && !k.VNum?)
    || ((data.VList? || data.VTuple?) && k.VNum? && InRange(k.n, |data.elems|)
          && Wrap(data.elems[Position(k.n, |data.elems|)]).Raise?)
  }

  /** `__getitem__`: the wrapped value stored under `k`; any TypeError
      (unindexable data, wrong key type, unhashable key, or wrapping the
      result) gives `None`, while a missing key or an index out of range
      propagates. */
  function GetItem(data: Value, k: Value): (r: Lookup)
    ensures r != Raises(TypeError)
    ensures r == ReturnsNone <==> IndexingTypeError(data, k)
    ensures r == Raises(KeyError) <==> data.VMap? && Hashable(k) && k !in data.entries
    ensures r == Raises(IndexError) <==> IsSequence(data) && k.VNum? && !InRange(k.n, SeqLength(data))
    ensures data.VMap? && r.Returns? ==> k in data.entries && Wrap(data.entries[k]) == Ok(r.item)
    ensures IsSequence(data) && r.Returns? ==> k.VNum? && InRange(k.n, SeqLength(data))
    ensures (data.VList? || data.VTuple?) && r.Returns? ==>
              Wrap(data.elems[Position(k.n, |data.elems|)]) == Ok(r.item)
    ensures data.VStr? && r.Returns? ==> r.item == Bare(VStr([data.s[Position(k.n, |data.s|)]]))
    ensures data.VNull? || data.VNum? ==> r == ReturnsNone
    ensures IsSequence(data) && !k.VNum? ==> r == ReturnsNone
    ensures data.VMap? && !Hashable(k) ==> r == ReturnsNone
  {
    match data
    case VMap(m) =>
      if !Hashable(k) then ReturnsNone
      else if k !in m then Raises(KeyError)
      else CatchTypeError(Wrap(m[k]))
    case VList(xs) => IndexSeq(xs, k)
    case VTuple(xs) => IndexSeq(xs, k)
    case VStr(s) =>
      if !k.VNum? then ReturnsNone
      else if !InRange(k.n, |s|) then Raises(IndexError)
      else Returns(Bare(VStr([s[Position(k.n, |s|)]])))
    case _ => ReturnsNone
  }

  /** `__getattr__`: a containment test of the name first, and item lookup
      by the name only when it passes. On a dict an absent name gives the
      `None` sentinel; elsewhere a name that passes the containment test
      fails the indexing with TypeError, and data that supports no
      containment test raises TypeError at once. */
  function GetAttr(data: Value, name: string): (r: Lookup)
    ensures r.Raises? ==> r.exc == TypeError
    ensures data.VMap? ==> (r == ReturnsNone <==> VStr(name) !in data.entries)
    ensures data.VMap? && r.Returns? ==> Wrap(data.entries[VStr(name)]) == Ok(r.item)
    ensures !data.VMap? ==> !r.Returns?
  {
    match data
    case VMap(m) =>
      if VStr(name) in m then
        match Wrap(m[VStr(name)])
        case Ok(item) => Returns(item)
        case Raise(e) => Raises(e)
      else
        ReturnsNone
    case VList(xs) => if VStr(name) in xs then Raises(TypeError) else ReturnsNone
    case VTuple(xs) => if VStr(name) in xs then Raises(TypeError) else ReturnsNone
    case VStr(s) => if SubstringOf(name, s) then Raises(TypeError) else ReturnsNone
    case _ => Raises(TypeError)
  }

  /* ---------------------------------------------------------------------- */
  /* Containment, length, keys                                                */

  /** `__contains__`: `k in data`. A dict needs a hashable key, a string a
      string operand; numbers and `None` support no `in` at all. */
  function Contains(data: Value, k: Value): (r: Outcome<bool>)
    ensures r.Raise? ==> r.exc == TypeError
    ensures data.VMap? && Hashable(k) ==> r == Ok(k in data.entries)
    ensures (data.VList? || data.VTuple?) ==> r == Ok(exists i :: 0 <= i < |data.elems| && data.elems[i] == k)
    ensures data.VStr? && k.VStr? ==>
              r == Ok(exists i :: 0 <= i <= |data.s| && k.s <= data.s[i..])
    ensures r.Raise? <==> (data.VMap? && !Hashable(k)) || (data.VStr? && !k.VStr?) || data.VNull? || data.VNum?
  {
    match data
    case VMap(m) => if Hashable(k) then Ok(k in m) else Raise(TypeError)
    case VList(xs) => Ok(k in xs)
    case VTuple(xs) => Ok(k in xs)
    case VStr(s) => if k.VStr? then Ok(SubstringOf(k.s, s)) else Raise(TypeError)
    case _ => Raise(TypeError)
  }

  /** `__len__` */
  function Len(data: Value): (r: Outcome<nat>)
    ensures r.Raise? <==> data.VNull? || data.VNum?
    ensures r.Raise? ==> r.exc == TypeError
    ensures IsSequence(data) ==> r == Ok(SeqLength(data))
  {
    match data
    case VMap(m) => Ok(|m|)
    case VList(xs) => Ok(|xs|)
    case VTuple(xs) => Ok(|xs|)
    case VStr(s) => Ok(|s|)
    case _ => Raise(TypeError)
  }

  /** `__dir__`: the dict's keys (as a list in no particular order), or
      nothing for any other data: exactly the keys `in` accepts and item
      lookup finds. */
  function Dir(data: Value): (ks: set<Value>)
    ensures data.VMap? ==> ks == data.entries.Keys
    ensures !data.VMap? ==> ks == {}
    ensures data.VMap? ==> forall k :: Hashable(k) ==> (k in ks <==> Contains(data, k) == Ok(true))
    ensures forall k :: k in ks ==> GetItem(data, k) != Raises(KeyError)
  {
    if data.VMap? then data.entries.Keys else {}
  }

  /* ---------------------------------------------------------------------- */
  /* How the operations relate                                                */

  /** On the same dict and the same absent string key, item lookup raises
      KeyError while attribute lookup returns `None`. */
  lemma MissingKeyAsymmetry(m: map<Value, Value>, name: string)
    requires VStr(name) !in m
    ensures GetItem(VMap(m), VStr(name)) == Raises(KeyError)
    ensures GetAttr(VMap(m), name) == ReturnsNone
  {
  }

  /** Attribute lookup returns `None` exactly when `name in data` is false,
      and raises whenever `in` does. */
  lemma GetAttrFollowsContains(data: Value, name: string)
    ensures GetAttr(data, name) == ReturnsNone <==> Contains(data, VStr(name)) == Ok(false)
    ensures Contains(data, VStr(name)).Raise? ==> GetAttr(data, name) == Raises(TypeError)
  {
  }

  /** For a string name present in a dict, attribute and item lookup agree,
      except that a wrapping TypeError is swallowed by item lookup only. */
  lemma GetAttrMatchesGetItem(m: map<Value, Value>, name: string)
    requires VStr(name) in m
    ensures Wrap(m[VStr(name)]).Ok? ==> GetAttr(VMap(m), name) == GetItem(VMap(m), VStr(name))
    ensures Wrap(m[VStr(name)]).Raise? ==>
              GetAttr(VMap(m), name) == Raises(TypeError) && GetItem(VMap(m), VStr(name)) == ReturnsNone
  {
  }

  /** Every listed key is contained and can be looked up without KeyError;
      a hashable key that is not listed cannot. */
  lemma DirMatchesLookup(data: Value, k: Value)
    requires data.VMap? && Hashable(k)
    ensures k in Dir(data) <==> Contains(data, k) == Ok(true)
    ensures k in Dir(data) <==> GetItem(data, k) != Raises(KeyError)
  {
  }

  /** The length of a dict is the number of its keys. */
  lemma LenMatchesDir(data: Value)
    requires data.VMap?
    ensures Len(data) == Ok(|Dir(data)|)
  {
  }

  /** Iterating a dict, list, tuple or string with nothing failing to wrap
      yields `len(data)` items. */
  lemma LenMatchesIteration(data: Value, order: seq<Value>)
    requires data.VMap? ==> IsKeyOrder(order, data.entries.Keys)
    requires data.VMap? ==> forall k :: k in data.entries ==> Wrap(data.entries[k]).Ok?
    requires data.VList? || data.VTuple? ==> forall i :: 0 <= i < |data.elems| ==> Wrap(data.elems[i]).Ok?
    requires Len(data).Ok?
    ensures Iterate(data, order).raised.None?
    ensures |Iterate(data, order).yielded| == Len(data).value
  {
    if data.VMap? {
      IterateDictLength(data.entries, order);
    }
  }

  /** An in-range index of a list or tuple whose item there can be wrapped
      returns that wrapped item, counting negative indices from the end;
      the other items play no part. */
  lemma GetItemIndex(xs: seq<Value>, i: int)
    requires InRange(i, |xs|)
    requires Wrap(xs[Position(i, |xs|)]).Ok?
    ensures GetItem(VList(xs), VNum(i)) == Returns(Wrap(xs[if i < 0 then |xs| + i else i]).value)
    ensures GetItem(VTuple(xs), VNum(i)) == GetItem(VList(xs), VNum(i))
  {
  }

  /** Iterating a string agrees with indexing it: the i-th character
      produced is what `data[i]` returns. */
  lemma IterCharsMatchesIndexing(s: string, i: int)
    requires 0 <= i < |s|
    ensures |Iterate(VStr(s), []).yielded| == |s|
    ensures Iterate(VStr(s), []).yielded[i] == Member(GetItem(VStr(s), VNum(i)).item)
    ensures GetItem(VStr(s), VNum(-|s| + i)) == GetItem(VStr(s), VNum(i))
  {
  }

  /** Iterating a list or tuple agrees with indexing it wherever the item
      can be wrapped: the i-th item produced is what `data[i]` returns. */
  lemma IterMembersMatchesIndexing(data: Value, i: int)
    requires data.VList? || data.VTuple?
    requires 0 <= i < |Iterate(data, []).yielded|
    ensures GetItem(data, VNum(i)).Returns?
    ensures Iterate(data, []).yielded[i] == Member(GetItem(data, VNum(i)).item)
  {
  }

  /** A name whose stored value is `None` and an absent name look alike to
      the caller: attribute lookup hands back Python `None` (the sentinel or
      the bare stored value) exactly when the name is absent or stores
      `None`, and item lookup returns the stored `None` as well. */
  lemma StoredNoneLooksAbsent(m: map<Value, Value>, name: string)
    ensures (GetAttr(VMap(m), name) == ReturnsNone || GetAttr(VMap(m), name) == Returns(Bare(VNull)))
            <==> VStr(name) !in m || m[VStr(name)] == VNull
    ensures VStr(name) in m && m[VStr(name)] == VNull ==>
              GetItem(VMap(m), VStr(name)) == Returns(Bare(VNull))
  {
  }
}
