/**
 What `Objectifier.__init__` stores as `response_data`: a dict is adopted
 as is, a list is adopted (turned into a dict when every item is a 2-tuple),
 and anything else is run through the ordered JSON, YAML, XML detection chain,
 falling back to the raw input.

 The three text parsers are library calls; they are parameters here. A parser
 result of `None` stands for both "raised" and "returned None": the bare
 `except:` in `_try_parsing` makes the two indistinguishable.
 */
module Construction {
  import opened Values
  import opened Pairs
  import Etree

  /** The loop of `is_list_of_2_element_tuples` over the items of a list. */
  function AllPairs(items: seq<Value>): (b: bool)
    ensures b <==> forall i :: 0 <= i < |items| ==> IsPair(items[i])
    decreases |items|
  {
    if |items| == 0 then true
    else if !IsPair(items[0]) then false
    else AllPairs(items[1..])
  }

  /** `is_list_of_2_element_tuples(v)`: a list (not a tuple or any other
      value) whose items are all 2-tuples; the empty list qualifies. */
  function IsListOfPairs(v: Value): (b: bool)
    ensures b <==> v.VList? && forall i :: 0 <= i < |v.elems| ==> IsPair(v.elems[i])
    ensures v == VList([]) ==> b
  {
    v.VList? && AllPairs(v.elems)
  }

  /** The (key, value) pairs a list of 2-tuples denotes. */
  function PairList(items: seq<Value>): seq<(Value, Value)>
    requires forall i :: 0 <= i < |items| ==> IsPair(items[i])
  {
    seq(|items|, i requires 0 <= i < |items| => (First(items[i]), Second(items[i])))
  }

  /** `dict(items)` for a list of 2-tuples: inserts the pairs in order and
      raises TypeError at the first unhashable key. */
  function DictFromPairs(items: seq<Value>): (r: Outcome<map<Value, Value>>)
    requires forall i :: 0 <= i < |items| ==> IsPair(items[i])
    ensures r.Ok? <==> forall i :: 0 <= i < |items| ==> Hashable(First(items[i]))
    ensures r.Raise? ==> r.exc == TypeError
    ensures r.Ok? ==> r.value == FromPairs(PairList(items))
    decreases |items|
  {
    if |items| == 0 then
      Ok(map[])
    else
      var init := items[..|items| - 1];
      var last := items[|items| - 1];
      assert PairList(items)[..|items| - 1] == PairList(init);
      match DictFromPairs(init)
      case Raise(e) => Raise(e)
      case Ok(m) =>
        if Hashable(First(last)) then Ok(m[First(last) := Second(last)])
        else Raise(TypeError)
  }

  /** The two `type(...) == dict` / `type(...) == list` branches of
      `__init__` (objectifier.py:87-95), also reached through
      `_objectify_if_needed`. */
  function AdoptContainer(v: Value): (r: Outcome<Value>)
    requires HasPop(v)
    ensures v.VMap? ==> r == Ok(v)
    ensures !IsListOfPairs(v) ==> r == Ok(v)
    ensures IsListOfPairs(v) ==>
              (r.Ok? <==> forall i :: 0 <= i < |v.elems| ==> Hashable(First(v.elems[i])))
    ensures IsListOfPairs(v) && r.Ok? ==>
              r.value.VMap? && r.value.entries.Keys == set i | 0 <= i < |v.elems| :: First(v.elems[i])
    ensures r.Raise? ==> r.exc == TypeError
  {
    if v.VMap? then
      Ok(v)
    else if IsListOfPairs(v) then
      var ps := PairList(v.elems);
      assert Firsts(ps) == set i | 0 <= i < |v.elems| :: First(v.elems[i]) by {
        assert forall i :: 0 <= i < |v.elems| ==> ps[i].0 == First(v.elems[i]);
      }
      match DictFromPairs(v.elems)
      case Ok(m) => Ok(VMap(m))
      case Raise(e) => Raise(e)
    else
      Ok(v)
  }

  /** The text parsers. `yaml` is `None` when the YAML library is not
      installed; `xml` is `ElementTree.fromstring`. */
  datatype Parsers = Parsers(
    json: string -> Option<Value>,
    yaml: Option<string -> Option<Value>>,
    xml: string -> Option<Etree.Elem>)

  /** `parse_as_json` */
  function ParseAsJson(p: Parsers, s: string): Option<Value> {
    p.json(s)
  }

  /** `parse_as_yaml`: no match at all without the YAML library. */
  function ParseAsYaml(p: Parsers, s: string): (r: Option<Value>)
    ensures p.yaml.None? ==> r.None?
  {
    match p.yaml
    case None => None
    case Some(load) => load(s)
  }

  /** `parse_as_xml`: the element tree, arrayified; a well-formed document
      always yields a dict keyed by its root tag. */
  function ParseAsXml(p: Parsers, s: string): (r: Option<Value>)
    ensures r.Some? <==> p.xml(s).Some?
    ensures r.Some? ==> r.value.VMap? && r.value.entries.Keys == {Etree.Key(p.xml(s).value)}
  {
    match p.xml(s)
    case None => None
    case Some(root) => Some(Etree.Arrayify(root))
  }

  /** `_try_parsing` succeeds: the parser neither raised nor gave `None`. */
  predicate Adopts(parsed: Option<Value>) {
    parsed.Some? && parsed.value != VNull
  }

  /** The parser results in the order `__init__` tries them. */
  function Attempts(p: Parsers, s: string): (a: seq<Option<Value>>)
    ensures |a| == 3
  {
    [ParseAsJson(p, s), ParseAsYaml(p, s), ParseAsXml(p, s)]
  }

  /** The detection chain of `__init__` (objectifier.py:96-101): the first
      attempt that adopts a value wins. */
  function Detect(p: Parsers, s: string): (r: Option<Value>)
    ensures r.Some? <==> exists i :: 0 <= i < 3 && Adopts(Attempts(p, s)[i])
    ensures r.Some? ==> exists i :: 0 <= i < 3 && Attempts(p, s)[i] == r
                                    && forall j :: 0 <= j < i ==> !Adopts(Attempts(p, s)[j])
    ensures r.Some? ==> r.value != VNull
  {
    var a := Attempts(p, s);
    if Adopts(a[0]) then a[0]
    else if Adopts(a[1]) then a[1]
    else if Adopts(a[2]) then a[2]
    else None
  }

  /** `Objectifier.__init__`: the `response_data` it stores, or the exception
      that escapes it. Non-text input that is neither a dict nor a list (a
      number, `None`, a tuple) makes every parser raise, so it is stored
      unchanged. */
  function Construct(raw: Value, p: Parsers): (r: Outcome<Value>)
    ensures raw.VMap? ==> r == Ok(raw)
    ensures raw.VList? && !IsListOfPairs(raw) ==> r == Ok(raw)
    ensures r.Raise? ==> IsListOfPairs(raw) && r.exc == TypeError
    ensures !HasPop(raw) ==> r.Ok?
    ensures raw.VStr? && Detect(p, raw.s).Some? ==> r == Ok(Detect(p, raw.s).value)
    ensures raw.VStr? && Detect(p, raw.s).None? ==> r == Ok(raw)
    ensures !HasPop(raw) && !raw.VStr? ==> r == Ok(raw)
  {
    match raw
    case VMap(_) => AdoptContainer(raw)
    case VList(_) => AdoptContainer(raw)
    case VStr(s) =>
      (match Detect(p, s)
       case Some(v) => Ok(v)
       case None => Ok(raw))
    case _ => Ok(raw)
  }

  /** A list of pairs with hashable keys is stored as the dict of those
      pairs: the key set is the set of first components and each key holds
      the second component of its last pair. */
  lemma ConstructPairsLastWins(raw: Value, p: Parsers, i: int)
    requires IsListOfPairs(raw)
    requires forall j :: 0 <= j < |raw.elems| ==> Hashable(First(raw.elems[j]))
    requires 0 <= i < |raw.elems|
    requires forall j :: i < j < |raw.elems| ==> First(raw.elems[j]) != First(raw.elems[i])
    ensures Construct(raw, p).Ok?
    ensures Construct(raw, p).value.VMap?
    ensures Construct(raw, p).value.entries[First(raw.elems[i])] == Second(raw.elems[i])
  {
    var ps := PairList(raw.elems);
    assert LastFor(ps, i) by {
      forall j | i < j < |ps| ensures ps[j].0 != ps[i].0 {
        assert ps[j].0 == First(raw.elems[j]);
      }
    }
    FromPairsLastWins(ps, i);
  }

  /** A list of pairs and the dict of those pairs construct the same view. */
  lemma PairsConstructLikeDict(items: seq<Value>, p: Parsers)
    requires forall i :: 0 <= i < |items| ==> IsPair(items[i]) && Hashable(First(items[i]))
    ensures Construct(VList(items), p) == Construct(VMap(FromPairs(PairList(items))), p)
  {
  }

  /** The empty list counts as a list of pairs and is stored as an empty dict. */
  lemma EmptyListBecomesEmptyDict(p: Parsers)
    ensures Construct(VList([]), p) == Ok(VMap(map[]))
  {
  }

  /** When no parser adopts a value the raw text is kept: construction from
      text never raises. */
  lemma TextFallsBackToRaw(s: string, p: Parsers)
    requires forall i :: 0 <= i < 3 ==> !Adopts(Attempts(p, s)[i])
    ensures Construct(VStr(s), p) == Ok(VStr(s))
  {
  }

  /** Parsed JSON wins over YAML and XML, whatever they would give. */
  lemma JsonFirst(s: string, p: Parsers)
    requires p.json(s).Some? && p.json(s).value != VNull
    ensures Construct(VStr(s), p) == Ok(p.json(s).value)
  {
  }

  /** An attempt that gives `null` is not adopted: whichever of the three
      attempts it is, detection moves on exactly as if that parser had
      failed, so two installations that differ only there store the same
      value. */
  lemma NullFallsThrough(s: string, p: Parsers, q: Parsers, i: int)
    requires 0 <= i < 3
    requires Attempts(p, s)[i] == Some(VNull) && Attempts(q, s)[i] == None
    requires forall j :: 0 <= j < 3 && j != i ==> Attempts(p, s)[j] == Attempts(q, s)[j]
    ensures Construct(VStr(s), p) == Construct(VStr(s), q)
  {
  }

  /** With JSON failing and no YAML library, well-formed XML is adopted as
      its arrayified root. */
  lemma XmlWhenNoYaml(s: string, p: Parsers, root: Etree.Elem)
    requires !Adopts(p.json(s)) && p.yaml.None? && p.xml(s) == Some(root)
    ensures Construct(VStr(s), p) == Ok(Etree.Arrayify(root))
  {
  }

  /** JSON text denoting an object constructs the same view as the object. */
  lemma JsonObjectTextLikeObject(s: string, p: Parsers, m: map<Value, Value>)
    requires p.json(s) == Some(VMap(m))
    ensures Construct(VStr(s), p) == Construct(VMap(m), p)
  {
  }

  /** JSON text denoting an empty array does not construct the same view as
      the empty list: the text keeps the list, the list becomes a dict. */
  lemma JsonEmptyArrayUnlikeEmptyList(s: string, p: Parsers)
    requires p.json(s) == Some(VList([]))
    ensures Construct(VStr(s), p) == Ok(VList([]))
    ensures Construct(VList([]), p) == Ok(VMap(map[]))
  {
  }
}
