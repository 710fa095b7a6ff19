# objectifier, modelled in Dafny

`Objectifier` wraps a response payload of unknown shape — a dict, a list, or
text that may be JSON, YAML or XML — in one object offering item, attribute,
containment, length and iteration access. This project models its core as
pure functions over an immutable value datatype and proves what the code
promises:

- `values.dfy` (module `Values`): the Python 2 values involved (`None`,
  integers, strings, tuples, lists, dicts), the exceptions the wrapper raises
  or catches, hashability, `hasattr(v, 'pop')`, Python index normalisation
  and the string `in` test.
- `pairs.dfy` (module `Pairs`): building a dict from ordered key/value pairs,
  a later pair overwriting an earlier one; shared by `dict(list_of_pairs)` and
  the `d.update(...)` loop of the XML conversion.
- `etree.dfy` (module `Etree`): `etree_list_items_all_have_same_tag` and
  `arrayify_etree`, the XML element tree to nested dict/list conversion, with
  its three branches (leaf, homogeneous list, merge).
- `construction.dfy` (module `Construction`): `Objectifier.__init__` —
  adoption of dicts and lists (a list of 2-tuples becomes a dict),
  `is_list_of_2_element_tuples`, the `parse_as_*` wrappers and the ordered
  JSON → YAML → XML → raw detection chain of `_try_parsing`.
- `view.dfy` (module `DynamicView`): `_objectify_if_needed`, `__iter__`,
  `__getitem__`, `__getattr__`, `__contains__`, `__len__` and `__dir__`,
  over the stored `response_data`.
- `scenarios.dfy` (module `Scenarios`): concrete documents and payloads and
  what the model gives for them.

The code is Python 2 (`iteritems`, `getchildren`) and the model follows
Python 2: `list` and `dict` both have `pop`, so `_objectify_if_needed` wraps
nested dicts as well as nested lists, and `raise StopIteration` inside a
generator simply ends it.

The three text parsers (`json.loads`, `yaml.load`,
`ElementTree.fromstring`) are parameters of type `string -> Option<...>`
(`Construction.Parsers`); `None` stands for both "raised" and "returned
`None`", which the bare `except:` of `_try_parsing` does not distinguish. A
missing YAML library is `yaml == None`. Input that is neither a dict, a list
nor a string (a number, `None`, a tuple) is stored unchanged, because all
three library parsers raise on non-text input and the bare `except:` catches
it.

Python equality on the values modelled is structural, which is Dafny's
datatype equality; it is what `in` on lists and tuples and dict lookup use.

Behaviour of the code worth knowing:

- `_objectify_if_needed` re-wraps nested dicts too, not only lists, although
  its comment (objectifier/objectifier.py:117) speaks of lists only:
  `hasattr(dict, 'pop')` holds in Python 2.
- Construction can raise: `dict(pairs)` raises TypeError for a list of
  2-tuples with an unhashable first component (`UnhashablePairKeyRaises`).
- The empty list is a "list of pairs", so it is stored as an empty dict, and
  wrapping a nested empty list gives a view over `{}`. JSON text `[]` is
  therefore not the same as constructing from `[]` directly
  (`JsonEmptyArrayUnlikeEmptyList`); for a JSON object it is
  (`JsonObjectTextLikeObject`).
- `__getitem__` also turns a TypeError raised while wrapping the looked-up
  value into `None`; `__getattr__` lets it propagate
  (`GetAttrMatchesGetItem`).
- A lookup result of `None` does not tell an absent name from a stored
  `None` (JSON `null`, an empty XML leaf): `view.k` and `view["k"]` give
  `None` for both. The model keeps the two apart: `ReturnsNone` is the
  sentinel of an absent name or a caught TypeError, and `Returns(Bare(VNull))`
  is a stored `None`. Both are the same Python `None` to the caller
  (`StoredNoneLooksAbsent`).
- Iterating a list stops silently at an item whose wrapping raises
  TypeError (caught, then `StopIteration`); iterating a dict propagates the
  same error (`IterationFailureAsymmetry`).

## Model

| member | source | states |
|---|---|---|
| Etree.SameTagScan | objectifier/objectifier.py:22-30 | the scan with a previous tag returns true exactly when every tag equals that previous tag; with none yet, exactly when every tag equals the first |
| Etree.AllSameTag | objectifier/objectifier.py:21-30 | true exactly when all elements carry the same tag; true for zero or one element |
| Etree.Arrayify | objectifier/objectifier.py:33-47 | the result is always a dict with exactly one key, the element's own tag |
| Etree.ListItems | objectifier/objectifier.py:39 | the list has one entry per child, in document order, entry i being the i-th child's arrayified value under its own tag |
| Etree.ArrayifyIsEntry | objectifier/objectifier.py:33-47 | the arrayified element equals `{tag: value}` for its unwrapped value |
| Etree.Merge | objectifier/objectifier.py:42-45 | the dict built by updating with each child's single-entry dict in turn has exactly the children's tags as keys |
| Etree.MergeIsFromPairs | objectifier/objectifier.py:42-47 | merging the children's single-entry dicts with `update` equals inserting their (tag, value) pairs in order, later ones overwriting |
| Etree.ArrayifyLeaf | objectifier/objectifier.py:36-37 | a childless element maps its tag to its text: a string, or `None` exactly when the element has no text |
| Etree.ArrayifyHomogeneous | objectifier/objectifier.py:38-40 | with more than one child all sharing a tag, the value is `{childTag: L}` with L a list as long as the children, entry i being child i's value |
| Etree.ArrayifyMerged | objectifier/objectifier.py:41-47 | with one child or mixed tags, the inner dict's keys are exactly the child tags and each key holds the value of the last child with that tag |
| Etree.MergeBranch | objectifier/objectifier.py:38-47 | one child, or a child whose tag differs from the first, sends the element down the merge branch |
| Etree.MergeKeysAndValues | objectifier/objectifier.py:42-47 | the merged dict's keys are exactly the children's tags, and each tag holds the value of the last child carrying it |
| Etree.ArrayifySingleChild | objectifier/objectifier.py:38-47 | a single child is never list-wrapped: the value is `{childTag: childValue}` |
| Pairs.FromPairs | objectifier/objectifier.py:92 | the dict built from pairs has exactly the pairs' first components as keys |
| Pairs.FromPairsLastWins | objectifier/objectifier.py:92 | a key holds the second component of the last pair that mentions it |
| Pairs.LastOccurrence | objectifier/objectifier.py:92 | every key of the pairs has a last pair mentioning it |
| Construction.AllPairs | objectifier/objectifier.py:57-61 | the scan succeeds exactly when every item is a 2-tuple |
| Construction.IsListOfPairs | objectifier/objectifier.py:53-61 | true exactly for a list (not a tuple or scalar) all of whose items are 2-tuples, so the empty list qualifies |
| Construction.DictFromPairs | objectifier/objectifier.py:92 | `dict(items)` succeeds exactly when every key is hashable, then equals the pairs inserted in order; otherwise it raises TypeError |
| Construction.AdoptContainer | objectifier/objectifier.py:87-95 | a dict is kept; a list that is not all pairs is kept; a list of pairs becomes a dict keyed by the first components, or raises TypeError exactly when one is unhashable |
| Construction.ParseAsYaml | objectifier/objectifier.py:70-76 | without the YAML library YAML never matches |
| Construction.ParseAsXml | objectifier/objectifier.py:78-82 | XML matches exactly when the document parses, and then gives a one-entry dict keyed by the root tag |
| Construction.Attempts | objectifier/objectifier.py:96-101 | the JSON, YAML and XML results, in the order `__init__` tries them; `Detect` reads the order from here |
| Construction.Detect | objectifier/objectifier.py:96-109 | detection succeeds exactly when some attempt yields a non-`None` value, and then gives the first such attempt's value, never `None` |
| Construction.Construct | objectifier/objectifier.py:85-109 | dicts and non-pair lists are stored unchanged; text never raises and is stored as the detected value, or unchanged when detection fails; other scalars are stored unchanged; only a list of pairs can raise, with TypeError |
| Construction.ConstructPairsLastWins | objectifier/objectifier.py:90-92 | a list of pairs with hashable keys is stored as a dict in which each key holds the value of its last pair |
| Construction.PairsConstructLikeDict | objectifier/objectifier.py:87-92 | a list of hashable-keyed pairs and the dict of those pairs are stored alike |
| Construction.EmptyListBecomesEmptyDict | objectifier/objectifier.py:90-92 | the empty list is stored as the empty dict |
| Construction.TextFallsBackToRaw | objectifier/objectifier.py:96-102 | when no attempt matches, the raw text is stored and nothing is raised |
| Construction.JsonFirst | objectifier/objectifier.py:96-97 | a non-`None` JSON parse wins regardless of YAML and XML |
| Construction.NullFallsThrough | objectifier/objectifier.py:104-109 | at any of the three attempts, a parser giving `None` is treated exactly like one that failed: the stored value is the same |
| Construction.XmlWhenNoYaml | objectifier/objectifier.py:96-101 | with JSON failing and no YAML library, a well-formed XML document is stored as its arrayified root |
| Construction.JsonObjectTextLikeObject | objectifier/objectifier.py:87-97 | JSON text denoting an object is stored like the object itself |
| Construction.JsonEmptyArrayUnlikeEmptyList | objectifier/objectifier.py:87-97 | JSON text `[]` is stored as an empty list while the empty list itself is stored as an empty dict |
| Values.SubstringOf | objectifier/objectifier.py:137-138 | `needle in hay` on strings holds exactly when needle occurs in hay at some position |
| Values.Position | objectifier/objectifier.py:159 | a valid Python index denotes a position inside the sequence, counting from the end exactly when it is negative |
| DynamicView.Wrap | objectifier/objectifier.py:113-119 | scalars come back bare; dicts come back as a view over themselves; a non-pair list as a view over itself; only a list of pairs can fail, with TypeError |
| DynamicView.WrapIsConstruction | objectifier/objectifier.py:117-118 | wrapping a list or dict is constructing a new view from it, whatever parsers are installed |
| DynamicView.WrapEmptyList | objectifier/objectifier.py:117-118 | a nested empty list is wrapped as a view over the empty dict |
| DynamicView.IterEntries | objectifier/objectifier.py:147-149 | yields `(key, wrapped value)` for the keys in order, stopping only at the first value whose wrapping raises, with that exception |
| DynamicView.IterMembers | objectifier/objectifier.py:151-155 | yields each item wrapped, in order, stopping silently exactly at the first item whose wrapping raises |
| DynamicView.IterCharsMatchesIndexing | objectifier/objectifier.py:151-159 | iterating a string yields one item per character, the i-th being what `data[i]` returns; a negative index denotes the same character counted from the end |
| DynamicView.IterMembersMatchesIndexing | objectifier/objectifier.py:151-159 | every item a list or tuple iteration yields is what `data[i]` returns at that index |
| DynamicView.Iterate | objectifier/objectifier.py:143-155 | `None` and numbers yield nothing; strings yield characters; only dict iteration can raise, and only TypeError |
| DynamicView.KeyOrderLength | objectifier/objectifier.py:148 | a key order lists as many keys as the dict has |
| DynamicView.KeyOrder | objectifier/objectifier.py:148 | every dict has an iteration order listing each key exactly once |
| DynamicView.IterateDictLength | objectifier/objectifier.py:147-149 | iterating a dict whose values all wrap raises nothing and yields exactly `len(dict)` items |
| DynamicView.IterateDict | objectifier/objectifier.py:147-149 | iterating a dict whose values all wrap yields each key exactly once, paired with its wrapped value |
| DynamicView.IterateSequence | objectifier/objectifier.py:151-153 | iterating a list or tuple yields each element wrapped, in order, without raising |
| DynamicView.IterationFailureAsymmetry | objectifier/objectifier.py:147-155 | a value that cannot be wrapped silently ends a list's iteration but makes a dict's iteration raise TypeError |
| DynamicView.GetItem | objectifier/objectifier.py:157-161 | never raises TypeError; raises KeyError exactly for a hashable key missing from a dict; IndexError exactly for an integer index out of range; returns the `None` sentinel (`ReturnsNone`) exactly when evaluating the wrapped lookup raises TypeError (unindexable data, a wrong key type, an unhashable key, or a found value that cannot be wrapped); otherwise the wrapped value stored under the key, the wrapped item at the position an integer denotes, or the one-character string at that position |
| DynamicView.GetAttr | objectifier/objectifier.py:163-166 | on a dict returns the `None` sentinel (`ReturnsNone`) exactly when the name is absent, otherwise the wrapped stored value (which may itself be `None`); never returns a value for non-dict data; raises only TypeError |
| DynamicView.Contains | objectifier/objectifier.py:137-138 | dict membership for hashable keys, element equality for lists and tuples, substring for strings; raises TypeError exactly for unhashable dict keys, non-string operands on strings, and numbers or `None` |
| DynamicView.Len | objectifier/objectifier.py:140-141 | the length of lists, tuples and strings; raises TypeError exactly for numbers and `None` |
| DynamicView.Dir | objectifier/objectifier.py:121-125 | a dict's keys, which are exactly the hashable values `in` accepts, each found by item lookup without KeyError; nothing for any other data |
| DynamicView.IndexSeq | objectifier/objectifier.py:157-161 | list or tuple lookup returns the wrapped item at the position an in-range integer denotes; IndexError exactly for an integer out of range; `None` exactly for a non-integer key or an item that cannot be wrapped; never TypeError |
| DynamicView.MissingKeyAsymmetry | objectifier/objectifier.py:157-166 | on one dict and one absent name, item lookup raises KeyError while attribute lookup returns `None` |
| DynamicView.GetAttrFollowsContains | objectifier/objectifier.py:163-166 | attribute lookup returns the `None` sentinel (`ReturnsNone`) exactly when `name in data` is false, and raises TypeError whenever that test raises |
| DynamicView.GetAttrMatchesGetItem | objectifier/objectifier.py:157-166 | for a present name attribute and item lookup agree, except that a wrapping TypeError propagates from attribute lookup and becomes `None` in item lookup |
| DynamicView.DirMatchesLookup | objectifier/objectifier.py:121-125 | a hashable key is listed exactly when it is contained, and exactly when item lookup does not raise KeyError |
| DynamicView.LenMatchesDir | objectifier/objectifier.py:140-141 | a dict's length is the number of listed keys |
| DynamicView.StoredNoneLooksAbsent | objectifier/objectifier.py:157-166 | attribute lookup hands back Python `None` exactly when the name is absent or stores `None`, and item lookup returns a stored `None` as it is, so the caller cannot tell the two apart |
| DynamicView.LenMatchesIteration | objectifier/objectifier.py:140-155 | when nothing fails to wrap, iteration yields exactly `len(data)` items |
| DynamicView.GetItemIndex | objectifier/objectifier.py:157-159 | an in-range index of a list or tuple returns the wrapped element at the position it denotes, negative indices counting from the end, whatever the other elements are |
| Scenarios.HomogeneousChildren | objectifier/objectifier.py:38-40 | `<a><b>1</b><b>2</b></a>` gives `{"a": {"b": ["1", "2"]}}` |
| Scenarios.HeterogeneousChildren | objectifier/objectifier.py:41-47 | `<a><b>1</b><c>2</c></a>` gives `{"a": {"b": "1", "c": "2"}}` |
| Scenarios.SingleChildNotListed | objectifier/objectifier.py:41-47 | `<a><b><c>1</c></b></a>` gives `{"a": {"b": {"c": "1"}}}` |
| Scenarios.LaterChildOverwrites | objectifier/objectifier.py:44-45 | `<a><b>1</b><c>2</c><b>3</b></a>` gives `{"a": {"b": "3", "c": "2"}}` |
| Scenarios.PairsAdoptedAsDict | objectifier/objectifier.py:90-92 | `[("x", 1), ("y", 2)]` is stored as `{"x": 1, "y": 2}` |
| Scenarios.UnhashablePairKeyRaises | objectifier/objectifier.py:90-92 | a pair whose key is a list makes construction raise TypeError |
| Scenarios.UnparseableTextKept | objectifier/objectifier.py:96-102 | text no parser accepts is stored unchanged |
| Scenarios.IntegerIteratesEmpty | objectifier/objectifier.py:150-155 | iterating a view over an integer yields nothing and raises nothing |

## Left out

- Text parsing itself (`json.loads`, `yaml.load`, `ElementTree.fromstring`): foreign library calls, modelled as the parser parameters described above.
- The import shims and `ParseError` aliasing (objectifier/objectifier.py:3-19): environment plumbing; the YAML library's presence is the `yaml` parameter.
- `__repr__` (objectifier/objectifier.py:127-135): cosmetic formatting of runtime type names.
- Etree.Arrayify: total, with no recursion limit; the next line says what this leaves out.
- Construction.ParseAsXml: matches for a well-formed document at any depth; in Python 2 `arrayify_etree` exceeds the recursion limit on documents nested about 1000 levels deep and raises RuntimeError, which `parse_as_xml` does not catch (see the next line).
- Construction.XmlWhenNoYaml: `arrayify_etree` recurses once per level of nesting, so in Python 2 a document nested deeper than the interpreter's recursion limit (about 1000 levels) raises RuntimeError, which the bare `except:` of `_try_parsing` catches, and the raw text is stored; `Etree.Arrayify` is total and the model stores the arrayified root at any depth.
- Python attribute dispatch: `__getattr__` is only reached for names that are not real attributes of the object (`response_data`, the methods); `GetAttr` models the call itself.
- Booleans, floats and the `str`/`unicode` split: `True` indexing like `1` and `1 == 1.0 == True` as dict keys are not modelled; there is one string type.
- Slices as `__getitem__` keys, dict and list subclasses (which fail `type(x) == dict` and go to detection), and iterables other than strings, tuples, lists and dicts.
- Laziness of the `__iter__` generator: an iteration is the whole sequence it produces when driven to the end, plus the exception that ends it.
- Dict iteration order: a parameter (`order`, any listing of the keys); `KeyOrder` shows one exists for every dict.
- Dict keys are not checked for hashability inside `Value`: a dict with an unhashable key cannot exist in Python, and no model operation builds one.
- The JSON wrapper `parse_as_json` is a plain call of the JSON parameter and carries no contract of its own.
