/**
 The Python 2 values the objectifier stores and hands out: the results of
 JSON/YAML parsing, of XML arrayification, and of direct construction.

 Only the value kinds the wrapper treats differently are kept apart:
 `None`, integers, strings, tuples, lists and dicts. Python equality on these
 is structural, which is Dafny's datatype equality; a dict's key order plays no
 part in equality, which is Dafny's map equality.
 */
module Values {

  datatype Option<+T> = None | Some(value: T)

  /** A Python 2 value. Dict keys are values themselves (`dict(pairs)` accepts
      any hashable key); the XML and JSON paths only ever use string keys. */
  datatype Value =
    | VNull
    | VNum(n: int)
    | VStr(s: string)
    | VTuple(elems: seq<Value>)
    | VList(elems: seq<Value>)
    | VMap(entries: map<Value, Value>)

  /** The exceptions the wrapper can raise or catch. */
  datatype Exc = TypeError | KeyError | IndexError

  /** An operation that either returns a value or raises. */
  datatype Outcome<+T> = Ok(value: T) | Raise(exc: Exc)

  /** `hash(v)` succeeds: lists and dicts are unhashable, and so is a tuple
      holding one. */
  predicate Hashable(v: Value) {
    match v
    case VList(_) => false
    case VMap(_) => false
    case VTuple(xs) => forall i :: 0 <= i < |xs| ==> Hashable(xs[i])
    case _ => true
  }

  /** `hasattr(v, 'pop')`: in Python 2 both `list` and `dict` have `pop`;
      strings, tuples, numbers and `None` do not. */
  predicate HasPop(v: Value) {
    v.VList? || v.VMap?
  }

  /** A tuple of exactly two items; a list of two items does not qualify. */
  predicate IsPair(v: Value) {
    v.VTuple? && |v.elems| == 2
  }

  /** The first component of a 2-tuple. */
  function First(v: Value): Value
    requires IsPair(v)
  {
    v.elems[0]
  }

  /** The second component of a 2-tuple. */
  function Second(v: Value): Value
    requires IsPair(v)
  {
    v.elems[1]
  }

  /** `s[i]` on a sequence of length `n` is defined for `-n <= i < n`;
      anything else raises IndexError. */
  predicate InRange(i: int, n: nat) {
    -(n as int) <= i < n
  }

  /** The position a Python index denotes: negative indices count from the end. */
  function Position(i: int, n: nat): (p: nat)
    requires InRange(i, n)
    ensures p < n
    ensures p == i || p == n + i
    ensures i < 0 <==> p != i
  {
    if i < 0 then n + i else i
  }

  /** `needle in hay` on strings: true exactly when `needle` occurs in `hay`
      at some position (the empty string occurs everywhere). */
  function SubstringOf(needle: string, hay: string): (b: bool)
    ensures b <==> exists i :: 0 <= i <= |hay| && needle <= hay[i..]
    decreases |hay|
  {
    if needle <= hay then
      assert hay[0..] == hay;
      true
    else if |hay| == 0 then
      false
    else
      var rest := SubstringOf(needle, hay[1..]);
      SubstringShift(needle, hay);
      rest
  }

  /** Searching `hay` past a non-matching first position is searching its tail. */
  lemma SubstringShift(needle: string, hay: string)
    requires |hay| > 0 && !(needle <= hay)
    ensures (exists i :: 0 <= i <= |hay| && needle <= hay[i..])
        <==> (exists i :: 0 <= i <= |hay[1..]| && needle <= hay[1..][i..])
  {
    if exists i :: 0 <= i <= |hay| && needle <= hay[i..] {
      var i :| 0 <= i <= |hay| && needle <= hay[i..];
      assert i > 0;
      assert hay[1..][i-1..] == hay[i..];
    }
    if exists i :: 0 <= i <= |hay[1..]| && needle <= hay[1..][i..] {
      var i :| 0 <= i <= |hay[1..]| && needle <= hay[1..][i..];
      assert hay[i+1..] == hay[1..][i..];
    }
  }
}
