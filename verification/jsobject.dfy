/**
 * The order in which a JavaScript `for (key in object)` loop visits the own
 * keys of a plain object: keys that are array indices come first, in
 * ascending numeric order, then every other key in insertion order.
 */
module JsObject {
  import JsNumber

  /** 2^32 - 1: array indices are the canonical integer strings below it. */
  const INDEX_LIMIT: nat := 4294967295

  /** A key that is an array index: a canonical decimal string (no leading zero) below 2^32 - 1. */
  predicate IsIndexKey(k: string)
  {
    |k| > 0 && JsNumber.AllDigits(k) && (k[0] != '0' || |k| == 1) && JsNumber.DigitsValue(k) < INDEX_LIMIT
  }

  /** The numeric value of an index key (0 for any other key). */
  function IndexValue(k: string): nat
  {
    if IsIndexKey(k) then JsNumber.DigitsValue(k) else 0
  }

  /** The index keys of `keys`, in their original order. */
  function IndexKeys(keys: seq<string>): (r: seq<string>)
    ensures forall i :: 0 <= i < |r| ==> IsIndexKey(r[i])
  {
    if |keys| == 0 then []
    else if IsIndexKey(keys[0]) then [keys[0]] + IndexKeys(keys[1..])
    else IndexKeys(keys[1..])
  }

  /** The other keys of `keys`, in their original order. */
  function NamedKeys(keys: seq<string>): (r: seq<string>)
    ensures forall i :: 0 <= i < |r| ==> !IsIndexKey(r[i])
  {
    if |keys| == 0 then []
    else if IsIndexKey(keys[0]) then NamedKeys(keys[1..])
    else [keys[0]] + NamedKeys(keys[1..])
  }

  /** Splitting into index keys and other keys loses and invents nothing. */
  lemma {:induction false} SplitKeepsKeys(keys: seq<string>)
    ensures multiset(IndexKeys(keys)) + multiset(NamedKeys(keys)) == multiset(keys)
  {
    if |keys| > 0 {
      SplitKeepsKeys(keys[1..]);
      assert keys == [keys[0]] + keys[1..];
    }
  }

  predicate Ascending(s: seq<string>)
  {
    forall i, j :: 0 <= i < j < |s| ==> IndexValue(s[i]) <= IndexValue(s[j])
  }

  /** Inserts a key into a list ascending by index value. */
  function Insert(k: string, s: seq<string>): (r: seq<string>)
    requires Ascending(s)
    ensures Ascending(r)
    ensures multiset(r) == multiset(s) + multiset{k}
    ensures |r| > 0 && (r[0] == k || (|s| > 0 && r[0] == s[0]))
  {
    if |s| == 0 then [k]
    else if IndexValue(k) <= IndexValue(s[0]) then [k] + s
    else
      var rest := Insert(k, s[1..]);
      assert s == [s[0]] + s[1..];
      assert IndexValue(s[0]) <= IndexValue(rest[0]);
      [s[0]] + rest
  }

  /** Keys sorted by index value (insertion sort, stable). */
  function SortIndexKeys(s: seq<string>): (r: seq<string>)
    ensures Ascending(r)
    ensures multiset(r) == multiset(s)
  {
    if |s| == 0 then []
    else
      assert s == [s[0]] + s[1..];
      Insert(s[0], SortIndexKeys(s[1..]))
  }

  /**
   * The visiting order of `for…in` over an object whose keys were created
   * in the order `keys`: the same keys, the index keys first and ascending,
   * then the remaining keys in creation order.
   */
  function ForInOrder(keys: seq<string>): (r: seq<string>)
    ensures multiset(r) == multiset(keys)
    ensures |IndexKeys(keys)| <= |r|
    ensures forall i :: 0 <= i < |IndexKeys(keys)| ==> IsIndexKey(r[i])
    ensures Ascending(r[..|IndexKeys(keys)|])
    ensures r[|IndexKeys(keys)|..] == NamedKeys(keys)
  {
    SplitKeepsKeys(keys);
    var idx := SortIndexKeys(IndexKeys(keys));
    var r := idx + NamedKeys(keys);
    assert r[..|idx|] == idx && r[|idx|..] == NamedKeys(keys);
    forall i | 0 <= i < |idx|
      ensures IsIndexKey(r[i])
    {
      assert idx[i] in multiset(IndexKeys(keys));
    }
    r
  }

  /** A key list made only of names keeps its creation order. */
  lemma {:induction false} NamedKeysKeepOrder(keys: seq<string>)
    requires forall i :: 0 <= i < |keys| ==> !IsIndexKey(keys[i])
    ensures ForInOrder(keys) == keys
  {
    NamedOnly(keys);
  }

  lemma {:induction false} NamedOnly(keys: seq<string>)
    requires forall i :: 0 <= i < |keys| ==> !IsIndexKey(keys[i])
    ensures IndexKeys(keys) == [] && NamedKeys(keys) == keys
  {
    if |keys| > 0 {
      NamedOnly(keys[1..]);
      assert keys == [keys[0]] + keys[1..];
    }
  }
}
