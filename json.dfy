/**
 * Decoded JSON as PHP sees it after `json_decode($s, true)`: objects are ordered
 * key/value lists (PHP arrays with string keys). Floating-point numbers are not modelled.
 */
module JsonValues {
  import opened Wrappers

  datatype Json =
    | JNull
    | JBool(b: bool)
    | JNumber(n: int)
    | JString(s: string)
    | JArray(items: seq<Json>)
    | JObject(fields: seq<(string, Json)>)

  type Fields = seq<(string, Json)>

  /** PHP `is_array` on a decoded value: both JSON arrays and JSON objects decode to arrays. */
  predicate IsArray(j: Json) { j.JArray? || j.JObject? }

  predicate HasKey(fields: Fields, key: string)
  {
    exists i :: 0 <= i < |fields| && fields[i].0 == key
  }

  function Keys(fields: Fields): set<string>
  {
    set i | 0 <= i < |fields| :: fields[i].0
  }

  /** `$fields[$key] ?? null`: the value under the first occurrence of `key`. */
  function Lookup(fields: Fields, key: string): (r: Option<Json>)
    ensures r.Some? <==> HasKey(fields, key)
    ensures r.Some? ==> (key, r.value) in fields
  {
    if fields == [] then None
    else if fields[0].0 == key then Some(fields[0].1)
    else
      var r := Lookup(fields[1..], key);
      assert HasKey(fields[1..], key) ==> HasKey(fields, key) by {
        if HasKey(fields[1..], key) {
          var i :| 0 <= i < |fields[1..]| && fields[1..][i].0 == key;
          assert fields[i + 1].0 == key;
        }
      }
      assert HasKey(fields, key) ==> HasKey(fields[1..], key) by {
        if HasKey(fields, key) {
          var i :| 0 <= i < |fields| && fields[i].0 == key;
          assert i > 0 && fields[1..][i - 1].0 == key;
        }
      }
      r
  }

  /** A copy of `fields` with every entry under one of `keys` removed (`unset` on a copy, or the keys PHP `+` drops). */
  function WithoutKeys(fields: Fields, keys: set<string>): (r: Fields)
    ensures forall k :: Lookup(r, k) == if k in keys then None else Lookup(fields, k)
    ensures forall i :: 0 <= i < |r| ==> r[i] in fields && r[i].0 !in keys
    ensures |r| <= |fields|
  {
    if fields == [] then []
    else
      var rest := WithoutKeys(fields[1..], keys);
      if fields[0].0 in keys then rest else [fields[0]] + rest
  }

  /** Removing keys keeps the remaining entries in their order: it distributes over concatenation. */
  lemma {:induction false} WithoutKeysAppend(a: Fields, b: Fields, keys: set<string>)
    ensures WithoutKeys(a + b, keys) == WithoutKeys(a, keys) + WithoutKeys(b, keys)
  {
    if a != [] {
      var ab := a + b;
      assert ab[0] == a[0] && ab[1..] == a[1..] + b;
      WithoutKeysAppend(a[1..], b, keys);
      var head := if a[0].0 in keys then [] else [a[0]];
      assert WithoutKeys(ab, keys) == head + WithoutKeys(a[1..] + b, keys);
      assert WithoutKeys(a, keys) == head + WithoutKeys(a[1..], keys);
    } else {
      assert a + b == b;
    }
  }

  /** Looking up in a concatenation finds the left part's entry first. */
  lemma {:induction false} LookupAppend(head: Fields, tail: Fields, key: string)
    ensures Lookup(head + tail, key) == if HasKey(head, key) then Lookup(head, key) else Lookup(tail, key)
  {
    if head != [] {
      assert (head + tail)[1..] == head[1..] + tail;
      LookupAppend(head[1..], tail, key);
    } else {
      assert head + tail == tail;
    }
  }
}
