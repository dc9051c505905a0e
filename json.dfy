/**
 * JavaScript values as they reach the document store and the tag parser:
 * `undefined`, `NaN`, (integer) numbers, strings, booleans, `null`, arrays and
 * plain objects. An object is its `Object.entries` list in insertion order; JavaScript
 * lists integer-like keys first, which no field name of the core is.
 */
module Json {
  import opened Wrappers
  import JsString

  datatype Json =
    | Undef
    | NaN
    | Num(n: int)
    | Str(s: string)
    | Bool(b: bool)
    | Null
    | Arr(items: seq<Json>)
    | Obj(fields: seq<(string, Json)>)

  /** `v !== null && typeof v === "object"`. */
  predicate IsObject(j: Json)
  {
    j.Arr? || j.Obj?
  }

  /** `String(v)`. */
  function ToStr(j: Json): (s: string)
    ensures j.Str? ==> s == j.s
  {
    match j
    case Undef => "undefined"
    case NaN => "NaN"
    case Num(n) => JsString.IntToString(n)
    case Str(s) => s
    case Bool(b) => if b then "true" else "false"
    case Null => "null"
    case Arr(items) => JoinItems(items)
    case Obj(_) => "[object Object]"
  }

  // `items.join(",")`, where `null` and `undefined` elements render as "".
  function JoinItems(items: seq<Json>): string
  {
    if items == [] then ""
    else
      var first := if items[0].Undef? || items[0].Null? then "" else ToStr(items[0]);
      if |items| == 1 then first else first + "," + JoinItems(items[1..])
  }

  /** `v ?? d` for a property read `v` (`None` when absent): only `undefined` and `null` are replaced. */
  function Coalesce(v: Option<Json>, d: Json): (r: Json)
    ensures v.None? || v.value.Undef? || v.value.Null? ==> r == d
    ensures v.Some? && !v.value.Undef? && !v.value.Null? ==> r == v.value
  {
    if v.None? || v.value.Undef? || v.value.Null? then d else v.value
  }

  function Keys(fields: seq<(string, Json)>): seq<string>
  {
    seq(|fields|, i requires 0 <= i < |fields| => fields[i].0)
  }

  /** A JavaScript object never holds the same key twice. */
  ghost predicate DistinctKeys(fields: seq<(string, Json)>)
  {
    forall i, j :: 0 <= i < j < |fields| ==> fields[i].0 != fields[j].0
  }

  /** `obj[k]`, `None` for a key the object does not have. */
  function Lookup(fields: seq<(string, Json)>, k: string): (v: Option<Json>)
    ensures v.None? <==> k !in Keys(fields)
  {
    if fields == [] then None
    else if fields[0].0 == k then
      assert Keys(fields)[0] == k;
      Some(fields[0].1)
    else
      assert Keys(fields) == [fields[0].0] + Keys(fields[1..]);
      Lookup(fields[1..], k)
  }

  /** In an object with distinct keys, the entry at position `i` is what its key reads. */
  lemma {:induction false} LookupAt(fields: seq<(string, Json)>, i: nat)
    requires DistinctKeys(fields) && i < |fields|
    ensures Lookup(fields, fields[i].0) == Some(fields[i].1)
  {
    if i > 0 {
      assert DistinctKeys(fields[1..]) by {
        forall a, b | 0 <= a < b < |fields[1..]| ensures fields[1..][a].0 != fields[1..][b].0 {
          assert fields[1..][a] == fields[a + 1] && fields[1..][b] == fields[b + 1];
        }
      }
      LookupAt(fields[1..], i - 1);
      assert fields[1..][i - 1] == fields[i];
    }
  }

  /**
   * `{ ...obj, [k]: v }`: an existing key keeps its position and takes the new
   * value; a new key goes at the end.
   */
  function Put(fields: seq<(string, Json)>, k: string, v: Json): (r: seq<(string, Json)>)
    ensures Lookup(r, k) == Some(v)
    ensures forall k' :: k' != k ==> Lookup(r, k') == Lookup(fields, k')
    ensures forall k' :: k' in Keys(r) <==> k' in Keys(fields) || k' == k
    ensures DistinctKeys(fields) ==> DistinctKeys(r)
  {
    if fields == [] then [(k, v)]
    else if fields[0].0 == k then
      assert Keys(fields) == [k] + Keys(fields[1..]);
      assert Keys([(k, v)] + fields[1..]) == [k] + Keys(fields[1..]);
      [(k, v)] + fields[1..]
    else
      var rest := Put(fields[1..], k, v);
      assert Keys(fields) == [fields[0].0] + Keys(fields[1..]);
      assert Keys([fields[0]] + rest) == [fields[0].0] + Keys(rest);
      assert DistinctKeys(fields) ==> fields[0].0 !in Keys(fields[1..]) by {
        if DistinctKeys(fields) {
          forall i | 0 <= i < |fields[1..]| ensures Keys(fields[1..])[i] != fields[0].0 {
            assert fields[1..][i] == fields[i + 1];
          }
        }
      }
      assert DistinctKeys(fields) ==> DistinctKeys([fields[0]] + rest) by {
        if DistinctKeys(fields) {
          forall j | 0 <= j < |rest| ensures rest[j].0 != fields[0].0 {
            assert Keys(rest)[j] == rest[j].0;
          }
        }
      }
      [fields[0]] + rest
  }
}
