/**
 * The pre-write sanitizer: the document store rejects `undefined` and `NaN`
 * field values, so every payload is cleaned of them, at every depth, before it
 * is written.
 */
module FirestoreClean {
  import opened Wrappers
  import opened Json
  import Seqs

  /** The values the store refuses. */
  predicate Rejected(j: Json)
  {
    j.Undef? || j.NaN?
  }

  predicate Kept(j: Json)
  {
    !Rejected(j)
  }

  /** Neither `j` nor anything inside it is `undefined` or `NaN`. */
  predicate Storable(j: Json)
  {
    match j
    case Undef => false
    case NaN => false
    case Arr(items) => StorableItems(items)
    case Obj(fields) => StorableFields(fields)
    case _ => true
  }

  predicate StorableItems(items: seq<Json>)
  {
    forall i :: 0 <= i < |items| ==> Storable(items[i])
  }

  predicate StorableFields(fields: seq<(string, Json)>)
  {
    forall i :: 0 <= i < |fields| ==> StorableField(fields, i)
  }

  predicate StorableField(fields: seq<(string, Json)>, i: nat)
    requires i < |fields|
    decreases fields, 0
  {
    assert fields[i] in fields;
    assert fields[i].1 < fields[i];
    Storable(fields[i].1)
  }

  /**
   * `cleanForFirestore(v)`. Anything that is not an array or an object (including
   * `null` and a top-level `NaN`) comes back unchanged; an array or object comes
   * back of the same kind with no `undefined` or `NaN` left anywhere inside it.
   */
  function Clean(j: Json): (r: Json)
    ensures !IsObject(j) ==> r == j
    ensures IsObject(j) ==> Storable(r) && r.Arr? == j.Arr? && r.Obj? == j.Obj?
  {
    match j
    case Arr(items) => Arr(CleanItems(items))
    case Obj(fields) => Obj(CleanFields(fields))
    case _ => j
  }

  // The array branch: every element cleaned, `undefined` and `NaN` results dropped.
  function CleanItems(items: seq<Json>): (r: seq<Json>)
    ensures StorableItems(r)
    ensures |r| <= |items|
  {
    if items == [] then []
    else
      var v := Clean(items[0]);
      var rest := CleanItems(items[1..]);
      var r := (if v.Undef? || v.NaN? then [] else [v]) + rest;
      assert forall i :: 0 <= i < |rest| ==> r[|r| - |rest| + i] == rest[i];
      r
  }

  // The object branch: the `for (const [k, v] of Object.entries(obj))` loop.
  function CleanFields(fields: seq<(string, Json)>): (r: seq<(string, Json)>)
    ensures StorableFields(r)
    ensures |r| <= |fields|
  {
    if fields == [] then []
    else
      assert fields[0] in fields;
      assert fields[0].1 < fields[0];
      var (k, v) := fields[0];
      var entry :=
        if v.Undef? then []
        else if v.NaN? then []
        else if IsObject(v) then [(k, Clean(v))]
        else [(k, v)];
      var rest := CleanFields(fields[1..]);
      var r := entry + rest;
      forall i | 0 <= i < |r| ensures StorableField(r, i) {
        if i < |entry| {
          assert r[i] == entry[0];
        } else {
          assert r[i] == rest[i - |entry|];
          assert StorableField(rest, i - |entry|);
        }
      }
      r
  }

  function CleanEntry(f: (string, Json)): (string, Json)
  {
    (f.0, Clean(f.1))
  }

  lemma CleanFieldsCons(fields: seq<(string, Json)>)
    requires fields != []
    ensures CleanFields(fields) == (if Rejected(fields[0].1) then [] else [CleanEntry(fields[0])]) + CleanFields(fields[1..])
  {
  }

  function KeptEntry(f: (string, Json)): bool
  {
    Kept(f.1)
  }

  /** The array branch is `arr.map(cleanForFirestore).filter(v => v is neither undefined nor NaN)`. */
  lemma {:induction false} CleanArrayIsMapFilter(items: seq<Json>)
    ensures Clean(Arr(items)) == Arr(Seqs.Filter(Seqs.Map(items, Clean), Kept))
  {
    if items != [] {
      CleanArrayIsMapFilter(items[1..]);
      assert Seqs.Map(items, Clean) == [Clean(items[0])] + Seqs.Map(items[1..], Clean);
    }
  }

  /**
   * The object branch keeps exactly the entries whose value is neither `undefined`
   * nor `NaN`, in their original order, each value cleaned.
   */
  lemma {:induction false} CleanObjectIsFilterMap(fields: seq<(string, Json)>)
    ensures Clean(Obj(fields)) == Obj(Seqs.Map(Seqs.Filter(fields, KeptEntry), CleanEntry))
  {
    if fields != [] {
      CleanObjectIsFilterMap(fields[1..]);
      var f0 := fields[0];
      var rest := Seqs.Filter(fields[1..], KeptEntry);
      Seqs.FilterCons(fields, KeptEntry);
      CleanFieldsCons(fields);
      if KeptEntry(f0) {
        Seqs.MapCons(f0, rest, CleanEntry);
      }
    }
  }

  lemma {:induction false} CleanFieldsKeys(fields: seq<(string, Json)>, k: string)
    ensures k in Keys(CleanFields(fields)) ==> k in Keys(fields)
  {
    if fields != [] {
      assert Keys(fields) == [fields[0].0] + Keys(fields[1..]);
      var rest := CleanFields(fields[1..]);
      assert Keys(CleanFields(fields)) == (if Rejected(fields[0].1) then [] else [fields[0].0]) + Keys(rest);
      CleanFieldsKeys(fields[1..], k);
    }
  }

  function CleanedValue(v: Option<Json>): Option<Json>
  {
    if v.None? || Rejected(v.value) then None else Some(Clean(v.value))
  }

  /**
   * Reading a key of the cleaned object: a key whose value was `undefined` or
   * `NaN` is gone; every other key, including one holding `null`, keeps its
   * value, cleaned.
   */
  lemma {:induction false} CleanLookup(fields: seq<(string, Json)>, k: string)
    requires DistinctKeys(fields)
    ensures Lookup(CleanFields(fields), k) == CleanedValue(Lookup(fields, k))
  {
    if fields != [] {
      assert DistinctKeys(fields[1..]) by {
        forall i, j | 0 <= i < j < |fields[1..]| ensures fields[1..][i].0 != fields[1..][j].0 {
          assert fields[1..][i] == fields[i + 1] && fields[1..][j] == fields[j + 1];
        }
      }
      CleanLookup(fields[1..], k);
      CleanFieldsCons(fields);
      if fields[0].0 == k {
        assert Lookup(fields, k) == Some(fields[0].1);
        assert k !in Keys(fields[1..]) by {
          forall i | 0 <= i < |fields[1..]| ensures Keys(fields[1..])[i] != k {
            assert fields[1..][i] == fields[i + 1];
          }
        }
        CleanFieldsKeys(fields[1..], k);
        assert Lookup(CleanFields(fields[1..]), k) == None;
        if !Rejected(fields[0].1) {
          var cf := CleanFields(fields);
          assert cf[0] == (k, Clean(fields[0].1));
          assert Lookup(cf, k) == Some(Clean(fields[0].1));
        } else {
          assert CleanFields(fields) == CleanFields(fields[1..]);
        }
      } else {
        assert Lookup(fields, k) == Lookup(fields[1..], k);
        if !Rejected(fields[0].1) {
          var cf := CleanFields(fields);
          assert cf[0].0 != k;
          assert cf[1..] == CleanFields(fields[1..]);
          assert Lookup(cf, k) == Lookup(cf[1..], k);
        } else {
          assert CleanFields(fields) == CleanFields(fields[1..]);
        }
      }
    }
  }

  /** A value already free of `undefined` and `NaN` is left as it is. */
  lemma {:induction false} CleanOfStorable(j: Json)
    requires Storable(j)
    ensures Clean(j) == j
  {
    match j
    case Arr(items) => CleanItemsOfStorable(items);
    case Obj(fields) => CleanFieldsOfStorable(fields);
    case _ =>
  }

  lemma {:induction false} CleanItemsOfStorable(items: seq<Json>)
    requires StorableItems(items)
    ensures CleanItems(items) == items
  {
    if items != [] {
      CleanOfStorable(items[0]);
      CleanItemsOfStorable(items[1..]);
    }
  }

  lemma {:induction false} CleanFieldsOfStorable(fields: seq<(string, Json)>)
    requires StorableFields(fields)
    ensures CleanFields(fields) == fields
  {
    if fields != [] {
      assert fields[0] in fields;
      assert fields[0].1 < fields[0];
      assert StorableField(fields, 0);
      CleanOfStorable(fields[0].1);
      assert StorableFields(fields[1..]) by {
        forall i | 0 <= i < |fields[1..]| ensures StorableField(fields[1..], i) {
          assert StorableField(fields, i + 1);
          assert fields[1..][i] == fields[i + 1];
        }
      }
      CleanFieldsOfStorable(fields[1..]);
    }
  }

  /** Cleaning twice is cleaning once. */
  lemma CleanIdempotent(j: Json)
    ensures Clean(Clean(j)) == Clean(j)
  {
    if IsObject(j) {
      CleanOfStorable(Clean(j));
    }
  }

  /** `{ name: "A", client: undefined, tags: [1, NaN, "x"] }` becomes `{ name: "A", tags: [1, "x"] }`. */
  lemma CleanExample()
    ensures Clean(Obj([("name", Str("A")), ("client", Undef), ("tags", Arr([Num(1), NaN, Str("x")]))]))
         == Obj([("name", Str("A")), ("tags", Arr([Num(1), Str("x")]))])
  {
    var tags := [Num(1), NaN, Str("x")];
    assert CleanItems(tags) == [Num(1), Str("x")] by {
      assert tags[1..] == [NaN, Str("x")];
      assert tags[1..][1..] == [Str("x")];
    }
    var fields := [("name", Str("A")), ("client", Undef), ("tags", Arr(tags))];
    var last := [("tags", Arr(tags))];
    assert fields[1..] == [("client", Undef)] + last;
    assert fields[1..][1..] == last && last[1..] == [];
    assert CleanFields(last) == [("tags", Arr([Num(1), Str("x")]))];
    assert CleanFields(fields[1..]) == CleanFields(last);
    assert CleanFields(fields) == [("name", Str("A"))] + CleanFields(fields[1..]);
  }
}
