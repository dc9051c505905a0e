/**
 * The users collection and each user's prompt presets. A stored document is a
 * map from field name to value; a payload built in code is an object (a list of
 * entries), cleaned of `undefined` and `NaN` before it is written. `setDoc` with
 * `merge` and `updateDoc` overwrite the top-level fields they are given.
 */
module UserApi {
  import opened Wrappers
  import opened Json
  import JsString
  import Seqs
  import FirestoreClean

  type Doc = map<string, Json>

  /**
   * The document an object is stored as. An object's entries have distinct keys;
   * were a key repeated, its first entry would win, as `Lookup` reads it.
   */
  function AsDoc(fields: seq<(string, Json)>): (d: Doc)
    ensures forall k :: k in d <==> k in Keys(fields)
    ensures forall k | k in d :: Lookup(fields, k) == Some(d[k])
  {
    if fields == [] then map[]
    else
      assert Keys(fields) == [fields[0].0] + Keys(fields[1..]);
      AsDoc(fields[1..])[fields[0].0 := fields[0].1]
  }

  function Field(data: seq<(string, Json)>, k: string): Option<Json>
  {
    Lookup(data, k)
  }

  /** The base record written for a user who has no document yet. */
  function BaseRecord(uid: string, data: seq<(string, Json)>, now: int): seq<(string, Json)>
  {
    [ ("uid", Str(uid)),
      ("email", Coalesce(Field(data, "email"), Str(""))),
      ("displayName", Coalesce(Field(data, "displayName"), Str(""))),
      ("photoURL", Coalesce(Field(data, "photoURL"), Null)),
      ("plan", Coalesce(Field(data, "plan"), Str("free"))),
      ("createdAt", Num(now)),
      ("updatedAt", Num(now)) ]
  }

  /** `cleanForFirestore({ ...patch, updatedAt: now })`, as stored. */
  function Stamped(patch: seq<(string, Json)>, now: int): Doc
  {
    AsDoc(FirestoreClean.CleanFields(Put(patch, "updatedAt", Num(now))))
  }

  /**
   * A stamped patch has `updatedAt = now`, overriding any `updatedAt` it
   * carried; every other key is present exactly when the patch gives it a value
   * other than `undefined` or `NaN`, and then holds that value cleaned.
   */
  lemma StampedFields(patch: seq<(string, Json)>, now: int, k: string)
    requires DistinctKeys(patch)
    ensures var d := Stamped(patch, now);
      && "updatedAt" in d && d["updatedAt"] == Num(now)
      && (k != "updatedAt" ==>
           && (k in d <==> FirestoreClean.CleanedValue(Lookup(patch, k)).Some?)
           && (k in d ==> d[k] == FirestoreClean.CleanedValue(Lookup(patch, k)).value))
  {
    var put := Put(patch, "updatedAt", Num(now));
    FirestoreClean.CleanLookup(put, "updatedAt");
    FirestoreClean.CleanLookup(put, k);
  }

  function ExistingOrEmpty(docs: map<string, Doc>, id: string): Doc
  {
    if id in docs then docs[id] else map[]
  }

  /* ---------- OpenRouter key ---------- */

  /** The key `setOpenRouterKey` stores: trimmed, or `null` when blank or not a string. */
  function NormalizeKey(key: Option<string>): (r: Option<string>)
    ensures r.Some? <==> key.Some? && !JsString.AllWhitespace(key.value)
    ensures r.Some? ==> r.value == JsString.Trim(key.value) && r.value != []
  {
    if key.Some? && JsString.Trim(key.value) != [] then Some(JsString.Trim(key.value)) else None
  }

  function KeyJson(k: Option<string>): Json
  {
    if k.Some? then Str(k.value) else Null
  }

  /** `getOpenRouterKey` given the user's document, `None` when there is none. */
  function ReadKey(doc: Option<Doc>): (r: Option<string>)
    ensures r.Some? <==>
      doc.Some? && "openrouterKey" in doc.value && doc.value["openrouterKey"].Str?
      && !JsString.AllWhitespace(doc.value["openrouterKey"].s)
    ensures r.Some? ==> r.value == doc.value["openrouterKey"].s
  {
    if doc.None? || "openrouterKey" !in doc.value then None
    else
      var key := doc.value["openrouterKey"];
      if key.Str? && JsString.Trim(key.s) != [] then Some(key.s) else None
  }

  /** Reading the key back returns what setting it stored: the trimmed key, or nothing. */
  lemma KeyRoundTrip(doc: Doc, key: Option<string>, stamp: Json)
    ensures ReadKey(Some(doc + map["openrouterKey" := KeyJson(NormalizeKey(key)), "openrouterKeyUpdatedAt" := stamp]))
         == NormalizeKey(key)
  {
    if NormalizeKey(key).Some? {
      JsString.TrimIdempotent(key.value);
    }
  }

  /* ---------- presets ---------- */

  /** A preset as listed: `{ id: d.id, ...d.data() }` (a stored `id` field would win). */
  datatype PresetRow = PresetRow(id: string, data: Doc)

  function RowDoc(r: PresetRow): Doc
  {
    map["id" := Str(r.id)] + r.data
  }

  /** The listing order: numeric `updatedAt`, newest first; any other value orders as 0. */
  /** `{ id: d.id, ...d.data() }`: the document id, unless the stored fields carry an `id` of their own. */
  lemma RowDocId(r: PresetRow)
    ensures "id" in RowDoc(r)
    ensures RowDoc(r)["id"] == if "id" in r.data then r.data["id"] else Str(r.id)
    ensures forall k | k in r.data :: k in RowDoc(r) && RowDoc(r)[k] == r.data[k]
  {
  }

  function PresetKey(r: PresetRow): int
  {
    if "updatedAt" in r.data && r.data["updatedAt"].Num? then r.data["updatedAt"].n else 0
  }

  /** `if (category)`: the category filter applies only to a non-empty category. */
  predicate InCategory(d: Doc, category: Option<string>)
  {
    category.None? || category.value == [] || ("category" in d && d["category"] == Str(category.value))
  }

  class UserStore {
    var users: map<string, Doc>
    /** The presets of each user, keyed by (uid, preset id). */
    var presets: map<(string, string), Doc>

    constructor (u: map<string, Doc>, p: map<(string, string), Doc>)
      ensures users == u && presets == p
    {
      users := u;
      presets := p;
    }

    /** `getUserDoc(uid)`: `null` without a document; otherwise the data with `uid`, which a stored `uid` overrides. */
    method GetUserDoc(uid: string) returns (r: Option<Doc>)
      ensures r.None? <==> uid !in users
      ensures r.Some? ==> "uid" in r.value
      ensures r.Some? && "uid" !in users[uid] ==> r.value["uid"] == Str(uid)
      ensures r.Some? ==> forall k | k in users[uid] :: k in r.value && r.value[k] == users[uid][k]
      ensures r.Some? ==> forall k | k in r.value :: k == "uid" || k in users[uid]
    {
      if uid !in users {
        return None;
      }
      return Some(map["uid" := Str(uid)] + users[uid]);
    }

    /**
     * `upsertUserProfile(uid, data)`: a new user gets the cleaned base record
     * only; an existing user gets the cleaned data stamped with `updatedAt`.
     */
    method UpsertUserProfile(uid: string, data: seq<(string, Json)>, now: int)
      modifies this`users
      ensures uid !in old(users) ==> users == old(users)[uid := AsDoc(FirestoreClean.CleanFields(BaseRecord(uid, data, now)))]
      ensures uid in old(users) ==> users == old(users)[uid := old(users)[uid] + Stamped(data, now)]
    {
      var safe := Stamped(data, now);
      if uid !in users {
        var base := BaseRecord(uid, data, now);
        users := users[uid := AsDoc(FirestoreClean.CleanFields(base))];
        return;
      }
      users := users[uid := users[uid] + safe];
    }

    /** `setOpenRouterKey(uid, key)`; `stamp` stands for the server timestamp. */
    method SetOpenRouterKey(uid: string, key: Option<string>, stamp: Json)
      modifies this`users
      ensures users == old(users)[uid := ExistingOrEmpty(old(users), uid)
        + map["openrouterKey" := KeyJson(NormalizeKey(key)), "openrouterKeyUpdatedAt" := stamp]]
    {
      var value := NormalizeKey(key);
      users := users[uid := ExistingOrEmpty(users, uid) + map["openrouterKey" := KeyJson(value), "openrouterKeyUpdatedAt" := stamp]];
    }

    /** `getOpenRouterKey(uid)`. */
    method GetOpenRouterKey(uid: string) returns (r: Option<string>)
      ensures r == ReadKey(if uid in users then Some(users[uid]) else None)
      ensures r.Some? ==> uid in users && r.value != [] && !JsString.AllWhitespace(r.value)
    {
      if uid !in users {
        return None;
      }
      var data := users[uid];
      var key := if "openrouterKey" in data then data["openrouterKey"] else Null;
      if key.Str? && JsString.Trim(key.s) != [] {
        return Some(key.s);
      }
      return None;
    }

    /** `setUserTheme(uid, theme)`. */
    method SetUserTheme(uid: string, theme: string)
      modifies this`users
      ensures users == old(users)[uid := ExistingOrEmpty(old(users), uid)["theme" := Str(theme)]]
    {
      users := users[uid := ExistingOrEmpty(users, uid)["theme" := Str(theme)]];
    }

    /**
     * `listPresets(uid, category)`: the user's presets (of that category when a
     * non-empty one is given), ordered by `updatedAt`, newest first.
     */
    method ListPresets(uid: string, category: Option<string>) returns (rows: seq<PresetRow>)
      ensures forall r :: r in rows <==> (uid, r.id) in presets && r.data == presets[(uid, r.id)] && InCategory(r.data, category)
      ensures Seqs.NoDuplicates(rows)
      ensures Seqs.SortedDesc(rows, PresetKey)
    {
      // The store answers the query in its own order: any enumeration will do before ordering.
      var remaining := set key | key in presets && key.0 == uid && InCategory(presets[key], category) :: key.1;
      rows := [];
      while remaining != {}
        invariant forall r :: r in rows ==> (uid, r.id) in presets && r.data == presets[(uid, r.id)] && InCategory(r.data, category) && r.id !in remaining
        invariant forall id :: (uid, id) in presets && InCategory(presets[(uid, id)], category) ==> id in remaining || PresetRow(id, presets[(uid, id)]) in rows
        invariant forall id | id in remaining :: (uid, id) in presets && InCategory(presets[(uid, id)], category)
        invariant forall i, j :: 0 <= i < j < |rows| ==> rows[i].id != rows[j].id
        decreases |remaining|
      {
        var id :| id in remaining;
        rows := rows + [PresetRow(id, presets[(uid, id)])];
        remaining := remaining - {id};
      }
      var unsorted := rows;
      rows := Seqs.SortDesc(rows, PresetKey);
      Seqs.SortDescSorted(unsorted, PresetKey);
      Seqs.PermutationNoDuplicates(unsorted, rows);
      forall r ensures r in rows <==> r in unsorted {
        assert r in rows <==> r in multiset(rows);
        assert r in unsorted <==> r in multiset(unsorted);
      }
    }

    /** `createPreset(uid, preset)`: the payload stamped with `createdAt = updatedAt = now`, cleaned, under a new id. */
    method CreatePreset(uid: string, preset: seq<(string, Json)>, now: int, newId: string) returns (id: string)
      modifies this`presets
      ensures id == newId
      ensures presets == old(presets)[(uid, newId) := Stamped(Put(preset, "createdAt", Num(now)), now)]
    {
      var payload := Put(Put(preset, "createdAt", Num(now)), "updatedAt", Num(now));
      presets := presets[(uid, newId) := AsDoc(FirestoreClean.CleanFields(payload))];
      id := newId;
    }

    /** `updatePreset(uid, id, patch)`: an update of a missing preset fails and changes nothing. */
    method UpdatePreset(uid: string, id: string, patch: seq<(string, Json)>, now: int) returns (ok: bool)
      modifies this`presets
      ensures ok <==> (uid, id) in old(presets)
      ensures ok ==> presets == old(presets)[(uid, id) := old(presets)[(uid, id)] + Stamped(patch, now)]
      ensures !ok ==> presets == old(presets)
    {
      if (uid, id) !in presets {
        return false;
      }
      presets := presets[(uid, id) := presets[(uid, id)] + Stamped(patch, now)];
      return true;
    }
  }

  lemma BaseRecordShape(uid: string, data: seq<(string, Json)>, now: int)
    ensures Keys(BaseRecord(uid, data, now)) == ["uid", "email", "displayName", "photoURL", "plan", "createdAt", "updatedAt"]
    ensures DistinctKeys(BaseRecord(uid, data, now))
  {
    var base := BaseRecord(uid, data, now);
    var ks := Keys(base);
    assert ks == ["uid", "email", "displayName", "photoURL", "plan", "createdAt", "updatedAt"];
    forall i, j | 0 <= i < j < |base| ensures base[i].0 != base[j].0 {
      assert base[i].0 == ks[i] && base[j].0 == ks[j];
      assert |ks[i]| != |ks[j]| || ks[i][0] != ks[j][0];
    }
  }

  /** A new user's record holds no field but the base fields. */
  lemma NewUserFields(uid: string, data: seq<(string, Json)>, now: int, k: string)
    ensures k in AsDoc(FirestoreClean.CleanFields(BaseRecord(uid, data, now))) ==>
      k in {"uid", "email", "displayName", "photoURL", "plan", "createdAt", "updatedAt"}
  {
    BaseRecordShape(uid, data, now);
    FirestoreClean.CleanFieldsKeys(BaseRecord(uid, data, now), k);
  }

  /** A new user's record has the given uid and `createdAt = updatedAt = now`. */
  lemma NewUserStamps(uid: string, data: seq<(string, Json)>, now: int)
    ensures var d := AsDoc(FirestoreClean.CleanFields(BaseRecord(uid, data, now)));
      && "uid" in d && d["uid"] == Str(uid)
      && "createdAt" in d && d["createdAt"] == Num(now)
      && "updatedAt" in d && d["updatedAt"] == Num(now)
  {
    var base := BaseRecord(uid, data, now);
    BaseRecordShape(uid, data, now);
    LookupAt(base, 0);
    LookupAt(base, 5);
    LookupAt(base, 6);
    FirestoreClean.CleanLookup(base, "uid");
    FirestoreClean.CleanLookup(base, "createdAt");
    FirestoreClean.CleanLookup(base, "updatedAt");
  }

  /**
   * Field `k` of the stored base record `d` under `data[k] ?? dflt`: the default when
   * the data leaves `k` out or gives `undefined` or `null`; nothing when it gives
   * `NaN`; otherwise the supplied value, cleaned.
   */
  ghost predicate Defaulted(d: Doc, data: seq<(string, Json)>, k: string, dflt: Json)
  {
    var v := Field(data, k);
    && (v.None? || v.value.Undef? || v.value.Null? ==> k in d && d[k] == dflt)
    && (v.Some? && v.value.NaN? ==> k !in d)
    && (v.Some? && !v.value.Undef? && !v.value.Null? && !v.value.NaN? ==>
          k in d && d[k] == FirestoreClean.Clean(v.value))
  }

  /** A new user's record takes the defaults for whatever the data does not supply, and keeps what it does. */
  lemma NewUserDefaults(uid: string, data: seq<(string, Json)>, now: int)
    ensures var d := AsDoc(FirestoreClean.CleanFields(BaseRecord(uid, data, now)));
      && Defaulted(d, data, "email", Str(""))
      && Defaulted(d, data, "displayName", Str(""))
      && Defaulted(d, data, "photoURL", Null)
      && Defaulted(d, data, "plan", Str("free"))
  {
    var base := BaseRecord(uid, data, now);
    BaseRecordShape(uid, data, now);
    LookupAt(base, 1);
    LookupAt(base, 2);
    LookupAt(base, 3);
    LookupAt(base, 4);
    FirestoreClean.CleanLookup(base, "email");
    FirestoreClean.CleanLookup(base, "displayName");
    FirestoreClean.CleanLookup(base, "photoURL");
    FirestoreClean.CleanLookup(base, "plan");
  }

  /**
   * An existing user's profile after an upsert: `updatedAt = now` whatever the
   * data says; a field the data sets (to anything but `undefined` or `NaN`) takes
   * the cleaned value; every other field keeps its stored value.
   */
  lemma ExistingUserMerge(existing: Doc, data: seq<(string, Json)>, now: int, k: string)
    requires DistinctKeys(data)
    ensures var merged := existing + Stamped(data, now);
      && "updatedAt" in merged && merged["updatedAt"] == Num(now)
      && (k != "updatedAt" && FirestoreClean.CleanedValue(Lookup(data, k)).Some? ==>
           k in merged && merged[k] == FirestoreClean.CleanedValue(Lookup(data, k)).value)
      && (k != "updatedAt" && FirestoreClean.CleanedValue(Lookup(data, k)).None? ==>
           (k in merged <==> k in existing) && (k in existing ==> merged[k] == existing[k]))
  {
    StampedFields(data, now, k);
  }

  /** A created preset has `createdAt = updatedAt = now`, whatever the payload carried. */
  lemma CreatedPresetTimestamps(preset: seq<(string, Json)>, now: int)
    requires DistinctKeys(preset)
    ensures var d := Stamped(Put(preset, "createdAt", Num(now)), now);
      "createdAt" in d && d["createdAt"] == Num(now) && "updatedAt" in d && d["updatedAt"] == Num(now)
  {
    var p := Put(preset, "createdAt", Num(now));
    StampedFields(p, now, "createdAt");
  }
}
