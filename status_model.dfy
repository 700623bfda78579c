/** The status store of src/model.ts: status records kept in a key-value
    namespace, each under the key "v1:status:" + id.

    The namespace is a value (`Namespace`): a map from keys to stored values and
    the sequence of its keys in the model's listing order (a new key joins the
    end; the backend's lexicographic order is not modelled). JSON
    serialisation is the identity: a stored value is either the empty string
    (`Blank`, which `model.ts` treats as absent) or a `Status` itself. */
module StatusModel {

  datatype Option<+T> = None | Some(value: T)

  /** A status record. */
  datatype Status = Status(id: string, title: string, body: string, date: string)

  /** The part of a request body the store reads; a field missing from the
      body reads as "" (both are falsy in the TypeScript code). */
  datatype Param = Param(title: string, body: string)

  /** A value held by the namespace: the empty string, or the JSON text of a status. */
  datatype Value = Blank | Json(status: Status)

  const PREFIX: string := "v1:status:"

  /** True of the keys of the status namespace. */
  predicate HasPrefix(key: string) {
    PREFIX <= key
  }

  /** The key a status with identifier `id` is stored under. */
  function GenerateID(id: string): (key: string)
    ensures HasPrefix(key)
    ensures |key| == |PREFIX| + |id| && key[|PREFIX|..] == id
  {
    PREFIX + id
  }

  /** Every key of the status namespace is the key of exactly one identifier. */
  lemma GenerateIDRoundTrip(key: string, id: string)
    requires HasPrefix(key)
    ensures GenerateID(key[|PREFIX|..]) == key
    ensures GenerateID(id) == key <==> id == key[|PREFIX|..]
  {
    assert key == key[..|PREFIX|] + key[|PREFIX|..];
  }

  ghost predicate Distinct(ks: seq<string>) {
    forall i, j :: 0 <= i < j < |ks| ==> ks[i] != ks[j]
  }

  /** The keys of `ks` in the status namespace, in the order of `ks`. */
  function Prefixed(ks: seq<string>): (r: seq<string>)
    ensures forall k :: k in r <==> k in ks && HasPrefix(k)
    ensures Distinct(ks) ==> Distinct(r)
  {
    if ks == [] then []
    else
      var k := ks[|ks| - 1];
      Prefixed(ks[..|ks| - 1]) + if HasPrefix(k) then [k] else []
  }

  /** `ks` without `key`, in the order of `ks`. */
  function Without(ks: seq<string>, key: string): (r: seq<string>)
    ensures forall k :: k in r <==> k in ks && k != key
    ensures Distinct(ks) ==> Distinct(r)
  {
    if ks == [] then []
    else
      var init, k := ks[..|ks| - 1], ks[|ks| - 1];
      assert Distinct(ks) ==> Distinct(init) && k !in init;
      Without(init, key) + if k == key then [] else [k]
  }

  lemma WithoutSnoc(ks: seq<string>, k: string, key: string)
    ensures Without(ks + [k], key) == Without(ks, key) + if k == key then [] else [k]
  {
    assert (ks + [k])[..|ks + [k]| - 1] == ks;
  }

  lemma {:induction false} WithoutAbsent(ks: seq<string>, key: string)
    requires key !in ks
    ensures Without(ks, key) == ks
  {
    if ks != [] {
      WithoutAbsent(ks[..|ks| - 1], key);
    }
  }

  lemma {:induction false} PrefixedWithout(ks: seq<string>, key: string)
    ensures Prefixed(Without(ks, key)) == Without(Prefixed(ks), key)
  {
    if ks != [] {
      var init, k := ks[..|ks| - 1], ks[|ks| - 1];
      assert ks == init + [k];
      PrefixedWithout(init, key);
      WithoutSnoc(init, k, key);
      PrefixedSnoc(init, k);
      var tail := if HasPrefix(k) then [k] else [];
      if k == key {
        assert Without(ks, key) == Without(init, key);
        if HasPrefix(k) {
          WithoutSnoc(Prefixed(init), k, key);
        } else {
          assert Prefixed(ks) == Prefixed(init);
        }
        assert Without(Prefixed(ks), key) == Without(Prefixed(init), key);
      } else {
        PrefixedSnoc(Without(init, key), k);
        assert Prefixed(Without(ks, key)) == Without(Prefixed(init), key) + tail;
        if HasPrefix(k) {
          WithoutSnoc(Prefixed(init), k, key);
        } else {
          assert Prefixed(ks) == Prefixed(init);
        }
        assert Without(Prefixed(ks), key) == Without(Prefixed(init), key) + tail;
      }
    }
  }

  lemma PrefixedSnoc(ks: seq<string>, k: string)
    ensures Prefixed(ks + [k]) == Prefixed(ks) + if HasPrefix(k) then [k] else []
  {
    assert (ks + [k])[..|ks + [k]| - 1] == ks;
  }

  /** The key-value namespace the store runs against. */
  datatype Namespace = Namespace(entries: map<string, Value>, keys: seq<string>)
  {
    /** The key list names every stored key exactly once. */
    ghost predicate WellFormed() {
      && Distinct(keys)
      && (forall k :: k in keys <==> k in entries)
    }

    /** `KV.get(key)` followed by the `if (value)` test of `model.ts` and `JSON.parse`. */
    function Get(key: string): Option<Status> {
      if key in entries && entries[key].Json? then Some(entries[key].status) else None
    }

    /** `KV.list({ prefix: PREFIX })`: the keys of the status namespace, in the model's listing order. */
    function List(): seq<string> {
      Prefixed(keys)
    }

    /** `KV.put(key, v)`: a new key joins the end of the key list. */
    function Put(key: string, v: Value): (r: Namespace)
      ensures r.entries == entries[key := v]
      ensures WellFormed() ==> r.WellFormed()
    {
      if key in entries then Namespace(entries[key := v], keys)
      else
        assert WellFormed() ==> key !in keys;
        Namespace(entries[key := v], keys + [key])
    }

    /** `KV.delete(key)`. */
    function Delete(key: string): (r: Namespace)
      ensures r.entries == entries - {key}
      ensures WellFormed() ==> r.WellFormed()
    {
      Namespace(entries - {key}, Without(keys, key))
    }
  }

  /** The statuses `getStatuses` pushes while it walks `ks`: the record under each
      key in turn, skipping keys whose value is absent or empty. */
  function Collect(kv: Namespace, ks: seq<string>): (r: seq<Status>)
    ensures |r| <= |ks|
  {
    if ks == [] then [] else Collect(kv, ks[..|ks| - 1]) + Fetched(kv, ks[|ks| - 1])
  }

  /** What one step of `getStatuses` pushes for `key`. */
  function Fetched(kv: Namespace, key: string): seq<Status> {
    match kv.Get(key)
    case Some(s) => [s]
    case None => []
  }

  /** What `getStatuses` returns. */
  function Listing(kv: Namespace): seq<Status> {
    Collect(kv, kv.List())
  }

  /** What `getStatus(id)` returns: nothing exactly when no non-empty value is
      stored under the key of `id`, and otherwise that record. */
  function Find(kv: Namespace, id: string): (r: Option<Status>)
    ensures r.None? <==> GenerateID(id) !in kv.entries || kv.entries[GenerateID(id)] == Blank
    ensures r.Some? ==> kv.entries[GenerateID(id)] == Json(r.value)
  {
    kv.Get(GenerateID(id))
  }

  /** The validation `param && param.title && param.body`. */
  predicate IsValid(param: Option<Param>) {
    param.Some? && param.value.title != "" && param.value.body != ""
  }

  /** The result of a store operation together with the namespace it leaves. */
  datatype Effect<T> = Effect(result: T, kv: Namespace)

  /** `createStatus` with `uuid` for `crypto.randomUUID()` and `now` for the ISO
      timestamp: on a valid body, the new record is stored under the key of `uuid`
      and returned; every other key and every other identifier is untouched. */
  function Create(kv: Namespace, param: Option<Param>, uuid: string, now: string): (e: Effect<Option<Status>>)
    ensures e.result.Some? <==> IsValid(param)
    ensures e.result.None? ==> e.kv == kv
    ensures e.result.Some? ==> e.result.value == Status(uuid, param.value.title, param.value.body, now)
    ensures e.result.Some? ==> Find(e.kv, uuid) == e.result
    ensures e.kv.entries - {GenerateID(uuid)} == kv.entries - {GenerateID(uuid)}
    ensures forall other :: other != uuid ==> Find(e.kv, other) == Find(kv, other)
    ensures kv.WellFormed() ==> e.kv.WellFormed()
  {
    if !IsValid(param) then Effect(None, kv)
    else
      var status := Status(uuid, param.value.title, param.value.body, now);
      Effect(Some(status), kv.Put(GenerateID(uuid), Json(status)))
  }

  /** `updateStatus`: fails, changing nothing, on an invalid body or an unknown
      identifier; otherwise replaces title and body of the stored record, keeping
      its `id` and `date`, and touches no other key. */
  function Update(kv: Namespace, id: string, param: Option<Param>): (e: Effect<bool>)
    ensures e.result <==> IsValid(param) && Find(kv, id).Some?
    ensures !e.result ==> e.kv == kv
    ensures e.result ==>
      Find(e.kv, id) == Some(Find(kv, id).value.(title := param.value.title, body := param.value.body))
    ensures e.kv.entries - {GenerateID(id)} == kv.entries - {GenerateID(id)}
    ensures e.kv.keys == kv.keys
    ensures forall other :: other != id ==> Find(e.kv, other) == Find(kv, other)
    ensures kv.WellFormed() ==> e.kv.WellFormed()
  {
    if !IsValid(param) then Effect(false, kv)
    else
      match Find(kv, id)
      case None => Effect(false, kv)
      case Some(status) =>
        var edited := status.(title := param.value.title, body := param.value.body);
        Effect(true, kv.Put(GenerateID(id), Json(edited)))
  }

  /** `deleteStatus`: fails, changing nothing, on an unknown identifier; otherwise
      removes exactly the key of `id`. Either way nothing is found under `id` after. */
  function Delete(kv: Namespace, id: string): (e: Effect<bool>)
    ensures e.result <==> Find(kv, id).Some?
    ensures !e.result ==> e.kv == kv
    ensures e.result ==> e.kv.entries == kv.entries - {GenerateID(id)}
    ensures Find(e.kv, id).None?
    ensures forall other :: other != id ==> Find(e.kv, other) == Find(kv, other)
    ensures kv.WellFormed() ==> e.kv.WellFormed()
  {
    match Find(kv, id)
    case None => Effect(false, kv)
    case Some(_) => Effect(true, kv.Delete(GenerateID(id)))
  }

  // ---------------------------------------------------------------------------
  // Properties of the listing

  lemma {:induction false} CollectMembership(kv: Namespace, ks: seq<string>, s: Status)
    ensures s in Collect(kv, ks) <==> exists k :: k in ks && kv.Get(k) == Some(s)
  {
    if ks != [] {
      var init, last := ks[..|ks| - 1], ks[|ks| - 1];
      CollectMembership(kv, init, s);
      assert ks == init + [last];
      if s in Collect(kv, ks) && s !in Collect(kv, init) {
        assert kv.Get(last) == Some(s);
      }
      if k :| k in ks && kv.Get(k) == Some(s) {
        if k != last {
          assert k in init;
        }
      }
    }
  }

  lemma CollectSnoc(kv: Namespace, ks: seq<string>, k: string)
    ensures Collect(kv, ks + [k]) == Collect(kv, ks) + Fetched(kv, k)
  {
    assert (ks + [k])[..|ks + [k]| - 1] == ks;
  }

  lemma {:induction false} CollectFrame(kv: Namespace, kv': Namespace, ks: seq<string>)
    requires forall k :: k in ks ==> kv.Get(k) == kv'.Get(k)
    ensures Collect(kv, ks) == Collect(kv', ks)
  {
    if ks != [] {
      CollectFrame(kv, kv', ks[..|ks| - 1]);
    }
  }

  lemma {:induction false} CollectAllPresent(kv: Namespace, ks: seq<string>)
    requires forall k :: k in ks ==> kv.Get(k).Some?
    ensures |Collect(kv, ks)| == |ks|
    ensures forall i :: 0 <= i < |ks| ==> Collect(kv, ks)[i] == kv.Get(ks[i]).value
  {
    if ks != [] {
      CollectAllPresent(kv, ks[..|ks| - 1]);
    }
  }

  lemma {:induction false} CollectWithout(kv: Namespace, ks: seq<string>, key: string, s: Status)
    requires Distinct(ks) && key in ks && kv.Get(key) == Some(s)
    ensures multiset(Collect(kv, ks)) == multiset(Collect(kv.Delete(key), Without(ks, key))) + multiset{s}
  {
    var init, last := ks[..|ks| - 1], ks[|ks| - 1];
    assert ks == init + [last];
    if last == key {
      assert key !in init;
      CollectDeleteAbsent(kv, init, key);
      WithoutSnoc(init, last, key);
      CollectSnoc(kv, init, last);
      assert Fetched(kv, last) == [s];
      assert Without(ks, key) == init;
    } else {
      assert Distinct(init) && key in init;
      CollectWithout(kv, init, key, s);
      CollectWithoutStep(kv, init, last, key, s);
    }
  }

  /** The inductive step of `CollectWithout`, for a last key other than the deleted one. */
  lemma CollectWithoutStep(kv: Namespace, init: seq<string>, last: string, key: string, s: Status)
    requires last != key
    requires multiset(Collect(kv, init)) == multiset(Collect(kv.Delete(key), Without(init, key))) + multiset{s}
    ensures multiset(Collect(kv, init + [last])) == multiset(Collect(kv.Delete(key), Without(init + [last], key))) + multiset{s}
  {
    var kv', w := kv.Delete(key), Without(init, key);
    var before, after := Collect(kv, init), Collect(kv', w);
    WithoutSnoc(init, last, key);
    CollectSnoc(kv, init, last);
    CollectSnoc(kv', w, last);
    FetchedAfterDelete(kv, key, last);
    var tail := Fetched(kv, last);
    assert Collect(kv, init + [last]) == before + tail;
    assert Collect(kv', Without(init + [last], key)) == after + tail;
    assert multiset(before + tail) == multiset(before) + multiset(tail);
    assert multiset(after + tail) == multiset(after) + multiset(tail);
  }

  lemma FetchedAfterDelete(kv: Namespace, key: string, k: string)
    requires k != key
    ensures Fetched(kv.Delete(key), k) == Fetched(kv, k)
  {
    assert kv.Delete(key).Get(k) == kv.Get(k);
  }

  /** Deleting a key outside `ks` changes neither `ks` nor what is collected for it. */
  lemma CollectDeleteAbsent(kv: Namespace, ks: seq<string>, key: string)
    requires key !in ks
    ensures Without(ks, key) == ks
    ensures Collect(kv.Delete(key), ks) == Collect(kv, ks)
  {
    WithoutAbsent(ks, key);
    forall k | k in ks
      ensures kv.Get(k) == kv.Delete(key).Get(k)
    {
    }
    CollectFrame(kv, kv.Delete(key), ks);
  }

  /** Only values stored under keys of the status namespace are listed, and each
      of them is: keys of other namespaces never show up. */
  lemma ListingMembership(kv: Namespace, s: Status)
    ensures s in Listing(kv) <==>
      exists k :: k in kv.keys && HasPrefix(k) && k in kv.entries && kv.entries[k] == Json(s)
  {
    CollectMembership(kv, kv.List(), s);
  }

  /** In a well-formed namespace, a status is listed exactly when `getStatus`
      finds it under some identifier. */
  lemma ListedIffFound(kv: Namespace, s: Status)
    requires kv.WellFormed()
    ensures s in Listing(kv) <==> exists id :: Find(kv, id) == Some(s)
  {
    CollectMembership(kv, kv.List(), s);
    if s in Listing(kv) {
      var k :| k in kv.List() && kv.Get(k) == Some(s);
      GenerateIDRoundTrip(k, k[|PREFIX|..]);
      assert Find(kv, k[|PREFIX|..]) == Some(s);
    }
    if id :| Find(kv, id) == Some(s) {
      assert GenerateID(id) in kv.List();
    }
  }

  /** When every listed key holds a record, `getStatuses` returns those records
      in key-list order, one per key. */
  lemma ListingInKeyOrder(kv: Namespace)
    requires forall k :: k in kv.List() ==> kv.Get(k).Some?
    ensures |Listing(kv)| == |kv.List()|
    ensures forall i :: 0 <= i < |kv.List()| ==> Listing(kv)[i] == kv.Get(kv.List()[i]).value
  {
    CollectAllPresent(kv, kv.List());
  }

  /** Writing or deleting a key of another namespace does not change the listing. */
  lemma ListingIgnoresForeignKeys(kv: Namespace, key: string, v: Value)
    requires !HasPrefix(key)
    ensures Listing(kv.Put(key, v)) == Listing(kv)
    ensures Listing(kv.Delete(key)) == Listing(kv)
  {
    var put := kv.Put(key, v);
    if key !in kv.entries {
      PrefixedSnoc(kv.keys, key);
    }
    assert put.List() == kv.List();
    CollectFrame(kv, put, kv.List());
    var del := kv.Delete(key);
    PrefixedWithout(kv.keys, key);
    WithoutAbsent(kv.List(), key);
    CollectFrame(kv, del, kv.List());
  }

  /** A successful create adds exactly its record to the listing; where it is
      listed depends on the backend's key order, so the statement is order-free. */
  lemma ListingAfterCreate(kv: Namespace, param: Option<Param>, uuid: string, now: string)
    requires kv.WellFormed() && GenerateID(uuid) !in kv.entries && IsValid(param)
    ensures multiset(Listing(Create(kv, param, uuid, now).kv)) ==
            multiset(Listing(kv)) + multiset{Create(kv, param, uuid, now).result.value}
  {
    var e := Create(kv, param, uuid, now);
    var key := GenerateID(uuid);
    PrefixedSnoc(kv.keys, key);
    assert e.kv.List() == kv.List() + [key];
    assert (kv.List() + [key])[..|kv.List()|] == kv.List();
    CollectFrame(kv, e.kv, kv.List());
    assert Listing(e.kv) == Listing(kv) + [e.result.value];
  }

  /** A successful delete removes exactly its record from the listing. */
  lemma ListingAfterDelete(kv: Namespace, id: string)
    requires kv.WellFormed() && Find(kv, id).Some?
    ensures multiset(Listing(kv)) == multiset(Listing(Delete(kv, id).kv)) + multiset{Find(kv, id).value}
  {
    var key := GenerateID(id);
    PrefixedWithout(kv.keys, key);
    CollectWithout(kv, kv.List(), key, Find(kv, id).value);
  }

  /** An update keeps the stored `id` and `date`. */
  lemma UpdateKeepsIdAndDate(kv: Namespace, id: string, param: Option<Param>)
    requires Update(kv, id, param).result
    ensures Find(Update(kv, id, param).kv, id).value.id == Find(kv, id).value.id
    ensures Find(Update(kv, id, param).kv, id).value.date == Find(kv, id).value.date
  {
  }

  /** Deleting twice: the second delete reports not-found and changes nothing. */
  lemma DeleteTwice(kv: Namespace, id: string)
    ensures !Delete(Delete(kv, id).kv, id).result
    ensures Delete(Delete(kv, id).kv, id).kv == Delete(kv, id).kv
  {
  }

  // ---------------------------------------------------------------------------
  // The store over a namespace handle, as the functions of `model.ts` run it

  class StatusStore {
    /** The `KV` namespace every function of the store is handed. */
    var kv: Namespace

    ghost predicate Valid()
      reads this
    {
      kv.WellFormed()
    }

    /** A store over the namespace handle `initial`. */
    constructor (initial: Namespace)
      requires initial.WellFormed()
      ensures kv == initial && Valid()
    {
      kv := initial;
    }

    /** `getStatuses`: list the keys of the status namespace, then fetch each. */
    method GetStatuses() returns (statuses: seq<Status>)
      ensures statuses == Listing(kv)
    {
      var keys := kv.List();
      statuses := [];
      var i := 0;
      while i < |keys|
        invariant 0 <= i <= |keys|
        invariant statuses == Collect(kv, keys[..i])
      {
        var value := kv.Get(keys[i]);
        if value.Some? {
          statuses := statuses + [value.value];
        }
        assert keys[..i + 1][..i] == keys[..i];
        i := i + 1;
      }
      assert keys[..i] == keys;
    }

    /** `getStatus(id)`. */
    method GetStatus(id: string) returns (status: Option<Status>)
      ensures status == Find(kv, id)
    {
      status := kv.Get(GenerateID(id));
    }

    /** `createStatus`, with `uuid` standing for `crypto.randomUUID()` (fresh, so
        no record is overwritten) and `now` for the current ISO timestamp. */
    method CreateStatus(param: Option<Param>, uuid: string, now: string) returns (status: Option<Status>)
      requires Valid() && GenerateID(uuid) !in kv.entries
      modifies this
      ensures Valid()
      ensures Effect(status, kv) == Create(old(kv), param, uuid, now)
      ensures status.Some? ==> multiset(Listing(kv)) == multiset(Listing(old(kv))) + multiset{status.value}
    {
      if !IsValid(param) {
        return None;
      }
      var created := Status(uuid, param.value.title, param.value.body, now);
      ListingAfterCreate(kv, param, uuid, now);
      kv := kv.Put(GenerateID(uuid), Json(created));
      status := Some(created);
    }

    /** `updateStatus`: validate, read, replace title and body, write back. */
    method UpdateStatus(id: string, param: Option<Param>) returns (ok: bool)
      requires Valid()
      modifies this
      ensures Valid()
      ensures Effect(ok, kv) == Update(old(kv), id, param)
    {
      if !IsValid(param) {
        return false;
      }
      var status := GetStatus(id);
      if status.None? {
        return false;
      }
      var edited := status.value;
      edited := edited.(title := param.value.title);
      edited := edited.(body := param.value.body);
      kv := kv.Put(GenerateID(id), Json(edited));
      ok := true;
    }

    /** `deleteStatus`: read, then delete. */
    method DeleteStatus(id: string) returns (ok: bool)
      requires Valid()
      modifies this
      ensures Valid()
      ensures Effect(ok, kv) == Delete(old(kv), id)
      ensures ok ==> multiset(Listing(old(kv))) == multiset(Listing(kv)) + multiset{Find(old(kv), id).value}
    {
      var status := GetStatus(id);
      if status.None? {
        return false;
      }
      ListingAfterDelete(kv, id);
      kv := kv.Delete(GenerateID(id));
      ok := true;
    }
  }
}
