/**
 * The `DBDriver` class of _site/db.js: promise wrappers around one IndexedDB
 * object store. The store itself is modelled by its contents, a map from
 * key to value; the engine keeps records sorted by key, which is the order
 * in which `getAllKeys` and `getAll` return them and so the order of
 * `entries()`. A key that is not a valid IndexedDB key (the `null` that
 * `URLSearchParams.get` returns for a missing parameter) makes the request
 * throw a `DataError`, so the returned promise rejects and nothing is written.
 */
module KeyValueStore {
  import opened Basics

  /** `a < b` for string keys: lexicographic by character, a proper prefix first. */
  predicate Below(a: string, b: string)
  {
    if a == [] then b != []
    else if b == [] then false
    else if a[0] != b[0] then a[0] < b[0]
    else Below(a[1..], b[1..])
  }

  lemma {:induction false} BelowIrreflexive(a: string)
    ensures !Below(a, a)
  {
    if a != [] {
      BelowIrreflexive(a[1..]);
    }
  }

  lemma {:induction false} BelowAsymmetric(a: string, b: string)
    ensures !(Below(a, b) && Below(b, a))
  {
    if a != [] && b != [] && a[0] == b[0] {
      BelowAsymmetric(a[1..], b[1..]);
    }
  }

  lemma {:induction false} BelowTransitive(a: string, b: string, c: string)
    requires Below(a, b) && Below(b, c)
    ensures Below(a, c)
  {
    if a != [] && b != [] && c != [] && a[0] == b[0] && b[0] == c[0] {
      BelowTransitive(a[1..], b[1..], c[1..]);
    }
  }

  lemma {:induction false} BelowTotal(a: string, b: string)
    requires a != b
    ensures Below(a, b) || Below(b, a)
  {
    if a != [] && b != [] && a[0] == b[0] {
      assert a == [a[0]] + a[1..] && b == [b[0]] + b[1..];
      BelowTotal(a[1..], b[1..]);
    }
  }

  /** `k` is the smallest key of `s`. */
  predicate IsLeast(k: string, s: set<string>)
  {
    k in s && forall j :: j in s ==> j == k || Below(k, j)
  }

  /** Every non-empty finite set of keys has a least element. */
  lemma {:induction false} LeastExists(s: set<string>)
    requires s != {}
    ensures exists k :: IsLeast(k, s)
    decreases |s|
  {
    var x :| x in s;
    if s != {x} {
      var rest := s - {x};
      LeastExists(rest);
      var m :| IsLeast(m, rest);
      if Below(x, m) {
        forall j | j in s ensures j == x || Below(x, j) {
          if j != x && j != m { BelowTransitive(x, m, j); }
        }
        assert IsLeast(x, s);
      } else {
        BelowTotal(x, m);
        assert IsLeast(m, s);
      }
    } else {
      BelowIrreflexive(x);
      assert IsLeast(x, s);
    }
  }

  /** A set has at most one least element. */
  lemma LeastUnique(s: set<string>)
    ensures forall a, b :: IsLeast(a, s) && IsLeast(b, s) ==> a == b
  {
    forall a, b | IsLeast(a, s) && IsLeast(b, s) ensures a == b {
      BelowAsymmetric(a, b);
    }
  }

  /** Keys strictly ascending: the order the engine keeps records in. */
  predicate Ascending(keys: seq<string>)
  {
    forall i, j :: 0 <= i < j < |keys| ==> Below(keys[i], keys[j])
  }

  /** The keys of a store in the engine's order (what `getAllKeys` resolves with). */
  function SortedKeys(s: set<string>): (keys: seq<string>)
    ensures |keys| == |s|
    ensures forall k :: k in keys <==> k in s
    ensures Ascending(keys)
    decreases |s|
  {
    if s == {} then []
    else
      LeastExists(s);
      LeastUnique(s);
      var k :| IsLeast(k, s);
      var rest := SortedKeys(s - {k});
      forall j | 0 <= j < |rest| ensures Below(k, rest[j]) {
        assert rest[j] in s - {k};
      }
      [k] + rest
  }

  /** Pairs each key with its value, in the order of `keys` (the `keys.map` of `entries`). */
  function Zip<V>(keys: seq<string>, data: map<string, V>): (pairs: seq<(string, V)>)
    requires forall k :: k in keys ==> k in data
    ensures |pairs| == |keys|
    ensures forall i :: 0 <= i < |pairs| ==> pairs[i] == (keys[i], data[keys[i]])
    ensures forall k :: k in keys ==> (k, data[k]) in pairs
  {
    if keys == [] then [] else [(keys[0], data[keys[0]])] + Zip(keys[1..], data)
  }

  /**
   * What `entries()` resolves with for a store holding `data`: every record
   * once, as `[key, value]`, in ascending key order.
   */
  function EntriesOf<V>(data: map<string, V>): (pairs: seq<(string, V)>)
    ensures |pairs| == |data|
    ensures forall i :: 0 <= i < |pairs| ==> pairs[i].0 in data && pairs[i].1 == data[pairs[i].0]
    ensures forall k :: k in data ==> (k, data[k]) in pairs
    ensures forall i, j :: 0 <= i < j < |pairs| ==> Below(pairs[i].0, pairs[j].0)
  {
    Zip(SortedKeys(data.Keys), data)
  }

  /** The entries list loses nothing: two stores with the same entries hold the same records. */
  lemma EntriesDetermineStore<V>(a: map<string, V>, b: map<string, V>)
    requires EntriesOf(a) == EntriesOf(b)
    ensures a == b
  {
    assert Lists(EntriesOf(a), a) && Lists(EntriesOf(b), b);
    ListedOnce(EntriesOf(a), a, b);
  }

  /** `pairs` holds every record of `data` and nothing else. */
  ghost predicate Lists<V>(pairs: seq<(string, V)>, data: map<string, V>)
  {
    && (forall i :: 0 <= i < |pairs| ==> pairs[i].0 in data && pairs[i].1 == data[pairs[i].0])
    && (forall k :: k in data ==> (k, data[k]) in pairs)
  }

  lemma ListedOnce<V>(pairs: seq<(string, V)>, a: map<string, V>, b: map<string, V>)
    requires Lists(pairs, a) && Lists(pairs, b)
    ensures a == b
  {
    forall k | k in a ensures k in b && b[k] == a[k] {
      assert (k, a[k]) in pairs;
    }
    forall k | k in b ensures k in a {
      assert (k, b[k]) in pairs;
    }
  }

  /** Each key appears in the entries at one position only. */
  lemma EntriesKeysDistinct<V>(data: map<string, V>, i: int, j: int)
    requires 0 <= i < j < |EntriesOf(data)|
    ensures EntriesOf(data)[i].0 != EntriesOf(data)[j].0
  {
    BelowIrreflexive(EntriesOf(data)[i].0);
  }

  /** A put adds a record exactly when the key was new. */
  lemma PutSize<V>(data: map<string, V>, key: string, value: V)
    ensures |data[key := value]| == |data| + (if key in data then 0 else 1)
  {
    var updated := data[key := value];
    if key in data {
      assert updated.Keys == data.Keys;
    } else {
      assert updated.Keys == data.Keys + {key};
    }
    assert |updated.Keys| == |updated| && |data.Keys| == |data|;
  }

  /** After `put(value, key)` the entries hold `[key, value]`, and one more pair only when the key was new. */
  lemma EntriesAfterPut<V>(data: map<string, V>, key: string, value: V)
    ensures (key, value) in EntriesOf(data[key := value])
    ensures |EntriesOf(data[key := value])| == |EntriesOf(data)| + (if key in data then 0 else 1)
  {
    var updated := data[key := value];
    assert key in updated && updated[key] == value;
    PutSize(data, key, value);
  }

  /** After `delete(key)` no entry carries the key, and there is one pair fewer only when it was present. */
  lemma EntriesAfterDelete<V>(data: map<string, V>, key: string)
    ensures forall i :: 0 <= i < |EntriesOf(data - {key})| ==> EntriesOf(data - {key})[i].0 != key
    ensures |EntriesOf(data - {key})| == |EntriesOf(data)| - (if key in data then 1 else 0)
  {
  }

  /** The handle `#createStore` builds: which database and store the requests go to. */
  datatype StoreHandle = StoreHandle(databaseName: string, storeName: string)

  /** The error IndexedDB raises for a request with an invalid key. */
  const DataError := "DataError: the parameter is not a valid key"

  class DBDriver<V> {
    const databaseName: string
    const storeName: string
    /** `#store`: the opened store, created by the constructor. */
    var store: Option<StoreHandle>
    /** The records the object store holds. */
    var data: map<string, V>

    /** The constructor always opens the store, so `#defaultGetStore` never has to. */
    ghost predicate Valid()
      reads this
    {
      store == Some(StoreHandle(databaseName, storeName))
    }

    /** Opens `storeName` of `databaseName`, which already holds `records`. */
    constructor(databaseName: string, storeName: string, records: map<string, V>)
      ensures Valid()
      ensures this.databaseName == databaseName && this.storeName == storeName
      ensures data == records
    {
      this.databaseName := databaseName;
      this.storeName := storeName;
      store := Some(StoreHandle(databaseName, storeName));
      data := records;
    }

    /** `#defaultGetStore`: (re)creates the handle only when it is missing. */
    method DefaultGetStore() returns (handle: StoreHandle)
      modifies this
      ensures store == Some(handle)
      ensures old(store).None? ==> handle == StoreHandle(databaseName, storeName)
      ensures old(store).Some? ==> store == old(store)
      ensures data == old(data)
    {
      if store.None? {
        store := Some(StoreHandle(databaseName, storeName));
      }
      handle := store.value;
    }

    /** `entries()`. */
    function Entries(): seq<(string, V)>
      reads this
    {
      EntriesOf(data)
    }

    /** `set(key, value)`: `put` overwrites or inserts; an invalid key rejects. */
    method Set(key: Option<string>, value: V) returns (outcome: Result<(), string>)
      requires Valid()
      modifies this
      ensures Valid()
      ensures key.None? ==> outcome == Failure(DataError) && data == old(data)
      ensures key.Some? ==> outcome == Success(()) && data == old(data)[key.value := value]
    {
      var _ := DefaultGetStore();
      if key.None? {
        return Failure(DataError);
      }
      data := data[key.value := value];
      return Success(());
    }

    /** `get(key)`: the stored value, or `undefined` when there is none. */
    method Get(key: Option<string>) returns (outcome: Result<Option<V>, string>)
      requires Valid()
      ensures key.None? ==> outcome == Failure(DataError)
      ensures key.Some? && key.value in data ==> outcome == Success(Some(data[key.value]))
      ensures key.Some? && key.value !in data ==> outcome == Success(None)
    {
      if key.None? {
        return Failure(DataError);
      }
      if key.value in data {
        return Success(Some(data[key.value]));
      }
      return Success(None);
    }

    /**
     * `update(key, updater)`: reads the current value (`undefined` when absent),
     * puts what the updater returns under the same key, and rejects without
     * writing when the key is invalid or the updater throws.
     */
    method Update(key: Option<string>, updater: Option<V> -> Result<V, string>) returns (outcome: Result<(), string>)
      requires Valid()
      modifies this
      ensures Valid()
      ensures key.None? ==> outcome == Failure(DataError) && data == old(data)
      ensures key.Some? ==>
        var current := if key.value in old(data) then Some(old(data)[key.value]) else None;
        match updater(current)
        case Success(v) => outcome == Success(()) && data == old(data)[key.value := v]
        case Failure(e) => outcome == Failure(e) && data == old(data)
    {
      var _ := DefaultGetStore();
      if key.None? {
        return Failure(DataError);
      }
      var current := if key.value in data then Some(data[key.value]) else None;
      var updated := updater(current);
      if updated.Failure? {
        return Failure(updated.error);
      }
      data := data[key.value := updated.value];
      return Success(());
    }

    /** `del(key)`: deleting a missing key succeeds and changes nothing. */
    method Del(key: Option<string>) returns (outcome: Result<(), string>)
      requires Valid()
      modifies this
      ensures Valid()
      ensures key.None? ==> outcome == Failure(DataError) && data == old(data)
      ensures key.Some? ==> outcome == Success(()) && data == old(data) - {key.value}
    {
      var _ := DefaultGetStore();
      if key.None? {
        return Failure(DataError);
      }
      data := data - {key.value};
      return Success(());
    }
  }
}
