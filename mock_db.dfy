/** The in-memory stand-in for a MongoDB deployment: a client holding
    databases, a database holding collections, and a collection holding an
    insertion-ordered dictionary from document id to document. */
module MockDb {
  import opened Wrappers

  /** A value stored in a document (the JSON-like subset the routes use;
      `Time` stands for a `datetime`, `Obj` for a nested dictionary). */
  datatype Value =
    | Null
    | Bool(b: bool)
    | Int(i: int)
    | Str(s: string)
    | Time(t: int)
    | Obj(fields: map<string, Value>)

  /** A document, or a filter, or an update: a dictionary from field name to value. */
  type Doc = map<string, Value>

  /** `doc.get(key)`: the value under `key`, or `None` when it is missing. */
  function Get(doc: Doc, key: string): Value {
    if key in doc then doc[key] else Null
  }

  /** A document matches a filter when `doc.get(key) == value` for every
      pair of the filter; a missing field therefore matches a `None` value,
      and every document matches the empty filter. */
  predicate Matches(doc: Doc, filter: Doc) {
    forall key :: key in filter ==> Get(doc, key) == filter[key]
  }

  /** Values that Python accepts as dictionary keys (a nested dict is not). */
  predicate Hashable(v: Value) {
    !v.Obj?
  }

  /** The body of the lookup loops: compares the filter's pairs one at a
      time and stops at the first that differs. */
  method DocMatches(doc: Doc, filter: Doc) returns (matched: bool)
    ensures matched == Matches(doc, filter)
  {
    matched := true;
    var pending := filter.Keys;
    while pending != {}
      invariant pending <= filter.Keys
      invariant forall key :: key in filter.Keys - pending ==> Get(doc, key) == filter[key]
      decreases pending
    {
      var key :| key in pending;
      if Get(doc, key) != filter[key] {
        matched := false;
        return;
      }
      pending := pending - {key};
    }
  }

  /** A collection's `_data`: the keys in insertion order and the document
      stored under each. */
  datatype Table = Table(keys: seq<Value>, docs: map<Value, Doc>) {

    ghost predicate Valid() {
      && (forall i, j :: 0 <= i < j < |keys| ==> keys[i] != keys[j])
      && (forall k :: k in docs <==> k in keys)
    }

    /** The document at position `i` of the iteration order. */
    function At(i: nat): Doc
      requires Valid() && i < |keys|
    {
      docs[keys[i]]
    }

    /** `_data[key] = doc`: a key already present keeps its position and has
        its document replaced; a new key goes last. */
    function Put(key: Value, doc: Doc): (t: Table)
      requires Valid()
      ensures t.Valid()
      ensures t.docs == docs[key := doc]
      ensures |t.keys| == if key in docs then |keys| else |keys| + 1
      ensures forall i :: 0 <= i < |keys| ==> t.keys[i] == keys[i]
    {
      Table(if key in docs then keys else keys + [key], docs[key := doc])
    }

    /** `del _data[keys[i]]`: the entry leaves the order and the dictionary;
        every other entry keeps its document and its relative order. */
    function RemoveAt(i: nat): (t: Table)
      requires Valid() && i < |keys|
      ensures t.Valid()
      ensures t.docs.Keys == docs.Keys - {keys[i]}
      ensures forall k :: k in t.docs ==> t.docs[k] == docs[k]
      ensures |t.keys| == |keys| - 1
      ensures t.keys == keys[..i] + keys[i + 1..]
    {
      var rest := keys[..i] + keys[i + 1..];
      RemovedKeys(keys, i);
      Table(rest, docs - {keys[i]})
    }
  }

  /** Dropping position `i` from a list of distinct keys leaves distinct
      keys: exactly the others. */
  lemma RemovedKeys(keys: seq<Value>, i: nat)
    requires i < |keys| && forall a, b :: 0 <= a < b < |keys| ==> keys[a] != keys[b]
    ensures var rest := keys[..i] + keys[i + 1..];
      && (forall a, b :: 0 <= a < b < |rest| ==> rest[a] != rest[b])
      && (forall k :: k in rest <==> k in keys && k != keys[i])
  {
    var rest := keys[..i] + keys[i + 1..];
    assert forall a :: 0 <= a < |rest| ==> rest[a] == if a < i then keys[a] else keys[a + 1];
    forall k | k in keys && k != keys[i]
      ensures k in rest
    {
      var j :| 0 <= j < |keys| && keys[j] == k;
      if j < i { assert rest[j] == k; } else { assert rest[j - 1] == k; }
    }
  }

  /** The position of the first document, at `from` or later in insertion
      order, that matches `filter`. */
  function FirstMatch(t: Table, filter: Doc, from: nat): (r: Option<nat>)
    requires t.Valid() && from <= |t.keys|
    ensures r.Some? ==> from <= r.value < |t.keys| && Matches(t.At(r.value), filter)
    ensures forall j :: from <= j < |t.keys| && (r.None? || j < r.value) ==> !Matches(t.At(j), filter)
    decreases |t.keys| - from
  {
    if from == |t.keys| then None
    else if Matches(t.At(from), filter) then Some(from)
    else FirstMatch(t, filter, from + 1)
  }

  /** A matching document with no match before it is the first match. */
  lemma FirstMatchAt(t: Table, filter: Doc, i: nat)
    requires t.Valid() && i < |t.keys| && Matches(t.At(i), filter)
    requires forall j :: 0 <= j < i ==> !Matches(t.At(j), filter)
    ensures FirstMatch(t, filter, 0) == Some(i)
  {
    var r := FirstMatch(t, filter, 0);
  }

  /** What `find_one(filter)` returns: the first document in insertion order
      that matches, or `None` when none does. */
  function FindOneResult(t: Table, filter: Doc): (r: Option<Doc>)
    requires t.Valid()
    ensures r.Some? ==> Matches(r.value, filter) && exists i :: 0 <= i < |t.keys| && t.At(i) == r.value
    ensures r.None? <==> forall i :: 0 <= i < |t.keys| ==> !Matches(t.At(i), filter)
  {
    match FirstMatch(t, filter, 0)
    case None => None
    case Some(i) => Some(t.At(i))
  }

  /** The documents among the first `n` in insertion order that match
      `filter`, in that order. */
  function MatchingDocs(t: Table, filter: Doc, n: nat): (r: seq<Doc>)
    requires t.Valid() && n <= |t.keys|
    ensures |r| <= n
    ensures forall d :: d in r ==> Matches(d, filter)
  {
    if n == 0 then []
    else MatchingDocs(t, filter, n - 1) + (if Matches(t.At(n - 1), filter) then [t.At(n - 1)] else [])
  }

  /** With the empty filter every document is selected, in insertion order. */
  lemma {:induction false} MatchingDocsEmptyFilter(t: Table, n: nat)
    requires t.Valid() && n <= |t.keys|
    ensures |MatchingDocs(t, map[], n)| == n
    ensures forall j :: 0 <= j < n ==> MatchingDocs(t, map[], n)[j] == t.At(j)
  {
    if n > 0 {
      MatchingDocsEmptyFilter(t, n - 1);
    }
  }

  /** The positions, in increasing order, that a selection was taken from. */
  ghost predicate SelectedFrom(t: Table, filter: Doc, n: nat, r: seq<Doc>, idx: seq<nat>)
    requires t.Valid() && n <= |t.keys|
  {
    && |idx| == |r|
    && (forall a, b :: 0 <= a < b < |idx| ==> idx[a] < idx[b])
    && (forall k :: 0 <= k < |idx| ==> idx[k] < n && Matches(t.At(idx[k]), filter) && r[k] == t.At(idx[k]))
    && (forall j :: 0 <= j < n && Matches(t.At(j), filter) ==> j in idx)
  }

  /** A matching document at position `n - 1` extends a selection from
      the first `n - 1` positions. */
  lemma SelectedFromMatch(t: Table, filter: Doc, n: nat, r: seq<Doc>, idx: seq<nat>)
    requires t.Valid() && 0 < n <= |t.keys| && Matches(t.At(n - 1), filter)
    requires SelectedFrom(t, filter, n - 1, r, idx)
    ensures SelectedFrom(t, filter, n, r + [t.At(n - 1)], idx + [n - 1])
  {
    var r' := r + [t.At(n - 1)];
    var idx' := idx + [n - 1];
    forall k | 0 <= k < |idx'|
      ensures idx'[k] < n && Matches(t.At(idx'[k]), filter) && r'[k] == t.At(idx'[k])
    {
      if k < |idx| { assert idx'[k] == idx[k] && r'[k] == r[k]; }
    }
    forall j | 0 <= j < n && Matches(t.At(j), filter)
      ensures j in idx'
    {
      if j < n - 1 {
        var k :| 0 <= k < |idx| && idx[k] == j;
        assert idx'[k] == j;
      } else {
        assert idx'[|idx|] == j;
      }
    }
  }

  /** A document at position `n - 1` that does not match leaves a selection
      from the first `n - 1` positions complete for `n`. */
  lemma SelectedFromSkip(t: Table, filter: Doc, n: nat, r: seq<Doc>, idx: seq<nat>)
    requires t.Valid() && 0 < n <= |t.keys| && !Matches(t.At(n - 1), filter)
    requires SelectedFrom(t, filter, n - 1, r, idx)
    ensures SelectedFrom(t, filter, n, r, idx)
  {
  }

  /** `find` is complete: the selection is exactly the matching documents of
      the prefix, each taken once, in insertion order. `idx` is the list of
      their positions. */
  lemma {:induction false} MatchingDocsComplete(t: Table, filter: Doc, n: nat) returns (idx: seq<nat>)
    requires t.Valid() && n <= |t.keys|
    ensures SelectedFrom(t, filter, n, MatchingDocs(t, filter, n), idx)
  {
    if n == 0 {
      idx := [];
    } else {
      var before := MatchingDocsComplete(t, filter, n - 1);
      var r := MatchingDocs(t, filter, n - 1);
      if Matches(t.At(n - 1), filter) {
        SelectedFromMatch(t, filter, n, r, before);
        idx := before + [n - 1];
      } else {
        SelectedFromSkip(t, filter, n, r, before);
        idx := before;
      }
    }
  }

  /** The first of the matching documents, if there is one, is the first
      match in insertion order. */
  lemma {:induction false} MatchingDocsStart(t: Table, filter: Doc, n: nat)
    requires t.Valid() && n <= |t.keys|
    ensures MatchingDocs(t, filter, n) == [] ==> forall j :: 0 <= j < n ==> !Matches(t.At(j), filter)
    ensures MatchingDocs(t, filter, n) != [] ==>
      exists j :: 0 <= j < n && MatchingDocs(t, filter, n)[0] == t.At(j) && Matches(t.At(j), filter)
        && forall i :: 0 <= i < j ==> !Matches(t.At(i), filter)
  {
    if n > 0 {
      MatchingDocsStart(t, filter, n - 1);
      var before := MatchingDocs(t, filter, n - 1);
      if before != [] {
        var j :| 0 <= j < n - 1 && before[0] == t.At(j) && Matches(t.At(j), filter)
          && forall i :: 0 <= i < j ==> !Matches(t.At(i), filter);
        assert MatchingDocs(t, filter, n)[0] == before[0];
      } else if Matches(t.At(n - 1), filter) {
        assert MatchingDocs(t, filter, n)[0] == t.At(n - 1);
      }
    }
  }

  /** `find(filter)` and `find_one(filter)` agree: the latter is the head of
      the former. */
  lemma FindStartsWithFindOne(t: Table, filter: Doc)
    requires t.Valid()
    ensures var all := MatchingDocs(t, filter, |t.keys|);
      FindOneResult(t, filter) == if all == [] then None else Some(all[0])
  {
    MatchingDocsStart(t, filter, |t.keys|);
  }

  /** The dictionary merged into a matching document by `update_one`: the
      `$set` map when there is one, the whole update map otherwise. */
  function SetFields(update: Doc): Doc
    requires "$set" in update ==> update["$set"].Obj?
  {
    if "$set" in update then update["$set"].fields else update
  }

  /** A document after `update_one` merged `update` into it at time `now`. */
  function Updated(doc: Doc, update: Doc, now: int): (d: Doc)
    requires "$set" in update ==> update["$set"].Obj?
    ensures d.Keys == doc.Keys + SetFields(update).Keys + {"updated_at"}
    ensures d["updated_at"] == Time(now)
    ensures forall k :: k in SetFields(update) && k != "updated_at" ==> d[k] == SetFields(update)[k]
    ensures forall k :: k in doc && k !in SetFields(update) && k != "updated_at" ==> d[k] == doc[k]
  {
    (doc + SetFields(update))["updated_at" := Time(now)]
  }

  /** Every stored document carries, in its `id` field, the key it is
      stored under. `insert_one` keeps this; an `update_one` whose `$set`
      rewrites `id` can break it. */
  ghost predicate IdsAgree(t: Table) {
    forall k :: k in t.docs ==> Get(t.docs[k], "id") == k
  }

  /** Round trip: once `insert_one` stored `doc` under its id, `find_one`
      by that id returns `doc`, as long as every stored document's `id`
      field still names its own key. */
  lemma InsertThenFindOne(t: Table, doc: Doc)
    requires t.Valid() && IdsAgree(t)
    requires "id" in doc && Hashable(doc["id"])
    ensures IdsAgree(t.Put(doc["id"], doc))
    ensures FindOneResult(t.Put(doc["id"], doc), map["id" := doc["id"]]) == Some(doc)
  {
    var key := doc["id"];
    var u := t.Put(key, doc);
    var filter := map["id" := key];
    assert key in u.keys;
    var j :| 0 <= j < |u.keys| && u.keys[j] == key;
    assert Matches(u.At(j), filter);
    var r := FirstMatch(u, filter, 0);
    assert r.Some?;
    assert Get(u.At(r.value), "id") == key;
    assert u.keys[r.value] == key;
  }

  /** The result of `find(...)`, read out by `to_list`. */
  datatype Cursor = Cursor(results: seq<Doc>) {

    /** `to_list(length)`: `results[:length]` when `length` is truthy, all
        results when it is `None` or 0; a negative length drops that many
        results from the end, as a Python slice does. */
    function ToList(length: Option<int>): (r: seq<Doc>)
      ensures |r| <= |results| && r == results[..|r|]
      ensures length.None? || length == Some(0) ==> r == results
      ensures length.Some? && length.value > 0 ==>
        |r| == if length.value < |results| then length.value else |results|
      ensures length.Some? && length.value < 0 ==>
        |r| == if |results| + length.value < 0 then 0 else |results| + length.value
    {
      match length
      case None => results
      case Some(n) => if n == 0 then results else results[..SliceStop(n, |results|)]
    }
  }

  /** Where the slice `[:stop]` of a sequence of length `len` ends. */
  function SliceStop(stop: int, len: nat): (k: nat)
    ensures k <= len
  {
    if stop < 0 then (if len + stop < 0 then 0 else len + stop)
    else if stop > len then len
    else stop
  }

  class MockCollection {
    const name: string
    var data: Table

    ghost predicate Valid()
      reads this
    {
      data.Valid()
    }

    constructor (name: string)
      ensures Valid() && this.name == name && data == Table([], map[])
    {
      this.name := name;
      data := Table([], map[]);
    }

    /** `find_one(filter)`. The document is returned by value, so later
        changes to it cannot reach the store. */
    method FindOne(filter: Doc) returns (r: Option<Doc>)
      requires Valid()
      ensures r == FindOneResult(data, filter)
    {
      var i := 0;
      while i < |data.keys|
        invariant 0 <= i <= |data.keys|
        invariant forall j :: 0 <= j < i ==> !Matches(data.At(j), filter)
      {
        var doc := data.docs[data.keys[i]];
        var matched := DocMatches(doc, filter);
        if matched {
          FirstMatchAt(data, filter, i);
          return Some(doc);
        }
        i := i + 1;
      }
      return None;
    }

    /** `insert_one(document)`: a document without an `id` is first given
        the fresh `uuid` (the caller's dictionary gains it too, returned as
        `written`); the document is stored under its id, replacing any
        document already stored under that id, and the id is returned. */
    method InsertOne(document: Doc, uuid: string) returns (insertedId: Value, written: Doc)
      requires Valid()
      requires "id" in document ==> Hashable(document["id"])
      modifies this
      ensures Valid()
      ensures written == if "id" in document then document else document["id" := Str(uuid)]
      ensures insertedId == written["id"]
      ensures data == old(data).Put(insertedId, written)
    {
      written := document;
      if "id" !in written {
        written := written["id" := Str(uuid)];
      }
      insertedId := written["id"];
      data := data.Put(insertedId, written);
    }

    /** `update_one(filter, update)` at time `now`: only the first matching
        document changes, and it keeps its key and its position. */
    method UpdateOne(filter: Doc, update: Doc, now: int) returns (modifiedCount: nat)
      requires Valid()
      requires "$set" in update && !update["$set"].Obj? ==> FirstMatch(data, filter, 0).None?
      modifies this
      ensures Valid() && data.keys == old(data.keys)
      ensures modifiedCount == if FirstMatch(old(data), filter, 0).Some? then 1 else 0
      ensures match FirstMatch(old(data), filter, 0)
        case None => data == old(data)
        case Some(i) => data.docs == old(data.docs)[old(data.keys)[i] := Updated(old(data.At(i)), update, now)]
    {
      var i := 0;
      while i < |data.keys|
        invariant 0 <= i <= |data.keys|
        invariant data == old(data)
        invariant forall j :: 0 <= j < i ==> !Matches(data.At(j), filter)
      {
        var key := data.keys[i];
        var matched := DocMatches(data.docs[key], filter);
        if matched {
          FirstMatchAt(data, filter, i);
          data := Table(data.keys, data.docs[key := Updated(data.docs[key], update, now)]);
          return 1;
        }
        i := i + 1;
      }
      return 0;
    }

    /** `delete_one(filter)`: only the first matching document is removed,
        and the collection shrinks by exactly the returned count. */
    method DeleteOne(filter: Doc) returns (deletedCount: nat)
      requires Valid()
      modifies this
      ensures Valid()
      ensures deletedCount == if FirstMatch(old(data), filter, 0).Some? then 1 else 0
      ensures |data.keys| == |old(data.keys)| - deletedCount
      ensures match FirstMatch(old(data), filter, 0)
        case None => data == old(data)
        case Some(i) => data == old(data).RemoveAt(i)
    {
      var i := 0;
      while i < |data.keys|
        invariant 0 <= i <= |data.keys|
        invariant data == old(data)
        invariant forall j :: 0 <= j < i ==> !Matches(data.At(j), filter)
      {
        var matched := DocMatches(data.docs[data.keys[i]], filter);
        if matched {
          FirstMatchAt(data, filter, i);
          data := data.RemoveAt(i);
          return 1;
        }
        i := i + 1;
      }
      return 0;
    }

    /** `find(filter)`: every matching document in insertion order; no
        filter and the empty filter both select every document. */
    method Find(filter: Option<Doc>) returns (cursor: Cursor)
      requires Valid()
      ensures cursor.results == MatchingDocs(data, filter.GetOr(map[]), |data.keys|)
    {
      var f := filter.GetOr(map[]);
      var results := [];
      var i := 0;
      while i < |data.keys|
        invariant 0 <= i <= |data.keys|
        invariant results == MatchingDocs(data, f, i)
      {
        var doc := data.docs[data.keys[i]];
        if f == map[] {
          results := results + [doc];
        } else {
          var matched := DocMatches(doc, f);
          if matched {
            results := results + [doc];
          }
        }
        i := i + 1;
      }
      cursor := Cursor(results);
    }
  }

  class MockDatabase {
    const name: string
    var collections: map<string, MockCollection>

    /** Every collection is named by its key and well formed. */
    ghost predicate Valid()
      reads this, collections.Values
    {
      forall n :: n in collections ==> collections[n].name == n && collections[n].Valid()
    }

    constructor (name: string)
      ensures Valid() && this.name == name && collections == map[]
    {
      this.name := name;
      collections := map[];
    }

    /** `db.<name>` and `db[name]`: the collection of that name, created
        empty on first use and the same object on every later use. */
    method Collection(name: string) returns (c: MockCollection)
      requires Valid()
      modifies this
      ensures Valid() && c.Valid() && c.name == name
      ensures collections == old(collections)[name := c]
      ensures name in old(collections) ==> c == old(collections)[name]
      ensures name !in old(collections) ==> fresh(c) && c.data == Table([], map[])
    {
      if name !in collections {
        var created := new MockCollection(name);
        collections := collections[name := created];
      }
      c := collections[name];
    }
  }

  class MockMongoClient {
    const url: string
    var databases: map<string, MockDatabase>

    /** Every database is named by its key and well formed. */
    ghost predicate Valid()
      reads this, databases.Values, set d, c | d in databases.Values && c in d.collections.Values :: c
    {
      forall n :: n in databases ==> databases[n].name == n && databases[n].Valid()
    }

    constructor (url: string)
      ensures Valid() && this.url == url && databases == map[]
    {
      this.url := url;
      databases := map[];
    }

    /** `client[name]`: the database of that name, created empty on first
        use and the same object on every later use. */
    method Database(name: string) returns (db: MockDatabase)
      requires Valid()
      modifies this
      ensures Valid() && db.Valid() && db.name == name
      ensures databases == old(databases)[name := db]
      ensures name in old(databases) ==> db == old(databases)[name]
      ensures name !in old(databases) ==> fresh(db) && db.collections == map[]
    {
      if name !in databases {
        var created := new MockDatabase(name);
        databases := databases[name := created];
      }
      db := databases[name];
    }
  }
}
