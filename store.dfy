/**
 * An in-memory stand-in for a MongoDB collection: an ordered list of
 * documents with the handful of operations the handlers use (FindOne,
 * CountDocuments, InsertOne, UpdateOne with "$set", DeleteOne), all keyed
 * by an exact-match filter on top-level fields.
 */
module Store {
  import opened Wrappers
  import opened Seqs
  import Text

  /** A JSON / BSON value as the handlers see it. */
  datatype Json =
    | JNull
    | JBool(b: bool)
    | JNum(n: int)
    | JStr(s: string)
    | JArr(items: seq<Json>)
    | JObj(fields: map<string, Json>)

  /** A stored document, and a decoded JSON object body. */
  type Document = map<string, Json>

  /** An equality filter such as bson.M{"username": u}. */
  type Filter = map<string, Json>

  function StrArray(ss: seq<string>): Json {
    JArr(seq(|ss|, i requires 0 <= i < |ss| => JStr(ss[i])))
  }

  function StrGroups(gs: seq<seq<string>>): Json {
    JArr(seq(|gs|, i requires 0 <= i < |gs| => StrArray(gs[i])))
  }

  function StrMap(m: map<string, string>): Json {
    JObj(map k | k in m :: JStr(m[k]))
  }

  /* ------------------------------------------ decoding a document into a record */

  /**
   * The value a record field is decoded from. A field the document lacks
   * leaves the Go field at its zero value, exactly as a null does.
   */
  function FieldOf(d: Document, k: string): Json {
    if k in d then d[k] else JNull
  }

  /** A stored value decoded into a Go string field; null gives "". */
  function DecodeString(v: Json): Option<string> {
    match v
    case JNull => Some("")
    case JStr(s) => Some(s)
    case _ => None
  }

  /**
   * A stored value decoded into a Go int field: null gives 0, a boolean 0 or
   * 1, and a number must lie in the 64-bit range.
   */
  function DecodeInt(v: Json): Option<int> {
    match v
    case JNull => Some(0)
    case JBool(b) => Some(if b then 1 else 0)
    case JNum(n) => if Text.MinInt64 <= n <= Text.MaxInt64 then Some(n) else None
    case _ => None
  }

  /** A stored value decoded into a Go bool field: null gives false, a number is true when non-zero. */
  function DecodeBool(v: Json): Option<bool> {
    match v
    case JNull => Some(false)
    case JBool(b) => Some(b)
    case JNum(n) => Some(n != 0)
    case _ => None
  }

  /** A stored value decoded into a Go []string field: an array of strings (or nulls), or null. */
  function DecodeStrings(v: Json): Option<seq<string>> {
    match v
    case JNull => Some([])
    case JArr(items) =>
      if forall i :: 0 <= i < |items| ==> DecodeString(items[i]).Some? then
        Some(seq(|items|, i requires 0 <= i < |items| && DecodeString(items[i]).Some? => DecodeString(items[i]).value))
      else None
    case _ => None
  }

  /** A stored value decoded into a Go [][]string field. */
  function DecodeGroups(v: Json): Option<seq<seq<string>>> {
    match v
    case JNull => Some([])
    case JArr(items) =>
      if forall i :: 0 <= i < |items| ==> DecodeStrings(items[i]).Some? then
        Some(seq(|items|, i requires 0 <= i < |items| && DecodeStrings(items[i]).Some? => DecodeStrings(items[i]).value))
      else None
    case _ => None
  }

  /** A stored value decoded into a Go map[string]string field: an object of strings (or nulls), or null. */
  function DecodeStringMap(v: Json): Option<map<string, string>> {
    match v
    case JNull => Some(map[])
    case JObj(fields) =>
      if forall k :: k in fields ==> DecodeString(fields[k]).Some? then
        Some(map k | k in fields && DecodeString(fields[k]).Some? :: DecodeString(fields[k]).value)
      else None
    case _ => None
  }

  /** A string array as stored decodes back to its strings. */
  lemma DecodeStrArray(ss: seq<string>)
    ensures DecodeStrings(StrArray(ss)) == Some(ss)
  {
    var items := StrArray(ss).items;
    assert forall i :: 0 <= i < |items| ==> DecodeString(items[i]) == Some(ss[i]);
    var r := DecodeStrings(StrArray(ss)).value;
    assert |r| == |ss| && forall i :: 0 <= i < |ss| ==> r[i] == ss[i];
    assert r == ss;
  }

  /** An array of string arrays as stored decodes back to its groups. */
  lemma DecodeStrGroups(gs: seq<seq<string>>)
    ensures DecodeGroups(StrGroups(gs)) == Some(gs)
  {
    var items := StrGroups(gs).items;
    forall i | 0 <= i < |items| ensures DecodeStrings(items[i]) == Some(gs[i]) {
      DecodeStrArray(gs[i]);
    }
    var r := DecodeGroups(StrGroups(gs)).value;
    assert |r| == |gs| && forall i :: 0 <= i < |gs| ==> r[i] == gs[i];
    assert r == gs;
  }

  /** A string map as stored decodes back to its entries. */
  lemma DecodeStrMap(m: map<string, string>)
    ensures DecodeStringMap(StrMap(m)) == Some(m)
  {
    var fields := StrMap(m).fields;
    assert forall k :: k in fields ==> DecodeString(fields[k]) == Some(m[k]);
    var r := DecodeStringMap(StrMap(m)).value;
    assert r.Keys == m.Keys && forall k :: k in m ==> r[k] == m[k];
    assert r == m;
  }

  /** A document matches a filter when it has every filtered field with the filtered value. */
  predicate Matches(d: Document, f: Filter) {
    forall k :: k in f ==> k in d && d[k] == f[k]
  }

  /** A one-field filter matches the documents holding that value in that field. */
  lemma MatchesSingle(d: Document, k: string, v: Json)
    ensures Matches(d, map[k := v]) <==> k in d && d[k] == v
  {
    if k in d && d[k] == v {
      forall k' | k' in map[k := v] ensures k' in d && d[k'] == map[k := v][k'] {
        assert k' == k;
      }
    }
  }

  /** A two-field filter matches the documents holding both values. */
  lemma MatchesPair(d: Document, k1: string, v1: Json, k2: string, v2: Json)
    requires k1 != k2
    ensures Matches(d, map[k1 := v1, k2 := v2]) <==> k1 in d && d[k1] == v1 && k2 in d && d[k2] == v2
  {
    var f := map[k1 := v1, k2 := v2];
    assert k1 in f && f[k1] == v1 && k2 in f && f[k2] == v2;
    if k1 in d && d[k1] == v1 && k2 in d && d[k2] == v2 {
      forall k' | k' in f ensures k' in d && d[k'] == f[k'] {
        assert k' == k1 || k' == k2;
      }
    }
  }

  /** The filter as a test on documents. */
  function Matching(f: Filter): Document -> bool {
    (d: Document) => Matches(d, f)
  }

  /** The index FindOne, UpdateOne and DeleteOne act on: the first match in store order. */
  function FindFirst(docs: seq<Document>, f: Filter): (r: Option<nat>)
    ensures r.Some? ==> r.value < |docs| && Matches(docs[r.value], f)
    ensures r.Some? ==> forall j :: 0 <= j < r.value ==> !Matches(docs[j], f)
    ensures r.None? ==> forall j :: 0 <= j < |docs| ==> !Matches(docs[j], f)
  {
    FirstIndex(docs, Matching(f))
  }

  /** CountDocuments */
  function CountMatching(docs: seq<Document>, f: Filter): nat {
    CountWhere(docs, Matching(f))
  }

  /** The documents after "$set": the first match takes every field of the body. */
  function SetFirst(docs: seq<Document>, f: Filter, body: Document): (r: seq<Document>)
    ensures |r| == |docs|
    ensures FindFirst(docs, f).None? ==> r == docs
    ensures FindFirst(docs, f).Some? ==>
      var i := FindFirst(docs, f).value;
      && r[i].Keys == docs[i].Keys + body.Keys
      && (forall k :: k in body ==> r[i][k] == body[k])
      && (forall k :: k in docs[i] && k !in body ==> r[i][k] == docs[i][k])
      && (forall j :: 0 <= j < |docs| && j != i ==> r[j] == docs[j])
  {
    match FindFirst(docs, f)
    case None => docs
    case Some(i) => docs[i := docs[i] + body]
  }

  /** The documents after DeleteOne: the first match is gone, the others keep their order. */
  function DeleteFirst(docs: seq<Document>, f: Filter): (r: seq<Document>)
    ensures FindFirst(docs, f).None? ==> r == docs
    ensures FindFirst(docs, f).Some? ==> r == RemoveAt(docs, FindFirst(docs, f).value)
    ensures FindFirst(docs, f).Some? ==>
      && |r| == |docs| - 1
      && multiset(r) + multiset{docs[FindFirst(docs, f).value]} == multiset(docs)
      && CountMatching(r, f) == CountMatching(docs, f) - 1
  {
    match FindFirst(docs, f)
    case None => docs
    case Some(i) =>
      CountAfterRemove(docs, Matching(f), i);
      RemoveAt(docs, i)
  }

  /** A MongoDB collection updated in place by the handlers. */
  class Collection {
    var docs: seq<Document>

    constructor ()
      ensures docs == []
    {
      docs := [];
    }

    /** InsertOne */
    method InsertOne(d: Document)
      modifies this
      ensures docs == old(docs) + [d]
    {
      docs := docs + [d];
    }

    /** UpdateOne(filter, {"$set": body}) */
    method UpdateOne(f: Filter, body: Document)
      modifies this
      ensures docs == SetFirst(old(docs), f, body)
    {
      docs := SetFirst(docs, f, body);
    }

    /** DeleteOne(filter) */
    method DeleteOne(f: Filter)
      modifies this
      ensures docs == DeleteFirst(old(docs), f)
    {
      docs := DeleteFirst(docs, f);
    }
  }
}
