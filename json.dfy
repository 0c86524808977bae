/**
 * The JSON document model the serializer reads and writes. Numbers are
 * integers only. Property lookup follows `JsonElement.TryGetProperty`, where a
 * property that occurs twice in an object is found at its last occurrence.
 */
module Json {
  import opened Wrappers

  datatype Value =
    | Null
    | Bool(b: bool)
    | Number(n: int)
    | String(s: string)
    | Array(items: seq<Value>)
    | Object(fields: seq<(string, Value)>)

  /** The value of property `key` (case-sensitive, last occurrence wins), or `None`. */
  function Get(fields: seq<(string, Value)>, key: string): (r: Option<Value>)
    ensures r.Some? <==> exists i :: 0 <= i < |fields| && fields[i].0 == key
    ensures r.Some? ==> exists i :: 0 <= i < |fields| && fields[i] == (key, r.value) &&
                          forall j :: i < j < |fields| ==> fields[j].0 != key
  {
    if fields == [] then None
    else
      var last := fields[|fields| - 1];
      if last.0 == key then Some(last.1)
      else
        var r := Get(fields[..|fields| - 1], key);
        assert forall i :: 0 <= i < |fields| - 1 ==> fields[..|fields| - 1][i] == fields[i];
        r
  }

  /** Appending a property: its own name now finds it, every other name finds what it
      found before. */
  lemma GetSnoc(fields: seq<(string, Value)>, k: string, v: Value, key: string)
    ensures Get(fields + [(k, v)], key) == if k == key then Some(v) else Get(fields, key)
  {
    assert (fields + [(k, v)])[..|fields|] == fields;
  }

  /** The property names of an object, in document order. */
  function Keys(fields: seq<(string, Value)>): (ks: seq<string>)
    ensures |ks| == |fields|
    ensures forall i :: 0 <= i < |fields| ==> ks[i] == fields[i].0
  {
    if fields == [] then [] else [fields[0].0] + Keys(fields[1..])
  }

  /** In an object whose property names are pairwise distinct, each property is found
      with its own value. */
  lemma GetDistinct(fields: seq<(string, Value)>, i: int)
    requires 0 <= i < |fields|
    requires forall j, k :: 0 <= j < k < |fields| ==> fields[j].0 != fields[k].0
    ensures Get(fields, fields[i].0) == Some(fields[i].1)
  {
    var r := Get(fields, fields[i].0);
    var w :| 0 <= w < |fields| && fields[w] == (fields[i].0, r.value) &&
             forall j :: w < j < |fields| ==> fields[j].0 != fields[i].0;
    assert w == i;
  }

  /** Lookups in a three-property object with distinct names. */
  lemma GetThree(k0: string, v0: Value, k1: string, v1: Value, k2: string, v2: Value)
    requires k0 != k1 && k0 != k2 && k1 != k2
    ensures Get([(k0, v0), (k1, v1), (k2, v2)], k0) == Some(v0)
    ensures Get([(k0, v0), (k1, v1), (k2, v2)], k1) == Some(v1)
    ensures Get([(k0, v0), (k1, v1), (k2, v2)], k2) == Some(v2)
  {
    var fs := [(k0, v0), (k1, v1), (k2, v2)];
    GetDistinct(fs, 0);
    GetDistinct(fs, 1);
    GetDistinct(fs, 2);
  }
}
