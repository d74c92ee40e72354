/**
  The value tree that Python's `json.loads` hands back: None, booleans,
  integers, floats, strings, lists and dicts. Parsing the text itself is not
  modelled; the extractor receives it as a parameter.
 */
module Json {
  import opened Wrappers

  /** One JSON value. A float keeps its source literal only, since the model
      never formats floats. An object lists its members in document order. */
  datatype Json =
    | JNull
    | JBool(b: bool)
    | JInt(i: int)
    | JFloat(literal: string)
    | JString(s: string)
    | JArray(items: seq<Json>)
    | JObject(members: seq<(string, Json)>)

  /** True when some member of the object is named `key`. */
  predicate HasKey(members: seq<(string, Json)>, key: string)
  {
    exists i :: 0 <= i < |members| && members[i].0 == key
  }

  /** `dict.get(key)`: the dictionary json.loads builds keeps the value of the
      last member with a given name, so the lookup takes the last binding. */
  function Get(members: seq<(string, Json)>, key: string): (r: Option<Json>)
    ensures r.None? <==> !HasKey(members, key)
  {
    if members == [] then None
    else if members[|members| - 1].0 == key then
      Some(members[|members| - 1].1)
    else
      var r := Get(members[..|members| - 1], key);
      assert forall i :: 0 <= i < |members| - 1 ==> members[..|members| - 1][i] == members[i];
      r
  }

  /** The value Get finds is that of the last member named `key`. */
  lemma {:induction false} GetIsLastBinding(members: seq<(string, Json)>, key: string)
    requires HasKey(members, key)
    ensures exists i :: 0 <= i < |members| && members[i] == (key, Get(members, key).value)
                        && forall j :: i < j < |members| ==> members[j].0 != key
  {
    var last := |members| - 1;
    var init := members[..last];
    if members[last].0 == key {
      assert members[last] == (key, Get(members, key).value);
    } else {
      var i :| 0 <= i < |members| && members[i].0 == key;
      assert init[i].0 == key;
      GetIsLastBinding(init, key);
      assert Get(members, key) == Get(init, key);
      var k :| 0 <= k < |init| && init[k] == (key, Get(init, key).value)
               && forall j :: k < j < |init| ==> init[j].0 != key;
      assert members[k] == init[k];
      assert forall j :: k < j < last ==> members[j] == init[j];
    }
  }

  /** `dict.get(key, default)`: the default stands in only when the key is absent. */
  function GetOr(members: seq<(string, Json)>, key: string, default: Json): (r: Json)
    ensures !HasKey(members, key) ==> r == default
    ensures HasKey(members, key) ==> Get(members, key) == Some(r)
  {
    match Get(members, key)
    case Some(v) => v
    case None => default
  }

  /** The keys of the dictionary, in the order iteration over it yields them:
      each name once, at the place where it first occurs. */
  function DictKeys(members: seq<(string, Json)>): (ks: seq<string>)
    ensures forall k :: k in ks <==> HasKey(members, k)
    ensures forall i, j :: 0 <= i < j < |ks| ==> ks[i] != ks[j]
  {
    if members == [] then []
    else
      var init := members[..|members| - 1];
      var key := members[|members| - 1].0;
      var ks := DictKeys(init);
      assert forall i :: 0 <= i < |init| ==> init[i] == members[i];
      assert forall k :: HasKey(members, k) <==> HasKey(init, k) || k == key by {
        forall k ensures HasKey(members, k) ==> HasKey(init, k) || k == key {
          if HasKey(members, k) {
            var i :| 0 <= i < |members| && members[i].0 == k;
            if i < |init| { assert init[i].0 == k; }
          }
        }
        forall k ensures HasKey(init, k) ==> HasKey(members, k) {
          if HasKey(init, k) {
            var i :| 0 <= i < |init| && init[i].0 == k;
            assert members[i].0 == k;
          }
        }
        assert members[|members| - 1].0 == key;
      }
      if key in ks then ks else ks + [key]
  }

  /** The position at which `key` first occurs among the members. */
  function FirstIndex(members: seq<(string, Json)>, key: string): (p: nat)
    requires HasKey(members, key)
    ensures p < |members| && members[p].0 == key
    ensures forall q :: 0 <= q < p ==> members[q].0 != key
  {
    if members[0].0 == key then 0
    else
      assert HasKey(members[1..], key) by {
        var i :| 0 <= i < |members| && members[i].0 == key;
        assert members[1..][i - 1] == members[i];
      }
      var p := FirstIndex(members[1..], key);
      assert forall q :: 0 < q <= p ==> members[q] == members[1..][q - 1];
      p + 1
  }

  /** DictKeys lists the keys in the order of their first occurrence, which
      is the order in which iterating over the dict yields them. */
  lemma {:induction false} DictKeysInFirstOccurrenceOrder(members: seq<(string, Json)>)
    ensures forall i, j :: 0 <= i < j < |DictKeys(members)| ==>
              FirstIndex(members, DictKeys(members)[i]) < FirstIndex(members, DictKeys(members)[j])
  {
    if members != [] {
      var init := members[..|members| - 1];
      var key := members[|members| - 1].0;
      var ks := DictKeys(init);
      DictKeysInFirstOccurrenceOrder(init);
      assert forall q :: 0 <= q < |init| ==> init[q] == members[q];
      forall k | HasKey(init, k)
        ensures FirstIndex(members, k) == FirstIndex(init, k)
      {
        var p1 := FirstIndex(members, k);
        var p2 := FirstIndex(init, k);
        assert members[p2].0 == k;
      }
      if key !in ks {
        assert !HasKey(init, key);
        assert FirstIndex(members, key) == |init|;
      }
    }
  }
}
