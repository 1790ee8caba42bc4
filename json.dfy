/** The JSON values the views hand to `JsonResponse`, objects keeping their key order. */
module JsonValues {
  import opened Wrappers

  datatype Json =
    | JNull
    | JBool(b: bool)
    | JInt(i: int)
    | JReal(r: real)
    | JString(s: string)
    | JArray(items: seq<Json>)
    | JObject(members: seq<(string, Json)>)

  function Keys(members: seq<(string, Json)>): (ks: seq<string>)
    ensures |ks| == |members|
    ensures forall i :: 0 <= i < |members| ==> ks[i] == members[i].0
  {
    seq(|members|, i requires 0 <= i < |members| => members[i].0)
  }

  /** `obj[key]` on a Python dict built from `members`: the value of the last binding of `key`. */
  function Get(members: seq<(string, Json)>, key: string): (v: Option<Json>)
    ensures v.Some? <==> key in Keys(members)
    ensures v.Some? ==> (key, v.value) in members
  {
    if members == [] then None
    else if members[|members| - 1].0 == key then Some(members[|members| - 1].1)
    else
      var r := Get(members[..|members| - 1], key);
      assert Keys(members) == Keys(members[..|members| - 1]) + [members[|members| - 1].0];
      r
  }

  /** Three members read back by key: the first, second and third. */
  lemma GetOfThree(a: (string, Json), b: (string, Json), c: (string, Json))
    requires a.0 != b.0 && a.0 != c.0 && b.0 != c.0
    ensures Get([a, b, c], a.0) == Some(a.1)
    ensures Get([a, b, c], b.0) == Some(b.1)
    ensures Get([a, b, c], c.0) == Some(c.1)
  {
    var m := [a, b, c];
    assert m[..2] == [a, b] && m[..2][..1] == [a];
    assert Get([a], a.0) == Some(a.1);
    assert Get([a, b], a.0) == Some(a.1) && Get([a, b], b.0) == Some(b.1);
  }

  lemma GetOfTwo(a: (string, Json), b: (string, Json))
    requires a.0 != b.0
    ensures Get([a, b], a.0) == Some(a.1)
    ensures Get([a, b], b.0) == Some(b.1)
  {
    assert [a, b][..1] == [a];
  }

  /** A binding appended last wins for its key and hides nothing else. */
  lemma GetAppend(members: seq<(string, Json)>, k: string, v: Json, key: string)
    ensures Get(members + [(k, v)], key) == if key == k then Some(v) else Get(members, key)
  {
    assert (members + [(k, v)])[..|members|] == members;
  }
}
