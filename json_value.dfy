/** JSON documents as the server builds and receives them (jansson
    values). Parsing and rendering are not modelled: a received document
    arrives already parsed, and serialized text is an input where needed. */
module JsonValue {
  import opened Text

  datatype Json =
    | JNull
    | JBool(b: bool)
    | JInteger(i: int)
    | JReal(r: real)
    | JString(s: string)
    | JArray(items: seq<Json>)
    | JObject(members: seq<Member>)

  /** One key/value pair of an object, in document order. */
  datatype Member = Member(key: string, value: Json)

  /** json_object_get: the value stored under a key. When a parsed
      document repeats a key, the later value replaced the earlier one. */
  function Get(members: seq<Member>, key: string): Option<Json>
  {
    if members == [] then None
    else
      var last := members[|members| - 1];
      if last.key == key then Some(last.value)
      else Get(members[..|members| - 1], key)
  }

  /** The lookup finds nothing exactly when no member has the key, and
      otherwise the value of the last member that has it. */
  lemma {:induction false} GetIsLastOccurrence(members: seq<Member>, key: string)
    ensures Get(members, key).None? <==> forall k :: 0 <= k < |members| ==> members[k].key != key
    ensures Get(members, key).Some? ==>
              exists k :: 0 <= k < |members| && members[k].key == key && members[k].value == Get(members, key).value &&
                          forall j :: k < j < |members| ==> members[j].key != key
  {
    if members != [] {
      var n := |members| - 1;
      var init := members[..n];
      if members[n].key != key {
        GetIsLastOccurrence(init, key);
        assert forall k :: 0 <= k < n ==> init[k] == members[k];
        if Get(init, key).Some? {
          var k :| 0 <= k < n && init[k].key == key && init[k].value == Get(init, key).value &&
                   forall j :: k < j < n ==> init[j].key != key;
          assert members[k].key == key && members[k].value == Get(members, key).value;
        }
      }
    }
  }

  /** json_is_true */
  predicate IsTrue(j: Option<Json>)
  {
    j == Some(JBool(true))
  }
}
