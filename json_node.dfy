/**
 * An already-parsed JSON document, as the loader sees it through Jackson's
 * tree model (`JsonNode`). Byte-level parsing is not modelled: a document
 * that Jackson could not read is represented elsewhere as an unreadable body.
 */
module JsonNode {
  import opened Wrappers

  /** Numbers and booleans are all `Other`: the loader only distinguishes text nodes from the rest. */
  datatype Json =
    | Null
    | Str(text: string)
    | Obj(members: seq<(string, Json)>)
    | Arr(elements: seq<Json>)
    | Other

  /**
   * `node.get(fieldName)`: the value bound to `key` in an object node. Every
   * other kind of node answers Java `null`, modelled as `None`. Members are
   * kept in document order; a parsed tree binds each key once, and this
   * returns the first binding.
   */
  function Get(node: Json, key: string): Option<Json> {
    if node.Obj? then Member(node.members, key) else None
  }

  function Member(members: seq<(string, Json)>, key: string): Option<Json> {
    if members == [] then None
    else if members[0].0 == key then Some(members[0].1)
    else Member(members[1..], key)
  }

  /**
   * `get` finds a key exactly when the object binds it, and answers the value
   * of its first binding.
   */
  lemma {:induction false} MemberSpec(members: seq<(string, Json)>, key: string)
    ensures Member(members, key).Some? <==> exists m :: m in members && m.0 == key
    ensures Member(members, key).Some? ==>
              exists i :: 0 <= i < |members| && members[i] == (key, Member(members, key).value)
                          && forall j :: 0 <= j < i ==> members[j].0 != key
  {
    if members != [] && members[0].0 != key {
      var rest := members[1..];
      MemberSpec(rest, key);
      if Member(rest, key).Some? {
        var i :| 0 <= i < |rest| && rest[i] == (key, Member(rest, key).value)
                 && forall j :: 0 <= j < i ==> rest[j].0 != key;
        assert members[i + 1] == rest[i];
        forall j | 0 <= j < i + 1 ensures members[j].0 != key {
          if j > 0 { assert members[j] == rest[j - 1]; }
        }
      }
      forall m | m in members && m.0 == key ensures m in rest {
        var k :| 0 <= k < |members| && members[k] == m;
        assert k > 0 && rest[k - 1] == m;
      }
    } else if members != [] {
      assert members[0] in members;
    }
  }

  /**
   * The nodes a Java for-each loop over `node` visits: the elements of an
   * array, the member values of an object (in order), nothing for any other node.
   */
  function Children(node: Json): seq<Json> {
    match node
    case Arr(elements) => elements
    case Obj(members) => seq(|members|, i requires 0 <= i < |members| => members[i].1)
    case _ => []
  }

  /** `node.textValue()`: the text of a string node; Java `null` for every other node. */
  function TextValue(node: Json): Option<string> {
    if node.Str? then Some(node.text) else None
  }
}
