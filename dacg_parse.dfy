/**
 * Per-file extraction: `parse` walks `dacg` and its five categories in a
 * fixed order and turns every element of each `checker_meta_data` into a
 * record; `parseDacgJson` turns any failure into an empty list. A Java
 * exception (a null node dereferenced, a non-text field, an empty required
 * field) is `None` here.
 */
module DacgParse {
  import opened Wrappers
  import opened JsonNode
  import opened DacgInfo

  const DacgKey := "dacg"
  const MetaDataKey := "checker_meta_data"

  /** The contents of one resource: its parsed tree, or `Unreadable` when it could not be opened or read as JSON. */
  datatype ResourceBody = Unreadable | Tree(read: Json)

  /** `elem.get(field).textValue()`, `None` when either step yields Java null. */
  function TextField(elem: Json, field: string): Option<string> {
    match Get(elem, field)
    case None => None
    case Some(node) => TextValue(node)
  }

  /** The required field is present, is a text node, and is not empty. */
  predicate NonEmptyText(elem: Json, field: string) {
    TextField(elem, field).Some? && TextField(elem, field).value != ""
  }

  /** Declarative validity of one `checker_meta_data` element of a category. */
  predicate ValidElement(cat: Category, elem: Json) {
    forall field :: field in RequiredFields(cat) ==> NonEmptyText(elem, field)
  }

  /**
   * `elem.get(f).textValue()` for each field `f` in order; `None` as soon as
   * one of them is Java null.
   */
  function FieldTexts(elem: Json, fields: seq<string>): (r: Option<seq<string>>)
    ensures r.Some? ==> |r.value| == |fields|
  {
    if fields == [] then Some([])
    else
      var first :- TextField(elem, fields[0]);
      var rest :- FieldTexts(elem, fields[1..]);
      Some([first] + rest)
  }

  /** Reading the fields succeeds exactly when each is a text node, and yields their texts in order. */
  lemma {:induction false} FieldTextsSpec(elem: Json, fields: seq<string>)
    ensures FieldTexts(elem, fields).Some? <==> forall i :: 0 <= i < |fields| ==> TextField(elem, fields[i]).Some?
    ensures FieldTexts(elem, fields).Some? ==>
              |FieldTexts(elem, fields).value| == |fields| &&
              forall i :: 0 <= i < |fields| ==> TextField(elem, fields[i]) == Some(FieldTexts(elem, fields).value[i])
    decreases |fields|
  {
    if fields != [] {
      FieldTextsSpec(elem, fields[1..]);
      if FieldTexts(elem, fields).None? && TextField(elem, fields[0]).Some? {
        var i :| 0 <= i < |fields[1..]| && TextField(elem, fields[1..][i]).None?;
        assert TextField(elem, fields[i + 1]).None?;
      }
    }
  }

  /**
   * The body of one iteration of a category loop: read the required fields
   * (a missing or non-text one throws), reject an empty one, otherwise
   * construct the category's record.
   */
  function ElementRecord(cat: Category, elem: Json): Option<DacgInfoContainer> {
    var texts :- FieldTexts(elem, RequiredFields(cat));
    if "" in texts then None else Some(New(cat, texts))
  }

  /** An element yields a record exactly when it is valid, and the record is of the element's category. */
  lemma ElementRecordValid(cat: Category, elem: Json)
    ensures ElementRecord(cat, elem).Some? <==> ValidElement(cat, elem)
    ensures ElementRecord(cat, elem).Some? ==> ElementRecord(cat, elem).value.Kind() == cat
  {
    var fields := RequiredFields(cat);
    FieldTextsSpec(elem, fields);
    if ElementRecord(cat, elem).Some? {
      var texts := FieldTexts(elem, fields).value;
      forall field | field in fields
        ensures NonEmptyText(elem, field)
      {
        var i :| 0 <= i < |fields| && fields[i] == field;
        assert texts[i] in texts;
      }
    }
    if ValidElement(cat, elem) {
      forall i | 0 <= i < |fields|
        ensures TextField(elem, fields[i]).Some?
      {
        assert NonEmptyText(elem, fields[i]);
      }
      var texts := FieldTexts(elem, fields).value;
      forall i | 0 <= i < |texts|
        ensures texts[i] != ""
      {
        assert NonEmptyText(elem, fields[i]);
      }
    }
  }

  /**
   * A record built from an element holds exactly the texts of the element's
   * required fields, in the order they are read, and none of them is empty.
   */
  lemma ElementRecordFields(cat: Category, elem: Json)
    requires ElementRecord(cat, elem).Some?
    ensures var r := ElementRecord(cat, elem).value;
            && |r.Fields()| == |RequiredFields(cat)|
            && (forall i :: 0 <= i < |RequiredFields(cat)| ==>
                  TextField(elem, RequiredFields(cat)[i]) == Some(r.Fields()[i]))
            && r.Complete()
  {
    FieldTextsSpec(elem, RequiredFields(cat));
  }

  /** The records of a sequence of elements, all-or-nothing. */
  function ElementRecords(cat: Category, elems: seq<Json>): Option<seq<DacgInfoContainer>>
    decreases |elems|
  {
    if elems == [] then Some([])
    else
      match ElementRecords(cat, elems[..|elems| - 1])
      case None => None
      case Some(prefix) =>
        match ElementRecord(cat, elems[|elems| - 1])
        case None => None
        case Some(rec) => Some(prefix + [rec])
  }

  /** The walk succeeds exactly when every element yields a record, and then lists those records in order. */
  lemma {:induction false} ElementRecordsSpec(cat: Category, elems: seq<Json>)
    ensures ElementRecords(cat, elems).Some? <==> forall e :: e in elems ==> ElementRecord(cat, e).Some?
    ensures ElementRecords(cat, elems).Some? ==>
              |ElementRecords(cat, elems).value| == |elems| &&
              forall i :: 0 <= i < |elems| ==> ElementRecord(cat, elems[i]) == Some(ElementRecords(cat, elems).value[i])
    decreases |elems|
  {
    if elems != [] {
      var init, last := elems[..|elems| - 1], elems[|elems| - 1];
      assert elems == init + [last];
      ElementRecordsSpec(cat, init);
    }
  }

  /** The elements a category loop visits: the children of `<category>.checker_meta_data`, none when absent. */
  function Elements(root: Json, cat: Category): seq<Json> {
    match Get(root, CategoryKey(cat))
    case None => []
    case Some(top) =>
      match Get(top, MetaDataKey)
      case None => []
      case Some(metaData) => Children(metaData)
  }

  /** The category object and its `checker_meta_data` exist and every element is valid. */
  predicate WellFormedCategory(root: Json, cat: Category) {
    && Get(root, CategoryKey(cat)).Some?
    && Get(Get(root, CategoryKey(cat)).value, MetaDataKey).Some?
    && forall e :: e in Elements(root, cat) ==> ValidElement(cat, e)
  }

  /** One category loop, preceded by the two `get` calls that locate its array. */
  function CategoryRecords(root: Json, cat: Category): Option<seq<DacgInfoContainer>> {
    var top :- Get(root, CategoryKey(cat));
    var metaData :- Get(top, MetaDataKey);
    ElementRecords(cat, Children(metaData))
  }

  /** A category yields records exactly when it is well formed, one per element, in array order. */
  lemma CategoryRecordsSpec(root: Json, cat: Category)
    ensures CategoryRecords(root, cat).Some? <==> WellFormedCategory(root, cat)
    ensures CategoryRecords(root, cat).Some? ==>
              |CategoryRecords(root, cat).value| == |Elements(root, cat)| &&
              forall i :: 0 <= i < |Elements(root, cat)| ==>
                ElementRecord(cat, Elements(root, cat)[i]) == Some(CategoryRecords(root, cat).value[i])
  {
    var elems := Elements(root, cat);
    ElementRecordsSpec(cat, elems);
    forall e | e in elems
      ensures ElementRecord(cat, e).Some? <==> ValidElement(cat, e)
    {
      ElementRecordValid(cat, e);
    }
  }

  /** A category that yields records yields one per element. */
  lemma CategoryRecordsLength(root: Json, cat: Category)
    requires CategoryRecords(root, cat).Some?
    ensures |CategoryRecords(root, cat).value| == |Elements(root, cat)|
  {
    CategoryRecordsSpec(root, cat);
  }

  /** `parse` as a value: `None` where the source throws. */
  function ParseTree(read: Json): Option<seq<DacgInfoContainer>> {
    var root :- Get(read, DacgKey);
    var npm :- CategoryRecords(root, Npm);
    var wp :- CategoryRecords(root, Wp);
    var iis :- CategoryRecords(root, Iis);
    var technote :- CategoryRecords(root, Technote);
    var zeroboard :- CategoryRecords(root, Zeroboard);
    Some(npm + wp + iis + technote + zeroboard)
  }

  /** The file's shape is complete: `dacg`, all five categories and their arrays exist, every element is valid. */
  predicate WellFormedFile(read: Json) {
    Get(read, DacgKey).Some? && forall cat :: WellFormedCategory(Get(read, DacgKey).value, cat)
  }

  /** `parseDacgJson`: the records of one resource, or none at all when anything went wrong. */
  function FileRecords(body: ResourceBody): seq<DacgInfoContainer> {
    match body
    case Unreadable => []
    case Tree(read) => ParseTree(read).GetOr([])
  }

  /** Parsing succeeds exactly on well-formed files. */
  lemma ParseSucceedsIffWellFormed(read: Json)
    ensures ParseTree(read).Some? <==> WellFormedFile(read)
  {
    if Get(read, DacgKey).Some? {
      var root := Get(read, DacgKey).value;
      forall cat
        ensures CategoryRecords(root, cat).Some? <==> WellFormedCategory(root, cat)
      {
        CategoryRecordsSpec(root, cat);
      }
      if ParseTree(read).Some? {
        forall cat
          ensures WellFormedCategory(root, cat)
        {
          match cat
          case Npm =>
          case Wp =>
          case Iis =>
          case Technote =>
          case Zeroboard =>
        }
      }
    }
  }

  /** The number of elements under the five categories' `checker_meta_data`. */
  function TotalElements(root: Json): nat {
    |Elements(root, Npm)| + |Elements(root, Wp)| + |Elements(root, Iis)|
    + |Elements(root, Technote)| + |Elements(root, Zeroboard)|
  }

  /**
   * A successful parse lists the npm, wp, iis, technote and zeroboard records
   * in that order (each category in array order, by `CategoryRecordsSpec`),
   * one record per element of the five arrays.
   */
  lemma ParsedLayout(read: Json)
    requires ParseTree(read).Some?
    ensures Get(read, DacgKey).Some?
    ensures var root := Get(read, DacgKey).value;
            && CategoryRecords(root, Npm).Some? && CategoryRecords(root, Wp).Some?
            && CategoryRecords(root, Iis).Some? && CategoryRecords(root, Technote).Some?
            && CategoryRecords(root, Zeroboard).Some?
            && ParseTree(read).value == CategoryRecords(root, Npm).value + CategoryRecords(root, Wp).value
                                        + CategoryRecords(root, Iis).value + CategoryRecords(root, Technote).value
                                        + CategoryRecords(root, Zeroboard).value
            && |ParseTree(read).value| == TotalElements(root)
  {
    var root := Get(read, DacgKey).value;
    CategoryRecordsLength(root, Npm);
    CategoryRecordsLength(root, Wp);
    CategoryRecordsLength(root, Iis);
    CategoryRecordsLength(root, Technote);
    CategoryRecordsLength(root, Zeroboard);
  }

  /** Every record a category yields is of that category and has its required fields non-empty. */
  lemma CategoryRecordsComplete(root: Json, cat: Category)
    requires CategoryRecords(root, cat).Some?
    ensures forall r :: r in CategoryRecords(root, cat).value ==> r.Kind() == cat && r.Complete()
  {
    var list := CategoryRecords(root, cat).value;
    CategoryRecordsSpec(root, cat);
    forall r | r in list
      ensures r.Kind() == cat && r.Complete()
    {
      var i :| 0 <= i < |list| && list[i] == r;
      ElementRecordValid(cat, Elements(root, cat)[i]);
      ElementRecordFields(cat, Elements(root, cat)[i]);
    }
  }

  /** Every record a resource contributes has all of its category's required fields non-empty. */
  lemma FileRecordsComplete(body: ResourceBody)
    ensures forall r :: r in FileRecords(body) ==> r.Complete()
  {
    if body.Tree? && ParseTree(body.read).Some? {
      var read := body.read;
      ParsedLayout(read);
      var root := Get(read, DacgKey).value;
      CategoryRecordsComplete(root, Npm);
      CategoryRecordsComplete(root, Wp);
      CategoryRecordsComplete(root, Iis);
      CategoryRecordsComplete(root, Technote);
      CategoryRecordsComplete(root, Zeroboard);
    }
  }

  /** All or nothing: a resource contributes records exactly when it was read and is well formed. */
  lemma FileAllOrNothing(body: ResourceBody)
    ensures !(body.Tree? && WellFormedFile(body.read)) ==> FileRecords(body) == []
    ensures body.Tree? && WellFormedFile(body.read) ==>
              ParseTree(body.read).Some? && FileRecords(body) == ParseTree(body.read).value &&
              |FileRecords(body)| == TotalElements(Get(body.read, DacgKey).value)
  {
    if body.Tree? {
      ParseSucceedsIffWellFormed(body.read);
      if WellFormedFile(body.read) {
        ParsedLayout(body.read);
      }
    }
  }

  /** The walk over elements stops at the first element that yields no record. */
  lemma {:induction false} ElementRecordsFailFast(cat: Category, elems: seq<Json>, i: nat)
    requires i < |elems| && ElementRecord(cat, elems[i]).None?
    ensures ElementRecords(cat, elems).None?
  {
    ElementRecordsSpec(cat, elems);
    assert elems[i] in elems;
  }

  /**
   * One category loop of `parse`: locate the array (a missing node is a null
   * dereference), then append one record per element to `loadedList`; `ok`
   * is false where the source throws.
   */
  method WalkCategory(root: Json, cat: Category, loadedList: seq<DacgInfoContainer>)
    returns (list: seq<DacgInfoContainer>, ok: bool)
    ensures ok <==> CategoryRecords(root, cat).Some?
    ensures ok ==> list == loadedList + CategoryRecords(root, cat).value
  {
    var top := Get(root, CategoryKey(cat));
    if top.None? {
      return loadedList, false;
    }
    var metaDataArrayNode := Get(top.value, MetaDataKey);
    if metaDataArrayNode.None? {
      return loadedList, false;
    }
    list, ok := AppendElements(cat, Children(metaDataArrayNode.value), loadedList);
  }

  /** The `for` loop of a category: build each element's record and append it, throwing at the first failure. */
  method AppendElements(cat: Category, elems: seq<Json>, loadedList: seq<DacgInfoContainer>)
    returns (list: seq<DacgInfoContainer>, ok: bool)
    ensures ok <==> ElementRecords(cat, elems).Some?
    ensures ok ==> list == loadedList + ElementRecords(cat, elems).value
  {
    list := loadedList;
    for i := 0 to |elems|
      invariant ElementRecords(cat, elems[..i]).Some?
      invariant list == loadedList + ElementRecords(cat, elems[..i]).value
    {
      assert elems[..i + 1][..i] == elems[..i];
      var rec := ElementRecord(cat, elems[i]);
      if rec.None? {
        ElementRecordsFailFast(cat, elems, i);
        return loadedList, false;
      }
      list := list + [rec.value];
    }
    assert elems[..|elems|] == elems;
    ok := true;
  }

  /** `parse`: the five category loops in order, appending to one list. */
  method Parse(read: Json) returns (result: Option<seq<DacgInfoContainer>>)
    ensures result == ParseTree(read)
  {
    var root := Get(read, DacgKey);
    if root.None? {
      return None;
    }
    ghost var dacg := root.value;
    var loadedList: seq<DacgInfoContainer> := [];
    var ok: bool;
    loadedList, ok := WalkCategory(root.value, Npm, loadedList);
    if !ok {
      return None;
    }
    assert loadedList == CategoryRecords(dacg, Npm).value;
    loadedList, ok := WalkCategory(root.value, Wp, loadedList);
    if !ok {
      return None;
    }
    loadedList, ok := WalkCategory(root.value, Iis, loadedList);
    if !ok {
      return None;
    }
    loadedList, ok := WalkCategory(root.value, Technote, loadedList);
    if !ok {
      return None;
    }
    loadedList, ok := WalkCategory(root.value, Zeroboard, loadedList);
    if !ok {
      return None;
    }
    result := Some(loadedList);
  }

  /** `parseDacgJson`: every failure, whatever its kind, yields an empty list. */
  method ParseDacgJson(body: ResourceBody) returns (list: seq<DacgInfoContainer>)
    ensures list == FileRecords(body)
  {
    if body.Unreadable? {
      return [];
    }
    var parsed := Parse(body.read);
    if parsed.None? {
      return [];
    }
    list := parsed.value;
  }
}
