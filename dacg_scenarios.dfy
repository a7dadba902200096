/**
 * Concrete resource files worked out in the model, as lemmas on fixed
 * inputs: a file with a single npm record and four empty categories, a file
 * that names only the npm category, two sources that both define the same
 * id, and a catalog whose keys differ only in case.
 */
module DacgScenarios {
  import opened Wrappers
  import opened JsonNode
  import opened DacgInfo
  import opened DacgParse
  import opened DacgCatalog
  import opened DacgLookup

  /** A category object whose `checker_meta_data` array holds `elems`. */
  function CategoryNode(elems: seq<Json>): Json {
    Obj([(MetaDataKey, Arr(elems))])
  }

  const LeftPadElement := Obj([("library", Str("left-pad")), ("versionInterval", Str("<1.3.0")),
                              ("vulnerability", Str("proto-pollution")), ("id", Str("NPM-001"))])

  const LeftPad := NpmDacgInfo("left-pad", "<1.3.0", "proto-pollution", "NPM-001")

  /** The members of `dacg`: all five categories, only npm with an element. */
  const SingleNpmCategories := [("npm", CategoryNode([LeftPadElement])),
                                ("wp", CategoryNode([])), ("iis", CategoryNode([])),
                                ("technote", CategoryNode([])), ("zeroboard", CategoryNode([]))]

  const SingleNpmFile := Obj([(DacgKey, Obj(SingleNpmCategories))])

  /** The same npm record, with the four other categories missing. */
  const NpmOnlyFile := Obj([(DacgKey, Obj([("npm", CategoryNode([LeftPadElement]))]))])

  /** The walk over one category whose array holds `elems`. */
  lemma CategoryOf(root: Json, cat: Category, elems: seq<Json>)
    requires Get(root, CategoryKey(cat)) == Some(CategoryNode(elems))
    ensures CategoryRecords(root, cat) == ElementRecords(cat, elems)
  {
  }

  lemma SingleNpmLookups()
    ensures var root := Obj(SingleNpmCategories);
            && Get(root, "npm") == Some(CategoryNode([LeftPadElement]))
            && Get(root, "wp") == Some(CategoryNode([]))
            && Get(root, "iis") == Some(CategoryNode([]))
            && Get(root, "technote") == Some(CategoryNode([]))
            && Get(root, "zeroboard") == Some(CategoryNode([]))
  {
    var cs := SingleNpmCategories;
    assert cs[1..][1..][1..][1..] == [("zeroboard", CategoryNode([]))];
    assert cs[1..][1..][1..] == [("technote", CategoryNode([]))] + cs[1..][1..][1..][1..];
    assert cs[1..][1..] == [("iis", CategoryNode([]))] + cs[1..][1..][1..];
    assert cs[1..] == [("wp", CategoryNode([]))] + cs[1..][1..];
    assert "npm" != "wp" && Member(cs, "wp") == Member(cs[1..], "wp");
    assert "npm" != "iis" && Member(cs, "iis") == Member(cs[1..], "iis");
    assert "wp" != "iis" && Member(cs[1..], "iis") == Member(cs[1..][1..], "iis");
    assert "npm" != "technote" && Member(cs, "technote") == Member(cs[1..], "technote");
    assert "wp" != "technote" && Member(cs[1..], "technote") == Member(cs[1..][1..], "technote");
    assert "iis" != "technote" && Member(cs[1..][1..], "technote") == Member(cs[1..][1..][1..], "technote");
    assert "npm" != "zeroboard" && Member(cs, "zeroboard") == Member(cs[1..], "zeroboard");
    assert "wp" != "zeroboard" && Member(cs[1..], "zeroboard") == Member(cs[1..][1..], "zeroboard");
    assert "iis" != "zeroboard" && Member(cs[1..][1..], "zeroboard") == Member(cs[1..][1..][1..], "zeroboard");
    assert "technote" != "zeroboard" && Member(cs[1..][1..][1..], "zeroboard") == Member(cs[1..][1..][1..][1..], "zeroboard");
  }

  lemma LeftPadRecord()
    ensures ElementRecords(Npm, [LeftPadElement]) == Some([LeftPad])
  {
    assert ElementRecord(Npm, LeftPadElement) == Some(LeftPad);
    assert [LeftPadElement][..0] == [];
    assert ElementRecords(Npm, []) == Some([]);
    assert [] + [LeftPad] == [LeftPad];
  }

  /** The single npm record is the whole content of the file. */
  lemma SingleNpmRecordFile()
    ensures FileRecords(Tree(SingleNpmFile)) == [LeftPad]
  {
    var root := Obj(SingleNpmCategories);
    assert Get(SingleNpmFile, DacgKey) == Some(root);
    SingleNpmLookups();
    LeftPadRecord();
    CategoryOf(root, Npm, [LeftPadElement]);
    CategoryOf(root, Wp, []);
    CategoryOf(root, Iis, []);
    CategoryOf(root, Technote, []);
    CategoryOf(root, Zeroboard, []);
    assert ParseTree(SingleNpmFile) == Some([LeftPad] + [] + [] + [] + []);
  }

  /** Flattening a one-element sequence yields that element's image. */
  lemma FlatMapOne<A, B>(f: A -> seq<B>, x: A)
    ensures FlatMap(f, [x]) == f(x)
  {
  }

  /** Putting one record adds or replaces the entry of its id. */
  lemma PutAllOne(m: map<string, DacgInfoContainer>, rec: DacgInfoContainer)
    ensures PutAll(m, [rec]) == m[rec.id := rec]
  {
  }

  /** Merging the records of one source that yields one record gives a one-entry map. */
  lemma SingleSource<A>(f: A -> seq<DacgInfoContainer>, x: A, rec: DacgInfoContainer)
    requires f(x) == [rec]
    ensures PutAll(map[], FlatMap(f, [x])) == map[rec.id := rec]
  {
  }

  /** `dacg.json` passes the `.json` filter. */
  lemma DacgJsonName()
    ensures IsJsonResource("dacg.json")
  {
  }

  /** Loading a listing of one `dacg.json` holding that file yields a one-entry catalog. */
  lemma SingleNpmRecordCatalog()
    ensures BuildCatalog(Listed([Resource("dacg.json", Tree(SingleNpmFile))])) == map["NPM-001" := LeftPad]
  {
    var res := Resource("dacg.json", Tree(SingleNpmFile));
    SingleNpmRecordFile();
    DacgJsonName();
    assert Contribution(res) == [LeftPad];
    SingleSource(Contribution, res, LeftPad);
  }

  /**
   * Merging the records of two sources, one record each with the same id,
   * keeps the second; with `f := Contribution` the sources are two listed
   * files and the result is `BuildCatalog(Listed([x, y]))`.
   */
  lemma SecondSourceWins<A>(f: A -> seq<DacgInfoContainer>, x: A, y: A, a: DacgInfoContainer, b: DacgInfoContainer)
    requires f(x) == [a] && f(y) == [b] && a.id == b.id
    ensures PutAll(map[], FlatMap(f, [x, y])) == map[b.id := b]
  {
    assert [x, y] == [x] + [y];
    FlatMapAppend(f, [x], [y]);
    FlatMapOne(f, x);
    FlatMapOne(f, y);
    PutAllAppend(map[], [a], [b]);
    PutAllOne(map[], a);
    PutAllOne(map[a.id := a], b);
  }

  /** In that catalog `NPM-001` is found as `npm-001`, and `NPM-002` finds nothing. */
  lemma SingleNpmRecordLookup()
    ensures GetInfoList(map["NPM-001" := LeftPad], ["NPM-001"], ["npm-001"]) == [LeftPad]
    ensures GetInfoList(map["NPM-001" := LeftPad], ["NPM-001"], ["NPM-002"]) == []
  {
    assert AsciiCase.Upper("npm-001") == "NPM-001";
    assert AsciiCase.Upper("NPM-001") == "NPM-001";
    assert AsciiCase.Upper("NPM-002") == "NPM-002";
    assert UpperIds(["npm-001"]) == ["NPM-001"];
    assert UpperIds(["NPM-002"]) == ["NPM-002"];
  }

  /** A file that names only the npm category throws at the missing `wp` object and contributes nothing. */
  lemma NpmOnlyFileYieldsNothing()
    ensures FileRecords(Tree(NpmOnlyFile)) == []
  {
    var root := Get(NpmOnlyFile, DacgKey).value;
    var ms := [("npm", CategoryNode([LeftPadElement]))];
    assert root == Obj(ms) && ms[1..] == [];
    assert "npm" != "wp" && Member(ms, "wp") == Member(ms[1..], "wp");
    assert Get(root, "wp") == None;
    assert CategoryRecords(root, Wp) == None;
  }

  const LowerAb := NpmDacgInfo("lib", "<1.0", "vuln", "ab")
  const UpperAb := NpmDacgInfo("lib", "<1.0", "vuln", "AB")

  /**
   * The filter runs over the catalog's keys, so one requested id returns
   * every key that matches it up to case: `Ab` finds both `ab` and `AB`.
   */
  lemma OneIdManyRecords()
    ensures GetInfoList(map["ab" := LowerAb, "AB" := UpperAb], ["ab", "AB"], ["Ab"]) == [LowerAb, UpperAb]
  {
    assert AsciiCase.Upper("Ab") == "AB";
    assert AsciiCase.Upper("ab") == "AB";
    assert AsciiCase.Upper("AB") == "AB";
    assert UpperIds(["Ab"]) == ["AB"];
    assert ["ab", "AB"][1..] == ["AB"] && ["AB"][1..] == [];
  }
}
