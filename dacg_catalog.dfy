/**
 * Catalog merge (`load`): keep the resources whose lower-cased name ends in
 * `.json`, parse each, and put every record into one map keyed by its id,
 * in listing order, so that a later record with the same id replaces an
 * earlier one. A failed listing leaves the map empty.
 */
module DacgCatalog {
  import opened AsciiCase
  import opened DacgInfo
  import opened DacgParse

  const JsonSuffix := ".json"

  /** A listed resource: its name and its contents. */
  datatype Resource = Resource(name: string, body: ResourceBody)

  /** The outcome of listing the resource directory, in the order the listing returns. */
  datatype Listing = ListingFailed | Listed(resources: seq<Resource>)

  /** `dj.toLowerCase().endsWith(".json")` */
  predicate IsJsonResource(name: string) {
    EndsWith(Lower(name), JsonSuffix)
  }

  /** What one listed resource adds to the record stream. */
  function Contribution(res: Resource): seq<DacgInfoContainer> {
    if IsJsonResource(res.name) then FileRecords(res.body) else []
  }

  /** `stream.map(f).flatMap(List::stream)`: the lists `f` yields, concatenated in order. */
  function FlatMap<A, B>(f: A -> seq<B>, xs: seq<A>): seq<B> {
    if xs == [] then []
    else FlatMap(f, xs[..|xs| - 1]) + f(xs[|xs| - 1])
  }

  /** The flattened record stream of a listing, in listing order and then in-file order. */
  function ListedRecords(resources: seq<Resource>): seq<DacgInfoContainer> {
    FlatMap(Contribution, resources)
  }

  function LoadedRecords(listing: Listing): seq<DacgInfoContainer> {
    match listing
    case ListingFailed => []
    case Listed(resources) => ListedRecords(resources)
  }

  /** `put(dic.getId(), dic)` for every record, in order. */
  function PutAll(m: map<string, DacgInfoContainer>, recs: seq<DacgInfoContainer>): map<string, DacgInfoContainer> {
    if recs == [] then m
    else
      var last := recs[|recs| - 1];
      PutAll(m, recs[..|recs| - 1])[last.id := last]
  }

  /** The catalog `load` returns, as a value. */
  function BuildCatalog(listing: Listing): map<string, DacgInfoContainer> {
    PutAll(map[], LoadedRecords(listing))
  }

  function Ids(recs: seq<DacgInfoContainer>): set<string> {
    set r | r in recs :: r.id
  }

  /** Every entry is stored under its own id. */
  predicate Keyed(catalog: map<string, DacgInfoContainer>) {
    forall k :: k in catalog ==> catalog[k].id == k
  }

  /** `r` is the last record with id `k` in `recs`. */
  ghost predicate IsLastWithId(recs: seq<DacgInfoContainer>, k: string, r: DacgInfoContainer) {
    exists i :: 0 <= i < |recs| && recs[i] == r && r.id == k && forall j :: i < j < |recs| ==> recs[j].id != k
  }

  /** Putting records into a map adds exactly their ids as keys and leaves the other entries alone. */
  lemma {:induction false} PutAllKeys(m: map<string, DacgInfoContainer>, recs: seq<DacgInfoContainer>)
    ensures PutAll(m, recs).Keys == m.Keys + Ids(recs)
    ensures forall k :: k in m && k !in Ids(recs) ==> PutAll(m, recs)[k] == m[k]
    decreases |recs|
  {
    if recs != [] {
      var init, last := recs[..|recs| - 1], recs[|recs| - 1];
      assert recs == init + [last];
      PutAllKeys(m, init);
      assert Ids(recs) == Ids(init) + {last.id};
    }
  }

  /** Putting records under their own ids keeps every entry under its own id. */
  lemma {:induction false} PutAllKeyed(m: map<string, DacgInfoContainer>, recs: seq<DacgInfoContainer>)
    requires Keyed(m)
    ensures Keyed(PutAll(m, recs))
    decreases |recs|
  {
    if recs != [] {
      PutAllKeyed(m, recs[..|recs| - 1]);
    }
  }

  /** Last one wins: each added key is bound to the last record with that id. */
  lemma {:induction false} PutAllLastWins(m: map<string, DacgInfoContainer>, recs: seq<DacgInfoContainer>)
    ensures forall k :: k in Ids(recs) ==> k in PutAll(m, recs) && IsLastWithId(recs, k, PutAll(m, recs)[k])
    decreases |recs|
  {
    if recs != [] {
      var init, last := recs[..|recs| - 1], recs[|recs| - 1];
      assert recs == init + [last];
      PutAllLastWins(m, init);
      assert Ids(recs) == Ids(init) + {last.id};
      var result := PutAll(m, recs);
      forall k | k in Ids(recs)
        ensures k in result && IsLastWithId(recs, k, result[k])
      {
        if k == last.id {
          assert recs[|recs| - 1] == result[k];
        } else {
          var i :| 0 <= i < |init| && init[i] == PutAll(m, init)[k] && init[i].id == k
                   && forall j :: i < j < |init| ==> init[j].id != k;
          assert recs[i] == result[k];
        }
      }
    }
  }

  /** Putting a concatenation is putting one list after the other. */
  lemma {:induction false} PutAllAppend(m: map<string, DacgInfoContainer>, a: seq<DacgInfoContainer>, b: seq<DacgInfoContainer>)
    ensures PutAll(m, a + b) == PutAll(PutAll(m, a), b)
    decreases |b|
  {
    if b == [] {
      assert a + b == a;
    } else {
      var init, last := b[..|b| - 1], b[|b| - 1];
      assert (a + b)[..|a + b| - 1] == a + init;
      PutAllAppend(m, a, init);
    }
  }

  /** Flattening a concatenation is concatenating the flattenings. */
  lemma {:induction false} FlatMapAppend<A, B>(f: A -> seq<B>, a: seq<A>, b: seq<A>)
    ensures FlatMap(f, a + b) == FlatMap(f, a) + FlatMap(f, b)
    decreases |b|
  {
    if b == [] {
      assert a + b == a;
    } else {
      var init := b[..|b| - 1];
      assert (a + b)[..|a + b| - 1] == a + init;
      FlatMapAppend(f, a, init);
    }
  }

  /**
   * A resource contributes records only when its name passes the `.json`
   * filter and its tree is well formed; then it contributes its whole parse.
   */
  lemma ContributionAllOrNothing(res: Resource)
    ensures !IsJsonResource(res.name) ==> Contribution(res) == []
    ensures !(res.body.Tree? && WellFormedFile(res.body.read)) ==> Contribution(res) == []
    ensures IsJsonResource(res.name) && res.body.Tree? && WellFormedFile(res.body.read) ==>
              ParseTree(res.body.read).Some? && Contribution(res) == ParseTree(res.body.read).value
    ensures forall r :: r in Contribution(res) ==> r.Complete()
  {
    FileAllOrNothing(res.body);
    FileRecordsComplete(res.body);
  }

  /**
   * A resource that contributes nothing (a name without the `.json` suffix,
   * an unreadable or malformed file) can be removed from the listing without
   * changing the catalog.
   */
  lemma SilentResourceIgnored(before: seq<Resource>, res: Resource, after: seq<Resource>)
    requires Contribution(res) == []
    ensures BuildCatalog(Listed(before + [res] + after)) == BuildCatalog(Listed(before + after))
  {
    assert [res][..0] == [];
    assert FlatMap(Contribution, [res]) == [];
    calc {
      ListedRecords(before + [res] + after);
      { FlatMapAppend(Contribution, before + [res], after); }
      ListedRecords(before + [res]) + ListedRecords(after);
      { FlatMapAppend(Contribution, before, [res]); assert ListedRecords(before) + [] == ListedRecords(before); }
      ListedRecords(before) + ListedRecords(after);
      { FlatMapAppend(Contribution, before, after); }
      ListedRecords(before + after);
    }
  }

  /**
   * The catalog's keys are exactly the ids of the records of the successfully
   * parsed files, each key is bound to the last record with that id in
   * listing order, and every entry is complete and stored under its own id.
   */
  lemma CatalogSpec(listing: Listing)
    ensures listing.ListingFailed? ==> BuildCatalog(listing) == map[]
    ensures Keyed(BuildCatalog(listing))
    ensures BuildCatalog(listing).Keys == Ids(LoadedRecords(listing))
    ensures forall k :: k in BuildCatalog(listing) ==> IsLastWithId(LoadedRecords(listing), k, BuildCatalog(listing)[k])
    ensures forall k :: k in BuildCatalog(listing) ==> BuildCatalog(listing)[k].Complete()
  {
    PutAllKeys(map[], LoadedRecords(listing));
    PutAllKeyed(map[], LoadedRecords(listing));
    PutAllLastWins(map[], LoadedRecords(listing));
    if listing.Listed? {
      ListedComplete(listing.resources);
    }
    forall k | k in BuildCatalog(listing)
      ensures BuildCatalog(listing)[k].Complete()
    {
      var i :| 0 <= i < |LoadedRecords(listing)| && LoadedRecords(listing)[i] == BuildCatalog(listing)[k]
               && LoadedRecords(listing)[i].id == k
               && forall j :: i < j < |LoadedRecords(listing)| ==> LoadedRecords(listing)[j].id != k;
    }
  }

  /** Every record in the stream has its category's required fields non-empty. */
  lemma {:induction false} ListedComplete(resources: seq<Resource>)
    ensures forall r :: r in ListedRecords(resources) ==> r.Complete()
    decreases |resources|
  {
    if resources != [] {
      ListedComplete(resources[..|resources| - 1]);
      ContributionAllOrNothing(resources[|resources| - 1]);
    }
  }

  /**
   * `load`: list the resources (an error leaves the map empty), keep the
   * `.json` ones, parse each and put every record under its id.
   */
  method Load(listing: Listing) returns (loaded: map<string, DacgInfoContainer>)
    ensures loaded == BuildCatalog(listing)
    ensures listing.ListingFailed? ==> loaded == map[]
    ensures Keyed(loaded)
    ensures loaded.Keys == Ids(LoadedRecords(listing))
    ensures forall k :: k in loaded ==> IsLastWithId(LoadedRecords(listing), k, loaded[k])
    ensures forall k :: k in loaded ==> loaded[k].Complete()
  {
    CatalogSpec(listing);
    loaded := map[];
    if listing.ListingFailed? {
      return;
    }
    var jsonResources := listing.resources;
    for i := 0 to |jsonResources|
      invariant loaded == PutAll(map[], ListedRecords(jsonResources[..i]))
    {
      assert jsonResources[..i + 1][..i] == jsonResources[..i];
      ghost var before := loaded;
      if IsJsonResource(jsonResources[i].name) {
        var dics := ParseDacgJson(jsonResources[i].body);
        for j := 0 to |dics|
          invariant loaded == PutAll(before, dics[..j])
        {
          assert dics[..j + 1][..j] == dics[..j];
          loaded := loaded[dics[j].id := dics[j]];
        }
        assert dics[..|dics|] == dics;
      }
      PutAllAppend(map[], ListedRecords(jsonResources[..i]), Contribution(jsonResources[i]));
    }
    assert jsonResources[..|jsonResources|] == jsonResources;
  }
}
