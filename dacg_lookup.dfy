/**
 * The lookup surface over a built catalog: `getInfoList` keeps every catalog
 * key whose upper-case form is among the upper-cased requested ids, in the
 * catalog's own iteration order; `getAllDacgCheckerIds` exposes the key set.
 * The iteration order of the Java HashMap is unspecified, so it is a
 * parameter here: any order that lists each key once.
 */
module DacgLookup {
  import opened AsciiCase
  import opened DacgInfo
  import opened DacgCatalog

  predicate Distinct<T(==)>(s: seq<T>) {
    forall i, j :: 0 <= i < j < |s| ==> s[i] != s[j]
  }

  /** `keyOrder` is an iteration order of the catalog's key set: every key, once. */
  predicate IsKeyOrder(keyOrder: seq<string>, catalog: map<string, DacgInfoContainer>) {
    && Distinct(keyOrder)
    && (forall k :: k in keyOrder ==> k in catalog)
    && (forall k :: k in catalog ==> k in keyOrder)
  }

  /** `checkerIds.stream().map(String::toUpperCase)` */
  function UpperIds(checkerIds: seq<string>): seq<string> {
    seq(|checkerIds|, i requires 0 <= i < |checkerIds| => Upper(checkerIds[i]))
  }

  /** Some requested id equals `k` up to case. */
  predicate Requested(k: string, checkerIds: seq<string>) {
    exists x :: x in checkerIds && Upper(x) == Upper(k)
  }

  /** The upper-case forms of the requested ids, as a set. */
  function UpperSet(checkerIds: seq<string>): set<string> {
    set x | x in checkerIds :: Upper(x)
  }

  lemma UpperIdsMembers(checkerIds: seq<string>)
    ensures forall s :: s in UpperIds(checkerIds) <==> s in UpperSet(checkerIds)
  {
    var u := UpperIds(checkerIds);
    forall s | s in UpperSet(checkerIds)
      ensures s in u
    {
      var x :| x in checkerIds && Upper(x) == s;
      var i :| 0 <= i < |checkerIds| && checkerIds[i] == x;
      assert u[i] == s;
    }
  }

  /** The filter-and-map over a list of keys: the records of the keys whose upper-case form is requested. */
  function SelectMatching(catalog: map<string, DacgInfoContainer>, keys: seq<string>, upperIds: seq<string>)
    : (r: seq<DacgInfoContainer>)
    requires Keyed(catalog)
    requires forall k :: k in keys ==> k in catalog
    ensures |r| <= |keys|
    ensures forall rec :: rec in r ==> rec.id in keys && rec.id in catalog && catalog[rec.id] == rec
                                       && Upper(rec.id) in upperIds
    ensures forall k :: k in keys && Upper(k) in upperIds ==> catalog[k] in r
    ensures Distinct(keys) ==> Distinct(r)
    decreases |keys|
  {
    if keys == [] then []
    else
      var k := keys[0];
      assert forall j :: 0 < j < |keys| ==> keys[j] == keys[1..][j - 1];
      (if Upper(k) in upperIds then [catalog[k]] else []) + SelectMatching(catalog, keys[1..], upperIds)
  }

  /** A duplicate-free list has as many distinct elements as entries. */
  lemma {:induction false} DistinctCardinality(s: seq<string>)
    requires Distinct(s)
    ensures |set x | x in s| == |s|
  {
    if s != [] {
      var rest := s[1..];
      assert Distinct(rest) by {
        forall i, j | 0 <= i < j < |rest| ensures rest[i] != rest[j] {
          assert rest[i] == s[i + 1] && rest[j] == s[j + 1];
        }
      }
      DistinctCardinality(rest);
      assert (set x | x in s) == {s[0]} + (set x | x in rest);
      assert s[0] !in (set x | x in rest);
    }
  }

  /**
   * `getInfoList`: the record of every catalog key that some requested id
   * matches up to case, each at most once, whatever the iteration order.
   */
  function GetInfoList(catalog: map<string, DacgInfoContainer>, keyOrder: seq<string>, checkerIds: seq<string>)
    : (r: seq<DacgInfoContainer>)
    requires Keyed(catalog) && IsKeyOrder(keyOrder, catalog)
    ensures forall k :: k in catalog ==> (catalog[k] in r <==> Requested(k, checkerIds))
    ensures forall rec :: rec in r ==> rec.id in catalog && catalog[rec.id] == rec
    ensures Distinct(r)
    ensures |r| <= |catalog|
    ensures checkerIds == [] ==> r == []
  {
    var upperIds := UpperIds(checkerIds);
    UpperIdsMembers(checkerIds);
    DistinctCardinality(keyOrder);
    assert (set x | x in keyOrder) == catalog.Keys;
    var r := SelectMatching(catalog, keyOrder, upperIds);
    assert r != [] ==> r[0] in r;
    r
  }

  /** `getAllDacgCheckerIds`: the catalog's key set, which is the set of ids of its records. */
  function GetAllDacgCheckerIds(catalog: map<string, DacgInfoContainer>): (ids: set<string>)
    requires Keyed(catalog)
    ensures forall k :: k in ids <==> exists rec :: rec in catalog.Values && rec.id == k
  {
    catalog.Keys
  }

  /** Selecting against two id lists with the same members gives the same records. */
  lemma {:induction false} SelectSameIds(catalog: map<string, DacgInfoContainer>, keys: seq<string>,
                                          upper1: seq<string>, upper2: seq<string>)
    requires Keyed(catalog)
    requires forall k :: k in keys ==> k in catalog
    requires forall s :: s in upper1 <==> s in upper2
    ensures SelectMatching(catalog, keys, upper1) == SelectMatching(catalog, keys, upper2)
    decreases |keys|
  {
    if keys != [] {
      SelectSameIds(catalog, keys[1..], upper1, upper2);
    }
  }

  /** The result depends only on the set of upper-cased requested ids. */
  lemma LookupDependsOnUpperSet(catalog: map<string, DacgInfoContainer>, keyOrder: seq<string>,
                                ids1: seq<string>, ids2: seq<string>)
    requires Keyed(catalog) && IsKeyOrder(keyOrder, catalog)
    requires UpperSet(ids1) == UpperSet(ids2)
    ensures GetInfoList(catalog, keyOrder, ids1) == GetInfoList(catalog, keyOrder, ids2)
  {
    UpperIdsMembers(ids1);
    UpperIdsMembers(ids2);
    SelectSameIds(catalog, keyOrder, UpperIds(ids1), UpperIds(ids2));
  }

  /** Replacing a requested id by a case variant of it does not change the result. */
  lemma LookupCaseInsensitive(catalog: map<string, DacgInfoContainer>, keyOrder: seq<string>,
                              checkerIds: seq<string>, i: nat, variant: string)
    requires Keyed(catalog) && IsKeyOrder(keyOrder, catalog)
    requires i < |checkerIds| && Upper(variant) == Upper(checkerIds[i])
    ensures GetInfoList(catalog, keyOrder, checkerIds[i := variant]) == GetInfoList(catalog, keyOrder, checkerIds)
  {
    var changed := checkerIds[i := variant];
    forall s | s in UpperSet(changed)
      ensures s in UpperSet(checkerIds)
    {
      var x :| x in changed && Upper(x) == s;
      var j :| 0 <= j < |changed| && changed[j] == x;
      assert Upper(checkerIds[j]) == s;
    }
    forall s | s in UpperSet(checkerIds)
      ensures s in UpperSet(changed)
    {
      var x :| x in checkerIds && Upper(x) == s;
      var j :| 0 <= j < |checkerIds| && checkerIds[j] == x;
      assert Upper(changed[j]) == s;
    }
    LookupDependsOnUpperSet(catalog, keyOrder, changed, checkerIds);
  }

  /** Requesting an id twice gives the same result as requesting it once. */
  lemma LookupIgnoresRepetition(catalog: map<string, DacgInfoContainer>, keyOrder: seq<string>,
                                checkerIds: seq<string>, i: nat)
    requires Keyed(catalog) && IsKeyOrder(keyOrder, catalog)
    requires i < |checkerIds|
    ensures GetInfoList(catalog, keyOrder, checkerIds + [checkerIds[i]]) == GetInfoList(catalog, keyOrder, checkerIds)
  {
    assert UpperSet(checkerIds + [checkerIds[i]]) == UpperSet(checkerIds);
    LookupDependsOnUpperSet(catalog, keyOrder, checkerIds + [checkerIds[i]], checkerIds);
  }

  /** A duplicate-free list holds each of its elements once. */
  lemma {:induction false} DistinctMultiplicity(s: seq<DacgInfoContainer>)
    requires Distinct(s)
    ensures forall x :: multiset(s)[x] == if x in s then 1 else 0
  {
    if s != [] {
      var rest := s[1..];
      assert s == [s[0]] + rest;
      assert Distinct(rest) by {
        forall i, j | 0 <= i < j < |rest| ensures rest[i] != rest[j] {
          assert rest[i] == s[i + 1] && rest[j] == s[j + 1];
        }
      }
      DistinctMultiplicity(rest);
      assert s[0] !in rest;
    }
  }

  /** The HashMap's iteration order only reorders the result: the same records, each once. */
  lemma LookupOrderIrrelevant(catalog: map<string, DacgInfoContainer>, order1: seq<string>, order2: seq<string>,
                              checkerIds: seq<string>)
    requires Keyed(catalog) && IsKeyOrder(order1, catalog) && IsKeyOrder(order2, catalog)
    ensures multiset(GetInfoList(catalog, order1, checkerIds)) == multiset(GetInfoList(catalog, order2, checkerIds))
  {
    var r1, r2 := GetInfoList(catalog, order1, checkerIds), GetInfoList(catalog, order2, checkerIds);
    DistinctMultiplicity(r1);
    DistinctMultiplicity(r2);
    forall x
      ensures multiset(r1)[x] == multiset(r2)[x]
    {
      if x in r1 {
        assert catalog[x.id] == x;
      }
      if x in r2 {
        assert catalog[x.id] == x;
      }
    }
  }
}
