# DACG checker catalog loader

`DacgInfoLoader` builds the catalog of DACG checkers once, when the class is
initialised. It lists the resource directory and keeps the resources whose
lower-cased name ends in `.json`. It parses each one into checker records of
five kinds: npm, wp, iis, technote and zeroboard. It then puts every record
into one map keyed by checker id, so a later record with the same id replaces
an earlier one. Two functions give callers access to the map. `getInfoList`
returns the records whose id matches a requested id up to case.
`getAllDacgCheckerIds` returns the map's key set, as a live view through
which a caller could also remove entries (see "Left out").

A resource file contributes all of its records or none of them. Parsing stops
at the first problem, and the records gathered so far are dropped. Problems
include:

- a missing `dacg` object;
- a missing category object;
- a missing `checker_meta_data` member;
- a missing or non-text required field;
- an empty required field.

Modules:

- `Wrappers`: the `Option` type, with `:-` propagation standing for a thrown exception.
- `JsonNode`: the parsed JSON tree as Jackson presents it. It models `get`
  (`None` for Java `null`), the for-each children of a node, and `textValue`.
- `AsciiCase`: the `toUpperCase` / `toLowerCase` and `endsWith` calls.
- `DacgInfo`: the five record kinds, and each category's required fields in
  the order the loader reads them.
- `DacgParse`: `parse` and `parseDacgJson`. The imperative methods `Parse`,
  `WalkCategory`, `AppendElements` and `ParseDacgJson` follow the source's
  loops. They are proved equal to the functional definitions `ParseTree` and
  `FileRecords`, and the lemmas state what those definitions mean.
- `DacgCatalog`: `load`. The method `Load` keeps a `map` that it updates one
  record at a time, as `HashMap.put` does. It is proved equal to
  `BuildCatalog` and to the catalog's properties.
- `DacgLookup`: `getInfoList` and `getAllDacgCheckerIds` over a built catalog.
- `DacgScenarios`: concrete resource files worked out in the model, as lemmas on fixed inputs.

Inputs the model takes as parameters:

- The resource listing is a `Listing`: either a failure (`ListingFailed`), or
  the resources in listing order, each with its name and its contents.
- A resource's contents are a parsed JSON tree, or `Unreadable` when Jackson
  cannot read the stream.
- `HashMap` iteration order is unspecified, so `getInfoList` takes the order
  of the catalog's keys as an argument (`keyOrder`). Any order that lists
  every key once is accepted.

A file must contain all five categories. The source dereferences each
category object and its `checker_meta_data` without a null check. A file
that names only `npm` therefore throws at `wp` and contributes nothing, even
when its npm records are valid (`DacgScenarios.NpmOnlyFileYieldsNothing`). A
file whose npm record `NPM-001` is found as `npm-001` must carry the four
other categories, even as empty arrays (`DacgScenarios.SingleNpmRecordFile`).

`getInfoList` filters the catalog's keys, not the requested ids. One requested
id therefore returns every record whose key matches it up to case. With keys
`ab` and `AB`, the request `["Ab"]` returns two records
(`DacgScenarios.OneIdManyRecords`). The result can thus be longer than the
list of requested ids. It is bounded by the catalog's size, not by the
number of ids requested.

## Model

| member | source | states |
|---|---|---|
| JsonNode.Get | DacgInfoLoader/DacgInfoLoader.java:95-100 | `get` on an object answers the value bound to the key (its first binding), and `None` (Java `null`) for an absent key or a non-object node; its properties are `JsonNode.MemberSpec`. |
| JsonNode.MemberSpec | DacgInfoLoader/DacgInfoLoader.java:95-100 | A key is found iff the object binds it, and the answer is the value of its first binding. |
| JsonNode.Children | DacgInfoLoader/DacgInfoLoader.java:101 | The for-each over a node visits an array's elements, or an object's member values, in order. It visits nothing for any other node. |
| JsonNode.TextValue | DacgInfoLoader/DacgInfoLoader.java:103-109 | `textValue()` is the text of a string node and `None` (Java `null`) for every other node. |
| AsciiCase.Upper | DacgInfoLoader/DacgInfoLoader.java:233-235 | `toUpperCase` keeps the length and each character up to case (the result lower-cases to what the input lower-cases to, position by position), and leaves no ASCII lower-case letter. |
| AsciiCase.Lower | DacgInfoLoader/DacgInfoLoader.java:54 | `toLowerCase` keeps the length and each character up to case (the result upper-cases to what the input upper-cases to, position by position), and leaves no ASCII upper-case letter. |
| AsciiCase.EndsWith | DacgInfoLoader/DacgInfoLoader.java:54 | `endsWith`: the suffix is no longer than the string and equals its last characters; its use in the filter is stated by `DacgCatalog.ContributionAllOrNothing`. |
| DacgInfo.New | DacgInfoLoader/DacgInfoLoader.java:117 | The constructor call of a category (here npm, likewise lines 143, 169, 193 and 217) builds a record of that category whose fields are the given values, in read order. |
| DacgParse.TextField | DacgInfoLoader/DacgInfoLoader.java:103-109 | `elem.get(field).textValue()`: the text of a present string field, `None` (a null dereference or a null text) otherwise; its use is stated by `FieldTextsSpec`. |
| DacgParse.FieldTexts | DacgInfoLoader/DacgInfoLoader.java:103-109 | Reading the required fields in order yields one text per field when it succeeds. |
| DacgParse.FieldTextsSpec | DacgInfoLoader/DacgInfoLoader.java:103-109 | The field reads succeed iff every field is present as a text node. The i-th text is the text of the i-th field. |
| DacgParse.ElementRecord | DacgInfoLoader/DacgInfoLoader.java:101-118 | The body of one category loop for one element: read the required fields, throw (`None`) on a missing, non-text or empty one, else build the category's record; its properties are `ElementRecordValid` and `ElementRecordFields`. |
| DacgParse.ElementRecordValid | DacgInfoLoader/DacgInfoLoader.java:101-118 | An element yields a record iff every required field of its category is present, a text node and non-empty. The record has the element's category. |
| DacgParse.ElementRecordFields | DacgInfoLoader/DacgInfoLoader.java:112-117 | A record built from an element carries exactly the element's field texts, and none of them is empty. |
| DacgParse.ElementRecords | DacgInfoLoader/DacgInfoLoader.java:101-119 | The for loop of a category as a value: the elements' records in array order, `None` at the first element that throws; its properties are `ElementRecordsSpec` and `ElementRecordsFailFast`. |
| DacgParse.ElementRecordsSpec | DacgInfoLoader/DacgInfoLoader.java:101-119 | The loop over an array succeeds iff every element yields a record. It then yields one record per element, in array order. |
| DacgParse.ElementRecordsFailFast | DacgInfoLoader/DacgInfoLoader.java:112-114 | One element without a record makes the whole array fail. |
| DacgParse.Elements | DacgInfoLoader/DacgInfoLoader.java:100-101 | The nodes the for-each of a category visits: the children of `<category>.checker_meta_data`; used by `WellFormedCategory` and `CategoryRecordsSpec`. |
| DacgParse.CategoryRecords | DacgInfoLoader/DacgInfoLoader.java:97-119 | One category block as a value: the two `get` calls, then the for loop; `None` where the block throws. Its properties are `CategoryRecordsSpec`, `CategoryRecordsLength` and `CategoryRecordsComplete`. |
| DacgParse.CategoryRecordsSpec | DacgInfoLoader/DacgInfoLoader.java:97-119 | A category yields records iff its object and `checker_meta_data` exist and every element is valid. The i-th record is the i-th element's record. |
| DacgParse.CategoryRecordsLength | DacgInfoLoader/DacgInfoLoader.java:101-119 | A category that succeeds yields as many records as its array has elements. |
| DacgParse.CategoryRecordsComplete | DacgInfoLoader/DacgInfoLoader.java:112-117 | Every record of a category has that category and no empty required field. |
| DacgParse.ParseTree | DacgInfoLoader/DacgInfoLoader.java:89-224 | `parse` as a value: `dacg`, then the five category loops in source order, concatenated; `None` where the source throws. Its properties are `ParseSucceedsIffWellFormed` and `ParsedLayout`. |
| DacgParse.FileRecords | DacgInfoLoader/DacgInfoLoader.java:70-81 | `parseDacgJson` as a value: the parse of a readable file, or the empty list when reading fails or `parse` throws; its properties are `FileAllOrNothing` and `FileRecordsComplete`. |
| DacgParse.ParseSucceedsIffWellFormed | DacgInfoLoader/DacgInfoLoader.java:89-224 | `parse` returns without throwing iff `dacg` exists and all five categories are well formed. |
| DacgParse.ParsedLayout | DacgInfoLoader/DacgInfoLoader.java:97-219 | A successful parse lists the npm, wp, iis, technote and zeroboard records in that order. Their total count is the number of elements of the five arrays. |
| DacgParse.FileRecordsComplete | DacgInfoLoader/DacgInfoLoader.java:70-81 | Every record `parseDacgJson` returns has all required fields non-empty. |
| DacgParse.FileAllOrNothing | DacgInfoLoader/DacgInfoLoader.java:70-81 | An unreadable or malformed file yields the empty list. A well-formed file yields the full parse, one record per element. |
| DacgParse.AppendElements | DacgInfoLoader/DacgInfoLoader.java:101-119 | The element loop succeeds iff every element yields a record. It then returns the input list followed by those records. |
| DacgParse.WalkCategory | DacgInfoLoader/DacgInfoLoader.java:97-119 | One category block succeeds iff the category yields records. It then appends exactly those records to the running list. |
| DacgParse.Parse | DacgInfoLoader/DacgInfoLoader.java:89-224 | The imperative `parse` returns exactly `ParseTree`, and throws (`None`) exactly where `ParseTree` fails. |
| DacgParse.ParseDacgJson | DacgInfoLoader/DacgInfoLoader.java:70-81 | `parseDacgJson` returns the file's records, or the empty list whenever `parse` throws or the stream cannot be read. |
| DacgCatalog.IsJsonResource | DacgInfoLoader/DacgInfoLoader.java:54 | A resource is kept when its lower-cased name ends in `.json`; its effect is stated by `ContributionAllOrNothing`. |
| DacgCatalog.Contribution | DacgInfoLoader/DacgInfoLoader.java:54-55 | What one listed resource adds to the record stream: its `parseDacgJson` records when its name passes the `.json` filter, else nothing; its properties are `ContributionAllOrNothing` and `SilentResourceIgnored`. |
| DacgCatalog.FlatMap | DacgInfoLoader/DacgInfoLoader.java:55 | `map(f).flatMap(List::stream)`: the lists `f` yields, concatenated in order; its property is `FlatMapAppend`. |
| DacgCatalog.ListedRecords | DacgInfoLoader/DacgInfoLoader.java:54-55 | The record stream of a listing: every resource's contribution, in listing order; its properties are `ListedComplete` and `SilentResourceIgnored`. |
| DacgCatalog.LoadedRecords | DacgInfoLoader/DacgInfoLoader.java:51-57 | The records put into the map: none when listing fails (the catch at 57), else the listing's record stream; its use is stated by `CatalogSpec`. |
| DacgCatalog.PutAll | DacgInfoLoader/DacgInfoLoader.java:56 | `put(dic.getId(), dic)` for every record of a stream, in order; its properties are `PutAllKeys`, `PutAllKeyed`, `PutAllLastWins` and `PutAllAppend`. |
| DacgCatalog.BuildCatalog | DacgInfoLoader/DacgInfoLoader.java:48-63 | `load` as a value: the puts of the merged record stream of a listing, or the empty map when listing fails; its properties are `CatalogSpec`. |
| DacgCatalog.PutAllKeys | DacgInfoLoader/DacgInfoLoader.java:56 | After the puts, the keys are the old keys plus the records' ids. Keys no record names keep their old value. |
| DacgCatalog.PutAllKeyed | DacgInfoLoader/DacgInfoLoader.java:56 | Putting each record under its own id keeps every key mapped to a record with that id. |
| DacgCatalog.PutAllLastWins | DacgInfoLoader/DacgInfoLoader.java:56 | For every id put, the map holds the last record with that id. |
| DacgCatalog.PutAllAppend | DacgInfoLoader/DacgInfoLoader.java:54-56 | Putting a concatenated stream is putting its first part and then its second. |
| DacgCatalog.FlatMapAppend | DacgInfoLoader/DacgInfoLoader.java:55 | Flattening a concatenation of resources concatenates their record lists. |
| DacgCatalog.ContributionAllOrNothing | DacgInfoLoader/DacgInfoLoader.java:54-55 | A resource not named `*.json` (any case), or one that is unreadable or malformed, contributes nothing. A `.json` resource with a well-formed tree contributes its whole parse. What it contributes is complete. |
| DacgCatalog.SilentResourceIgnored | DacgInfoLoader/DacgInfoLoader.java:54-56 | Removing a resource that contributes nothing from the listing leaves the catalog unchanged. |
| DacgCatalog.ListedComplete | DacgInfoLoader/DacgInfoLoader.java:54-56 | Every record in the merged stream is complete. |
| DacgCatalog.CatalogSpec | DacgInfoLoader/DacgInfoLoader.java:48-63 | A failed listing gives the empty map. Otherwise every key maps to a record with that id, the key set is the set of loaded ids, each value is the last record loaded with its id, and every value is complete. |
| DacgCatalog.Load | DacgInfoLoader/DacgInfoLoader.java:48-63 | The imperative `load` returns `BuildCatalog`, with every property of `CatalogSpec`. |
| DacgLookup.UpperIds | DacgInfoLoader/DacgInfoLoader.java:233 | The requested ids, each upper-cased, in request order; `UpperIdsMembers` states its contents. |
| DacgLookup.UpperIdsMembers | DacgInfoLoader/DacgInfoLoader.java:233 | The upper-cased id list holds exactly the upper-case forms of the requested ids. |
| DacgLookup.SelectMatching | DacgInfoLoader/DacgInfoLoader.java:235-236 | The filter keeps the record of every listed key whose upper-case form is requested, and nothing else. It keeps each at most once when the keys are distinct. |
| DacgLookup.GetInfoList | DacgInfoLoader/DacgInfoLoader.java:231-237 | A catalog record is returned iff some requested id equals its key up to case. Only catalog records are returned, each once, and no more than the catalog holds. No requested ids give the empty list. |
| DacgLookup.GetAllDacgCheckerIds | DacgInfoLoader/DacgInfoLoader.java:244-246 | The id set is exactly the set of ids of the catalog's records. |
| DacgLookup.SelectSameIds | DacgInfoLoader/DacgInfoLoader.java:233-235 | The filter depends only on which upper-case ids are requested. |
| DacgLookup.LookupDependsOnUpperSet | DacgInfoLoader/DacgInfoLoader.java:233-235 | Two requests with the same set of upper-case forms return the same list. |
| DacgLookup.LookupCaseInsensitive | DacgInfoLoader/DacgInfoLoader.java:233-235 | Replacing a requested id by a case variant does not change the result. |
| DacgLookup.LookupIgnoresRepetition | DacgInfoLoader/DacgInfoLoader.java:233-235 | Requesting an id again does not change the result. |
| DacgLookup.LookupOrderIrrelevant | DacgInfoLoader/DacgInfoLoader.java:235-236 | Two iteration orders of the same catalog return the same records, as a multiset. |
| DacgScenarios.SingleNpmRecordFile | DacgInfoLoader/DacgInfoLoader.java:89-224 | A file with one valid npm element and four empty categories parses to exactly that npm record. |
| DacgScenarios.SingleNpmRecordCatalog | DacgInfoLoader/DacgInfoLoader.java:48-63 | Loading a listing of that one `dacg.json` gives the catalog `{NPM-001 ↦ record}`. |
| DacgScenarios.SingleNpmRecordLookup | DacgInfoLoader/DacgInfoLoader.java:231-237 | In that catalog `npm-001` finds the record and `NPM-002` finds nothing. |
| DacgScenarios.NpmOnlyFileYieldsNothing | DacgInfoLoader/DacgInfoLoader.java:122-124 | A file whose `dacg` object has no `wp` member contributes no records, even with a valid npm element. |
| DacgScenarios.OneIdManyRecords | DacgInfoLoader/DacgInfoLoader.java:233-236 | With catalog keys `ab` and `AB`, requesting `Ab` returns both records, in key order. |
| DacgScenarios.SecondSourceWins | DacgInfoLoader/DacgInfoLoader.java:55-56 | Merging two sources that each yield one record with the same id keeps only the second source's record. With `Contribution` as the source function, this is two listed files defining the same id, and the later file wins. |

## Left out

- Resource listing (`ResourceUtils.getResourceListing`, `toAbsResourcePath`)
  and `getResourceAsStream` are I/O. They are inputs: a `Listing` of named
  resources, or `ListingFailed` for a `URISyntaxException` / `IOException`.
- Jackson's byte-level parsing (`readTree`) is not modelled. A stream it
  cannot read is `Unreadable`, which gives the empty list as the caught
  `IOException` does. The same holds for an `IOException` when the stream
  is closed.
- A stream that cannot be opened (`getResourceAsStream` returning null) is
  not modelled separately. It throws inside `parse` and is caught, so it is
  also represented by `Unreadable`.
- Logging (`LOGGER.warn` / `LOGGER.error`) has no effect on results and is
  left out.
- The `INSTANCE` singleton and class initialisation are left out. The
  lookups take the catalog as a parameter, and that catalog satisfies
  `Keyed`, which `Load` guarantees.
- DacgLookup.GetInfoList: case mapping covers ASCII letters only.
  `String.toUpperCase()` is locale- and Unicode-aware; for ids outside ASCII
  the model can differ.
- DacgCatalog.Load: the `.json` filter uses the same ASCII-only
  `toLowerCase`.
- DacgLookup.GetInfoList: the result order follows the `keyOrder`
  parameter. The `HashMap` iteration order is unspecified, so the model
  proves order-independence up to a multiset, not a particular order.
- Duplicate member names in a JSON object: `Get` returns the first binding,
  while Jackson keeps the last. A parsed tree without duplicates behaves the
  same either way.
- Numeric and boolean JSON nodes are all `Other`, because the loader only
  tells text nodes from the rest.
- The record classes `NpmDacgInfo`, `WpDacgInfo`, `IisDacgInfo`,
  `TechnoteDacgInfo` and `ZeroboardDacgInfo` are not part of this model.
  They are treated as plain data: their constructors do not throw, they
  keep the arguments as given, and `getId()` returns the `id` passed in.
  The catalog key depends on that last point.
- DacgLookup.GetAllDacgCheckerIds: the source returns `keySet()`, a live
  view of the catalog's `HashMap`. A caller's `remove` on it deletes catalog
  entries, and later `getInfoList` calls no longer find them. The model
  returns an immutable snapshot of the keys, so it does not capture this
  aliasing or any later change to the catalog.
- Null `checkerIds`, or null entries in it, would throw in the source. The
  model's lists hold no nulls.
