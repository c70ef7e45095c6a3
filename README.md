# DocumentDBClient.NET filter compiler, in Dafny

DocumentDBClient.NET is a thin repository layer over the MongoDB .NET driver.
Its one piece of real logic is a compiler. It turns a `Filter` into MongoDB
extended-JSON filter text. A `Filter` wraps either one `Condition` or a group
operator with a list of `Condition`s. Each `Condition` carries both leaf fields
(`Parameter`, `Type`, `Compare`, `Value`) and a nested group (`GroupOperator`,
`GroupConditions`). Which of the two is in use is decided when it is compiled.

There are two line-for-line copies of the compiler: `Filter.ToString` with its
helpers, and `Mongo.getSearchCriteriaString` with its helpers. The smaller
companions are:
- the null-safe stringifier `MyConvert.ToString`;
- the sort-key builders;
- the update builder `UpdateSet.GetUpdateDefinition`;
- the find-options and paging arithmetic.

The project has one module per source file. `Wrappers` holds `Option` and
`Result`. `Primitives` holds C#'s 32-bit `int` and its unchecked arithmetic.

- **Meaning.** The compiler's meaning is given once, by pure functions in
  `Filter`: `ConditionQuery`, `GroupQuery`, `ChildResults` with `Collect`,
  `FilterQuery` and the comma-`Join`. Exceptions become `Result` failures with an `Error` value.
- **Both copies.** Each is written as the source writes it, in methods that
  build the text with `+=` through the if-chain, append a comma per child and
  then apply `TrimEnd(',')`. Each method is proved to compute exactly that
  meaning, so the Filter copy and the Mongo copy agree on every input.
- **Driver objects.** Sort builders, update builders and `FindOptions` become
  datatypes: a list of `Asc`/`Desc` keys, a list of `Set(field, value)`, and
  an options record.
- **C# objects.** An `object` becomes `MyConvert.Object`: null, `DBNull.Value`,
  or a boxed value. A boxed value's conversion to text may fail, which models
  `Convert.ToString` or `ToString()` throwing.

## Model

| member | source | states |
|---|---|---|
| MyConvert.ToString | DocumentDBClient.NET/MyConvert.cs:10-25 | null and DBNull give ""; a conversion that throws gives ""; otherwise the result is exactly the conversion's text; total, never fails |
| MyConvert.ToStringIsConvertOrEmpty | DocumentDBClient.NET/MyConvert.cs:12-23 | the wrapper is the framework conversion with "" substituted for failure |
| MyConvert.ToStringOfString | DocumentDBClient.NET/MyConvert.cs:18 | on a string argument the wrapper returns that string unchanged |
| Primitives.Wrap | DocumentDBClient.NET/Filter.cs:41 | unchecked 32-bit result: exact when in range, otherwise congruent to the exact value modulo 2^32 |
| Primitives.WrapPeriodic | DocumentDBClient.NET/Filter.cs:41 | wrapping depends only on the value modulo 2^32 |
| Primitives.PredecessorProductExact | DocumentDBClient.NET/Filter.cs:41 | `(pageNo - 1) * pageSize` computed in two wrapping steps is the exact product wrapped once, even when `pageNo - 1` wraps; so it is exact whenever the product fits in 32 bits |
| Sort.NewSort | DocumentDBClient.NET/Sort.cs:16-20 | the constructor stores exactly the given name and direction |
| Sort.KeyOf | DocumentDBClient.NET/Sort.cs:29-34 | the key is on the sort's name; it is descending exactly when the direction is Descending |
| Sort.SortKeys | DocumentDBClient.NET/Sort.cs:27-35 | one key per sort, in input order, key i being the projection of sort i |
| Sort.GetSortDefinitions | DocumentDBClient.NET/Sort.cs:22-39 | null (no sort clause) exactly for the empty list; otherwise as many keys as sorts, in input order, with each direction mapped |
| Sort.SortKeysAppend | DocumentDBClient.NET/Sort.cs:27-36 | concatenating sort lists concatenates their keys, so precedence follows list position |
| Sort.TwoKeyExample | DocumentDBClient.NET/Sort.cs:22-39 | age descending then name ascending gives the keys Desc(age), Asc(name) in that order |
| Filter.NewCondition | DocumentDBClient.NET/Filter.cs:170-180 | stores parameter, type, compare and value, with the defaults String, Equal and null; the group part keeps AND and the empty list, so it is inactive |
| Filter.NewConditionWithCompare | DocumentDBClient.NET/Filter.cs:182-187 | the same as the full constructor with type String; defaults Equal and null |
| Filter.NewConditionWithValue | DocumentDBClient.NET/Filter.cs:189-193 | the same as the full constructor with type String and operator Equal; default null |
| Filter.NewGroupCondition | DocumentDBClient.NET/Filter.cs:195-199 | the leaf part keeps parameter "", String, Equal and the value ""; the group part is as given |
| Filter.NewFilter | DocumentDBClient.NET/Filter.cs:10-17 | sets the single condition; the group operator stays NONE and the list empty, so the group is inactive |
| Filter.NewGroupFilter | DocumentDBClient.NET/Filter.cs:19-23 | sets only the group operator and conditions; no single condition |
| Filter.GetOperationString | DocumentDBClient.NET/Filter.cs:69-83 | the token is empty exactly for NONE; every other token starts with '$' |
| Filter.OperationTokens | DocumentDBClient.NET/Filter.cs:69-83 | AND, OR, NOT and NOR map to $and, $or, $not and $nor; NONE maps to "" |
| Filter.OperationStringInjective | DocumentDBClient.NET/Filter.cs:69-83 | distinct operators get distinct tokens |
| Filter.DocumentValue | DocumentDBClient.NET/Filter.cs:155-168 | String fields give the stringified value between two double quotes, unescaped; Number and DateTime give it bare |
| Filter.LeafQuery | DocumentDBClient.NET/Filter.cs:113-136 | a leaf's text is non-empty and never ends in a comma; its only failure is a value whose text cannot be produced |
| Filter.ComparisonLeaf | DocumentDBClient.NET/Filter.cs:115-126 | the six comparisons give `{ "<parameter>" : { <token>: <DocumentValue> } } `, trailing space included |
| Filter.PatternLeaf | DocumentDBClient.NET/Filter.cs:127-132 | Contains, BeginWith and EndWith embed the raw value as /.*v.*/, /^v/ and /v$/ with $options 'im', bypassing DocumentValue |
| Filter.InLeaf | DocumentDBClient.NET/Filter.cs:133-136 | In and NotIn give `{ "<parameter>" : { $in: <raw text> } } ` and `$nin` likewise, embedding the value's own text, bypassing DocumentValue |
| Filter.RawValueFails | DocumentDBClient.NET/Filter.cs:127-136 | a pattern or In/NotIn leaf whose value cannot be converted to text fails with the conversion error |
| Filter.CompareTokens | DocumentDBClient.NET/Filter.cs:115-136 | Equal, NotEqual, GreaterThan, GreaterThanEqual, LessThan, LessThanEqual, In and NotIn give $eq, $ne, $gt, $gte, $lt, $lte, $in and $nin; the three patterns give $regex |
| Filter.ConditionQuery | DocumentDBClient.NET/Filter.cs:97-140 | a compiled node is non-empty and does not end in a comma; a nested node can only fail with a condition-level error |
| Filter.ChildResults | DocumentDBClient.NET/Filter.cs:89-90 | one result per child, in input order, the k-th being the k-th child's own result; every successful one is closed |
| Filter.Collect | DocumentDBClient.NET/Filter.cs:89-90 | a collected success has one text per result, in order, each the text of that result; a collected failure is the error of one of the results |
| Filter.GroupQuery | DocumentDBClient.NET/Filter.cs:85-95 | a group's text is closed, and its failures are those of its children |
| Filter.FilterQuery | DocumentDBClient.NET/Filter.cs:48-57 | "both" exactly when a single condition and an active group are set; "neither" exactly when neither is; otherwise the single condition or the group is compiled |
| Filter.CollectAllSuccess | DocumentDBClient.NET/Filter.cs:89-90 | when every child succeeds the collected texts are exactly theirs, in order |
| Filter.CollectFirstFailure | DocumentDBClient.NET/Filter.cs:89-90 | a failure preceded only by successes is the collected error, whatever follows it |
| Filter.CollectSucceedsIff | DocumentDBClient.NET/Filter.cs:89-90 | collecting succeeds exactly when every result succeeds |
| Filter.CollectFailureIsFirst | DocumentDBClient.NET/Filter.cs:89-90 | a collected failure is the error of the first failing result, left to right |
| Filter.GroupSucceedsIff | DocumentDBClient.NET/Filter.cs:85-95 | a group compiles exactly when each of its children compiles |
| Filter.GroupTextsInOrder | DocumentDBClient.NET/Filter.cs:85-95 | a compiling group is its token and the comma-join of the children's own texts, in input order |
| Filter.GroupFirstFailure | DocumentDBClient.NET/Filter.cs:85-95 | a failing group reports the error of its first failing child, and every earlier child compiles |
| Filter.ConditionQuerySucceedsIff | DocumentDBClient.NET/Filter.cs:101-110 | compilation succeeds exactly on trees where every reached node has exactly one of an active group and a non-empty parameter, and every embedded value converts; on such well-formed trees the only possible error is a conversion failure |
| Filter.ConstructedNeverBoth | DocumentDBClient.NET/Filter.cs:174-199 | trees built only with the public constructors never raise the nested "both" error |
| Filter.SampleNumberLeaf | DocumentDBClient.NET/Filter.cs:119-120 | age > 18 over a Number gives `{ "age" : { $gt: 18 } } ` |
| Filter.SampleStringLeaf | DocumentDBClient.NET/Filter.cs:115-116 | name = Alice over a String gives `{ "name" : { $eq: "Alice" } } `, the value in double quotes |
| Filter.SampleGroupQuery | DocumentDBClient.NET/Filter.cs:85-95 | those two leaves under AND are joined by one comma inside `{ $and : [ ... ] }` |
| Filter.TrimEnd | DocumentDBClient.NET/Filter.cs:92 | `TrimEnd(c)` returns the longest prefix after which only `c` follows, and that prefix does not end in `c` |
| Filter.TerminatedIsJoinAndComma | DocumentDBClient.NET/Filter.cs:89-90 | appending each text and a comma builds the comma-join plus one trailing comma |
| Filter.JoinEndsWithLast | DocumentDBClient.NET/Filter.cs:89-92 | the comma-join ends with the last text's last character |
| Filter.TrimAccumulated | DocumentDBClient.NET/Filter.cs:89-92 | trimming the commas off the accumulated text leaves exactly the comma-join: no trailing separator for any child count |
| Filter.TerminatedSnoc | DocumentDBClient.NET/Filter.cs:89-90 | the accumulation of one more text is the old accumulation followed by that text and a comma |
| Filter.AccumulateStep | DocumentDBClient.NET/Filter.cs:89-90 | one more child's text and a comma extend the accumulation by one child |
| Filter.AccumulatedGroup | DocumentDBClient.NET/Filter.cs:87-94 | after every child has compiled, trimming the accumulation and closing the bracket gives the group's text |
| Filter.GetFilterStringByGroupCondition | DocumentDBClient.NET/Filter.cs:85-95 | the `+=` loop and the comma trim compute exactly the group's meaning, error cases included |
| Filter.GetFilterStringBySingleCondition | DocumentDBClient.NET/Filter.cs:97-140 | the checks and the if-chain compute exactly the condition's meaning, error cases included |
| Filter.GetFilterProcessStart | DocumentDBClient.NET/Filter.cs:59-67 | the single condition wins when set; otherwise an active group; otherwise "" |
| Filter.ToString | DocumentDBClient.NET/Filter.cs:48-57 | the Filter-level checks and dispatch compute exactly the filter's meaning |
| Filter.FindOptionsFor | DocumentDBClient.NET/Filter.cs:26-46 | a one-key sort exactly for a non-null sort with a non-empty name, descending iff Descending; skip and limit exactly when both page numbers are positive (defaults 0); the skip is (pageNo-1)*pageSize wrapped to 32 bits, and exactly that product when it fits |
| Filter.ConsecutivePagesAbut | DocumentDBClient.NET/Filter.cs:39-44 | page 1 skips 0 records and page p+1 starts where page p ends |
| Filter.LargePageSkipWraps | DocumentDBClient.NET/Filter.cs:41 | page 50000 of size 50000 skips -1795017296 records: the product wraps |
| Filter.GetOptions | DocumentDBClient.NET/Filter.cs:26-46 | the field-by-field construction gives exactly those options |
| Mongo.GetOperationString | DocumentDBClient.NET/Mongo.cs:253-267 | the copy's table equals the Filter copy's |
| Mongo.GetSearchStringByGroupCondition | DocumentDBClient.NET/Mongo.cs:269-279 | the copy's `+=` loop and trim compute exactly the Filter compiler's group meaning |
| Mongo.GetSearchStringBySingleCondition | DocumentDBClient.NET/Mongo.cs:281-324 | the copy's checks and if-chain compute exactly the Filter compiler's condition meaning |
| Mongo.GetSearchCriteriaStringStartProcess | DocumentDBClient.NET/Mongo.cs:243-251 | the same dispatch as the Filter copy |
| Mongo.GetSearchCriteriaString | DocumentDBClient.NET/Mongo.cs:229-241 | a null filter gives "" with no checks; any other filter gives exactly what `Filter.ToString` gives, its "both" and "neither" errors included |
| Mongo.GetFindOptions | DocumentDBClient.NET/Mongo.cs:188-208 | the copy, with the same default page numbers 0, builds exactly the options `Filter.GetOptions` builds |
| Mongo.GetSortDefinitions | DocumentDBClient.NET/Mongo.cs:210-227 | the copy's projection equals `Sort.GetSortDefinitions`: null for an empty list, else one key per sort in order |
| Mongo.SortListOf | DocumentDBClient.NET/Mongo.cs:134-140 | a null or empty-named sort gives the empty list; otherwise the one-element list of that sort |
| Mongo.GetAll | DocumentDBClient.NET/Mongo.cs:121-132 | fails exactly when the filter does; otherwise the compiled filter text, the sort keys of the list (none for an empty list) and no paging |
| Mongo.GetAllBySort | DocumentDBClient.NET/Mongo.cs:134-140 | the list overload on the normalised list; the sort is the single key of a non-empty-named sort, else none |
| Mongo.GetAllAsyncByFilter | DocumentDBClient.NET/Mongo.cs:115-119 | fails exactly when the filter does; otherwise the filter text with no sort, skip or limit |
| Mongo.GetPageData | DocumentDBClient.NET/Mongo.cs:148-160 | fails exactly when the filter does; otherwise the filter text, the list's sort keys, the limit pageSize and always a skip of (pageNo-1)*pageSize wrapped to 32 bits, with no check on the page numbers |
| Mongo.GetPageDataBySort | DocumentDBClient.NET/Mongo.cs:162-168 | the list overload on the normalised list: fails exactly when the filter does; the single key of a non-empty-named sort, else no sort; limit pageSize and the wrapped skip |
| Mongo.GetAllAsync | DocumentDBClient.NET/Mongo.cs:142-146 | fails exactly when the filter does; the filter text, the single key of a non-empty-named sort, and with the default page numbers 0 no skip and no limit |
| Mongo.GetPageDataAsync | DocumentDBClient.NET/Mongo.cs:170-174 | fails exactly when the filter does; the filter text and the one-sort key; skip and limit only when both page numbers are positive, the skip being the wrapped (pageNo-1)*pageSize |
| Mongo.NullFilterIsEmptyQuery | DocumentDBClient.NET/Mongo.cs:229-232 | with a null filter every read uses the empty filter text and cannot fail |
| Mongo.SingleSortKey | DocumentDBClient.NET/Mongo.cs:210-227 | a one-element sort list gives exactly that sort's key |
| Mongo.PageDataMatchesAsync | DocumentDBClient.NET/Mongo.cs:162-174 | for positive page numbers the synchronous and asynchronous one-sort page reads build the same request |
| Mongo.PageZeroSkipsBackwards | DocumentDBClient.NET/Mongo.cs:148-174 | for page 0 the synchronous request carries a skip of -pageSize, while the asynchronous request sets no skip |
| UpdateSet.NewFieldValue | DocumentDBClient.NET/UpdateSet.cs:49-53 | stores exactly the given field and value |
| UpdateSet.SetOf | DocumentDBClient.NET/UpdateSet.cs:40 | the Set operation carries the entry's field and value |
| UpdateSet.TouchedIsNamed | DocumentDBClient.NET/UpdateSet.cs:39-40 | an in-order, one-per-entry translation touches exactly the fields named and no others |
| UpdateSet.UpdateSet.constructor | DocumentDBClient.NET/UpdateSet.cs:7-13 | no id, no filter, no field values |
| UpdateSet.UpdateSet.ById | DocumentDBClient.NET/UpdateSet.cs:14-18 | sets only the id; one field value |
| UpdateSet.UpdateSet.ByIdList | DocumentDBClient.NET/UpdateSet.cs:19-23 | sets only the id; the list as given |
| UpdateSet.UpdateSet.ByFilter | DocumentDBClient.NET/UpdateSet.cs:24-28 | sets only the filter; one field value |
| UpdateSet.UpdateSet.ByFilterList | DocumentDBClient.NET/UpdateSet.cs:29-33 | sets only the filter; the list as given |
| UpdateSet.UpdateSet.GetUpdateDefinition | DocumentDBClient.NET/UpdateSet.cs:35-42 | one Set per field value, in list order, each with that entry's field and value; the update touches exactly the named fields |

## Behaviour of the code

Some of what the code does is easy to miss when reading it:
- **Lazy, pre-order validation.** Each node is checked as the compiler reaches
  it (Filter.cs:101-110), in pre-order. So a leaf whose value cannot be
  converted can abort the compile before a later node's structural error is
  seen. `ConditionQuerySucceedsIff` shows that this changes only which error
  is reported, never whether compilation succeeds.
- **No escaping.** A String value is put between double quotes as
  `MyConvert.ToString(Value)` gives it, with no escaping (Filter.cs:160).
- **Trailing space.** Every leaf ends in `" } } "` (Filter.cs:116-136), and
  the comma-join keeps that space before each comma.
- **Errors in raw-value leaves.** `DocumentValue` goes through
  `MyConvert.ToString`, which never throws. The pattern and In/NotIn leaves
  instead concatenate the raw `Value` (Filter.cs:128-136), which calls the
  object's own `ToString` with no catch. The model lets that fail as
  `StringificationFailed`.
- **Update targets.** `GetUpdateDefinition` reads only the field values
  (UpdateSet.cs:35-42). It ignores `FilterId` and `Filter`; choosing which
  documents to update falls to its caller, which is not part of this model.

## Left out

- Query execution: the driver calls (`Find`, `FindAsync`, `CountDocuments`, insert, update, delete, get-by-id) and their async twins. They are network I/O. Each read is reduced to the filter text, sort keys, skip and limit it hands to the driver.
- Mongo.cs connection setup (client, database and collection constructors): it has no logic to model.
- `BaseEntity` and its serializer attributes, and the `IDocument` interface: they are metadata with no logic.
- The `[Display]` attributes on the enums and the enums' numeric values. The if-chain and the switch read the enum members, which the model's datatypes keep; the numbers themselves play no part.
- Null references. The model's lists, strings and records are values and cannot be null, so none of these crashes in the source are modelled (a null single condition is modelled, as `None`):
  - a null condition list (`new Filter(op, null)`, `new Condition(op, null)`) or a null element of `GroupConditions` throws `NullReferenceException` when the compiler reads it;
  - a null sort list passed to `GetAll` or `GetPageData` throws `ArgumentNullException` from `Enumerable.Any`;
  - a null element of a sort list throws `NullReferenceException` in the `Select` projection, which reads its `Direction`;
  - a null `Sort.Name` (`new Sort(null, d)` is legal) is dropped by the single-sort overloads, which look at it through `MyConvert.ToString`, but the list overloads hand it to the driver's sort builder, whose reaction is not modelled;
  - a null `FieldValues` list, or a null element of it, throws `NullReferenceException` in `GetUpdateDefinition`.
- Out-of-range enum casts. A `CompareOperator` outside the eleven declared members matches no branch of the if-chain, so the leaf compiles to "". The comma trim then also eats the separator written before it: `[A, X]` gives `{ $and : [ A ] }` and `[X, A]` gives `{ $and : [ ,A ] }`. A `GroupOperator` outside the five declared members makes an active group with the empty token. The model's enum datatypes hold only the declared members, so neither case is modelled.
- `DocumentValue`'s final `string.Empty` branch: it is reached only by a `FieldType` value outside the three declared ones, which the datatype cannot hold.
- Culture-specific number and date formatting in `Convert.ToString`. It is folded into each boxed value's `text`. The model also takes `Convert.ToString` (used by `MyConvert.ToString`) and the object's own `ToString()` (used by `string + object` in the pattern and In/NotIn leaves) to yield the same `text`.
- Regular-expression matching semantics and the escaping of embedded values. The source embeds raw text, and so does the model.
- A null `Parameter` is modelled as "". The compiler reads it through `MyConvert.ToString` first, which maps null to "", so the two behave alike.
- C# list aliasing: the list constructors of `Filter`, `Condition` and `UpdateSet` store the caller's list by reference. The model stores a value, so later mutation of the caller's list is not captured. In particular, a caller can add a `Condition` to the very list it was built from; compiling it then recurses between the group and single-condition helpers until the stack overflows. The model's condition trees are finite datatypes, so such a cycle cannot be built.
- UpdateSet.UpdateSet.GetUpdateDefinition: `Combine` is a record of the Set operations in order; the driver's merging of two Sets on the same field is not modelled.
- Mongo.GetPageData: a negative skip is produced as the source computes it; how the driver reacts to it is not modelled.
- `async`/`Task` concurrency.
