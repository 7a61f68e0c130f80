# FMLaravel core, modelled in Dafny

FMLaravel connects Laravel's Eloquent ORM to a FileMaker server. This project
models the adapter's own logic:

- how a chain of `where`, `sortBy`, `skip` and `take` calls becomes a
  FileMaker find command (a basic find, or a compound find when an "or"
  appears at the top level), with FileMaker's find operators escaped
  (Eloquent's `orderBy` has no effect: the query builder does not override
  it, and its sort rules are built only from what `sortBy` records);
- how the records FileMaker returns are turned into Eloquent attribute rows,
  with a metadata slot holding the record id, the modification id and the
  related (portal) record sets of every eager-loaded relation;
- how `update`, `insertGetId`, `insert` and `delete` issue edit, add and
  delete commands and reconcile the model's metadata with the server's reply;
- how a related-records relation (`RecordRelation`) learns its field names
  from the first model that has rows, rebuilds each model's related rows as
  child models, binds them and drops the copy from the metadata;
- how a model stores attributes (container fields, repetition fields, plain
  fields) and reads and writes its FileMaker metadata.

The FileMaker PHP API, the server and Eloquent's own machinery are not
modelled: what the adapter receives from them is a parameter (a function
such as `execute` or `fieldsOf`, or a datatype such as `RawRecord` and
`CommandResult`).

Layout, one module per file:

| file | module | models |
|---|---|---|
| `wrappers.dfy` | `Wrappers` | `Option`, `Result` and the adapter's exceptions as an `Error` datatype |
| `sequences.dfy` | `Sequences` | generic facts about sequences |
| `ordered_map.dfy` | `OrderedMap` | PHP ordered arrays: lookup, assignment, `unset`, `array_replace`, `array_combine`, `array_intersect` |
| `strings.dfy` | `Strings` | `strpos`, `str_replace`, `strtolower` |
| `php_value.dfy` | `PhpValue` | PHP values, `empty()`, string conversion, lists |
| `helpers.dfy` | `Helpers` | `Helpers::escape` |
| `filemaker_record.dfy` | `FileMakerRecord` | a FileMaker record and `RecordImplementation::getAllFields` |
| `model.dfy` | `Models` | `Model`: field predicates, `setAttribute`, the metadata accessors |
| `record_extractor.dfy` | `Extraction` | `RecordExtractor` |
| `query_builder.dfy` | `Queries` | `QueryBuilder` |
| `record_relation.dfy` | `Relations` | `RecordRelation` |
| `builder.dfy` | `Builders` | `Builder::with` |

Classes whose fields the PHP code updates in place (`Model`,
`RecordExtractor`, `QueryBuilder`, `RecordRelation`, `Builder`) are Dafny
classes. Each method is proved against a specification function on values,
and the properties are lemmas about those functions.

The model follows PHP 7 (7.1 or later) semantics where the PHP version
matters:

- `count` of null is 0 and `count` of any other non-array is 1.
- Reading a missing array entry or property gives null, with a notice.
  Notices and warnings do not throw: no error handler that turns them into
  exceptions is assumed (see "Left out").
- An offset read `$v[$k]` on a string gives the character at that offset
  (counted from the end when negative), or "" outside the string. On null, a
  boolean or an integer it gives null. On an object it throws, since neither
  `stdClass` nor `ContainerField` implements `ArrayAccess`.
- `array_combine` returns null when an argument is not an array. It returns
  `false` (with a warning) when the two arrays differ in length.

### Where the code is followed over the documented behaviour

- A related-set error is ignored when `strpos` finds the "not present"
  text at position 0 or does not find it at all. This is because the code
  compares `strpos` with `== 0`, and PHP's `false == 0` holds. Only an
  error whose message contains the text at a later position is raised.
  (`Extraction.RelatedSetErrorCases`)
- `where($column, $value)` with two arguments stores operator `=`, not
  FileMaker's `==`. `==` appears only when the operator argument is not a
  known operator, and then it is taken as the value.
  (`Queries.WhereTwoArgs`, `Queries.WhereUnknownOperator`)
- An explicit `=` is passed on as written, so its criterion is
  `=value`, not `==value`. (`Queries.WhereKnownOperator`,
  `Queries.LeafCriterionEscapes`)
- In a compound find, each top-level clause becomes one find request. It
  is not one request per group of "and" clauses between the "or"s. A nested
  clause's leaves are merged into that one request. (`Queries.Requests`)
- `Helpers::escape` applies six `str_replace` passes in order. This is
  neither idempotent nor injective. (`Helpers.EscapeNotIdempotent`,
  `Helpers.EscapeNotInjective`)
- In `where`, a boolean value on a column containing `->` is turned into
  `new Expression(...)`. QueryBuilder.php imports no `Expression`, so the
  name resolves to `FMLaravel\Database\Expression`, which the repository
  does not declare, and the call throws a class-not-found error.
  (`Queries.WhereClause`)
- When the first related row is not an array, `array_keys` gives null and
  `str_replace` turns that into "". `array_combine` refuses "" just as it
  refuses null, so the model writes both as "no field keys".
  (`Relations.NonArrayFirstRowGivesNoKeys`)
- `RecordExtractor::extractRecordFields` is called by `update` and
  `insertGetId`, but the class does not define it: the whole method,
  signature included, is commented out, and the class has no `__call`. The
  model takes the method as a parameter, `fieldsOf`, and states `update` and
  `insertGetId` for an extractor that defines it (see "Left out").

## Model

| member | source | states |
|---|---|---|
| Helpers.EscapeIsOnePass | src/FMLaravel/Database/Helpers.php:7-16 | The six ordered `str_replace` passes equal a single left-to-right scan. The scan prefixes `@ # ? *` with a backslash and turns a doubled `""` or `//` into backslash-escaped pairs. |
| Helpers.EscapeUnchangedIff | src/FMLaravel/Database/Helpers.php:7-16 | `escape(s) == s` exactly when s contains none of `@ # ? *` and no `""` or `//`. Otherwise the result is strictly longer. |
| Helpers.EscapeAddsOnlyBackslashes | src/FMLaravel/Database/Helpers.php:7-16 | Escaping never shortens a string. With backslashes removed, output and input are the same text. |
| Helpers.EscapeSpecialChar | src/FMLaravel/Database/Helpers.php:8-10 | An `@`, `#`, `?` or `*` anywhere gains exactly one backslash. The text on each side is escaped independently. |
| Helpers.EscapeDoubled | src/FMLaravel/Database/Helpers.php:11-13 | A doubled `"` or `/` becomes two escaped characters. The text on each side is escaped independently. |
| Helpers.EscapeLoneChar | src/FMLaravel/Database/Helpers.php:11-13 | A single `"` or `/` that is not part of a pair passes through unchanged. |
| Helpers.EscapeThreeQuotes | src/FMLaravel/Database/Helpers.php:11 | Three quotes escape the first pair and leave the third quote alone. |
| Helpers.EscapeConcat | src/FMLaravel/Database/Helpers.php:16 | Escaping distributes over concatenation when no doubled pair straddles the seam. |
| Helpers.EscapeNotIdempotent | src/FMLaravel/Database/Helpers.php:16 | Escaping an already escaped string that holds an operator character changes it again. |
| Helpers.EscapeNotInjective | src/FMLaravel/Database/Helpers.php:11 | `""` and `\"\"` escape to the same string. |
| Helpers.OnePassLength | src/FMLaravel/Database/Helpers.php:7-16 | The reference scan never shortens its input. It lengthens every input that holds something to escape. |
| FileMakerRecord.AllFields | src/FMLaravel/Database/FileMaker/RecordImplementation.php:8-17 | `getAllFields` lists the record's fields in their own order. Each value is the flattened form of that field's value list. |
| FileMakerRecord.FlattenSingle | src/FMLaravel/Database/FileMaker/RecordImplementation.php:14-16 | A field with one value is that value as a string. |
| FileMakerRecord.FlattenRepetitions | src/FMLaravel/Database/FileMaker/RecordImplementation.php:14-16 | A field with several values is the list of them, indexed from 0 in order. |
| FileMakerRecord.FlattenNone | src/FMLaravel/Database/FileMaker/RecordImplementation.php:14-16 | A field with no values is `false`. |
| FileMakerRecord.FlattenByCount | src/FMLaravel/Database/FileMaker/RecordImplementation.php:14-16 | The value's shape depends only on the number of values: a string for exactly one, an array for more than one. |
| Models.MetaKey | src/FMLaravel/Database/Model.php:239-245 | The metadata key is the model's own `fileMakerMetaKey` when it declares one, otherwise `__FileMaker__`. |
| Models.RepetitionFields | src/FMLaravel/Database/Model.php:300-306 | The declared repetition fields, or the empty list when none are declared. |
| Models.ContainerFields | src/FMLaravel/Database/Model.php:324-330 | The declared container fields, or the empty list when none are declared. |
| Models.RelatedRecordsInfo | src/FMLaravel/Database/Model.php:107-113 | A truthy relation name returns that relation's entry, or null when it is not declared. A null or falsy name returns the whole table. |
| Models.ContainerValue | src/FMLaravel/Database/Model.php:185-216 | An empty value gives null. A string or a container field becomes a container value bound to the key. Any other value is refused with the "not supported" error. |
| Models.SetAttributeSpec | src/FMLaravel/Database/Model.php:182-233 | `setAttribute` fails exactly for a container field given an unsupported value. On success a new key is appended, an existing key keeps its place, and every other attribute is unchanged. |
| Models.ContainerStores | src/FMLaravel/Database/Model.php:185-209 | A container field given a supported value holds the container value bound to its key afterwards. |
| Models.RepetitionStoresSlots | src/FMLaravel/Database/Model.php:218-227 | A repetition field, or any non-container field given an integer repetition, holds afterwards the repetition array built from its old value. |
| Models.PlainAssignStores | src/FMLaravel/Database/Model.php:229 | Any other field, set without a repetition, holds exactly the value given, and `setAttribute` is a plain assignment. |
| Models.ContainerEmptyBecomesNull | src/FMLaravel/Database/Model.php:188-189 | Setting a container field to an empty value stores null. |
| Models.RepetitionBase | src/FMLaravel/Database/Model.php:220-222 | A repetition field starts from its current array. When the current value is empty or not an array, it starts from `[]`. |
| Models.RepetitionMerge | src/FMLaravel/Database/Model.php:223-224 | An array value is merged with `array_replace`. Its own slots win, and slots it does not mention keep their old values. |
| Models.RepetitionIndex | src/FMLaravel/Database/Model.php:225-226 | A scalar with an integer repetition sets that slot only. |
| Models.RepetitionScalarNoIndex | src/FMLaravel/Database/Model.php:218-227 | A scalar without a repetition index leaves the repetition array as its base. |
| Models.Model.SetAttribute | src/FMLaravel/Database/Model.php:182-233 | The model's new attributes are `SetAttributeSpec` of the old ones. A refused container value leaves them unchanged and reports the "not supported" error. |
| Models.EnsureMeta | src/FMLaravel/Database/Model.php:254-256 | Present metadata is left alone. Otherwise, on success, the metadata key exists afterwards. The only possible failure is the container error. |
| Models.EnsureMetaIsSetAttribute | src/FMLaravel/Database/Model.php:254-256 | Creating missing metadata is `setAttribute(metaKey, (object)[])`, as `setFileMakerMetaDataArray([])` does. |
| Models.EnsureMetaCreates | src/FMLaravel/Database/Model.php:254-256 | With a plain metadata key, missing metadata is appended as an empty object. |
| Models.EnsureMetaKeepsOthers | src/FMLaravel/Database/Model.php:254-256 | Creating the metadata changes no other attribute. |
| Models.EnsureMetaPlain | src/FMLaravel/Database/Model.php:252-256 | With a plain metadata key, `getFileMakerMetaData` always succeeds, leaves an object in the slot, and changes no other attribute. |
| Models.MetaRead | src/FMLaravel/Database/Model.php:257-261 | Without a key, the whole metadata value. With a key, that property, or null when the property is missing (PHP's notice value). |
| Models.Model.GetFileMakerMetaData | src/FMLaravel/Database/Model.php:252-262 | The model first gets its metadata created if missing and then returns the metadata or one property. It fails only when creating it fails. |
| Models.MetaArrayReplaces | src/FMLaravel/Database/Model.php:269-272 | `setFileMakerMetaDataArray` replaces the whole metadata with an object of the given entries. It changes no other attribute. |
| Models.Model.SetFileMakerMetaDataArray | src/FMLaravel/Database/Model.php:269-272 | The new attributes are those of `setAttribute(metaKey, (object)$values)`. |
| Models.SetMetaSpec | src/FMLaravel/Database/Model.php:278-281 | Setting one metadata property succeeds exactly when the metadata can be read. |
| Models.MetaSetThenRead | src/FMLaravel/Database/Model.php:278-281 | After `setFileMakerMetaData(k, v)`, reading `k` gives `v` and every other property reads as before. |
| Models.MetaSetKeepsAttributes | src/FMLaravel/Database/Model.php:278-281 | Setting a metadata property changes no attribute other than the metadata. |
| Models.Model.SetFileMakerMetaData | src/FMLaravel/Database/Model.php:278-281 | The new attributes are `SetMetaSpec` of the old ones. |
| Models.Model.SetRelatedTable | src/FMLaravel/Database/Model.php:96-101 | Records the portal table the model was read from. |
| Extraction.ForModel | src/FMLaravel/Database/RecordExtractor.php:27-38 | `forModel` refuses exactly a value that is not a model and an unknown class name. Otherwise it gives an extractor for that model's metadata key and relation table, with nothing eager-loaded. |
| Extraction.RecordExtractor.ForModelOf | src/FMLaravel/Database/RecordExtractor.php:27-38 | A fresh extractor whose state is `ForModel`'s, sharing the class registry. |
| Extraction.RecordExtractor.constructor | src/FMLaravel/Database/RecordExtractor.php:16-20 | A new extractor holds the given metadata key and relation table, and no eager-load list. |
| Extraction.RecordExtractor.SetEagerLoad | src/FMLaravel/Database/RecordExtractor.php:44-48 | The eager-load list is replaced by the given names. |
| Extraction.ProcessResult | src/FMLaravel/Database/RecordExtractor.php:54-61 | An error result or a fetch count of 0 gives no rows. Anything else is extracted record by record. |
| Extraction.ExtractRows | src/FMLaravel/Database/RecordExtractor.php:67-108 | A successful extraction gives exactly one row per record. |
| Extraction.RowsFailOnlyWithARecord | src/FMLaravel/Database/RecordExtractor.php:67-108 | `processArray` fails exactly when the row of some record fails. |
| Extraction.RowsFollowRecords | src/FMLaravel/Database/RecordExtractor.php:67-108 | The i-th row is the row of the i-th record. |
| Extraction.RowShape | src/FMLaravel/Database/RecordExtractor.php:71-104 | Every field other than the metadata key is the record's flattened field. The metadata slot holds the record id, the modification id and an array of related sets. |
| Extraction.MetaObject | src/FMLaravel/Database/RecordExtractor.php:73-104 | The metadata object reads back the record id, the modification id and the related-records array. |
| Extraction.RelatedEntriesAt | src/FMLaravel/Database/RecordExtractor.php:78-100 | Entry j of the related list is the extracted set of the j-th eager-loaded relation. |
| Extraction.RelatedKeysAreEagerLoad | src/FMLaravel/Database/RecordExtractor.php:78-102 | With distinct names, the related array's keys are exactly the eager-loaded relation names, in order. Each entry is that relation's extracted set. |
| Extraction.RowRelatedMap | src/FMLaravel/Database/RecordExtractor.php:78-102 | The related array is `array_combine` of the eager-load names and their sets, and the combine never fails. |
| Extraction.RelatedSetErrorCases | src/FMLaravel/Database/RecordExtractor.php:86-95 | A related-set error is an empty set when the "not present" text is at position 0 or absent. Otherwise it is raised with its code and message. |
| Extraction.MissingRelatedSetIsEmpty | src/FMLaravel/Database/RecordExtractor.php:82-93 | For a declared relation whose model class exists, a related set missing from the record gives an empty related entry. |
| Extraction.UndeclaredRelationFails | src/FMLaravel/Database/RecordExtractor.php:80-84 | An eager-loaded name the model does not declare is refused by `forModel` on the null entry. |
| Extraction.NestedExtractorIsPlain | src/FMLaravel/Database/RecordExtractor.php:84 | The extractor for a related class eager-loads nothing. |
| Extraction.NestedRowsHaveNoRelated | src/FMLaravel/Database/RecordExtractor.php:98 | With nothing eager-loaded, a row always succeeds and its related array is empty. |
| Queries.QueryBuilder.constructor | src/FMLaravel/Database/QueryBuilder.php:39-48 | A new builder has no clauses, no skip, no limit, no sort rules and compound counter 1. It holds a fresh extractor for its model. |
| Queries.QueryBuilder.SetModel | src/FMLaravel/Database/QueryBuilder.php:41-48 | Sets the model and a fresh extractor for it. |
| Queries.QueryBuilder.SetEagerLoad | src/FMLaravel/Database/QueryBuilder.php:50-55 | Hands the eager-load names to the extractor. |
| Queries.WhereClause | src/FMLaravel/Database/QueryBuilder.php:118-181 | A single `where` call never stores a nested clause. Its only failure is the class-not-found error of `new Expression`, and only for a column containing `->`. |
| Queries.WhereTwoArgs | src/FMLaravel/Database/QueryBuilder.php:130-131 | Two arguments store `=` with boolean "and". A null value becomes a not-null test. A boolean value on a `->` column throws instead. |
| Queries.WhereUnknownOperator | src/FMLaravel/Database/QueryBuilder.php:146-172 | An operator that is neither the builder's nor the grammar's is taken as the value, compared with `==`. A null one becomes a null test. A boolean one on a `->` column throws. |
| Queries.WhereKnownOperator | src/FMLaravel/Database/QueryBuilder.php:146-174 | A known operator with a non-null value is stored as given, except that a boolean value on a `->` column throws. |
| Queries.QueryBuilder.Where | src/FMLaravel/Database/QueryBuilder.php:118-181 | Appends the call's clause after the existing ones. When building the clause throws, the error is returned and the clauses are unchanged. |
| Queries.ContainsOrIsTopLevel | src/FMLaravel/Database/QueryBuilder.php:247-254 | `containsOr` holds exactly when some top-level clause has boolean "or". |
| Queries.NestedOrIsNotSeen | src/FMLaravel/Database/QueryBuilder.php:247-254 | An "or" inside a nested "and" clause is not seen. |
| Queries.LeafCriterion | src/FMLaravel/Database/QueryBuilder.php:198-206 | A leaf clause gives a criterion on its column. It fails exactly for a non-`like` clause whose value cannot be made a string. |
| Queries.LeafCriterionEscapes | src/FMLaravel/Database/QueryBuilder.php:200-202 | A non-`like` criterion is the operator followed by the escaped value. |
| Queries.LikeIsRaw | src/FMLaravel/Database/QueryBuilder.php:198-199 | A `like` clause passes its value through unescaped. |
| Queries.NullTestCriterion | src/FMLaravel/Database/QueryBuilder.php:198-206 | A null test has no operator and no value, so its criterion is the empty string. |
| Queries.LeafCriteria | src/FMLaravel/Database/QueryBuilder.php:198-206 | Leaves translate one criterion each, in order. The list fails exactly when one leaf fails. |
| Queries.Leaves | src/FMLaravel/Database/QueryBuilder.php:195-196 | Flattening nested clauses leaves no nested clause. |
| Queries.CriteriaAreLeafCriteria | src/FMLaravel/Database/QueryBuilder.php:183-209 | `parseWheres` in basic mode is the leaf criteria of the flattened clauses, in order. |
| Queries.CriteriaConcat | src/FMLaravel/Database/QueryBuilder.php:183-209 | Translating two clause lists one after the other equals translating their concatenation. |
| Queries.JoinAssociative | src/FMLaravel/Database/QueryBuilder.php:183-209 | Joining criteria lists (first failure wins) is associative. |
| Queries.Requests | src/FMLaravel/Database/QueryBuilder.php:189-194 | Compound mode gives one request per top-level clause, numbered from the counter. It succeeds exactly when every clause translates. |
| Queries.QueryBuilder.AddRequests | src/FMLaravel/Database/QueryBuilder.php:189-194 | The requests are `Requests` from the old counter. The counter advances by the number of requests added before the first failure. |
| Queries.Added | src/FMLaravel/Database/QueryBuilder.php:190-194 | The number of clauses translated before the first failing one. |
| Queries.AddedAll | src/FMLaravel/Database/QueryBuilder.php:190-194 | All requests succeed exactly when every clause was added. |
| Queries.RequestsFailure | src/FMLaravel/Database/QueryBuilder.php:190-194 | A failure is the error of the first clause that does not translate. |
| Queries.AddedIsFirstFailure | src/FMLaravel/Database/QueryBuilder.php:190-194 | When clause i fails and all before it succeed, exactly i requests were added. |
| Queries.QueryBuilder.AddCriteria | src/FMLaravel/Database/QueryBuilder.php:183-209 | Basic-mode translation returns `Criteria` of the clauses. |
| Queries.QueryBuilder.Skip | src/FMLaravel/Database/QueryBuilder.php:85-90 | Records the skip value. |
| Queries.QueryBuilder.Limit | src/FMLaravel/Database/QueryBuilder.php:92-97 | Records the limit value. |
| Queries.QueryBuilder.SortBy | src/FMLaravel/Database/QueryBuilder.php:220-231 | One field gets the given order. Every field of a list gets "asc". Other rules are unchanged, existing rules keep their order, and keys stay unique. |
| Queries.OrderOf | src/FMLaravel/Database/QueryBuilder.php:237 | Only "desc" sorts descending. |
| Queries.QueryBuilder.AddSortRules | src/FMLaravel/Database/QueryBuilder.php:233-241 | One rule per sort entry, in order, with precedence 1, 2, … and descending exactly for "desc". |
| Queries.FindModeOf | src/FMLaravel/Database/QueryBuilder.php:58-77 | A compound find when some top-level clause is "or", a basic find otherwise. It fails exactly when that mode's translation fails. |
| Queries.NoMatchIsEmpty | src/FMLaravel/Database/QueryBuilder.php:78-82 | Error 401 (no records match) gives an empty result. |
| Queries.FindErrorRaised | src/FMLaravel/Database/QueryBuilder.php:78-80 | Every other error is raised with its code and message. |
| Queries.FindRecordsExtracted | src/FMLaravel/Database/QueryBuilder.php:78-82 | Found records are extracted as `processArray` does. |
| Queries.QueryBuilder.Get | src/FMLaravel/Database/QueryBuilder.php:58-83 | The result: the translation error, or else the filtered outcome of executing the find. The outcome is built from the layout, the mode, the sort rules, the skip and the limit. The counter advances only in compound mode. |
| Queries.ContainerValues | src/FMLaravel/Database/QueryBuilder.php:282-284 | Exactly the container values among the values. |
| Queries.DiffKey | src/FMLaravel/Database/QueryBuilder.php:285 | Exactly the entries whose key is not in the other array. |
| Queries.SplitPartitions | src/FMLaravel/Database/QueryBuilder.php:282-285 | Container and plain values partition the values by key. No plain value is a container. |
| Queries.UpdateContainersOnly | src/FMLaravel/Database/QueryBuilder.php:288-314 | An update of container fields only sends no edit, leaves the attributes alone, reports success and hands all values to the container update. |
| Queries.EditedMeta | src/FMLaravel/Database/QueryBuilder.php:303-307 | The new metadata is the old metadata with the modification id replaced by the returned record's. |
| Queries.UpdateReconcilesMeta | src/FMLaravel/Database/QueryBuilder.php:289-308 | After an edit, every attribute other than the metadata is the returned record's field. The metadata keeps every entry except the modification id, which is the returned record's. |
| Queries.UpdateErrorRaised | src/FMLaravel/Database/QueryBuilder.php:294-298 | An edit the server refuses is raised with its code and message. Containers are not updated. |
| Queries.QueryBuilder.Update | src/FMLaravel/Database/QueryBuilder.php:276-318 | The result, the command, the container update and the new attributes are those of `UpdateSpec`. |
| Queries.InsertedMeta | src/FMLaravel/Database/QueryBuilder.php:360-363 | The new record's metadata has exactly the record id and the modification id, in that order. |
| Queries.InsertAlwaysAdds | src/FMLaravel/Database/QueryBuilder.php:340-354 | An insert always sends an add command with the non-container values, even when there are none. |
| Queries.InsertSetsMeta | src/FMLaravel/Database/QueryBuilder.php:356-371 | After an add, the metadata is exactly the new record's two ids and the other attributes are its fields. The result is its key field. |
| Queries.QueryBuilder.InsertGetId | src/FMLaravel/Database/QueryBuilder.php:334-372 | The result, the command, the container update and the new attributes are those of `InsertSpec`. |
| Queries.InsertResult | src/FMLaravel/Database/QueryBuilder.php:321-324 | `insert` reports whether the new key is non-empty in PHP's sense, or passes the error on. |
| Queries.InsertZeroKeyIsFalse | src/FMLaravel/Database/QueryBuilder.php:321-324 | A new record whose key is "0" is reported as not inserted. |
| Queries.QueryBuilder.Insert | src/FMLaravel/Database/QueryBuilder.php:321-324 | The result is `InsertResult` of `insertGetId`. The state is that of `insertGetId`. |
| Queries.DeleteWithIdRefused | src/FMLaravel/Database/QueryBuilder.php:259-261 | A delete with an id is refused before any command, and nothing changes. |
| Queries.DeleteUsesRecordId | src/FMLaravel/Database/QueryBuilder.php:263-266 | A delete without an id deletes the record whose id is in the metadata. |
| Queries.QueryBuilder.Delete | src/FMLaravel/Database/QueryBuilder.php:257-274 | The result, the command and the new attributes are those of `DeleteSpec`. |
| Relations.Snap | src/FMLaravel/Database/RecordRelation.php:33 | The states of the models, one per model. |
| PhpValue.Lookup | src/FMLaravel/Database/RecordRelation.php:38 | The offset read `$v[$k]` throws exactly on an object. An array gives the entry or null. A string gives a string of at most one character. Null, booleans and integers give null. |
| Relations.RelatedRows | src/FMLaravel/Database/RecordRelation.php:38 | Reading a model's related rows fails when its metadata cannot be created (the container error), or when the related sets are an object (the object-as-array error), and in no other case. An array gives the relation's entry. A string gives a string offset. |
| Relations.StringRelatedCountsAsRows | src/FMLaravel/Database/RecordRelation.php:37-39 | A string where the related sets belong is read at a string offset, which counts as one row. |
| Relations.Touched | src/FMLaravel/Database/RecordRelation.php:38 | A probed model gains its metadata slot when it can, and is otherwise unchanged. |
| Relations.ProbesAt | src/FMLaravel/Database/RecordRelation.php:37-39 | Probe j is the probe of model j's state. |
| Relations.FirstWithRowsIsFirst | src/FMLaravel/Database/RecordRelation.php:37-39 | `array_first` finds the first model with rows, and every model before it has none. The scan stops early only at a model whose metadata cannot be read. |
| Relations.RecordRelation.FirstModelWithRows | src/FMLaravel/Database/RecordRelation.php:37-39 | Finds the model given by `FirstWithRows`. The models scanned are the ones changed, each to its probed state; later models are untouched. |
| Relations.RecordRelation.ProbeModel | src/FMLaravel/Database/RecordRelation.php:38 | Returns the model's related rows and leaves the model in its probed state. |
| Relations.RecordRelation.InitRelation | src/FMLaravel/Database/RecordRelation.php:33-49 | The field names come from the first model with rows, when there is one. Otherwise the old ones are kept. A model whose metadata cannot be read raises the error. So do object rows, and then the old names are kept. A first row that is not an array leaves no field names. |
| Relations.TablePrefix | src/FMLaravel/Database/RecordRelation.php:44 | The prefix ends in `::`. For a declared, truthy relation name it is that relation's table followed by `::`. |
| Relations.FirstRowKeys | src/FMLaravel/Database/RecordRelation.php:42 | One key per field of the first row. There are no keys (null) when the first row is not an array, and object rows throw. |
| Relations.NonArrayFirstRowGivesNoKeys | src/FMLaravel/Database/RecordRelation.php:42-45 | A first row that is not an array gives no field keys. Every row `match` then rebuilds is hydrated empty. |
| Relations.KeyedRowsGiveNoKeys | src/FMLaravel/Database/RecordRelation.php:38-45 | Rows keyed by a string count as present, but have no row 0, so no field keys are learnt. |
| Relations.StripAll | src/FMLaravel/Database/RecordRelation.php:45 | Each key has every occurrence of the prefix removed. |
| Relations.StripLeadingPrefix | src/FMLaravel/Database/RecordRelation.php:44-45 | `table::field` becomes `field` when the field name does not itself contain the prefix. |
| Relations.StripInnerPrefix | src/FMLaravel/Database/RecordRelation.php:45 | A prefix inside a key is removed as well, not only a leading one. |
| Relations.FieldKeysOfExtractedRows | src/FMLaravel/Database/RecordRelation.php:42-45 | The field names are the fields of the first row, in order, with the table prefix removed. |
| Relations.CombineRow | src/FMLaravel/Database/RecordRelation.php:69 | `array_combine` of the field names and a row: null when there are no field names or the row is not an array, `false` when their lengths differ, and otherwise the combined array. |
| Relations.Children | src/FMLaravel/Database/RecordRelation.php:68-75 | Rebuilding gives one child per row, in order. It never fails. |
| Relations.ChildrenWithoutKeys | src/FMLaravel/Database/RecordRelation.php:69-72 | Without field names, or for a row that is not an array, the child is hydrated from `(array)null` and has no attributes. |
| Relations.ChildrenTagged | src/FMLaravel/Database/RecordRelation.php:73-75 | Every child has the foreign table as its related table, whatever the field names and rows. |
| Relations.ChildrenZipByPosition | src/FMLaravel/Database/RecordRelation.php:68-70 | With distinct names and rows of matching length, each child's attributes have the field names, as string keys, as keys and the row's values as values, in order. |
| Relations.ChildrenLengthMismatch | src/FMLaravel/Database/RecordRelation.php:68-70 | A row whose length differs from the field names does not stop `match`: its child is hydrated from `(array)false`, the single entry `0 => false`. |
| Relations.BoundOf | src/FMLaravel/Database/RecordRelation.php:77-81 | "many" binds the whole collection. Any other type binds the first child, or null when there is none. |
| Relations.UnbindRemovesOnlyRelation | src/FMLaravel/Database/RecordRelation.php:84 | The relation's entry leaves the related records. Every other related entry, metadata property and attribute stays the same. |
| Relations.RemoveKeepsOthers | src/FMLaravel/Database/RecordRelation.php:84 | `unset` of one key keeps the lookup of every other key. |
| Relations.MatchOneBinds | src/FMLaravel/Database/RecordRelation.php:65-86 | A successful model step binds the rebuilt rows under the relation and leaves other bindings alone. It tags every child with the foreign table and removes the relation's entry (and only it). Other attributes stay as they are. |
| Relations.MatchOneFails | src/FMLaravel/Database/RecordRelation.php:65-86 | A model step fails in three cases. Metadata that cannot be read gives that error. Related sets that are an object give the object-as-array error. A relation entry that is not an array gives the missing-related-records error. |
| Relations.Steps | src/FMLaravel/Database/RecordRelation.php:65-86 | One step per model. |
| Relations.StepsAt | src/FMLaravel/Database/RecordRelation.php:65-86 | Step j is the step of model j's state. |
| Relations.FirstFailureIsFirst | src/FMLaravel/Database/RecordRelation.php:65-87 | `match` stops at the first failing model, and every earlier step succeeded. |
| Relations.RecordRelation.MatchModel | src/FMLaravel/Database/RecordRelation.php:65-86 | The model ends in the state its step describes, and the step's result is returned. |
| Relations.RecordRelation.Match | src/FMLaravel/Database/RecordRelation.php:63-90 | Models up to and including the first failure have their step applied, and later models are untouched. The result is that failure, or the models. A row whose length differs from the field names is not a failure. |
| Relations.RecordRelation.GetEager | src/FMLaravel/Database/RecordRelation.php:58-61 | Eager loading needs no query and returns an empty collection. |
| Relations.LazyFetchByKey | src/FMLaravel/Database/RecordRelation.php:97-98 | The lazy path asks for the parent again by its key name and value, with limit 1. The relation is eager-loaded exactly when the parent declares it. A null key asks for a not-null key. A boolean key on a `->` key name throws, as `where` does. |
| Relations.RecordRelation.constructor | src/FMLaravel/Database/RecordRelation.php:14-21 | Holds the name, the parent, the related model, the foreign table and the type. It has no field names yet. |
| Builders.DeclaredRelations | src/FMLaravel/Database/Builder.php:22 | Exactly the relation names the model declares. |
| Builders.AddEagerNamesGrows | src/FMLaravel/Database/Builder.php:19 | The eager-load list only grows: earlier names keep their places, every requested name is listed, and no name appears twice. |
| Builders.AddEagerNamesFresh | src/FMLaravel/Database/Builder.php:19 | On a fresh builder, distinct names are listed exactly as requested. |
| Builders.EagerLoadOfRequest | src/FMLaravel/Database/Builder.php:19-22 | After one call with distinct names, the list passed on holds requested, declared names only. It holds every such name, once, in request order. |
| Builders.EagerLoadAfterCalls | src/FMLaravel/Database/Builder.php:19-22 | After any calls, the list holds the declared names among all names requested so far, each once, in first-request order. |
| Builders.Builder.With | src/FMLaravel/Database/Builder.php:17-27 | The builder's list gains the requested names. The query's extractor receives the declared ones among them. |

## Left out

- The FileMaker PHP API and the server are parameters: `execute` runs a command and returns records or an error. `RawRecord` carries the fields, the ids and the related sets. `FileMaker::isError`, `getCode`, `getMessage` and `getFetchCount` are fields of `CommandResult`.
- `RecordExtractor::extractRecordFields` is not defined: the whole method is commented out (RecordExtractor.php:109-119). Its behaviour is the parameter `fieldsOf`, and `QueryBuilder::insertGetId` reads the key field through the parameter `getField`.
- Queries.QueryBuilder.Update / Queries.QueryBuilder.InsertGetId: their `Success` paths, and `UpdateReconcilesMeta`, `InsertSetsMeta` and `InsertZeroKeyIsFalse`, describe an extractor that defines `extractRecordFields`. As written, the call at QueryBuilder.php:305 and :358 raises PHP's "Call to undefined method" error. So every `update` with a non-container value and every `insertGetId` or `insert` throws, after the edit or add command has already run on the server. For `update`, `getFileMakerMetaData` has also already created the metadata. The attributes are never reconciled, and the container values are never handed on. A write that returns no record throws this same error, not the model's `NoRecordReturned`.
- `Model::updateContainerFields` and the container-field life cycle are not part of this model. This covers `UploadedFile`, `SplFileInfo`, `ContainerField::fromRealpath` and `fromServer`, the caches, autoloading, `getAttribute` and `getAttributeValue`. It also covers `containerFieldSetMutator`. A container value is only a key and a URL, and `update` and `insertGetId` return the container values they would hand on. Their `Success` results assume that `updateContainerFields` returns normally. The base `Model::updateContainerFields` (Model.php:437-440) always throws, so with container values its result holds only for a model class that overrides it.
- Eloquent's machinery is not modelled:
  - `parent::setAttribute` is a plain assignment, without mutators or casts.
  - `parent::with` is modelled for plain names only, without nested `a.b` names or constraint closures.
  - `hydrate` builds a child from its attributes.
  - `setRelation` is a map update.
  - Connections and `find` are the `fetch` parameter of `RecordRelation::getResults`.
  - The parent's id is read as a plain attribute (`AttributeOf`), without the accessors or casts of `getAttributeValue`.
- `where` with an array of columns, a closure, a sub-query or a raw expression is not modelled. The same goes for `addBinding` and Eloquent's invalid-operator check. `whereNull` is modelled only as the null-test clause it stores.
- `Model::relatedRecords`, `newBaseQueryBuilder`, `newEloquentBuilder`, the layout accessors and `getFileMakerLayout` are not modelled. They only wire objects together.
- `RunUploaderScriptOnSave`, `FileMaker/Record.php` and `FileMaker/RecordInterface.php` are not part of this model. A record is the `RawRecord` datatype.
- PHP's loose comparisons (`==` on strings, `in_array`) are modelled as exact string equality. Numeric strings that PHP would compare equal, such as "1e1" and "10", are not equated. The one loose comparison that matters, `strpos(...) == false`, is modelled exactly.
- The same model object appearing twice in `initRelation` or `match` is not modelled: both require distinct models. The PHP code would apply the step twice to the shared object.
- Concurrency, the server's record locking and time are not modelled.
- Notices and warnings are taken not to throw. This is bare PHP 7's behaviour, but Laravel's default error handler turns them into an `ErrorException`. Under that handler, the following members' stated outcomes become that exception instead:
  - `Queries.NullTestCriterion`: the undefined `operator` and `value` indexes read at QueryBuilder.php:198-201.
  - `Relations.ChildrenLengthMismatch` and `Relations.RecordRelation.Match`: the `array_combine` warning at RecordRelation.php:69.
  - `Relations.NonArrayFirstRowGivesNoKeys` and `Relations.KeyedRowsGiveNoKeys`: the missing-index notice and the `array_keys` warning at RecordRelation.php:42.
  - `Relations.StringRelatedCountsAsRows`: the string-offset warning and the PHP 7.2 `count` warning at RecordRelation.php:38.
  - `Models.MetaRead`: the missing-property notice at Model.php:261.
- Extraction.ForModel: PHP's "class not found" error from `new $model()` is merged with the not-a-model error `NotAModel`.
- PhpValue.Lookup: a string key used as a string offset is converted by its leading sign and decimal digits only. PHP's leading whitespace and exponent forms are not modelled. The rest of the model uses only the fact that the result is a string.
- Relations.Children: `array_combine` turning numeric-string field names into integer keys is not modelled; every field name is a string key.
- Models.RepetitionMerge: states the value of every slot after `array_replace`, not the order of the slots.
- Queries.QueryBuilder.SortBy: states that existing rules keep their order and that new fields are present. It does not state the order in which several new fields are appended.
- Helpers.EscapeAddsOnlyBackslashes: the exact growth (one backslash per operator character, two per doubled pair) is stated locally by `Helpers.EscapeSpecialChar` and `Helpers.EscapeDoubled`, not as a count over the whole string.
- Relations.FirstRowKeys: states only the number of keys. Which keys they are is stated through `Relations.FieldKeysOfExtractedRows`, for rows the extractor produced.
