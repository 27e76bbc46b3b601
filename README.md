# argo / argonaut core in Dafny

This project models the bookkeeping core of the Go packages `argo` (a relational
REST engine) and `argonaut` (an older in-memory REST store), and proves properties
of that model.

- **Column and field sets** (`columns.go`, `fields.go`). These are name-keyed sets
  with add-if-absent and remove-if-present.
- **Row helpers** (`values.go`). They turn byte values into strings, check that
  required keys are present, and validate a row against a whitelist of validators.
  Validation records one error per field instead of stopping at the first.
- **Table wrapper** (`table.go`): the `slugify` character map, `Exclude`,
  `Slugify` and `FromTable`.
- **Relationship includes.** There are three kinds:
  - has-many (`many.go`);
  - many-to-many through a link table (`many_to_many.go`);
  - the older has-many (`include.go`).

  For each kind the model covers how the include binds to a foreign key when it is
  attached to a resource. It also covers how it enriches parent rows with the rows
  the database returned: one query per parent for detail views, or one batch query
  grouped by foreign-key value for list views.
- **Ordering and pagination** (`relational/table_resource.go`): the `order`
  parameter, the limit/offset rules of `Select`, and the defaults of
  `ResourceFromTable`.
- **Integer parameters with defaults** (`relational/parsers.go`).
- **The in-memory integer collection** (`collection.go`). It is a CRUD store with an
  auto-increment key and a record count.
- **JSON type checkers** (`types.go`), and the attribute whitelist of `element.go`.

Each core Go file is one Dafny module:

| module | source |
|---|---|
| ColumnSets, FieldSets | columns.go, fields.go (and `ColumnField` of field.go) |
| RowValues | values.go |
| Tables | table.go |
| ManyIncludes, ManyToManyIncludes, LegacyIncludes | many.go, many_to_many.go, include.go |
| RelationalResource, Parsers | relational/table_resource.go, relational/parsers.go |
| Collection | collection.go |
| TypeCheck | types.go |
| Elements | element.go |

Five support modules hold shared material:
- **Wrappers**: `Option`, and `Outcome` with its three cases `Ok`, `Err` (a returned
  Go error) and `Panic` (a Go panic).
- **Schema**: what the core uses of the SQL toolkit — tables, columns, foreign keys
  and the dynamically typed row `sql.Values` — and the two include lists of a
  resource.
- **IncludeSpecs**: the functions that state once what the three include kinds
  compute.
- **Strconv**: Go's decimal `ParseInt` and `FormatInt`.
- **Json**: the values `encoding/json` decodes into.

Modelling choices:
- **`selects` is a heap object.** A `Columns` set is a Go map, and it is shared by
  every copy of the element that holds it. It is therefore a class
  (`ColumnSets.Columns`) whose methods update its `cols` field in place. So
  `Exclude` called on a copy of an include element changes the set that every other
  copy sees, as in Go.
- **Query results are an input.** The rows a SQL query returns are a parameter
  `results: seq<Row>`.
- **Parent rows.** The parent rows of a batch query are an `array<Row>`, updated in
  place. A single parent row, a Go map passed by reference, is returned updated.
- **Resources are generic.** A resource's include lists have an element type `I`,
  which stands for Go's `Include` interface. `Modify` receives the conversion into
  `I` as a function.
- **Panics and errors.** Panics are `Outcome.Panic`; returned errors are
  `Outcome.Err` or `Option<string>`. Every error and panic message is the source's
  text, with the `%s` arguments filled in.
- **`%T` in the AsMap error.** The source formats the zero `string` of the failed
  type assertion with `%T`, so the message always says "non-string type string". The
  model writes it that way.

## Model

| member | source | states |
|---|---|---|
| ColumnSets.Columns.Add | columns.go:12-21 | a name already present is an error and leaves the set unchanged; otherwise exactly one entry, the column under its name, is inserted |
| ColumnSets.Columns.Remove | columns.go:28-37 | an absent name is an error and changes nothing; otherwise exactly that name is deleted |
| ColumnSets.Columns.Selectable | columns.go:41-49 | returns one column per entry of the set, each entry exactly once, in some iteration order |
| ColumnSets.ColumnSet | columns.go:51-57 | a fresh set whose map is KeyedByName of the columns |
| ColumnSets.KeyedByNameKeys | columns.go:51-57 | the keys of a column set are exactly the names of the given columns |
| ColumnSets.KeyedByNameLastWins | columns.go:51-57 | a name maps to the last column carrying it: later columns overwrite earlier ones |
| ColumnSets.KeyedByNameIsKeyed | columns.go:51-57 | every stored column sits under its own name |
| ColumnSets.ExcludedMeaning | table.go:21-32 | the Exclude loop succeeds iff every name is allowed, present and not repeated, and then removes exactly those names; on failure the names before the offending one are removed and nothing else |
| FieldSets.Fields.Add | fields.go:12-21 | error iff the field's name is already a key, with the set unchanged; otherwise the field is inserted under its name |
| FieldSets.Fields.Remove | fields.go:28-37 | error iff the name is absent; the only key deleted is that name |
| FieldSets.FieldsFromColumns | fields.go:51-57 | keyed by column name, a later column winning; each stored field has an empty name and wraps the column |
| RowValues.FixedMeaning | values.go:9-18 | fixing keeps the key set and every non-byte value; a byte value becomes the string of exactly those bytes |
| RowValues.FixedIdempotent | values.go:9-18 | after one pass no byte value remains, so a second pass changes nothing |
| RowValues.FixRow | values.go:11-16 | the per-row loop computes the fixed row |
| RowValues.FixValues | values.go:9-18 | every row of the slice is replaced in place by its fixed form |
| RowValues.HasRequired | values.go:21-33 | no error iff every requested key is present; otherwise status 400, no meta message, and exactly one "is required" field error for each missing key |
| RowValues.ValidateKey | values.go:49-62 | one turn of the validation loop adds this key's field error, or its cleaned value, to the accumulated state |
| RowValues.ValidateUsing | values.go:35-67 | every key is visited; the result row is the cleaned row; the error is nil iff no field failed, and otherwise a 400 error with exactly the accumulated field errors |
| RowValues.ValidationKeepsKeys | values.go:49-67 | validation never adds or removes a key; field errors are only on existing keys; a key with no validator always gets "does not exist in this resource" |
| RowValues.ValidationOutcomes | values.go:56-61 | a rejected value is left untouched and gets the validator's message as its field error; an accepted value is replaced by its cleaned value and gets no error |
| Tables.SlugExamples | table_test.go:11-12 | slugify("Ca CB") is "ca-cb" and slugify("CO_IN") is "co-in" |
| Tables.SlugOfAscii | table.go:34-47 | for ASCII input the slug is no longer than the name and uses only lower-case letters, digits and '-' |
| Tables.SlugRuneFixes | table.go:35-46 | a character slugify emits is mapped to itself by a second pass |
| Tables.SlugIdempotent | table.go:34-47 | slugify is idempotent |
| Tables.Slugify | table.go:51-54 | only the name changes, and it becomes its slug |
| Tables.Exclude | table.go:21-32 | names are removed one by one from the shared set; the first absent or already removed name panics, and earlier removals stay (Excluded) |
| Tables.FromTable | table.go:56-67 | panics iff the table is nil or has no primary key; otherwise named after the table, with every column selected |
| IncludeSpecs.FirstReferencingIsFirst | many.go:97-102 | the scan finds a key iff some foreign key references the parent, and it finds the first such key |
| IncludeSpecs.ClassifyIsLast | many_to_many.go:79-85 | each of the two keys ends up as the last key of its kind (parent first, else target), or keeps its earlier value when none matches |
| IncludeSpecs.MatchingIsFilter | many.go:245-265 | the rows matching a value are exactly the result rows with that foreign-key value, in order; none match iff no row has it |
| IncludeSpecs.GroupedIsMatching | many.go:245-265 | grouping by foreign-key value and then looking a parent up gives exactly the matching rows, in result order, stripped when asked; a value is grouped iff some row has it |
| IncludeSpecs.FixMatchCommute | many.go:243-254 | fixing byte values before or after filtering on a non-byte key gives the same rows |
| IncludeSpecs.BatchAgreesWithSingle | many.go:135-267 | the list the batch query attaches to a parent equals what the single query stores for it, when no foreign-key value is a byte sequence |
| IncludeSpecs.AsMappingFails | many.go:182-190 | the AsMap fold fails iff some row's key column is not a string |
| IncludeSpecs.AsMappingKeys | many.go:181-193 | a successful fold has one entry per distinct key string and nothing more |
| IncludeSpecs.AsMappingLastWins | many.go:191-192 | on duplicate keys the value of the last row with that key wins |
| IncludeSpecs.BuildMapping | many.go:181-193 | the mapping loop computes the AsMap fold, stopping at the first non-string key |
| IncludeSpecs.GroupBy | many.go:246-254 | the grouping loop computes the grouping of the rows by foreign-key value |
| IncludeSpecs.AttachGroups | many.go:258-265 | every parent gets its group under the include name, or an empty list; nothing else in any parent changes (the many-to-many attach loop, many_to_many.go lines 214-223, is the same step) |
| ManyIncludes.AsMap | many.go:27-53 | panics iff the key or the value column is not selected; otherwise the copy records exactly that pair |
| ManyIncludes.DetailOnly | many.go:56-59 | the copy is detail-only and otherwise equal |
| ManyIncludes.Exclude | many.go:62-84 | a name that is not a column of the included table, or that was already removed, panics; otherwise exactly the named columns are removed (Excluded over the table's columns) |
| ManyIncludes.Modify | many.go:89-132 | fails on a resource without a table, when no key is bound, or when the include name is a parent column, changing nothing; otherwise binds the first referencing key and appends once to the detail includes, and to the list includes iff not detail-only |
| ManyIncludes.Query | many.go:135-196 | panics iff the parent row lacks the referenced column; the rows lose the foreign-key column unless showFK, are fixed, and are stored under the name; with AsMap, a non-string key is an error that writes nothing, else the folded map is stored |
| ManyIncludes.QueryAll | many.go:200-267 | panics, writing nothing, iff some parent lacks the referenced column or there are parents and the table has no primary key to order by; an empty parent list is a no-op; otherwise each parent gets exactly the fixed result rows with its foreign-key value, in result order, stripped unless showFK, or an empty list |
| ManyIncludes.Many | many.go:270-282 | panics iff the table is nil or the name is empty; otherwise selects all columns, with no key bound |
| ManyToManyIncludes.DetailOnly | many_to_many.go:20-23 | the copy is detail-only and otherwise equal |
| ManyToManyIncludes.Exclude | many_to_many.go:26-44 | a non-column of the target table, or a name already excluded, panics; otherwise exactly the named columns are removed |
| ManyToManyIncludes.IncludedSucceeds | many_to_many.go:47-69 | IncludeThrough succeeds iff every name is a through column that is not yet selected and not repeated |
| ManyToManyIncludes.IncludedAddsNamed | many_to_many.go:47-69 | a successful IncludeThrough adds exactly the named through columns |
| ManyToManyIncludes.IncludedKeeps | many_to_many.go:47-69 | IncludeThrough never drops or changes a column that was already selected |
| ManyToManyIncludes.IncludeThrough | many_to_many.go:47-69 | adds the named through columns one by one to the shared set; the first unknown or colliding name panics, and earlier additions stay |
| ManyToManyIncludes.Modify | many_to_many.go:71-115 | classifies the through keys (Classify); fails, changing nothing, without a table, without both keys, or on a name collision; otherwise appends once to the detail includes, and to the list includes iff not detail-only |
| ManyToManyIncludes.Query | many_to_many.go:118-157 | panics iff the parent lacks the referenced column; otherwise stores the fixed result rows, with no column removed, under the name |
| ManyToManyIncludes.QueryAll | many_to_many.go:160-224 | panics, writing nothing, iff some parent lacks the column; otherwise each parent gets the fixed rows whose resource-key column equals its value, in result order, or an empty list |
| ManyToManyIncludes.ManyToMany | many_to_many.go:226-239 | panics iff either table is nil or the name is empty; otherwise selects all target columns, with no keys bound |
| LegacyIncludes.AsMap | include.go:22-46 | panics iff the key or the value column is not selected; otherwise the copy records exactly that pair |
| LegacyIncludes.Exclude | include.go:48-66 | unknown or already excluded names panic; otherwise exactly the named columns are removed |
| LegacyIncludes.Bound | include.go:76-83 | binding changes only the two key names, and only when a referencing key exists |
| LegacyIncludes.Modify | include.go:68-111 | fails, changing nothing, without a table, when a key name is empty after the scan, or on a name collision; otherwise appends the bound copy to the detail includes only, never to the list includes |
| LegacyIncludes.Query | include.go:114-168 | panics iff the parent lacks the key value column; stores the fixed rows, foreign-key column included, or the AsMap fold; a non-string key is an error that writes nothing |
| LegacyIncludes.Many | include.go:170-182 | panics iff the table is nil or the name is empty; otherwise selects all columns, with both key names empty |
| RelationalResource.Has | relational/table_resource.go:13-20 | true iff some element equals the string |
| RelationalResource.JoinSplit | relational/table_resource.go:117 | joining the comma-split parts gives the parameter back |
| RelationalResource.SplitJoin | relational/table_resource.go:117 | splitting the join of comma-free parts gives the parts back |
| RelationalResource.ParsePart | relational/table_resource.go:119-131 | a leading '-' means descending on the rest of the part; anything else means ascending on the whole part |
| RelationalResource.RecognizedIsFilter | relational/table_resource.go:125-132 | only sortable columns are kept, every sortable part is kept, input order and duplicates are preserved, and recognition distributes over concatenation |
| RelationalResource.OrderingNonEmpty | relational/table_resource.go:136-141 | with a non-empty primary key the ordering is never empty |
| RelationalResource.OrderingDefaults | relational/table_resource.go:135-142 | "" and ",,," both give the primary key ascending |
| RelationalResource.OrderingMixed | relational/table_resource.go:115-143 | "name,-id" gives name ascending, then id descending |
| RelationalResource.OrderingSkipsUnsortable | relational/table_resource.go:125-132 | a part naming an unsortable column is skipped |
| RelationalResource.Resource.Ordering | relational/table_resource.go:115-143 | the loop computes the recognised parts, or the primary key ascending when none is recognised |
| RelationalResource.Resource.Select | relational/table_resource.go:97-109 | the limit and meta "limit" are set iff Limit is non-zero; the offset (default 0) is consulted only then, and applied and recorded iff non-zero; meta has no other key |
| RelationalResource.ResourceFromTable | relational/table_resource.go:146-179 | every column sortable in column order, Limit 100, Radius 200, the table's primary key; one location field iff the location, latitude and longitude columns all exist |
| Parsers.ParseLatLng | relational/parsers.go:15-18 | the unparsed error is returned iff both parameters are empty |
| Parsers.ParseIntOrDefault | relational/parsers.go:29-35 | the decimal value of the string when it parses, the default otherwise |
| Parsers.ParseInt64OrDefault | relational/parsers.go:39-45 | the same for base-10 64-bit integers |
| Parsers.EmptyGivesDefault | relational/parsers.go:29-45 | an empty parameter yields the default |
| Parsers.DecimalIsParsed | relational/parsers.go:29-45 | every 64-bit integer written in decimal is read back, whatever the default |
| Parsers.ResultIsDefaultOrParsed | relational/parsers.go:29-35 | the result is the default or a 64-bit value parsed from a non-empty string |
| Parsers.ParseExamples | relational/parsers.go:29-35 | "42", "-7" and "+5" parse; "4x" and "-" give the default |
| Strconv.ParseFormatRoundTrip | collection.go:59-80 | an id printed with %d is parsed back by the key parser, for every int64 |
| Collection.ToInt64 | collection.go:44-46 | the float-to-int64 conversion truncates toward zero and always lands in the int64 range |
| Collection.GivenId | collection.go:41-46 | a missing or non-number "id" gives 0 |
| Collection.IntegerCollection.IntegerStore | collection.go:156-159 | an empty store with both counters at zero that satisfies the invariant |
| Collection.NextKey | collection.go:51 | the int64 increment: one more, except that the largest int64 wraps to the smallest |
| Collection.IntegerCollection.Create | collection.go:31-77 | a decode error changes nothing; without a positive id the record is stored under the wrapped int64 successor of pkey, which on a valid store below the int64 limit is pkey+1 and free; a stored positive id is DuplicateResource and changes nothing; a new one is stored and pkey becomes the maximum; pkey and every key stay int64 values, and a valid store stays valid except on the wrap |
| Collection.IntegerCollection.CreateGuarded | collection.go:49-55 | the corrected create: at the int64 limit the automatic path refuses and changes nothing; a success stores the record under a key that was free, parsed back from the returned id, and the store stays valid |
| Collection.RaiseToLimit | collection.go:44-55 | a create with id 2^63-1024 and 1023 automatic creates bring pkey to the largest int64 on a valid store |
| Collection.WrapAround | collection.go:49-55 | the next automatic create stores its record under the smallest int64, returns that id, and leaves the store invalid |
| Collection.Overwrite | collection.go:49-73 | after the wrap, automatic creates reach a stored key and overwrite its record while length counts one record too many |
| Collection.OverflowWalk | collection.go:49-73 | from an empty store: the counter wraps, a record is lost, and length exceeds the number of records |
| Collection.IntegerCollection.Read | collection.go:79-90 | ImproperKey for a non-integer key, DoesNotExist for a free id, otherwise the stored record |
| Collection.IntegerCollection.Update | collection.go:92-125 | ImproperKey, then the decode error, then IdMismatch unless the body id is the key, then DoesNotExist; on success the whole record is replaced, with pkey and length unchanged; a valid store stays valid |
| Collection.IntegerCollection.Delete | collection.go:127-138 | errors change nothing; otherwise exactly that record is removed and length decremented; a valid store stays valid |
| Collection.IntegerCollection.List | collection.go:141-153 | exactly length entries, each stored record once, in the given iteration order |
| Collection.ScenarioCreate | collection_test.go:16-31 | an object asking for id 2 is stored under 2 with an int64 id |
| Collection.ScenarioCreateNamed | collection_test.go:33-43 | a create without an id takes the next id above all ids held; the other records stay |
| Collection.ScenarioDuplicateAndRead | collection_test.go:45-62 | a second create of id 2 is DuplicateResource; reading "2" gives the stored record |
| Collection.ScenarioDeleteAndUpdate | collection_test.go:64-80 | deleting "2" succeeds once and then is DoesNotExist; "3" is updated under its own id |
| Collection.ScenarioFill | collection_test.go:82-85 | four creates without an id on a store holding only id 3 leave it holding exactly ids 3 to 7 |
| Collection.ScenarioList | collection_test.go:87-89 | listing a store holding ids 3 to 7 gives five records |
| Collection.CollectionScenario | collection_test.go:8-91 | the package's walk-through: ids "2" and "3", a refused duplicate, the record read back, delete then DoesNotExist, a successful update, five records listed |
| TypeCheck.ScalarErrors | types.go:27-108 | at most one error; none iff an optional value is absent or null, or the kind matches (a string also non-empty and within a positive limit); "Field is required" for an absent required value or an empty string; one kind error for a wrong kind; any number passes Integer |
| TypeCheck.ErrorsOfAnyAndArray | types.go:114-141 | Any never errs; an absent array passes; a non-array is one error; an array without element type passes |
| TypeCheck.ElemErrorsAppend | types.go:125-138 | element errors concatenate in element order |
| TypeCheck.ElemErrorsEmptyIff | types.go:125-140 | a typed array passes iff every element passes on its own |
| TypeCheck.Check | types.go:114-141 | the checker's loop appends each element's errors in order and computes Errors |
| TypeCheck.NumberAndBooleanExamples | types_test.go:7-121 | the integer and boolean cases of the package's checker tests; a fraction passes as an integer |
| TypeCheck.StringExamples | types_test.go:43-91 | the string cases, including "Field cannot be longer than 10 characters" |
| Elements.Attr | element.go:46-48 | the attribute has the given name |
| Elements.Projected | element.go:17-25 | a key is kept iff it is declared and present, with the decoded value; nothing is defaulted |
| Elements.ProjectedIsRestriction | element.go:17-25 | the projection is the decoded map restricted to the declared names |
| Elements.ProjectedIdempotent | element.go:17-25 | projecting again changes nothing |
| Elements.Element.Unmarshal | element.go:12-26 | the loop computes the projection of whatever was decoded |
| Elements.Elem | element.go:32-39 | a fresh attribute array with the list's length and order |

## Findings

| source | as written | input that shows it | evidently intended | confidence | as-written member | corrected member |
|---|---|---|---|---|---|---|
| collection.go:49-55 | the automatic id is `pkey += 1` on an int64, with no check for the largest value | create `{"id": 9223372036854774784, "name": "first"}`, then 1024 creates without an id (the last is stored under -9223372036854775808), then `{"id": 9223372036854773760}` and 1024 more without an id: the last overwrites the first record, and `length` counts one record too many | an automatic id is always a fresh positive key, so every stored key stays at most `pkey` and `length` counts the records | not executed; follows from Go's defined int64 wrap-around | Collection.OverflowWalk | Collection.IntegerCollection.CreateGuarded |

## Left out

- SQL statement building and execution are not modelled. The rows a query returns are
  an input, and a query error panic is not modelled.
- The location branch of `Select` is not modelled: PostGIS `DWithin`, radius, and the
  float parsing of `ParseLatLng` beyond its both-empty branch. These are floating
  point and foreign geometry.
- `ParseFloatOrDefault` is not modelled, for the same reason.
- The JSON codec is not modelled.
  - `ElementStruct.Unmarshal`'s decode step is an input (`dirty`). Its `Marshal` is
    not modelled.
  - The collection's schema type `ResourceStruct` is not part of this model. Create
    and Update take the decode outcome as input. Create, Read, Update and List return
    the stored objects instead of JSON bytes, so the `Marshal` error path is not
    modelled.
- Collection.IntegerCollection.Create: the wrap of `pkey` is modelled; the int64
  increment of `length` is not, because it only wraps after 2^63 stored records.
- Collection.IntegerCollection.List is modelled on valid stores only. After the
  overflow in "## Findings", `length` can exceed the record count, and Go's List then
  ends in null entries.
- Collection.IntegerCollection.List: Go randomises map iteration. The order is
  therefore a parameter, required to list every key exactly once.
- ColumnSets.Columns.Selectable: the iteration order is a ghost result. The order is
  stated only as "each column exactly once".
- ColumnSets.Columns.Has and FieldSets.Fields.Has are predicates defined as key
  membership, with no contract of their own. Their meaning is used and proved
  through the AsMap contracts.
- RowValues.ValidateUsing: `sql.Type.Validate` is a parameter function. Key visiting
  order does not show in the result, and the model states that order-free result.
- Tables.Slug: the Unicode tables (`unicode.IsDigit`, `IsLetter`, `IsPrint`,
  `ToLower`) are a parameter. Idempotence is proved under the stated stability
  assumption about them. The ASCII facts are proved under tables that agree with
  ASCII. UTF-8 decoding and encoding are not modelled.
- `ResourceFromTable` with a nil table is not modelled: the table parameter is
  non-null.
- The `resource` back-pointer of the many-to-many include element is not modelled.
  Only statement building reads it (the join at many_to_many.go lines 136 and 187),
  and statement building is not modelled.
- The collection's `schema` field is not modelled: its decoding is an input. The
  collection's fields are `pkey`, `length`, `schema` and `resources`.
- The `intFields`, `stringFields`, `floatFields`, `timeFields` and `boolFields`
  fields of the relational resource (relational/table_resource.go lines 35-39) are
  not modelled: nothing in the package reads them.
- Hashing a non-hashable value as a map key panics in Go. The batch grouping
  (`byFkValue`) treats every value as hashable.
- LegacyIncludes.Query: Go stores a nil slice when no row comes back. The model
  stores an empty list: nil versus empty is not distinguished.
- include.go calls `fixValues`, which is not part of this model. It is taken to be
  values.go's `FixValues`.
- TypeCheck.ScalarErrors: "every scalar check returns at most one error" is stated
  for the scalar checkers. The element-count bound for arrays of scalars is not
  proved.
- Go `int` is taken as 64 bits wide, so `ParseIntOrDefault` and
  `ParseInt64OrDefault` accept the same strings.
- table_resource.go's CRUD handlers are not modelled: they are thin plumbing over the
  connection and the encoder.
- Also not modelled: the encoders in encoder.go and resource.go, the HTTP routing
  files, filters.go and validator.go.
