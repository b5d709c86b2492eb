# sequelize-graphql, modelled in Dafny

sequelize-graphql turns one model definition into two things:

- a Sequelize model: its attributes, its table name and its associations;
- a GraphQL API: an output type, filter and order-by input types, an offset-paginated connection, `findById`/`findByIds` queries and `create`/`update`/`delete` mutations.

At request time the library plans store lookups. It has a per-request registry of batching loaders and resolvers for association fields. It walks the GraphQL selection tree to decide which queries a pagination must run.

This project models that core. Sequelize and GraphQL are treated as abstract:

- The store is an in-memory table of rows. Its `findAll`, `findOne`, `findByPk` and `count` are defined over `where` predicate trees (`Store`), which have an explicit semantics.
- A GraphQL type is a plain value (`Gql`). An output object type is referred to by name, so a cyclic model graph stays finite.
- A JavaScript object is a record: an ordered sequence of distinct keys with their values (`Records`). A JavaScript value is the `Js.Value` datatype.

The model keeps the source's own form:

- Pure builders are functions, each with lemmas about what it builds.
- The `for`-in loops are methods with loop invariants, proved against specification functions: filter compilation, `validateModelFields` and the record combinators.
- Objects that update their own fields are classes, each with its `modifies` frames:
  - `Model`, with its lazily remembered association map and output type;
  - the `ModelLoader` registry;
  - the GraphQL type name cache;
  - the `memoize` and `memoizer` caches.
- The function identity that `memoizer` keys its caches by is an explicit tag object stored on the function.

| module | models |
|---|---|
| `Records` | `src/utils/object.ts` |
| `Filters`, `ColumnTypes` | the operator tables, filter compilation and the column-kind catalog |
| `Database` | `src/definitions/model/gen/database.ts` |
| `Base`, `Associations`, `AssociationResolvers` | `src/definitions/model/gen/schema/` |
| `Models` | `src/definitions/model/Model.ts` |
| `ModelLoaders` | `src/definitions/ModelLoader.ts` |
| `Pagination`, `PaginationOld` | the two `genModelOffsetPagination.ts` files |
| `OrderBy`, `OrderByOld` | the two `genModelOrderBy.ts` files |
| `ModelFilters` | `src/schema/model/genModelFilters.ts` |
| `TypeCache` | `src/schema/cacheGraphQLType.ts` |
| `Memoize` | `src/utils/memoize.ts` |
| `ResolveInfo` | `src/graphql-utils/schema/resolveInfo.ts` |
| `ValidateFields` | `src/schema/model/validateModelFields.ts` |
| `Expose` | `src/schema/model/exposeModel.ts` |
| `Mutations` | `src/schema/model/genModelMutations.ts` |
| `Slugify`, `Strings`, `Validators` | `src/utils/slugify.ts`, `src/utils/string.ts` and `src/utils/validators.ts` |
| `Wrappers`, `Js`, `Seqs`, `Gql`, `Store`, `Errors`, `Definitions` | shared data model |

Where the code and its documentation disagree, the model follows the code:

- `getResolveInfoSelectedFields`: its doc comment (`src/graphql-utils/schema/resolveInfo.ts:40-51`) lists `['field1', 'field2.field3']` for a nested selection. The code also records the intermediate `field2`, and so does the model (`ResolveInfo.NestedFieldRecorded`).
- Pagination variants: `src/schema/index.ts` re-exports the older pagination and the older order-by builder from `src/schema/`. So the `hasMany` association field and `exposeModel`'s pagination use the older variant (`PaginationOld`). `Pagination` models `src/schema/model/genModelOffsetPagination.ts` on its own terms.

## Model

| member | source | states |
|---|---|---|
| Records.MapRecord | src/utils/object.ts:1-11 | the loop builds the record with the input's keys in order, each value being the callback applied to that entry's value and key |
| Records.MappedKeys | src/utils/object.ts:1-11 | mapping a record keeps its key sequence |
| Records.MappedGet | src/utils/object.ts:1-11 | a key reads the callback of its own value in the mapped record, and is absent there exactly when it is absent from the input |
| Records.FilterRecord | src/utils/object.ts:13-23 | the loop builds exactly the entries whose value and key pass the predicate, in input order |
| Records.Filtered | src/utils/object.ts:13-23 | every entry of the result is an input entry that passes the predicate, every passing input entry is in the result, and the result is no longer than the input |
| Records.FilteredGet | src/utils/object.ts:13-23 | a key is present after filtering exactly when it is present and its entry passes, with the same value |
| Records.ReduceRecord | src/utils/object.ts:25-36 | the loop's accumulator is the left fold of the callback over the entries in key order, from the initial value |
| Records.MakeRecordFromEntries | src/utils/object.ts:38-48 | the loop assigns the entries in order, so each key ends with its last value and keeps its first position |
| Records.FromEntriesGet | src/utils/object.ts:38-48 | a key built from entries reads the value of its last occurrence, and is absent when no entry names it |
| Records.Put | src/utils/object.ts:8 | assigning a key overwrites an existing key in place, or appends a new one, and leaves every other key's value alone |
| Records.SpreadGet | src/definitions/model/gen/schema/base.ts:62-67 | after spreading entries over a record, a key reads its last value among the entries, and otherwise its value in the record |
| Records.SpreadHas | src/definitions/model/gen/schema/base.ts:62-67 | a key is in a spread exactly when it is in one of the two records |
| Records.SpreadRecordGet | src/definitions/model/gen/schema/base.ts:62-67 | in `{ ...a, ...b }` a key reads b's value when b has it and a's value otherwise |
| Records.SpreadKeysPrefix | src/definitions/model/gen/schema/base.ts:62-67 | a spread keeps the keys of the left record, in their positions, as its prefix |
| Database.ModelAttributes | src/definitions/model/gen/database.ts:8-19 | the column attributes have the column keys in order, each with its column's store type, nullability, default value and auto-increment, and none marked primary |
| Database.MakeModelIdAttribute | src/definitions/model/gen/database.ts:21-24 | the id attribute is a non-null primary key; without an id definition it is a UUID with a `UUIDV4` default, otherwise it carries the definition's type, default and auto-increment |
| Database.GenDatabaseModel | src/definitions/model/gen/database.ts:26-49 | the store model is named after the camelized model name, its table is the table name or else the model name, names are frozen, and timestamps, indexes and paranoid are passed through |
| Database.DatabaseAttributes | src/definitions/model/gen/database.ts:37-40 | the attributes start with `id`; a column key reads its column attribute (a column named `id` replacing the id attribute in place), `id` otherwise reads the id attribute, and no other key is present |
| Database.IdAttributeIsPrimaryKey | src/definitions/model/gen/database.ts:37-40 | without a column named `id`, the `id` attribute is the primary-key id attribute |
| Database.IdColumnOverrides | src/definitions/model/gen/database.ts:37-40 | a column named `id` replaces the id attribute, which is then not marked primary key |
| Database.OnlyIdPrimary | src/definitions/model/gen/database.ts:37-42 | when only `id` entries are marked primary, the primary key attribute is `id` |
| Database.PrimaryKeyIsId | src/definitions/model/gen/database.ts:37-42 | every generated store model has primary key attribute `id` |
| ColumnTypes.ENUM | src/definitions/model/columnTypes.ts:105-120 | an ENUM column type has a GraphQL enum type named as given |
| ColumnTypes.BaseOnlyKinds | src/definitions/model/columnTypes.ts:28-80 | ID and BOOLEAN use their scalars and only the four base operators |
| ColumnTypes.NumericKinds | src/definitions/model/columnTypes.ts:34-56 | INTEGER uses Int, and FLOAT, DECIMAL and DOUBLE use Float; all four have the base and the four comparison operators |
| ColumnTypes.StringKinds | src/definitions/model/columnTypes.ts:58-74 | STRING, CHAR and TEXT use String with the base and the three substring operators |
| ColumnTypes.DateKinds | src/definitions/model/columnTypes.ts:124-134 | DATE and DATEONLY use the Date scalar but the integer filter |
| ColumnTypes.EnumValues | src/definitions/model/columnTypes.ts:105-120 | an ENUM's store values are its entries' values as strings, in entry order, and its GraphQL values have the entry keys, each holding its own value |
| ColumnTypes.EnumFilter | src/definitions/model/columnTypes.ts:118 | the ENUM filter is named after the enum with `Filters` appended and has only the base operators |
| Filters.TableKeys | src/definitions/model/columnTypesFilters.ts:29-82 | the base, numeric and string tables have exactly the keys eq/ne/in/notIn, lt/lte/gt/gte and contains/startsWith/endsWith |
| Filters.TablesDisjoint | src/definitions/model/columnTypesFilters.ts:29-82 | no operator key is in two tables |
| Filters.BaseNumericFlat | src/definitions/model/columnTypesFilters.ts:117-121 | spreading the numeric table over the base table concatenates them |
| Filters.BaseStringFlat | src/definitions/model/columnTypesFilters.ts:122-125 | spreading the string table over the base table concatenates them |
| Filters.AllFilterDefinitionsIsSpread | src/definitions/model/columnTypesFilters.ts:84-88 | the combined table is the spread of the three tables, all eleven keys with no shadowing |
| Filters.OperatorTable | src/definitions/model/columnTypesFilters.ts:29-82 | each operator key compiles to its own store operator (`contains` to substring), and only `in` and `notIn` take list operands |
| Filters.KnownFilterKeys | src/definitions/model/columnTypesFilters.ts:92-94 | exactly the eleven operator keys have a definition; the assertion `key in AllFilterDefinitions` passes for them and for the names every object inherits from `Object.prototype`, which have no definition |
| Filters.FilterKeyError | src/definitions/model/columnTypesFilters.ts:134-138 | a key without a definition fails the assertion, except an inherited name such as `toString`, which passes it and then fails with the `TypeError` of calling the `resolve` it lacks |
| Filters.MakeFiltersType | src/definitions/model/columnTypesFilters.ts:96-115 | the filter type is an input object named after the column type with `Filters` appended |
| Filters.MakeFiltersTypeFields | src/definitions/model/columnTypesFilters.ts:96-115 | a field exists for each base or extra operator, an extra one shadowing a base one; its type is the column type, or a list of non-null values of it for a list operator, and it has the operator's description |
| Filters.ListOperands | src/definitions/model/columnTypesFilters.ts:104-110 | unless overridden, `in` and `notIn` take `[T!]`, a list of non-null values of the column type, and `eq` takes `T` |
| Filters.FilterTypeKeys | src/definitions/model/columnTypesFilters.ts:96-115 | the filter type's fields have exactly the operator set's keys, in order |
| Filters.BaseOnlyFilters | src/definitions/model/columnTypesFilters.ts:126-127 | the ID and Boolean filters have only the base operators |
| Filters.NumericSetKeys | src/definitions/model/columnTypesFilters.ts:117-121 | the numeric operator set is the base keys followed by the comparisons |
| Filters.NumericFilters | src/definitions/model/columnTypesFilters.ts:117-121 | the Int and Float filters have the base operators and the four comparisons |
| Filters.StringSetKeys | src/definitions/model/columnTypesFilters.ts:122-125 | the string operator set is the base keys followed by the substring operators |
| Filters.StringFilters | src/definitions/model/columnTypesFilters.ts:122-125 | the String filter has the base operators and the three substring operators |
| Filters.ConditionsFailurePersists | src/definitions/model/columnTypesFilters.ts:133-139 | once an unknown key fails the assertion, later entries do not change the outcome |
| Filters.FilterConditionsSucceed | src/definitions/model/columnTypesFilters.ts:133-139 | compiling an operator map succeeds exactly when every key is an operator key |
| Filters.FilterConditionsSpec | src/definitions/model/columnTypesFilters.ts:133-139 | a successful compilation gives one condition per key, in key order, each the key's operator applied to its value |
| Filters.FilterConditionsFailure | src/definitions/model/columnTypesFilters.ts:92-139 | a failed compilation names the first key that is not an operator key, with the failed assertion or, for an inherited name, the `TypeError` |
| Filters.FilterCondMeaning | src/definitions/model/columnTypesFilters.ts:129-141 | a compiled operator map holds for a cell exactly when every operator in it holds |
| Filters.EmptyFilter | src/definitions/model/columnTypesFilters.ts:129-141 | an empty or null operator map compiles to an AND of nothing, which every cell satisfies |
| Filters.ResolveFilter | src/definitions/model/columnTypesFilters.ts:129-141 | the loop over the entries returns the AND over the compiled conditions, or the key assertion's failure, or the `TypeError` for an inherited name |
| Filters.PartsFailurePersists | src/definitions/model/columnTypesFilters.ts:147-152 | once a column fails, later columns do not change the outcome |
| Filters.PartsSucceed | src/definitions/model/columnTypesFilters.ts:147-152 | the column conjuncts compile exactly when every column's value is defined and compiles |
| Filters.PartsValues | src/definitions/model/columnTypesFilters.ts:147-152 | a successful compilation gives one `{ column: compiled }` conjunct per column, in column order |
| Filters.FiltersPartsSpec | src/definitions/model/columnTypesFilters.ts:143-154 | `resolveFilters` succeeds exactly when every column's map is defined and compiles, with one conjunct per column in order |
| Filters.FiltersMeaning | src/definitions/model/columnTypesFilters.ts:143-154 | a row satisfies the compiled filters exactly when each filtered column's cell satisfies that column's operators |
| Filters.NoFilters | src/definitions/model/columnTypesFilters.ts:143-154 | no filters compile to an AND of nothing, which matches every row |
| Filters.ResolveFilters | src/definitions/model/columnTypesFilters.ts:143-154 | the loop over the columns returns the AND over the column conjuncts, or the first failure |
| Records.SpreadFresh | src/schema/model/genModelMutations.ts:149-159 | spreading distinct keys the record lacks appends them, in order |
| Models.ContextAgrees | src/definitions/model/Model.ts:127-132 | when the primary key is unique, a lookup through a loader keyed by it answers the same row as the store lookup |
| Models.Model.constructor | src/definitions/model/Model.ts:23-26 | a new model holds its definition and the store model generated from it, with neither the association map nor the type generated yet |
| Models.Model.IdType | src/definitions/model/Model.ts:36-38 | the id type is the id definition's type, or the default UUID `ID` type without one |
| Models.Model.PrimaryKey | src/definitions/model/gen/database.ts:37-42 | the store model's primary key attribute is `id` |
| Models.Model.GenAssociation | src/definitions/model/Model.ts:40-68 | creating an association fails, naming the type, exactly for an unsupported type; otherwise it relates this model to the target under the association's name, with the definition's kind and foreign key, no constraints, and cascading on delete exactly when `deleteCascade` is true |
| Models.Model.Build | src/definitions/model/Model.ts:75-80 | the map the loop has built holds only supported associations, and a stop is a duplicated name or an unsupported type |
| Models.Model.BuildStops | src/definitions/model/Model.ts:75-80 | once the loop has thrown, later definitions change neither the map nor the error |
| Models.Model.BuildMeaning | src/definitions/model/Model.ts:75-80 | the loop succeeds exactly when the names are distinct and every type is supported, and its map then has the definitions' names in order |
| Models.Model.BuildLast | src/definitions/model/Model.ts:75-80 | the last definition is added at the end exactly when the earlier ones succeeded, its name is new and its type is supported |
| Models.Model.BuildEntries | src/definitions/model/Model.ts:75-80 | after a successful loop each name holds the association created for it together with its definition |
| Models.Model.AssociationsAfter | src/definitions/model/Model.ts:70-82 | the cache after the getter holds only supported associations, unless it was already filled |
| Models.Model.Associations | src/definitions/model/Model.ts:70-82 | the getter answers the cached map when there is one, and otherwise installs a map first and runs the loop, so the cache is filled even when the loop throws |
| Models.Model.IncludeAssociation | src/definitions/model/Model.ts:95-107 | the include entry of a known association carries that association and the options; an unknown name fails naming the association, and a failing association map fails the same way |
| Models.Model.Type | src/definitions/model/Model.ts:112-115 | the type is generated once, from the definition and the association map, and later accesses answer the cached type; a failure of the association getter is the failure of the access, and nothing is cached then |
| Models.Model.FindByPkAllAttrs | src/definitions/model/Model.ts:127-132 | without a context the lookup goes through the store; with one it goes through the request's loader for this model, which is created when missing |
| Models.Model.EnsureExistence | src/definitions/model/Model.ts:137-142 | the lookup's row, or a not-found failure naming the model and the identifier |
| Models.Model.EnsureExistenceOptional | src/definitions/model/Model.ts:147-150 | a `null` identifier answers `null` with no lookup; any other identifier behaves as `ensureExistence` |
| Models.Model.Exists | src/definitions/model/Model.ts:152-155 | true exactly when some row satisfies the count query's condition |
| Models.PartialMapAfterFailure | src/definitions/model/Model.ts:72-80 | after a first access that throws, the next access answers the partial map built before the error instead of throwing again |
| Models.ObjectEntriesBuild | src/definitions/model/Model.ts:70-82 | when the definitions have distinct names, as the entries of an object do, the getter fails exactly when some type is unsupported, and then with the unsupported-type error |
| Models.DuplicateNeedsRepeat | src/definitions/model/Model.ts:76-77 | the duplicated-association error only arises when some name occurs twice |
| Associations.AssociationWhereMeaning | src/definitions/model/gen/schema/associations.ts:10-25 | the predicate fails exactly for an unsupported association type; for hasMany and hasOne a target row is selected when its foreign key equals the parent's primary key, and for belongsTo when its primary key equals the parent's foreign key |
| Associations.HasManyWhereIsAssociationWhere | src/definitions/model/gen/schema/associations.ts:55-65 | the `where` getter a hasMany field passes to pagination is the association's predicate |
| Associations.BelongsToKey | src/definitions/model/gen/schema/associations.ts:33-37 | a lookup value exists exactly when the parent's foreign key is neither `null` nor `undefined`, and it is that value |
| Associations.HasOneResolveMeaning | src/definitions/model/gen/schema/associations.ts:42-53 | a hasOne parent gets the first target row, in table order, whose foreign key matches its primary key, and none when no row matches |
| Associations.FilteredRecordGet | src/definitions/model/gen/schema/associations.ts:70-74 | rebuilding a filtered map from its entries reads the same values, exactly the entries that pass |
| Associations.AssociationsFieldsGet | src/definitions/model/gen/schema/associations.ts:67-86 | a key has a field exactly when it is an exposed association, and the field is the one generated for its type |
| AssociationResolvers.ResolveBelongsTo | src/definitions/model/gen/schema/associations.ts:33-38 | a missing foreign key answers `null` with no lookup; otherwise the target is found by primary key through the context's loader when there is one |
| AssociationResolvers.BelongsToLookupMeaning | src/definitions/model/gen/schema/associations.ts:20-38 | a belongsTo target is found exactly when some target row satisfies the association's predicate, and the row found satisfies it |
| AssociationResolvers.HasManyPageRows | src/definitions/model/gen/schema/associations.ts:55-65 | a hasMany page draws from exactly the target rows that match the parent and pass the filters, if any |
| Base.ColumnsFieldsGet | src/definitions/model/gen/schema/base.ts:13-33 | exactly the exposed columns are fields, each non-null exactly when the column does not allow null |
| Base.BaseFieldsMeaning | src/definitions/model/gen/schema/base.ts:35-54 | the base fields are a non-null `id` of the id type, `createdAt` and `updatedAt` unless timestamps are off, `deletedAt` only when paranoid is true, and nothing else |
| Base.TimestampFieldsGet | src/definitions/model/gen/schema/base.ts:42-47 | the timestamp block holds exactly `createdAt` and `updatedAt`, both non-null dates |
| Base.BaseFieldsIdFirst | src/definitions/model/gen/schema/base.ts:40-41 | `id` is the first base field whatever the options |
| Base.GraphQLType | src/definitions/model/gen/schema/base.ts:56-68 | the output type is an object type with the model's name and description |
| Base.TypeFieldsGet | src/definitions/model/gen/schema/base.ts:62-67 | a field comes from the model's own fields, else an exposed association, else an exposed column, else the base fields; later layers override earlier ones |
| Base.TypeHasId | src/definitions/model/gen/schema/base.ts:41-67 | unless a column, an association or an own field is named `id`, the output type has the non-null id field |
| ValidateFields.CheckFieldMeaning | src/schema/model/validateModelFields.ts:16-24 | a field fails exactly when it is a column that is `null` although null is not allowed, or is non-null and refused by the column's validator, with the matching error; non-columns and allowed nulls pass |
| ValidateFields.ValidateFromMeaning | src/schema/model/validateModelFields.ts:15-25 | from a position on, validation passes exactly when every field passes, and a failure is that of the first failing field |
| ValidateFields.ValidateMeaning | src/schema/model/validateModelFields.ts:15-25 | the fields pass exactly when every field passes; otherwise the error is that of the first failing field, which is a column |
| ValidateFields.ValidateModelFields | src/schema/model/validateModelFields.ts:8-26 | the loop returns exactly the outcome of validating the fields in order against the model's own columns |
| ValidateFields.InheritedNameRefused | src/schema/model/validateModelFields.ts:16-21 | with the lookup as written, a `null` field named `toString` on a model without such a column is refused as an invalid null, which the own-key lookup does not do |
| ValidateFields.AsWrittenAgrees | src/schema/model/validateModelFields.ts:15-25 | for fields that are not inherited names, or that are columns, the lookup as written and the own-key lookup give the same outcome |
| Memoize.MemoStepMeaning | src/utils/memoize.ts:20-27 | a truthy cached result is answered without running the function; a miss runs it once and stores its result under the identifier, leaving every other entry alone |
| Memoize.RepeatIsCached | src/utils/memoize.ts:20-27 | a second call with the same identifier after a truthy result answers that result and leaves state and cache as they were |
| Memoize.FalsyIsRecomputed | src/utils/memoize.ts:22-26 | a falsy result is not a hit: the next call runs the function again and stores the new result |
| Memoize.Memoized.constructor | src/utils/memoize.ts:13-18 | a new memoised function has an empty cache and uses the given formatter, or `args.toString()` by default |
| Memoize.Memoized.Call | src/utils/memoize.ts:20-27 | one call updates cache, state and result as one memoised step with the formatted identifier |
| Memoize.Func.constructor | src/utils/memoize.ts:30-31 | a function object starts with neither a memoizer tag nor an attached formatter |
| Memoize.AttachMemoizerArgsFormatter | src/utils/memoize.ts:37-43 | the formatter is stored on the function, which is returned as the same object, with its tag unchanged |
| Memoize.Memoizer.constructor | src/utils/memoize.ts:66-67 | a new memoizer has no per-function cache |
| Memoize.Memoizer.Call | src/utils/memoize.ts:69-89 | a function without a cache gets a fresh tag and a cache holding just this result, whatever it is; one with a cache takes a memoised step on it; the identifier comes from the attached formatter or `args.toString()` |
| Memoize.FirstCallAddsOne | src/utils/memoize.ts:77-82 | a fresh tag adds exactly one cache and leaves every other function's cache alone |
| Memoize.IncrementMemoized | src/utils/memoizer.test.ts:4-17 | from a nonzero total, a repeated call with the same argument answers the first total again and does not add once more |
| ModelLoaders.NewLoader | src/definitions/ModelLoader.ts:17-40 | a new loader is named `<model>:Loader` and loads that model by the given primary key |
| ModelLoaders.ModelLoader.constructor | src/definitions/ModelLoader.ts:8 | a new registry holds no loader |
| ModelLoaders.ModelLoader.GetModelLoader | src/definitions/ModelLoader.ts:10-15 | the loader registered under the model's name is returned unchanged, and otherwise a new one is created and registered |
| ModelLoaders.ModelLoader.InitModelLoader | src/definitions/ModelLoader.ts:17-36 | the new loader is registered under the model name, replacing only that entry |
| ModelLoaders.SharedLoader | src/definitions/ModelLoader.ts:10-15 | once a name has a loader, every later request for it gets that same loader and leaves the registry unchanged |
| ModelLoaders.InitAddsOne | src/definitions/ModelLoader.ts:34 | registering a loader for a new name adds exactly that name and leaves every other entry alone |
| ModelLoaders.PkMapHas | src/definitions/ModelLoader.ts:27 | a key is in the primary-key map exactly when some returned row has it |
| ModelLoaders.PkMapLast | src/definitions/ModelLoader.ts:27 | a key in the map reads the last returned row having it |
| ModelLoaders.PkMapGet | src/definitions/ModelLoader.ts:27 | the map holds exactly the keys of the rows, each reading the last row with that key |
| ModelLoaders.BatchLoad | src/definitions/ModelLoader.ts:23-31 | the batch answers one result per key |
| ModelLoaders.BatchQueryRows | src/definitions/ModelLoader.ts:24-26 | the batch query returns exactly the table rows whose non-null primary key is one of the keys |
| ModelLoaders.BatchLoadMeaning | src/definitions/ModelLoader.ts:23-31 | position `i` answers a table row whose primary key is `keys[i]` when one exists, and the per-key not-loaded error otherwise; equal keys get equal answers |
| ModelLoaders.LoadIsFindByPk | src/definitions/ModelLoader.ts:23-31 | on a table with a unique primary key, loading an id succeeds exactly when `findByPk` finds a row, and with that row |
| Store.Matching | src/schema/model/genModelOffsetPagination.ts:90-103 | the matching rows are exactly the rows satisfying the condition, in table order |
| Store.Window | src/schema/model/genModelOffsetPagination.ts:90-103 | without offset and limit the window is all rows, and it never holds more rows than a non-negative limit |
| Store.FindOne | src/definitions/model/gen/schema/associations.ts:50 | `findOne` finds a row exactly when some row matches, and the row found is a table row that matches |
| Store.FindByPk | src/definitions/model/Model.ts:131 | `findByPk` finds nothing for a `null` or `undefined` id, and otherwise only a table row with that primary key |
| Store.FindAllCount | src/schema/model/genModelOffsetPagination.ts:90-103 | without a window, `findAll` returns as many rows as `count` counts |
| Store.CountPositive | src/definitions/model/Model.ts:152-155 | the count is positive exactly when some row matches |
| Store.EmptyAndMatchesAll | src/definitions/model/columnTypesFilters.ts:140-153 | an AND of nothing matches every row |
| Store.AndOfOne | src/schema/genModelOffsetPagination.ts:60-63 | an AND of one part holds exactly when the part holds |
| Store.AndOfTwo | src/schema/model/genModelOffsetPagination.ts:81-84 | an AND of two parts holds exactly when both hold |
| Js.NatToString | src/definitions/model/columnTypesFilters.ts:133 | the decimal form of a natural number is a non-empty string of digits, with more than one digit from 10 on |
| Js.ForInEntries | src/definitions/model/columnTypesFilters.ts:133-147 | a `for ... in` loop visits an object's own fields in order, a string by character index, an array by index, and nothing for any other value |
| Js.ForInIndexKeys | src/definitions/model/columnTypesFilters.ts:133 | a string or an array is visited with the decimal indices as keys |
| Js.Utf16Length | src/utils/validators.ts:3 | a string's `length` lies between its number of characters and twice that |
| Js.Utf16LengthAppend | src/utils/validators.ts:3 | the `length` of a concatenation is the sum of the lengths |
| Js.Utf16LengthBmp | src/utils/validators.ts:3 | the `length` is the number of characters exactly when every character lies in the Basic Multilingual Plane |
| PaginationOld.Nullish | src/schema/genModelOffsetPagination.ts:66-67 | `x ?? undefined` on a number argument keeps exactly the numbers |
| PaginationOld.OffsetConnection | src/schema/genModelOffsetPagination.ts:76-91 | the connection is an object type named after the node type with `OffsetConnection` appended |
| PaginationOld.PaginationArgMapGet | src/schema/genModelOffsetPagination.ts:50-56 | `offset` and `limit` take Int, `order` a list of non-null order-by inputs of the model and `filters` the model's filter input, overriding custom arguments of those names; every other custom argument stays |
| PaginationOld.MakeOffsetConnection | src/schema/genModelOffsetPagination.ts:76-91 | the connection goes through the type cache, so the first one registered under its name is returned |
| PaginationOld.PaginationTypesKeys | src/schema/genModelOffsetPagination.ts:49-55 | building a pagination field registers exactly the connection, the fields enum, the order-by input and the filter input, by name, and every type already cached keeps its entry |
| ModelPagination.NodeName | src/schema/genModelOffsetPagination.ts:47 | the node type is the `outputType` option, with the model untouched, or else the model's `type` read through its getter, whose failure is the builder's |
| ModelPagination.RegisterPaginationTypes | src/schema/genModelOffsetPagination.ts:49-55 | the connection, the order-by input and the filter input are registered in that order, first-wins |
| ModelPagination.GenOffsetPagination | src/schema/genModelOffsetPagination.ts:42-74 | without `outputType`, a failing `type` read ends the builder before any registration; otherwise the three registrations take place and the field is the nullable connection with the pagination arguments; the model's caches move as one `type` read does |
| PaginationOld.PaginationWhereMeaning | src/schema/genModelOffsetPagination.ts:60-63 | a row matches the query exactly when it satisfies the getter's predicate, if there is a getter, and the filters, if given |
| PaginationOld.PaginationFiltersFail | src/schema/genModelOffsetPagination.ts:62 | filters that do not compile fail the query with the filter compiler's error |
| PaginationOld.PaginationQueryOptions | src/schema/genModelOffsetPagination.ts:65-70 | a `null` or absent offset or limit reaches the store as absent, and the order is the argument's items converted one by one, or absent |
| PaginationOld.Resolve | src/schema/genModelOffsetPagination.ts:57-72 | the resolver fails with the filter error, or answers both the nodes and the count of the one `findAndCountAll` query |
| PaginationOld.ResolveCount | src/schema/genModelOffsetPagination.ts:65-71 | the count is the number of matching rows whatever the window, and without a window the nodes are all of them, in table order (the store does not sort, see `Store.FindAll` under "## Left out") |
| Pagination.Resolve | src/schema/model/genModelOffsetPagination.ts:76-105 | the resolver's outcome is the configured resolution: filter failure first, then a selection failure, otherwise the planned queries |
| Pagination.ConfigWhereMeaning | src/schema/model/genModelOffsetPagination.ts:81-84 | a row matches exactly when it satisfies the configured `where`, if any, and the filters, if given; with neither, every row matches |
| Pagination.ConfigOrderMeaning | src/schema/model/genModelOffsetPagination.ts:86-88 | the order is the argument's items, each `[field, ordering]`, followed by the configured items |
| Pagination.PlanQueries | src/schema/model/genModelOffsetPagination.ts:90-103 | `findAll` runs exactly when `nodes` is selected and `count` exactly when `count` is; both share the `where` and the include, and a `null` offset or limit is left out |
| Pagination.ResolveParts | src/schema/model/genModelOffsetPagination.ts:90-104 | an unselected part is `null`, the count is the number of matching rows, and the nodes never outnumber it |
| ModelPagination.GenConfigOffsetPagination | src/schema/model/genModelOffsetPagination.ts:60-75 | the same reads and registrations as the older builder, and the field is the non-null connection with the pagination arguments |
| OrderBy.TimestampValuesGet | src/schema/model/genModelOrderBy.ts:30-40 | the timestamp block holds exactly `createdAt` and `updatedAt`, and the paranoid block exactly `deletedAt`, each value being its own name |
| OrderBy.FieldsEnum | src/schema/model/genModelOrderBy.ts:25-28 | the fields enum is an enum type named after the model with `Fields` appended |
| OrderBy.OrderByType | src/schema/model/genModelOrderBy.ts:51-61 | the order-by input is named after the model with `OrderBy` appended, and has exactly a required `field` of the fields enum and a required `ordering` of `OrderType` |
| OrderBy.OrderableValuesGet | src/schema/model/genModelOrderBy.ts:24-29 | exactly the columns whose `orderable ?? exposed` holds are values, each its own name |
| OrderBy.FieldsEnumMeaning | src/schema/model/genModelOrderBy.ts:21-44 | a key is a value exactly when it is an orderable column, a timestamp unless timestamps are off, or `deletedAt` of a paranoid model, so `id` is a value only as an orderable column |
| OrderBy.ConvertOrderBy | src/schema/model/genModelOrderBy.ts:63-66 | `{ field, ordering }` becomes the order item `[field, ordering]` |
| OrderBy.GenModelFieldsEnum | src/schema/model/genModelOrderBy.ts:21-44 | the fields enum goes through the type cache, so the first one registered under its name is returned |
| OrderBy.GenModelOrderBy | src/schema/model/genModelOrderBy.ts:51-61 | the fields enum is registered first, then the order-by input over the enum the cache returned |
| OrderByOld.FieldsEnum | src/schema/genModelOrderBy.ts:26-29 | the fields enum is an enum type named after the model with `Fields` appended |
| OrderByOld.FieldsEnumMeaning | src/schema/genModelOrderBy.ts:21-46 | a key is a value exactly when it is `id`, an orderable column, a timestamp of a model whose `timestamps` is explicitly true, or `deletedAt` of a paranoid model, each its own name |
| OrderByOld.IdFirst | src/schema/genModelOrderBy.ts:30 | `id` is always the first value |
| OrderByOld.VariantsDiffer | src/schema/genModelOrderBy.ts:30-32 | with `timestamps` unset and no `id` column, the older enum has `id` and no timestamp values, while the newer one has the timestamps and no `id` |
| OrderByOld.GenModelFieldsEnum | src/schema/genModelOrderBy.ts:21-46 | the fields enum goes through the type cache, so the first one registered under its name is returned |
| OrderByOld.GenModelOrderBy | src/schema/genModelOrderBy.ts:53-63 | the fields enum is registered first, then the order-by input over the enum the cache returned |
| ModelFilters.ModelFiltersType | src/schema/model/genModelFilters.ts:16-19 | the filter input is named after the model with `Filters` appended and described as `The <model> model filters` |
| ModelFilters.ModelFiltersMeaning | src/schema/model/genModelFilters.ts:10-34 | a key is a field exactly when it is a filterable column, typed by its column's filter input, or a timestamp of a model whose `timestamps` is unset or true, typed `DateFilter` and shadowing a column of that name |
| ModelFilters.ColumnFiltersGet | src/schema/model/genModelFilters.ts:13-24 | exactly the columns with a filter type and `filterable ?? exposed` get a field, typed by that filter type |
| ModelFilters.NoIdFilter | src/schema/model/genModelFilters.ts:20-31 | without a column named `id` there is no `id` filter |
| ModelFilters.GenModelFilters | src/schema/model/genModelFilters.ts:10-34 | the filter input goes through the type cache, so the first one registered under its name is returned |
| TypeCache.Cache.constructor | src/schema/cacheGraphQLType.ts:3 | the cache starts empty |
| TypeCache.Cache.CacheType | src/schema/cacheGraphQLType.ts:8-14 | a taken name returns the cached type and leaves the cache alone; a new name stores and returns the argument |
| TypeCache.FirstWins | src/schema/cacheGraphQLType.ts:10-11 | a name already cached keeps its first type, which is returned while the argument is discarded |
| TypeCache.StoresNew | src/schema/cacheGraphQLType.ts:12-13 | a new name stores the argument and returns it |
| TypeCache.LookupKeepsName | src/schema/cacheGraphQLType.ts:8-14 | on a cache where every type is stored under its own name, the returned type is named as the argument and the cache stays so |
| TypeCache.OnlyGrows | src/schema/cacheGraphQLType.ts:8-14 | the cache grows by the argument's name at most, and every other entry is unchanged |
| TypeCache.Idempotent | src/schema/cacheGraphQLType.ts:8-14 | caching the same type twice has the effect of caching it once, and answers the same |
| ResolveInfo.NewPath | src/graphql-utils/schema/resolveInfo.ts:19 | a root field has no path, a depth-1 field's path is its name, and a deeper field's path is its parent's path, a dot and its name |
| ResolveInfo.Descend | src/graphql-utils/schema/resolveInfo.ts:6-35 | the walk adds exactly the paths the selections determine to the set it is given, or fails with the first unknown fragment |
| ResolveInfo.DescendField | src/graphql-utils/schema/resolveInfo.ts:18-23 | a field of the loop adds its path and then what its selection set adds one level down |
| ResolveInfo.DescendFragment | src/graphql-utils/schema/resolveInfo.ts:24-32 | an inline fragment or a known fragment spread adds what its selections add at the same path and depth; an unknown spread fails naming the fragment |
| ResolveInfo.AddedTwice | src/graphql-utils/schema/resolveInfo.ts:20 | adding to a set in two steps is adding the union |
| ResolveInfo.FieldStep | src/graphql-utils/schema/resolveInfo.ts:18-23 | after a successful prefix, a field contributes its path and the paths below it |
| ResolveInfo.FragmentStep | src/graphql-utils/schema/resolveInfo.ts:24-32 | after a successful prefix, a fragment contributes what its selections contribute |
| ResolveInfo.PathsPrefixFails | src/graphql-utils/schema/resolveInfo.ts:16-34 | once a prefix of the selections fails, the whole walk fails with the same error |
| ResolveInfo.GetSelectedFields | src/graphql-utils/schema/resolveInfo.ts:53-63 | the selected fields are the walk's paths from the root field nodes with no path at depth 0 |
| ResolveInfo.GetSelectedFieldsRoot | src/graphql-utils/schema/resolveInfo.ts:68-70 | the root selection is the same walk bounded at depth 1 |
| ResolveInfo.DotsAppend | src/graphql-utils/schema/resolveInfo.ts:19 | the dots of a concatenation add up |
| ResolveInfo.NewPathAtDepth | src/graphql-utils/schema/resolveInfo.ts:19 | a field's path at depth `d >= 1` is non-empty and has `d` segments |
| ResolveInfo.PathsBounded | src/graphql-utils/schema/resolveInfo.ts:15-22 | with well-formed names, every recorded path is non-empty and has at most `maxDepth` segments |
| ResolveInfo.SelectedFieldsBounded | src/graphql-utils/schema/resolveInfo.ts:53-70 | from the root, a bound `m` records only non-empty paths of at most `m` segments, so the root selection holds bare names |
| ResolveInfo.InlineFragmentTransparent | src/graphql-utils/schema/resolveInfo.ts:24-26 | an inline fragment adds what its selections add, at the same path and depth |
| ResolveInfo.FragmentSpreadTransparent | src/graphql-utils/schema/resolveInfo.ts:27-32 | a spread of a known fragment adds what the fragment's selections add; an unknown one fails with its name |
| ResolveInfo.Names | src/graphql-utils/schema/resolveInfo.ts:19-20 | the names of a list of fields are exactly the names occurring in it |
| ResolveInfo.ChildNames | src/graphql-utils/schema/resolveInfo.ts:15-20 | fields directly under a depth-1 bound are recorded by name, and nothing below them |
| ResolveInfo.RootSelection | src/graphql-utils/schema/resolveInfo.ts:68-70 | the root selection of a field whose selection set holds only fields is exactly those fields' names |
| ResolveInfo.NestedFieldRecorded | src/graphql-utils/schema/resolveInfo.ts:40-51 | the query `somePagination { field1 field2 { field3 } }` gives `field1`, `field2` and `field2.field3` |
| Expose.Exposition | src/schema/model/exposeModel.ts:44-85 | an exposition fails exactly for an unsupported option, naming it, or for a supported one whose `type` read fails, with that error |
| Expose.GenExposition | src/schema/model/exposeModel.ts:44-85 | on the model object, the field is the specified exposition for the model's `type` read; the model's caches change exactly for a supported option, and only a pagination registers types |
| Expose.ReadsTypeMeaning | src/schema/model/exposeModel.ts:32-56 | exposing reads the model's `type` exactly when the first enabled option is a supported one |
| Expose.ExpositionTypesKeys | src/schema/model/exposeModel.ts:50-51 | one exposition only adds types: a pagination whose `type` reads adds the model's connection, fields enum, order-by and filter types, and every cached type keeps its entry |
| Expose.ExposeTypesOnlyGrows | src/schema/model/exposeModel.ts:32-42 | exposing keeps every type already cached |
| Expose.ExposeTypesPagination | src/schema/model/exposeModel.ts:32-51 | when exposing succeeds with a pagination enabled, the model's connection, fields enum, order-by and filter types are cached |
| Expose.ExposeOption | src/schema/model/exposeModel.ts:35-39 | one step of the reduction on the model object is the specified step; the caches change only for an enabled supported option reached without an error |
| Expose.GenFindField | src/schema/model/exposeModel.ts:58-85 | `findById` and `findByIds` on the model object read the model's `type` first: the field is the specified exposition, and the caches become those after a `type` access |
| Expose.ExposeNext | src/schema/model/exposeModel.ts:35-39 | one more option keeps the loop's progress: the result is the reduction over one more option, the type cache holds the types of the expositions reached, and the caches have changed exactly when the `type` has been read |
| Expose.ExposeModel | src/schema/model/exposeModel.ts:32-42 | on the model object, the reduction is the specified one; the model's caches change exactly when it reads the `type`, and the type cache gains the types of the expositions reached |
| Expose.ExposeModelGet | src/schema/model/exposeModel.ts:32-42 | with supported options and a `type` that reads, a name has a field exactly when an enabled option names it, and it is the field of the last such option |
| Expose.ExposeModelFails | src/schema/model/exposeModel.ts:32-77 | exposing fails exactly when some enabled option is unsupported, or some option is enabled and the `type` fails to read; the error is that of the first enabled option that fails, and disabled options are never looked at |
| Expose.ResolveFindById | src/schema/model/exposeModel.ts:66-69 | `findById` answers the row with that id, through the context's loader when there is one, or fails naming the model and the id |
| Expose.FindEachSuccess | src/schema/model/exposeModel.ts:81-84 | the rows are found exactly when every id finds its row, and they are answered one per id, in id order |
| Expose.FindEachFailure | src/schema/model/exposeModel.ts:81-84 | otherwise the error names the first id, in id order, that finds nothing |
| Expose.ResolveFindByIds | src/schema/model/exposeModel.ts:81-84 | every id is looked up through the same loader, and the answer is the per-id rows or the first failure |
| Mutations.GenModelMutations | src/schema/model/genModelMutations.ts:135-161 | the mutation type is an object type named from the prefix and the model name with `Mutation` appended, carrying the description |
| Mutations.GenModelMutationsGet | src/schema/model/genModelMutations.ts:149-159 | a user field wins over a generated one of the same key; otherwise `create`, `update` and `delete` are fields exactly when their arguments are given, built with the prefixed base name and the shared output type, and no other key is present; these are the fields the thunk returns whenever its `type` read does not throw (`Mutations.MutationFieldsThunk`) |
| Mutations.OptionalGet | src/schema/model/genModelMutations.ts:155-157 | spreading an optional one-field object adds that key exactly when the option is given |
| Mutations.MutationFieldsOrder | src/schema/model/genModelMutations.ts:154-159 | without user fields and with all three options, the fields come as `create`, `update`, `delete` |
| Mutations.ThreeKeys | src/schema/model/genModelMutations.ts:155-157 | three distinct keys spread one after the other onto `{}` keep that order |
| Mutations.TwoKeys | src/schema/model/genModelMutations.ts:155-156 | two distinct keys spread one after the other onto `{}` give exactly those two entries |
| Mutations.MutationTypeNamesDistinct | src/schema/model/genModelMutations.ts:41-152 | the `CreateInput`, `UpdateInput` and `Mutation` names of one base name are pairwise different |
| Mutations.GenModelCreateMutation | src/schema/model/genModelMutations.ts:23-53 | without `outputType` the model's `type` is read and its failure is the builder's; otherwise the field is the specified create mutation, and the model is left alone when `outputType` is given |
| Mutations.GenModelUpdateMutation | src/schema/model/genModelMutations.ts:61-93 | the same `type` read for the update mutation |
| Mutations.MutationFieldsThunk | src/schema/model/genModelMutations.ts:149-159 | the fields thunk throws exactly when it must read a failing `type`, that is with a `create` or an `update` and no `outputType`, and otherwise returns the object type's fields |
| Mutations.GenModelMutationFields | src/schema/model/genModelMutations.ts:154-159 | on the model object, the thunk builds `create`, then `update`, the first failure ending it, then `delete` and the user's fields; its result is the specified one and the model's caches change exactly when it reads the `type` |
| Mutations.ResolveCreateSeesInput | src/schema/model/genModelMutations.ts:48-51 | the create resolver's answer depends only on the `input` argument |
| Mutations.ResolveUpdate | src/schema/model/genModelMutations.ts:87-91 | a missing instance fails naming the model and the id; otherwise the user resolver gets the instance found and the input |
| Mutations.Destroy | src/schema/model/genModelMutations.ts:116 | destroying keeps exactly the rows whose primary key differs from the instance's, and never adds rows |
| Mutations.DestroyKeepsOrder | src/schema/model/genModelMutations.ts:116 | when no row has the key, destroying leaves the table as it was, order included |
| Mutations.ResolveDelete | src/schema/model/genModelMutations.ts:104-121 | a missing instance fails and changes nothing; otherwise the answer is `true` and the table is the instance destroyed, or what the user resolver leaves |
| Mutations.DefaultDeleteRemoves | src/schema/model/genModelMutations.ts:114-117 | after a default delete the id is no longer found, and every row with another key stays |
| Slugify.LowerAll | src/utils/slugify.ts:7 | lower-casing keeps the length; its meaning is stated by `LowerAllChars` and `LowerAllKeeps` |
| Slugify.Trim | src/utils/slugify.ts:8 | trimming never lengthens; its meaning is stated by `TrimStart`, `TrimEnd` and `TrimStartSpaces` |
| Slugify.SpacesToDash | src/utils/slugify.ts:9 | replacing white-space runs never lengthens; its meaning is stated by `SpaceRunToDash`, `SpaceRunVanishes` and `SpacesToDashKeeps` |
| Slugify.KeepWordChars | src/utils/slugify.ts:10 | removing non-word characters never lengthens; its meaning is stated by `KeepWordCharsChars`, `PunctuationVanishes` and `KeepWordCharsKeeps` |
| Slugify.UnderscoreToDash | src/utils/slugify.ts:11 | replacing `_` keeps the length; its meaning is stated by `UnderscoreToDashChars` and `UnderscoreToDashKeeps` |
| Slugify.CollapseDashes | src/utils/slugify.ts:12 | collapsing dash runs never lengthens; its meaning is stated by `CollapseDashesShape` and `CollapseDashesKeeps` |
| Slugify.DropTrailingDash | src/utils/slugify.ts:13 | dropping a trailing dash never lengthens; its meaning is stated by `DropTrailingDashShape` |
| Slugify.TrimStart | src/utils/slugify.ts:8 | the result is a suffix of the input that does not start with white space, and only white space was removed |
| Slugify.TrimEnd | src/utils/slugify.ts:8 | the result is a prefix of the input that does not end with white space, and only white space was removed |
| Slugify.LowerAllChars | src/utils/slugify.ts:7 | after `toLowerCase` no character is an upper-case letter |
| Slugify.TrimStartChars | src/utils/slugify.ts:8 | trimming the start keeps any property every character had |
| Slugify.TrimEndChars | src/utils/slugify.ts:8 | trimming the end keeps any property every character had |
| Slugify.SpacesToDashChars | src/utils/slugify.ts:9 | replacing white-space runs by `-` keeps a property every character and `-` have |
| Slugify.KeepWordCharsChars | src/utils/slugify.ts:10 | after removing non-word characters only word characters and `-` remain, with their properties |
| Slugify.UnderscoreToDashChars | src/utils/slugify.ts:11 | after replacing `_` by `-` no `_` remains, and a property `-` has is kept |
| Slugify.CollapseDashesShape | src/utils/slugify.ts:12 | after collapsing dash runs no two dashes are adjacent |
| Slugify.DropTrailingDashShape | src/utils/slugify.ts:13 | on a string without `--`, dropping one trailing dash leaves no trailing dash |
| Slugify.SlugifyIsSlug | src/utils/slugify.ts:4-14 | every output is a slug: lower-case ASCII letters, digits and single dashes, never ending with a dash |
| Slugify.LowerAllKeeps | src/utils/slugify.ts:7 | a string without capitals is unchanged by `toLowerCase` |
| Slugify.SpacesToDashKeeps | src/utils/slugify.ts:9 | a string without white space is unchanged by the white-space pass |
| Slugify.KeepWordCharsKeeps | src/utils/slugify.ts:10 | a string of word characters and dashes is unchanged by the removal pass |
| Slugify.UnderscoreToDashKeeps | src/utils/slugify.ts:11 | a string without `_` is unchanged by the underscore pass |
| Slugify.CollapseDashesKeeps | src/utils/slugify.ts:12 | a string without `--` is unchanged by the dash-collapsing pass |
| Slugify.SlugUnchanged | src/utils/slugify.test.ts:5-8 | a slug is its own slug, as for `potato` and `potato-potato` |
| Slugify.SlugifyIdempotent | src/utils/slugify.ts:4-14 | slugifying twice is slugifying once |
| Slugify.LowerAllAppend | src/utils/slugify.ts:7 | `toLowerCase` works character by character over a concatenation |
| Slugify.TrimStartSpaces | src/utils/slugify.ts:8 | leading white space is removed by trimming the start |
| Slugify.LeadingSpaces | src/utils/slugify.test.ts:7 | leading white space does not change the slug, as in `  potato   potato` |
| Slugify.SpacesToDashAppend | src/utils/slugify.ts:9 | the white-space pass over a concatenation is the pass over each part, the second part continuing the first part's run |
| Slugify.SpaceRunToDash | src/utils/slugify.ts:9 | a run of white space becomes one `-` |
| Slugify.SpaceRunVanishes | src/utils/slugify.ts:9 | white space continuing a run adds nothing |
| Slugify.KeepWordCharsAppend | src/utils/slugify.ts:10 | the removal pass works character by character over a concatenation |
| Slugify.PunctuationVanishes | src/utils/slugify.ts:10 | punctuation is removed entirely |
| Slugify.SlugAfterKeep | src/utils/slugify.ts:10-13 | once the first passes have produced a slug, the remaining passes leave it alone |
| Slugify.LowerTrimKeeps | src/utils/slugify.ts:7-8 | a string without capitals and without white space at its ends is unchanged by lower-casing and trimming |
| Slugify.JoinedDashed | src/utils/slugify.ts:9 | a white-space run between parts without white space becomes one dash |
| Slugify.JoinedKept | src/utils/slugify.ts:10 | punctuation before the dash is dropped, and the word parts stay |
| Slugify.JoinedIsSlug | src/utils/slugify.ts:4-14 | two non-empty slugs joined by a dash form a slug when the second does not start with a dash |
| Slugify.JoinedSlugs | src/utils/slugify.test.ts:10-13 | two slugs separated by punctuation and white space are joined by one dash, as in `multiple, words` |
| Slugify.JoinedLowerTrim | src/utils/slugify.ts:7-8 | such a joined string is unchanged by lower-casing and trimming |
| Slugify.JoinedNoUpper | src/utils/slugify.ts:7 | such a joined string has no capital |
| Slugify.JoinedEnds | src/utils/slugify.ts:8 | such a joined string neither starts nor ends with white space |
| Slugify.NoUpperAppend | src/utils/slugify.ts:7 | concatenating strings without capitals gives a string without capitals |
| Slugify.TrailingPunctuation | src/utils/slugify.test.ts:10-13 | trailing punctuation is dropped, as in `words!` |
| Slugify.GenSlug | src/utils/slugify.ts:20-35 | the slug base is the slugified resource name |
| Slugify.NumberedSlug | src/utils/slugify.ts:33 | a slug followed by a dash and digits is still a slug |
| Slugify.GenSlugSuffix | src/utils/slugify.ts:28-34 | the slug is the base exactly when no row holds the base in the slug-base column (default `slugBase`); otherwise it is the base, a dash and the count plus one; either way it is a slug |
| Slugify.GenSlugFirst | src/utils/slugify.ts:28-34 | the first resource named by a slug `b` gets the base and slug `b` |
| Slugify.GenSlugSecond | src/utils/slugify.ts:28-34 | with one row holding the base `b`, the next `b` gets the slug `b-2` |
| Slugify.NumberedNameSlug | src/utils/slugify.ts:4-14 | the name `b 2` slugifies to `b-2` |
| Slugify.GenSlugRepeats | src/utils/slugify.ts:16-34 | after the rows `b` and `b-2`, both with the base `b`, the name `b 2` gets the slug `b-2` a second time: the count-based slug is not unique |
| Strings.Lower | src/utils/string.ts:4 | `toLowerCase` turns a capital into a lower-case letter and leaves every other character alone |
| Strings.Upper | src/utils/string.ts:3 | `toUpperCase` turns a lower-case letter into a capital and leaves every other character alone |
| Strings.SeparatorRun | src/utils/string.ts:2 | the run of `[\s-_]` characters at a position stays within the string |
| Strings.SeparatorRunMaximal | src/utils/string.ts:2 | the greedy `[\s-_]+` consumes only separators and stops before a non-separator |
| Strings.Backtrack | src/utils/string.ts:2 | a backtracked run length is at least one, at most the greedy length, and a word character follows it |
| Strings.BacktrackLongest | src/utils/string.ts:2 | backtracking picks the longest run length a word character follows, and fails only when there is none |
| Strings.MatchAt | src/utils/string.ts:2-5 | a match consumes at least one character and stays within the string |
| Strings.CamelizeFrom | src/utils/string.ts:2-5 | the global replacement never lengthens the rest of the string |
| Strings.Camelize | src/utils/string.ts:1-6 | `camelize` never lengthens its input |
| Strings.LeadingCapital | src/utils/string.ts:2-4 | a leading capital is replaced by its lower-case letter and the result starts with a lower-case letter |
| Strings.RunThenWord | src/utils/string.ts:2-3 | a maximal separator run followed by a word character is replaced by that character upper-cased |
| Strings.MatchAfterRun | src/utils/string.ts:2-3 | past the start, a whole separator run followed by a word character matches, consuming both |
| Strings.ReplaceStep | src/utils/string.ts:2 | at a match the callback's character is emitted and the scan resumes after the match |
| Strings.RunLength | src/utils/string.ts:2 | a block of separators followed by a non-separator is exactly the greedy run |
| Strings.CopyStep | src/utils/string.ts:2 | a character that starts no match is copied unchanged |
| Strings.NoSeparatorsUnchanged | src/utils/string.ts:1-6 | a string without separators and without a leading capital is unchanged |
| Strings.TrailingRunStays | src/utils/string.ts:2 | a trailing run of white space and `-` has no word character after it, so it stays |
| Strings.CamelizeHello | src/utils/string.test.ts:5 | `camelize('hello')` is `hello` |
| Strings.JoinedWords | src/utils/string.test.ts:6-8 | two separator-free words joined by any run of separators give the first word and the second word capitalised, as for `hello world`, `hello_world` and `hello    world` |
| Strings.CamelizeSplit | src/utils/string.ts:1-6 | a word, a separator run and a word camelize to the first word followed by the second with its first letter upper-cased |
| Strings.NoSeparatorsThenRun | src/utils/string.ts:2 | characters before the first separator are copied |
| Validators.HasLengthUnbounded | src/utils/validators.ts:1-4 | `hasLength({})` accepts every string, and bounds of 0 impose nothing |
| Validators.HasLengthMeaning | src/utils/validators.ts:1-4 | a string is accepted exactly when its `length`, counted in UTF-16 code units, meets every non-zero bound given |
| Validators.HasLengthBmp | src/utils/validators.ts:3 | on a string of the Basic Multilingual Plane the bounds apply to its number of characters |
| Validators.IsBetweenMeaning | src/utils/validators.ts:6-9 | a number is accepted exactly when it meets every non-zero bound given; absent or zero bounds accept everything |
| Validators.FirstAt | src/utils/validators.ts:33 | the first `@` at or after a position: an `@`, and no `@` comes earlier |
| Validators.LastDot | src/utils/validators.ts:33 | the last `.` before a position: a `.`, and no `.` comes later |
| Validators.IsEmailMeaning | src/utils/validators.ts:33-36 | `isEmail` accepts exactly the strings without white space of the shape `a@b.c` with non-empty parts |

## Left out

- Sequelize and GraphQL themselves are not modelled: `sequelize.define`, the association calls, the `GraphQL*Type` constructors and schema validation. The store is an in-memory table, and a type is a value describing what the library passes to those constructors.
- DataLoader's batching, de-duplication and per-request caching are not modelled; they rely on the event loop. A loader is the batch function applied to the keys of one call (`ModelLoaders.Loader`).
- `async`/`await`, `promiseAllRecord` and `isPromise` are not modelled; resolvers are sequential calls. The concurrent `nodes`/`count` pair of the newer pagination becomes two calls in a row.
- Expose.ResolveFindByIds: when several ids are missing, `Promise.all` rejects with whichever lookup fails first in time. The model reports the first missing id in the order of the ids.
- User resolvers, `where`/`config` getters and validators are given as Dafny functions of their inputs; the context they might read is not modelled.
- Thunks (`unthunk`, `src/utils/thunk.ts`) are given already evaluated. The exceptions are the association thunk of `Model`, whose single evaluation is modelled, and the fields thunk of the mutations object (`Mutations.GenModelMutationFields`), whose `type` reads are modelled. GraphQL evaluates that thunk when it builds the schema, not when `genModelMutations` returns; the model has it run as one call.
- `Mutations.Destroy`: deletion removes the matching rows. Paranoid soft deletion, which sets `deletedAt` instead, is not modelled.
- `isDateBetween` and the `GraphQLDate` scalar are not modelled, because they read the clock and depend on JavaScript `Date` parsing. Timestamp filters are referred to by the filter type's name.
- `DateFilter` is imported by `src/schema/model/genModelFilters.ts` but not defined in `columnTypesFilters.ts`. The model refers to it only by name (`ModelFilters.DateFilterRef`).
- Both paginations take `genModelFilters` and `genModelOrderBy` from the schema index (`src/schema/index.ts`, imported at `src/schema/model/genModelOffsetPagination.ts:24-29`), which re-exports `src/schema/genModelFilters.ts`. That file is not among the modelled files: the filter argument and the filter input registered by `ModelPagination.RegisterPaginationTypes` are those of `src/schema/model/genModelFilters.ts`.
- `Model` reads the request's loader registry as `ctx.modelLoader`, but the context type calls it `loader`. The model passes the registry as an optional argument.
- `ModelLoader` calls `model.formatIdentifier`, which `Model` does not define. The per-key miss is the error value `NotLoaded(modelName, key)`.
- Slugify.Slugify: the Unicode NFKD normalisation step is not modelled, nor is case mapping outside ASCII. Both need Unicode tables, so the model lower-cases ASCII letters only and the `Émile` example is not covered.
- `getEnumEntries` and `getEnumCleanObj` are not modelled; they rely on JavaScript `Number()` parsing and on an export that does not exist. `ColumnTypes.ENUM` takes the enum's entries as already cleaned.
- JavaScript object key order is insertion order here. The engine's own rule, which lists integer-like keys first, is not modelled.
- Numbers are integers. Floating point, `NaN` and `Infinity` are not modelled, and `isBetween` is stated on integers.
- Cyclic fragment spreads, which GraphQL validation forbids, are bounded by a fuel parameter. Running out of fuel is reported as `SelectionTooDeep`.
- `src/utils/object.test.ts:18-20` is a test that fails on purpose; it is not encoded.
- `formatModelId`, `scopedField`, `GraphQLNonNullList` and `getDataTypeKey` are not modelled; they are thin wrappers with nothing to state beyond their use. The declaration-only and index files only shape the datatypes.
- Associations.AssociationsFieldsGet: the fields of `belongsTo`, `hasOne` and `hasMany` refer to the target model's type by name (`Associations.BelongsToField`, `Associations.HasOneField`, `Associations.HasManyField`). The target's `type` getter runs inside the output type's fields thunk, which GraphQL evaluates; its failure and its cache updates are not modelled there.
- Associations.HasManyField: the pagination types a `hasMany` field registers in the type cache (the target's connection, fields enum, order-by and filter inputs) are not modelled there; they are modelled for exposed paginations (`ModelPagination.GenOffsetPagination`).
- Js.ForInEntries: a string is enumerated by character index. JavaScript enumerates UTF-16 code units, so a character outside the Basic Multilingual Plane, two units there, is one index here.
- Slugify.GenSlug: the source's comment promises a unique slug, but the count-based suffix does not give one (`Slugify.GenSlugRepeats` shows the name `potato 2` getting `potato-2` again after two `potato`s). The model states the code as written and claims no uniqueness.
- Store.FindAll: the store does not sort. The `order` of a query, and its `attributes` and `include`, are carried in the options as data; the offset and limit window is taken over the matching rows in table order. So which rows a page holds under an `order` argument is not modelled, and `PaginationOld.ResolveCount`'s unwindowed nodes are the matches in table order rather than in the requested order.
- Database.PrimaryKeyIsId: when no attribute is a primary key, the store's `id` comes from the rule that Sequelize adds its own `id` primary key. That rule is taken as given, not modelled.

## Findings

| source | as written | input that shows it | evidently intended | confidence | as-written member | corrected member |
|---|---|---|---|---|---|---|
| src/schema/model/validateModelFields.ts:16-21 | `columns[fieldKey]` also finds members every object inherits from `Object.prototype`, such as `toString`. Its missing `allowNull` reads as false. | fields `{ toString: null }` on a model without a `toString` column: the field is refused as an invalid null although it is not a column | only the model's own columns are checked; other keys are ignored | not executed | `ValidateFields.InheritedNameRefused` | `ValidateFields.ValidateModelFields` |
