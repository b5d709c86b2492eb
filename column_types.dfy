/** The column kind catalog (src/definitions/model/columnTypes.ts) and the default id column
    (src/definitions/model/constants.ts). */
module ColumnTypes {
  import opened Wrappers
  import opened Js
  import opened Records
  import opened Gql
  import opened Store
  import opened Filters
  import opened Definitions

  const ID := ColumnType(GraphQLID, UUID, Some(IDFilter))
  const INTEGER := ColumnType(GraphQLInt, Store.INTEGER, Some(IntFilter))
  const FLOAT := ColumnType(GraphQLFloat, Store.FLOAT, Some(FloatFilter))
  const DECIMAL := ColumnType(GraphQLFloat, Store.DECIMAL, Some(FloatFilter))
  const DOUBLE := ColumnType(GraphQLFloat, Store.DOUBLE, Some(FloatFilter))
  const STRING := ColumnType(GraphQLString, Store.STRING, Some(StringFilter))
  const CHAR := ColumnType(GraphQLString, Store.CHAR, Some(StringFilter))
  const TEXT := ColumnType(GraphQLString, Store.TEXT, Some(StringFilter))
  const BOOLEAN := ColumnType(GraphQLBoolean, Store.BOOLEAN, Some(BooleanFilter))
  const DATE := ColumnType(GraphQLDate, Store.DATE, Some(IntFilter))
  const DATEONLY := ColumnType(GraphQLDate, Store.DATEONLY, Some(IntFilter))

  /** `DefaultIDFieldDefinition`: a UUID id with a `UUIDV4` default. */
  const DefaultIDFieldDefinition := IDColumnDefinition(ID, None, UUIDV4)

  /** The operator keys of a column kind's filter type. */
  function FilterKeys(c: ColumnType): seq<string> {
    if c.filterType.Some? && c.filterType.value.InputObject? then Keys(c.filterType.value.inputFields) else []
  }

  /** `ENUM({ name, values, description })`, given the enum's cleaned entries. */
  function ENUM(name: string, entries: Record<Value>, description: Option<string>): (c: ColumnType)
    ensures c.gqlType.EnumType? && c.gqlType.name == name
  {
    var gqlType := EnumType(name, description, Mapped(entries, (value: Value, _: string) => value));
    var entriesValues := seq(|entries|, i requires 0 <= i < |entries| => StringOf(entries[i].1));
    ColumnType(gqlType, Store.ENUM(entriesValues), Some(MakeFiltersType(gqlType, None)))
  }

  /** ID and BOOLEAN get the base operators only. */
  lemma BaseOnlyKinds()
    ensures ID.gqlType == GraphQLID && FilterKeys(ID) == BaseKeys
    ensures BOOLEAN.gqlType == GraphQLBoolean && FilterKeys(BOOLEAN) == BaseKeys
  {
    BaseOnlyFilters();
  }

  /** INTEGER uses the Int scalar and the numeric operators; FLOAT, DECIMAL and DOUBLE the
      Float scalar and the numeric operators. */
  lemma NumericKinds()
    ensures INTEGER.gqlType == GraphQLInt && FilterKeys(INTEGER) == BaseKeys + NumericKeys
    ensures FLOAT.gqlType == GraphQLFloat && FilterKeys(FLOAT) == BaseKeys + NumericKeys
    ensures DECIMAL.gqlType == GraphQLFloat && FilterKeys(DECIMAL) == BaseKeys + NumericKeys
    ensures DOUBLE.gqlType == GraphQLFloat && FilterKeys(DOUBLE) == BaseKeys + NumericKeys
  {
    NumericFilters();
  }

  /** STRING, CHAR and TEXT use the String scalar and the substring operators. */
  lemma StringKinds()
    ensures STRING.gqlType == GraphQLString && FilterKeys(STRING) == BaseKeys + StringKeys
    ensures CHAR.gqlType == GraphQLString && FilterKeys(CHAR) == BaseKeys + StringKeys
    ensures TEXT.gqlType == GraphQLString && FilterKeys(TEXT) == BaseKeys + StringKeys
  {
    StringFilters();
  }

  /** DATE and DATEONLY use the Date scalar with the integer filter, not a date filter. */
  lemma DateKinds()
    ensures DATE.gqlType == GraphQLDate && DATE.filterType == Some(IntFilter)
    ensures DATEONLY.gqlType == GraphQLDate && DATEONLY.filterType == Some(IntFilter)
    ensures FilterKeys(DATE) == BaseKeys + NumericKeys
  {
    NumericFilters();
  }

  /** The store values of an ENUM are its entries' values as strings, in entry order; its
      GraphQL values are the entries themselves. */
  lemma EnumValues(name: string, entries: Record<Value>, description: Option<string>)
    ensures var c := ENUM(name, entries, description);
      c.storeType.ENUM? && |c.storeType.values| == |entries| &&
      (forall i | 0 <= i < |entries| :: c.storeType.values[i] == StringOf(entries[i].1)) &&
      Keys(c.gqlType.values) == Keys(entries) &&
      forall k :: Get(c.gqlType.values, k) == Get(entries, k)
  {
    var f := (value: Value, _: string) => value;
    MappedKeys(entries, f);
    forall k ensures Get(Mapped(entries, f), k) == Get(entries, k) {
      MappedGet(entries, f, k);
    }
  }

  /** The ENUM filter has only the base operators and is named after the enum. */
  lemma EnumFilter(name: string, entries: Record<Value>, description: Option<string>)
    ensures var c := ENUM(name, entries, description);
      c.filterType.Some? && c.filterType.value.name == name + "Filters" && FilterKeys(c) == BaseKeys
  {
    var c := ENUM(name, entries, description);
    FilterTypeKeys(c.gqlType, None);
    TableKeys();
  }
}
