/** The `…Filters` input of a model (src/schema/model/genModelFilters.ts): one field per
    filterable column, typed by that column's filter input, plus the timestamp filters. */
module ModelFilters {
  import opened Wrappers
  import opened Js
  import opened Records
  import opened Gql
  import opened Definitions
  import opened TypeCache

  /** The timestamp fields use `DateFilter`, which src/definitions/model/columnTypesFilters.ts
      does not define; it is referred to by name. */
  const DateFilterRef: TypeRef := Ref("DateFilter")

  const TimestampFilters: seq<(string, InputField)> :=
    [("createdAt", InputField(DateFilterRef, None)), ("updatedAt", InputField(DateFilterRef, None))]

  /** A column with a filter type and `filterable ?? exposed`. */
  predicate Filterable(c: ColumnDefinition) {
    c.typ.filterType.Some? && c.filterable.GetOr(c.exposed)
  }

  /** `{ type: column.type.filterGqlType }`; only filterable columns, which have a filter
      type, reach it. */
  function FilterField(c: ColumnDefinition): InputField {
    match c.typ.filterType
    case Some(t) => InputField(Named(t), None)
    case None => InputField(Ref("undefined"), None)
  }

  function ColumnFilters(columns: Record<ColumnDefinition>): Record<InputField> {
    Mapped(Filtered(columns, (c: ColumnDefinition, _: string) => Filterable(c)), (c: ColumnDefinition, _: string) => FilterField(c))
  }

  /** The timestamp filters are there when `timestamps` is unset or true. */
  predicate HasTimestampFilters(d: ModelDefinition) {
    d.timestamps.None? || d.timestamps == Some(true)
  }

  function ModelFiltersType(d: ModelDefinition): (t: NamedType)
    ensures t.InputObject? && t.name == d.name + "Filters"
    ensures t.description == Some("The " + d.name + " model filters")
  {
    InputObject(d.name + "Filters", Some("The " + d.name + " model filters"),
      Spread(ColumnFilters(d.columns), if HasTimestampFilters(d) then TimestampFilters else []))
  }

  /** A key is a field exactly when it is a filterable column (typed by its column's filter
      input) or a timestamp of a model with timestamps (typed `DateFilter`, which shadows a
      column of that name). No `id` field is added. */
  lemma ModelFiltersMeaning(d: ModelDefinition, k: string)
    ensures Get(ModelFiltersType(d).inputFields, k) ==
      if HasTimestampFilters(d) && (k == "createdAt" || k == "updatedAt") then Some(InputField(DateFilterRef, None))
      else if Has(d.columns, k) && Filterable(Get(d.columns, k).value) then
        Some(InputField(Named(Get(d.columns, k).value.typ.filterType.value), None))
      else None
  {
    ColumnFiltersGet(d.columns, k);
    SpreadGet(ColumnFilters(d.columns), if HasTimestampFilters(d) then TimestampFilters else [], k);
    assert LastValue(TimestampFilters, k) ==
      if k == "createdAt" || k == "updatedAt" then Some(InputField(DateFilterRef, None)) else None
    by {
      var ts := TimestampFilters;
      assert ts[1] == ("updatedAt", InputField(DateFilterRef, None));
      assert ts[..1] == [("createdAt", InputField(DateFilterRef, None))];
      assert LastValue(ts[..1][..0], k) == None;
      assert LastValue(ts[..1], k) == if k == "createdAt" then Some(InputField(DateFilterRef, None)) else None;
    }
  }

  lemma ColumnFiltersGet(columns: Record<ColumnDefinition>, k: string)
    ensures Get(ColumnFilters(columns), k) ==
      if Has(columns, k) && Filterable(Get(columns, k).value) then
        Some(InputField(Named(Get(columns, k).value.typ.filterType.value), None))
      else None
  {
    var p := (c: ColumnDefinition, _: string) => Filterable(c);
    var f := (c: ColumnDefinition, _: string) => FilterField(c);
    MappedGet(Filtered(columns, p), f, k);
    FilteredGet(columns, p, k);
  }

  lemma NoIdFilter(d: ModelDefinition)
    requires !Has(d.columns, "id")
    ensures !Has(ModelFiltersType(d).inputFields, "id")
  {
    ModelFiltersMeaning(d, "id");
  }

  /** `genModelFilters(model)`, through the type cache. */
  method GenModelFilters(cache: Cache, d: ModelDefinition) returns (t: NamedType)
    requires cache.Valid()
    modifies cache
    ensures cache.Valid()
    ensures cache.types == Registered(old(cache.types), ModelFiltersType(d))
    ensures t == Lookup(old(cache.types), ModelFiltersType(d))
    ensures t.name == d.name + "Filters"
  {
    t := cache.CacheType(ModelFiltersType(d));
  }
}
