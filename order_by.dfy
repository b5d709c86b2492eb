/** The order-by input of a model (src/schema/model/genModelOrderBy.ts): an enum of the
    orderable fields, an `…OrderBy` input pairing a field with a direction, and the conversion
    of such an input into a store order item. */
module OrderBy {
  import opened Wrappers
  import opened Js
  import opened Records
  import opened Gql
  import opened Store
  import opened Definitions
  import opened TypeCache

  const OrderTypeEnum: NamedType := EnumType("OrderType", None, [("ASC", Str("ASC")), ("DESC", Str("DESC"))])

  /** A parsed `…OrderBy` argument; the enum type admits only the two directions. */
  datatype GenericOrderBy = GenericOrderBy(field: string, ordering: Direction)

  /** `orderable ?? exposed`. */
  predicate Orderable(c: ColumnDefinition) {
    c.orderable.GetOr(c.exposed)
  }

  /** `{ value: key }` for each orderable column. */
  function OrderableValues(columns: Record<ColumnDefinition>): Record<Value> {
    Mapped(Filtered(columns, (c: ColumnDefinition, _: string) => Orderable(c)), (_: ColumnDefinition, key: string) => Str(key))
  }

  const TimestampValues: seq<(string, Value)> := [("createdAt", Str("createdAt")), ("updatedAt", Str("updatedAt"))]
  const DeletedAtValue: seq<(string, Value)> := [("deletedAt", Str("deletedAt"))]

  /** Each timestamp value is its own name. */
  lemma TimestampValuesGet(k: string)
    ensures LastValue(TimestampValues, k) == if k == "createdAt" || k == "updatedAt" then Some(Str(k)) else None
    ensures LastValue(DeletedAtValue, k) == if k == "deletedAt" then Some(Str(k)) else None
  {
    var created := [("createdAt", Str("createdAt"))];
    assert TimestampValues == created + [("updatedAt", Str("updatedAt"))];
    assert TimestampValues[..1] == created;
    assert created[..0] == [];
    assert LastValue(created, k) == if k == "createdAt" then Some(Str(k)) else None;
    assert DeletedAtValue[..0] == [];
  }

  /** The values of the fields enum: the orderable columns, the timestamps unless `timestamps`
      is false (it defaults to true), and `deletedAt` when `paranoid` is set. */
  function FieldsEnumValues(d: ModelDefinition): Record<Value> {
    var withTimestamps := Spread(OrderableValues(d.columns), if d.timestamps != Some(false) then TimestampValues else []);
    Spread(withTimestamps, if d.paranoid == Some(true) then DeletedAtValue else [])
  }

  function FieldsEnum(d: ModelDefinition): (t: NamedType)
    ensures t.EnumType? && t.name == d.name + "Fields"
  {
    EnumType(d.name + "Fields", None, FieldsEnumValues(d))
  }

  /** The `…OrderBy` input over a fields enum; both of its fields are required. */
  function OrderByType(name: string, fieldsEnum: NamedType): (t: NamedType)
    ensures t.InputObject? && t.name == name + "OrderBy"
    ensures Keys(t.inputFields) == ["field", "ordering"]
    ensures Get(t.inputFields, "field") == Some(InputField(NonNull(Named(fieldsEnum)), None))
    ensures Get(t.inputFields, "ordering") == Some(InputField(NonNull(Named(OrderTypeEnum)), None))
  {
    var fields: Record<InputField> := [
      ("field", InputField(NonNull(Named(fieldsEnum)), None)),
      ("ordering", InputField(NonNull(Named(OrderTypeEnum)), None))];
    GetEntry(fields, 0);
    GetEntry(fields, 1);
    InputObject(name + "OrderBy", None, fields)
  }

  /** Each orderable column is a value of its own name, and nothing else is. */
  lemma OrderableValuesGet(columns: Record<ColumnDefinition>, k: string)
    ensures Get(OrderableValues(columns), k) ==
      if Has(columns, k) && Orderable(Get(columns, k).value) then Some(Str(k)) else None
  {
    var p := (c: ColumnDefinition, _: string) => Orderable(c);
    var f := (_: ColumnDefinition, key: string) => Str(key);
    MappedGet(Filtered(columns, p), f, k);
    FilteredGet(columns, p, k);
  }

  /** A key is a value of the fields enum exactly when it is an orderable column, a timestamp
      of a model with timestamps, or `deletedAt` of a paranoid model; every value is its own
      name. In particular `id` is not a value unless `id` is an orderable column. */
  lemma FieldsEnumMeaning(d: ModelDefinition, k: string)
    ensures Get(FieldsEnumValues(d), k) ==
      if (Has(d.columns, k) && Orderable(Get(d.columns, k).value))
        || (d.timestamps != Some(false) && (k == "createdAt" || k == "updatedAt"))
        || (d.paranoid == Some(true) && k == "deletedAt")
      then Some(Str(k)) else None
  {
    var ts := if d.timestamps != Some(false) then TimestampValues else [];
    var del := if d.paranoid == Some(true) then DeletedAtValue else [];
    OrderableValuesGet(d.columns, k);
    SpreadGet(OrderableValues(d.columns), ts, k);
    SpreadGet(Spread(OrderableValues(d.columns), ts), del, k);
  }

  /** `convertOrderByToSequelizeOrderItem`: `{ field, ordering }` becomes `[field, ordering]`. */
  function ConvertOrderBy(o: GenericOrderBy): (item: OrderItem)
    ensures item.0 == o.field && item.1 == o.ordering
  {
    (o.field, o.ordering)
  }

  /** `genModelFieldsEnum(model)`: the fields enum, through the type cache. */
  method GenModelFieldsEnum(cache: Cache, d: ModelDefinition) returns (t: NamedType)
    requires cache.Valid()
    modifies cache
    ensures cache.Valid()
    ensures cache.types == Registered(old(cache.types), FieldsEnum(d))
    ensures t == Lookup(old(cache.types), FieldsEnum(d))
    ensures t.name == d.name + "Fields"
  {
    t := cache.CacheType(FieldsEnum(d));
  }

  /** `genModelOrderBy(model)`: the fields enum first, then the `…OrderBy` input over the
      enum the cache returned, both through the cache. */
  method GenModelOrderBy(cache: Cache, d: ModelDefinition) returns (t: NamedType)
    requires cache.Valid()
    modifies cache
    ensures cache.Valid()
    ensures var fieldsEnum := Lookup(old(cache.types), FieldsEnum(d));
      var afterEnum := Registered(old(cache.types), FieldsEnum(d));
      cache.types == Registered(afterEnum, OrderByType(d.name, fieldsEnum)) &&
      t == Lookup(afterEnum, OrderByType(d.name, fieldsEnum))
    ensures t.name == d.name + "OrderBy"
  {
    var fieldsEnum := GenModelFieldsEnum(cache, d);
    t := cache.CacheType(OrderByType(d.name, fieldsEnum));
  }
}
