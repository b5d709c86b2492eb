/** The older order-by input (src/schema/genModelOrderBy.ts), the one the library's schema
    index exports and both pagination builders use. Its `OrderType` enum, `…OrderBy` input and
    conversion are the same as in `OrderBy`; the fields enum differs. */
module OrderByOld {
  import opened Wrappers
  import opened Js
  import opened Records
  import opened Gql
  import opened Definitions
  import opened TypeCache
  import opened OrderBy

  const IdValue: seq<(string, Value)> := [("id", Str("id"))]

  /** The values of the fields enum: `id`, the orderable columns, the timestamps only when
      `timestamps` is true (no default), and `deletedAt` when `paranoid` is true. */
  function FieldsEnumValues(d: ModelDefinition): Record<Value> {
    var withColumns := Spread(IdValue, OrderableValues(d.columns));
    var withTimestamps := Spread(withColumns, if d.timestamps == Some(true) then TimestampValues else []);
    Spread(withTimestamps, if d.paranoid == Some(true) then DeletedAtValue else [])
  }

  function FieldsEnum(d: ModelDefinition): (t: NamedType)
    ensures t.EnumType? && t.name == d.name + "Fields"
  {
    EnumType(d.name + "Fields", None, FieldsEnumValues(d))
  }

  /** A key is a value exactly when it is `id`, an orderable column, a timestamp of a model
      whose `timestamps` is true, or `deletedAt` of a paranoid model; every value is its own
      name. */
  lemma FieldsEnumMeaning(d: ModelDefinition, k: string)
    ensures Get(FieldsEnumValues(d), k) ==
      if k == "id"
        || (Has(d.columns, k) && Orderable(Get(d.columns, k).value))
        || (d.timestamps == Some(true) && (k == "createdAt" || k == "updatedAt"))
        || (d.paranoid == Some(true) && k == "deletedAt")
      then Some(Str(k)) else None
  {
    var ts := if d.timestamps == Some(true) then TimestampValues else [];
    var del := if d.paranoid == Some(true) then DeletedAtValue else [];
    var withColumns := Spread(IdValue, OrderableValues(d.columns));
    assert Get(withColumns, k) ==
      if k == "id" || (Has(d.columns, k) && Orderable(Get(d.columns, k).value)) then Some(Str(k)) else None
    by {
      OrderableValuesGet(d.columns, k);
      SpreadRecordGet(IdValue, OrderableValues(d.columns), k);
    }
    TimestampValuesGet(k);
    SpreadGet(withColumns, ts, k);
    SpreadGet(Spread(withColumns, ts), del, k);
  }

  /** `id` is always the first value. */
  lemma IdFirst(d: ModelDefinition)
    ensures |FieldsEnumValues(d)| > 0 && FieldsEnumValues(d)[0] == ("id", Str("id"))
  {
    var ts := if d.timestamps == Some(true) then TimestampValues else [];
    var del := if d.paranoid == Some(true) then DeletedAtValue else [];
    var withColumns := Spread(IdValue, OrderableValues(d.columns));
    SpreadKeepsFirst(IdValue, OrderableValues(d.columns));
    SpreadKeepsFirst(withColumns, ts);
    SpreadKeepsFirst(Spread(withColumns, ts), del);
    var r := FieldsEnumValues(d);
    FieldsEnumMeaning(d, "id");
    GetEntry(r, 0);
  }

  /** Where the two variants differ, for the same definition: the older one always has `id`
      and has no timestamps when `timestamps` is unset. */
  lemma VariantsDiffer(d: ModelDefinition)
    requires d.timestamps.None? && !Has(d.columns, "id")
    ensures Has(FieldsEnumValues(d), "id") && !Has(OrderBy.FieldsEnumValues(d), "id")
    ensures !Has(FieldsEnumValues(d), "createdAt") || Has(d.columns, "createdAt")
    ensures Has(OrderBy.FieldsEnumValues(d), "createdAt")
  {
    FieldsEnumMeaning(d, "id");
    FieldsEnumMeaning(d, "createdAt");
    OrderBy.FieldsEnumMeaning(d, "id");
    OrderBy.FieldsEnumMeaning(d, "createdAt");
  }

  /** `genModelFieldsEnum(model)`, through the type cache. */
  method GenModelFieldsEnum(cache: Cache, d: ModelDefinition) returns (t: NamedType)
    requires cache.Valid()
    modifies cache
    ensures cache.Valid()
    ensures cache.types == Registered(old(cache.types), FieldsEnum(d))
    ensures t == Lookup(old(cache.types), FieldsEnum(d))
    ensures t.name == d.name + "Fields"
  {
    t := cache.CacheType(FieldsEnum(d));
  }

  /** `genModelOrderBy(model)`: the fields enum, then the `…OrderBy` input over it. */
  method GenModelOrderBy(cache: Cache, d: ModelDefinition) returns (t: NamedType)
    requires cache.Valid()
    modifies cache
    ensures cache.Valid()
    ensures var fieldsEnum := Lookup(old(cache.types), FieldsEnum(d));
      var afterEnum := Registered(old(cache.types), FieldsEnum(d));
      cache.types == Registered(afterEnum, OrderByType(d.name, fieldsEnum)) &&
      t == Lookup(afterEnum, OrderByType(d.name, fieldsEnum))
    ensures t.name == d.name + "OrderBy"
  {
    var fieldsEnum := GenModelFieldsEnum(cache, d);
    t := cache.CacheType(OrderByType(d.name, fieldsEnum));
  }
}
