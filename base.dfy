/** The output type of a model (src/definitions/model/gen/schema/base.ts): the base fields
    (id and timestamps), the exposed columns, the exposed associations and the definition's
    own fields, each layer overriding the keys of the ones before it. */
module Base {
  import opened Wrappers
  import opened Js
  import opened Records
  import opened Gql
  import opened Definitions
  import opened ColumnTypes
  import opened Associations

  /** A column's field: its GraphQL type, non-null unless the column allows null, with the
      column's description and default value. */
  function ColumnField(c: ColumnDefinition): Field {
    Field(if c.allowNull then Named(c.typ.gqlType) else NonNull(Named(c.typ.gqlType)), c.description, c.defaultValue, [], DefaultResolver)
  }

  /** `genModelColumnsFields(columns)`. */
  function ColumnsFields(columns: Record<ColumnDefinition>): Record<Field> {
    Mapped(Filtered(columns, (c: ColumnDefinition, _: string) => c.exposed), (c: ColumnDefinition, _: string) => ColumnField(c))
  }

  /** Exactly the exposed columns are fields, in column order. */
  lemma ColumnsFieldsGet(columns: Record<ColumnDefinition>, k: string)
    ensures Get(ColumnsFields(columns), k) ==
      if Has(columns, k) && Get(columns, k).value.exposed then Some(ColumnField(Get(columns, k).value)) else None
    ensures Has(columns, k) && Get(columns, k).value.exposed ==>
      (Get(ColumnsFields(columns), k).value.typ.NonNull? <==> !Get(columns, k).value.allowNull)
  {
    var p := (c: ColumnDefinition, _: string) => c.exposed;
    var f := (c: ColumnDefinition, _: string) => ColumnField(c);
    MappedGet(Filtered(columns, p), f, k);
    FilteredGet(columns, p, k);
  }

  /** The GraphQL type of the id: the definition's id column type, or the default UUID id. */
  function IdGqlType(d: ModelDefinition): NamedType {
    if d.id.Some? then d.id.value.typ.gqlType else DefaultIDFieldDefinition.typ.gqlType
  }

  const DateField: Field := TypeOnly(NonNull(Named(GraphQLDate)))

  const TimestampFields: seq<(string, Field)> := [("createdAt", DateField), ("updatedAt", DateField)]

  const DeletedAtField: seq<(string, Field)> := [("deletedAt", DateField)]

  /** `genModelBaseFields(definition)`: `timestamps` defaults to true; `deletedAt` only for
      `paranoid: true`. */
  function BaseFields(d: ModelDefinition): Record<Field> {
    var id: Record<Field> := [("id", TypeOnly(NonNull(Named(IdGqlType(d)))))];
    var withTimestamps := Spread(id, if d.timestamps != Some(false) then TimestampFields else []);
    Spread(withTimestamps, if d.paranoid == Some(true) then DeletedAtField else [])
  }

  /** The base fields are `id` (non-null, of the id type), `createdAt` and `updatedAt` unless
      timestamps are off, and `deletedAt` for a paranoid model, every one non-null, and nothing
      else. */
  lemma BaseFieldsMeaning(d: ModelDefinition, k: string)
    ensures Get(BaseFields(d), k) ==
      if k == "id" then Some(TypeOnly(NonNull(Named(IdGqlType(d)))))
      else if (d.timestamps != Some(false) && (k == "createdAt" || k == "updatedAt"))
        || (d.paranoid == Some(true) && k == "deletedAt") then Some(DateField)
      else None
  {
    var id: Record<Field> := [("id", TypeOnly(NonNull(Named(IdGqlType(d)))))];
    var ts := if d.timestamps != Some(false) then TimestampFields else [];
    var del := if d.paranoid == Some(true) then DeletedAtField else [];
    SpreadGet(id, ts, k);
    SpreadGet(Spread(id, ts), del, k);
    TimestampFieldsGet(k);
    assert Get(id, k) == if k == "id" then Some(id[0].1) else None;
    assert LastValue(DeletedAtField, k) == if k == "deletedAt" then Some(DateField) else None;
  }

  /** The timestamp block holds exactly `createdAt` and `updatedAt`, both non-null dates. */
  lemma TimestampFieldsGet(k: string)
    ensures LastValue(TimestampFields, k) == if k == "createdAt" || k == "updatedAt" then Some(DateField) else None
  {
    var t := TimestampFields;
    assert t[..1] == [("createdAt", DateField)];
    assert LastValue(t[..1][..0], k) == None;
  }

  /** `id` is the first base field, whatever the options. */
  lemma BaseFieldsIdFirst(d: ModelDefinition)
    ensures |BaseFields(d)| > 0 && BaseFields(d)[0].0 == "id"
  {
    var id: Record<Field> := [("id", TypeOnly(NonNull(Named(IdGqlType(d)))))];
    var ts := if d.timestamps != Some(false) then TimestampFields else [];
    var del := if d.paranoid == Some(true) then DeletedAtField else [];
    SpreadKeepsFirst(id, ts);
    SpreadKeepsFirst(Spread(id, ts), del);
  }

  /** The fields of the output type, layered as the object spread does. */
  function TypeFields(d: ModelDefinition, associations: Record<AssociationSpecs>): Record<Field>
    requires SupportedKinds(associations)
  {
    var base := Spread(BaseFields(d), ColumnsFields(d.columns));
    var withAssociations := Spread(base, AssociationsFields(associations));
    Spread(withAssociations, d.fields.GetOr([]))
  }

  /** `genModelGraphQLType(model)`: the object type named after the model. */
  function GraphQLType(d: ModelDefinition, associations: Record<AssociationSpecs>): (t: NamedType)
    requires SupportedKinds(associations)
    ensures t.ObjectType? && t.name == d.name && t.description == d.description
  {
    ObjectType(d.name, d.description, TypeFields(d, associations))
  }

  /** A field of the output type comes from the definition's own fields when it names one,
      else from an exposed association, else from an exposed column, else from the base
      fields: a later layer overrides an earlier one on the same key. */
  lemma TypeFieldsGet(d: ModelDefinition, associations: Record<AssociationSpecs>, k: string)
    requires SupportedKinds(associations)
    ensures Get(TypeFields(d, associations), k) ==
      if d.fields.Some? && Has(d.fields.value, k) then Get(d.fields.value, k)
      else if Has(associations, k) && Exposed(Get(associations, k).value) then Some(AssociationField(Get(associations, k).value, k))
      else if Has(d.columns, k) && Get(d.columns, k).value.exposed then Some(ColumnField(Get(d.columns, k).value))
      else Get(BaseFields(d), k)
  {
    var base := Spread(BaseFields(d), ColumnsFields(d.columns));
    var withAssociations := Spread(base, AssociationsFields(associations));
    SpreadRecordGet(withAssociations, d.fields.GetOr([]), k);
    SpreadRecordGet(base, AssociationsFields(associations), k);
    SpreadRecordGet(BaseFields(d), ColumnsFields(d.columns), k);
    AssociationsFieldsGet(associations, k);
    ColumnsFieldsGet(d.columns, k);
  }

  /** Every output type has a non-null `id` field unless a column, an association or an own
      field of that name replaces it. */
  lemma TypeHasId(d: ModelDefinition, associations: Record<AssociationSpecs>)
    requires SupportedKinds(associations)
    requires !(d.fields.Some? && Has(d.fields.value, "id")) && !Has(associations, "id") && !Has(d.columns, "id")
    ensures Get(TypeFields(d, associations), "id") == Some(TypeOnly(NonNull(Named(IdGqlType(d)))))
  {
    TypeFieldsGet(d, associations, "id");
    BaseFieldsMeaning(d, "id");
  }
}
