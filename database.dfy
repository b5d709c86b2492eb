/** The store model a definition declares (src/definitions/model/gen/database.ts): its
    attributes and its options. The `sequelize.define` call itself is represented by the
    `StoreModel` value it receives. */
module Database {
  import opened Wrappers
  import opened Js
  import opened Records
  import opened Store
  import opened Strings
  import opened Definitions
  import opened ColumnTypes

  /** A store attribute; `primaryKey` is false where the attribute object does not set it. */
  datatype Attribute = Attribute(
    storeType: StoreType,
    allowNull: bool,
    defaultValue: Value,
    autoIncrement: Option<bool>,
    primaryKey: bool)

  /** The options of `sequelize.define`. */
  datatype StoreModel = StoreModel(
    modelName: string,
    attributes: Record<Attribute>,
    tableName: string,
    timestamps: Option<bool>,
    indexes: Option<Value>,
    paranoid: Option<bool>,
    freezeTableName: bool)

  function ColumnAttribute(column: ColumnDefinition): Attribute {
    Attribute(column.typ.storeType, column.allowNull, column.defaultValue, column.autoIncrement, false)
  }

  /** `makeModelAttributes(columns)`. */
  function MakeModelAttributes(columns: Record<ColumnDefinition>): Record<Attribute> {
    Mapped(columns, (column: ColumnDefinition, _: string) => ColumnAttribute(column))
  }

  /** The column attributes have exactly the column keys, in order, and each carries its
      column's store type, nullability, default value and auto-increment flag. */
  lemma ModelAttributes(columns: Record<ColumnDefinition>, k: string)
    ensures Keys(MakeModelAttributes(columns)) == Keys(columns)
    ensures var a := Get(MakeModelAttributes(columns), k);
      a.Some? <==> Has(columns, k)
    ensures Has(columns, k) ==>
      var c := Get(columns, k).value;
      Get(MakeModelAttributes(columns), k) ==
        Some(Attribute(c.typ.storeType, c.allowNull, c.defaultValue, c.autoIncrement, false))
  {
    var f := (column: ColumnDefinition, _: string) => ColumnAttribute(column);
    MappedKeys(columns, f);
    MappedGet(columns, f, k);
  }

  /** `makeModelIdAttribute(id)`: the id definition, or the default UUID one, as a non-null
      primary key. */
  function MakeModelIdAttribute(id: Option<IDColumnDefinition>): (a: Attribute)
    ensures a.primaryKey && !a.allowNull
    ensures id.None? ==> a.storeType == UUID && a.defaultValue == UUIDV4 && a.autoIncrement.None?
    ensures id.Some? ==>
      a.storeType == id.value.typ.storeType && a.defaultValue == id.value.defaultValue &&
      a.autoIncrement == id.value.autoIncrement
  {
    var d := id.GetOr(DefaultIDFieldDefinition);
    Attribute(d.typ.storeType, false, d.defaultValue, d.autoIncrement, true)
  }

  /** `genDatabaseModel(definition)`: `id` first, then the columns spread over it. */
  function GenDatabaseModel(definition: ModelDefinition): (m: StoreModel)
    ensures m.modelName == Camelize(definition.name)
    ensures m.tableName == if definition.tableName.Some? then definition.tableName.value else definition.name
    ensures m.freezeTableName
    ensures m.timestamps == definition.timestamps && m.indexes == definition.indexes && m.paranoid == definition.paranoid
  {
    var attributes := Spread([("id", MakeModelIdAttribute(definition.id))], MakeModelAttributes(definition.columns));
    StoreModel(Camelize(definition.name), attributes, definition.tableName.GetOr(definition.name),
      definition.timestamps, definition.indexes, definition.paranoid, true)
  }

  /** The attributes are `id` followed by the columns other than `id`. A column named `id`
      replaces the id attribute, in the id's position; every other key reads its column. */
  lemma DatabaseAttributes(definition: ModelDefinition, k: string)
    ensures var attrs := GenDatabaseModel(definition).attributes;
      |attrs| >= 1 && attrs[0].0 == "id" &&
      Get(attrs, k) == if Has(definition.columns, k) then Get(MakeModelAttributes(definition.columns), k)
        else if k == "id" then Some(MakeModelIdAttribute(definition.id))
        else None
  {
    var columnAttrs := MakeModelAttributes(definition.columns);
    var base := [("id", MakeModelIdAttribute(definition.id))];
    SpreadKeepsFirst(base, columnAttrs);
    SpreadRecordGet(base, columnAttrs, k);
    SingletonGet("id", MakeModelIdAttribute(definition.id), k);
    ModelAttributes(definition.columns, k);
  }

  /** Without an `id` column the id attribute is the primary key. */
  lemma IdAttributeIsPrimaryKey(definition: ModelDefinition)
    requires !Has(definition.columns, "id")
    ensures Get(GenDatabaseModel(definition).attributes, "id") == Some(MakeModelIdAttribute(definition.id))
    ensures Get(GenDatabaseModel(definition).attributes, "id").value.primaryKey
  {
    DatabaseAttributes(definition, "id");
  }

  /** A column named `id` hides the id attribute, so the id is no longer marked primary key. */
  lemma IdColumnOverrides(definition: ModelDefinition)
    requires Has(definition.columns, "id")
    ensures Get(GenDatabaseModel(definition).attributes, "id") ==
      Some(ColumnAttribute(Get(definition.columns, "id").value))
    ensures !Get(GenDatabaseModel(definition).attributes, "id").value.primaryKey
  {
    DatabaseAttributes(definition, "id");
    ModelAttributes(definition.columns, "id");
  }

  /** The model's `primaryKeyAttribute`: the first attribute marked as primary key; when
      none is, the store adds its own `id` primary key. */
  function PrimaryKeyAttribute(attributes: seq<(string, Attribute)>): string
    decreases |attributes|
  {
    if |attributes| == 0 then "id"
    else if attributes[0].1.primaryKey then attributes[0].0
    else PrimaryKeyAttribute(attributes[1..])
  }

  /** When only an `id` can be marked as primary key, the primary key attribute is `id`. */
  lemma {:induction false} OnlyIdPrimary(attributes: seq<(string, Attribute)>)
    requires forall i | 0 <= i < |attributes| && attributes[i].1.primaryKey :: attributes[i].0 == "id"
    ensures PrimaryKeyAttribute(attributes) == "id"
    decreases |attributes|
  {
    if |attributes| > 0 && !attributes[0].1.primaryKey {
      var rest := attributes[1..];
      forall i | 0 <= i < |rest| && rest[i].1.primaryKey ensures rest[i].0 == "id" {
        assert rest[i] == attributes[i + 1];
      }
      OnlyIdPrimary(rest);
    }
  }

  /** A store model whose primary key attribute is `id`, as every generated one is. */
  type IdKeyedStoreModel = s: StoreModel | PrimaryKeyAttribute(s.attributes) == "id"
    witness StoreModel("", [], "", None, None, None, true)

  /** Every generated store model has primary key `id`: either the id attribute or, when a
      column named `id` hides it, the store's default `id`. */
  lemma PrimaryKeyIsId(definition: ModelDefinition)
    ensures PrimaryKeyAttribute(GenDatabaseModel(definition).attributes) == "id"
  {
    var attrs := GenDatabaseModel(definition).attributes;
    forall i | 0 <= i < |attrs| && attrs[i].1.primaryKey ensures attrs[i].0 == "id" {
      GetEntry(attrs, i);
      DatabaseAttributes(definition, attrs[i].0);
      ModelAttributes(definition.columns, attrs[i].0);
    }
    OnlyIdPrimary(attrs);
  }
}
