/** The shapes of the definitions a user writes (src/definitions/model/types.ts and
    src/definitions/model/constants.ts). A thunk in a definition is represented by the value
    it returns. */
module Definitions {
  import opened Wrappers
  import opened Js
  import opened Records
  import opened Gql
  import opened Store

  /** A column kind: its GraphQL scalar or enum, its store type and its filter input type. */
  datatype ColumnType = ColumnType(gqlType: NamedType, storeType: StoreType, filterType: Option<NamedType>)

  /** A column validator, called with the value and all submitted fields. */
  type Validator = (Value, Record<Value>) -> bool

  /** A column; an absent `defaultValue` is `Undefined`. `validate` is not declared by the
      column interface, but `validateModelFields` reads it from the column object. */
  datatype ColumnDefinition = ColumnDefinition(
    typ: ColumnType,
    allowNull: bool,
    exposed: bool,
    defaultValue: Value,
    autoIncrement: Option<bool>,
    orderable: Option<bool>,
    filterable: Option<bool>,
    description: Option<string>,
    validate: Option<Validator>)

  datatype IDColumnDefinition = IDColumnDefinition(typ: ColumnType, autoIncrement: Option<bool>, defaultValue: Value)

  /** The `type` of an association definition; anything else a caller may pass at run time is `OtherKind`. */
  datatype AssociationKind = BelongsToKind | HasOneKind | HasManyKind | OtherKind(raw: string)

  /** The target model of an association, by the name of the model (which is also the name of
      its output type) and the primary key attribute of its store model. */
  datatype ModelRef = ModelRef(name: string, primaryKey: string)

  datatype AssociationDefinition = AssociationDefinition(
    target: ModelRef,
    kind: AssociationKind,
    exposed: bool,
    foreignKey: Option<string>,
    deleteCascade: Option<bool>,
    description: Option<string>)

  /** What a model keeps per association: the store association and its definition. */
  datatype AssociationSpecs = AssociationSpecs(relation: Relation, associationDef: AssociationDefinition)

  /** The store connection (`sequelize`); of it only the foreign key Sequelize picks when none
      is given is used, as a function of the association type, source model, target model and alias. */
  datatype Connection = Connection(defaultForeignKey: (RelationKind, string, string, string) -> string)

  /** A model definition. The association thunk is represented by the entries of the record
      it returns, in order. */
  datatype ModelDefinition = ModelDefinition(
    name: string,
    id: Option<IDColumnDefinition>,
    columns: Record<ColumnDefinition>,
    timestamps: Option<bool>,
    sequelize: Connection,
    associations: Option<seq<(string, AssociationDefinition)>>,
    fields: Option<Record<Field>>,
    description: Option<string>,
    tableName: Option<string>,
    indexes: Option<Value>,
    paranoid: Option<bool>)

  /** The `DataTypes.UUIDV4` default-value marker. */
  const UUIDV4: Value := Str("UUIDV4")
}
