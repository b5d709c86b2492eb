/** The association fields of a model's output type
    (src/definitions/model/gen/schema/associations.ts): a `belongsTo` or `hasOne` association
    is a field of the target's type, a `hasMany` association an offset-paginated field over the
    target; only exposed associations become fields. */
module Associations {
  import opened Wrappers
  import opened Js
  import opened Records
  import opened Gql
  import opened Store
  import opened Errors
  import opened Definitions
  import opened PaginationOld

  /** `genAssociationWhere({ parent, sequelizeAssociation })`: the rows of the target that
      belong to `parent` through `rel`. A parent attribute it lacks reads as `null`. */
  function AssociationWhere(parent: Row, rel: Relation): Result<Where, Error> {
    match rel.kind
    case HasMany => Success(AttrEq(rel.foreignKey, Cell(parent, rel.sourcePk)))
    case HasOne => Success(AttrEq(rel.foreignKey, Cell(parent, rel.sourcePk)))
    case BelongsTo => Success(AttrEq(rel.targetPk, Cell(parent, rel.foreignKey)))
    case BelongsToMany => Failure(UnsupportedAssociationType)
  }

  /** A target row is selected exactly when its foreign key equals the parent's primary key
      (`hasMany`, `hasOne`), or its primary key equals the parent's foreign key (`belongsTo`);
      a parent whose key is null selects the target rows whose column is null too.
      `belongsToMany` is refused. */
  lemma AssociationWhereMeaning(parent: Row, rel: Relation, row: Row)
    ensures AssociationWhere(parent, rel).Failure? <==> rel.kind == BelongsToMany
    ensures AssociationWhere(parent, rel).Failure? ==> AssociationWhere(parent, rel).error == UnsupportedAssociationType
    ensures rel.kind.HasMany? || rel.kind.HasOne? ==>
      (Satisfies(row, AssociationWhere(parent, rel).value) <==>
        if Present(Cell(parent, rel.sourcePk)) then Cell(row, rel.foreignKey) == Cell(parent, rel.sourcePk)
        else !Present(Cell(row, rel.foreignKey)))
    ensures rel.kind.BelongsTo? ==>
      (Satisfies(row, AssociationWhere(parent, rel).value) <==>
        if Present(Cell(parent, rel.foreignKey)) then Cell(row, rel.targetPk) == Cell(parent, rel.foreignKey)
        else !Present(Cell(row, rel.targetPk)))
  {
  }

  /** The `where(parent)` option a `hasMany` field hands to the pagination. */
  function HasManyWhere(rel: Relation): WhereGetter {
    (parent: Row, _: Record<Value>) => AttrEq(rel.foreignKey, Cell(parent, rel.sourcePk))
  }

  /** For a `hasMany` association the getter never fails: it is the association's predicate. */
  lemma HasManyWhereIsAssociationWhere(rel: Relation, parent: Row, args: Record<Value>)
    requires rel.kind == HasMany
    ensures AssociationWhere(parent, rel) == Success(HasManyWhere(rel)(parent, args))
  {
  }

  /** `genBelongsTo(specs)`: a field of the target's type with the association's description. */
  function BelongsToField(specs: AssociationSpecs, name: string): Field {
    Field(Ref(specs.associationDef.target.name), specs.associationDef.description, Undefined, [], BelongsToResolver(name))
  }

  /** The value the `belongsTo` resolver looks up: none when the parent's foreign key is null
      or undefined (the answer is `null` without a lookup), otherwise that key. */
  function BelongsToKey(source: Row, rel: Relation): (k: Option<Value>)
    ensures k.Some? <==> Present(Cell(source, rel.foreignKey))
    ensures k.Some? ==> k.value == Cell(source, rel.foreignKey)
  {
    var pk := Cell(source, rel.foreignKey);
    if pk.Null? || pk.Undefined? then None else Some(pk)
  }

  /** `genHasOne(specs)`. */
  function HasOneField(specs: AssociationSpecs, name: string): Field {
    Field(Ref(specs.associationDef.target.name), specs.associationDef.description, Undefined, [], HasOneResolver(name))
  }

  /** The `hasOne` resolver: `findOne` over the target with the association's predicate. */
  function HasOneResolve(targetTable: seq<Row>, parent: Row, rel: Relation): Result<Option<Row>, Error> {
    var w :- AssociationWhere(parent, rel);
    Success(FindOne(targetTable, w))
  }

  /** A `hasOne` parent gets the first target row, in table order, whose foreign key matches
      it, or nothing when no row matches. */
  lemma HasOneResolveMeaning(targetTable: seq<Row>, parent: Row, rel: Relation)
    requires rel.kind == HasOne
    ensures var r := HasOneResolve(targetTable, parent, rel);
      var w := AttrEq(rel.foreignKey, Cell(parent, rel.sourcePk));
      r.Success? &&
      (r.value.Some? <==> exists row | row in targetTable :: Satisfies(row, w)) &&
      (r.value.Some? ==>
        r.value.value in targetTable && Satisfies(r.value.value, w) && r.value.value == Matching(targetTable, w)[0])
  {
    var w := AttrEq(rel.foreignKey, Cell(parent, rel.sourcePk));
    var m := Matching(targetTable, w);
    if exists row | row in targetTable :: Satisfies(row, w) {
      var row :| row in targetTable && Satisfies(row, w);
      assert row in m;
    }
    if |m| > 0 {
      assert m[0] in m;
    }
  }

  /** `genHasMany(specs)`: the target's offset pagination, whose node and model are the
      target; the description goes to the connection type, not to the field. */
  function HasManyField(specs: AssociationSpecs, name: string): Field {
    var target := specs.associationDef.target.name;
    PaginationField(target, target, [], Some(name))
  }

  /** The field of one association, by its definition's type. Only the three supported types
      reach this point (the model refuses the others when it builds its associations). */
  function AssociationField(specs: AssociationSpecs, name: string): Field
    requires !specs.associationDef.kind.OtherKind?
  {
    match specs.associationDef.kind
    case BelongsToKind => BelongsToField(specs, name)
    case HasOneKind => HasOneField(specs, name)
    case HasManyKind => HasManyField(specs, name)
  }

  predicate SupportedKinds(associations: Record<AssociationSpecs>) {
    forall i | 0 <= i < |associations| :: !associations[i].1.associationDef.kind.OtherKind?
  }

  predicate Exposed(specs: AssociationSpecs) {
    specs.associationDef.exposed
  }

  /** `genModelAssociationsFields(associations)`. */
  function AssociationsFields(associations: Record<AssociationSpecs>): Record<Field>
    requires SupportedKinds(associations)
  {
    if |associations| == 0 then []
    else
      var exposed := FromEntries(Filtered(associations, (s: AssociationSpecs, _: string) => Exposed(s)));
      Mapped(exposed, (s: AssociationSpecs, name: string) =>
        if s.associationDef.kind.OtherKind? then TypeOnly(Ref("undefined")) else AssociationField(s, name))
  }

  /** Filtering a record keeps its distinct keys, so rebuilding it from its entries reads the
      same as the filtered record. */
  lemma FilteredRecordGet(r: Record<AssociationSpecs>, p: (AssociationSpecs, string) -> bool, k: string)
    ensures LastValue(Filtered(r, p), k) == Get(Filtered(r, p), k)
    ensures Get(Filtered(r, p), k) == if Has(r, k) && p(Get(r, k).value, k) then Get(r, k) else None
  {
    FilteredGet(r, p, k);
    LastValueOfRecord(Filtered(r, p), k);
  }

  /** A key's field exists exactly when the key is an exposed association, and it is the
      field its association's type calls for; unexposed associations leave no field. */
  lemma AssociationsFieldsGet(associations: Record<AssociationSpecs>, k: string)
    requires SupportedKinds(associations)
    ensures Get(AssociationsFields(associations), k) ==
      if Has(associations, k) && Exposed(Get(associations, k).value) then Some(AssociationField(Get(associations, k).value, k))
      else None
  {
    if |associations| > 0 {
      var p := (s: AssociationSpecs, _: string) => Exposed(s);
      var exposed := FromEntries(Filtered(associations, p));
      var f := (s: AssociationSpecs, name: string) =>
        if s.associationDef.kind.OtherKind? then TypeOnly(Ref("undefined")) else AssociationField(s, name);
      MappedGet(exposed, f, k);
      FromEntriesGet(Filtered(associations, p), k);
      FilteredRecordGet(associations, p, k);
      if Has(associations, k) {
        var j := IndexOf(associations, k);
      }
    }
  }
}
