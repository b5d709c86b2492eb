/** The resolvers of the association fields
    (src/definitions/model/gen/schema/associations.ts): a `belongsTo` field looks its target
    up by primary key, through the request's loaders when there is a context; a `hasMany`
    field paginates the target rows the association selects. */
module AssociationResolvers {
  import opened Wrappers
  import opened Js
  import opened Records
  import opened Store
  import opened Errors
  import opened Filters
  import opened Associations
  import opened PaginationOld
  import opened ModelLoaders
  import opened Models

  /** The `belongsTo` resolver: `null` without a lookup when the parent's foreign key is
      `null` or `undefined`, otherwise `findByPkAllAttrs` of the target with the context. */
  method ResolveBelongsTo(target: Model, targetTable: seq<Row>, source: Row, rel: Relation, ctx: Option<ModelLoader>)
    returns (r: Option<Row>)
    requires ctx.Some? ==> ctx.value.Valid()
    modifies if ctx.Some? then {ctx.value} else {}
    ensures ctx.Some? ==> ctx.value.Valid()
    ensures BelongsToKey(source, rel).None? ==> r.None? && (ctx.Some? ==> ctx.value.loaders == old(ctx.value.loaders))
    ensures BelongsToKey(source, rel).Some? ==>
      (ctx.Some? ==> ctx.value.loaders == WithLoader(old(ctx.value.loaders), target.Name(), target.PrimaryKey())) &&
      r == Lookup(targetTable, target.PrimaryKey(), BelongsToKey(source, rel).value,
        if ctx.Some? then Some(LoaderFor(old(ctx.value.loaders), target.Name(), target.PrimaryKey())) else None)
  {
    var pk := BelongsToKey(source, rel);
    if pk.None? {
      return None;
    }
    r := target.FindByPkAllAttrs(targetTable, pk.value, ctx);
  }

  /** Looked up through the store, the target a `belongsTo` parent gets is a row the
      association's predicate selects, and there is one whenever the predicate selects any
      row of the target table. */
  lemma BelongsToLookupMeaning(targetTable: seq<Row>, source: Row, rel: Relation)
    requires rel.kind == BelongsTo
    ensures var k := BelongsToKey(source, rel);
      var w := AssociationWhere(source, rel).value;
      k.Some? ==>
        var found := Lookup(targetTable, rel.targetPk, k.value, None);
        (found.Some? <==> exists i | 0 <= i < |targetTable| :: Satisfies(targetTable[i], w)) &&
        (found.Some? ==> found.value in targetTable && Satisfies(found.value, w))
  {
  }

  /** The rows a `hasMany` page is drawn from are exactly the target rows whose foreign key
      matches the parent and that pass the filters, if any. */
  lemma HasManyPageRows(source: Row, rel: Relation, args: PaginationArgs, row: Row)
    requires rel.kind == HasMany
    requires args.filters.Some? ==> FiltersWhere(args.filters.value).Success?
    ensures PaginationWhere(Some(HasManyWhere(rel)), source, args).Success?
    ensures Satisfies(row, PaginationWhere(Some(HasManyWhere(rel)), source, args).value) <==>
      Satisfies(row, AssociationWhere(source, rel).value) &&
      (args.filters.Some? ==> Satisfies(row, FiltersWhere(args.filters.value).value))
  {
    PaginationWhereMeaning(Some(HasManyWhere(rel)), source, args, row);
    HasManyWhereIsAssociationWhere(rel, source, args.custom);
  }
}
