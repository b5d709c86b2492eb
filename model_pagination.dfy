/** The two `genModelOffsetPagination` builders over a model object
    (src/schema/genModelOffsetPagination.ts and src/schema/model/genModelOffsetPagination.ts).
    Without an `outputType` option each first reads the model's `type`, which can throw on its
    first access; then it registers the connection, the order-by input and the filter input
    in the type cache, in that order. */
module ModelPagination {
  import opened Wrappers
  import opened Gql
  import opened Errors
  import opened TypeCache
  import opened Models
  import PaginationOld
  import Pagination
  import OrderByOld
  import ModelFilters

  /** `outputType ?? model.type`, by name: the option when given, otherwise the model's type,
      read through its lazy getter. */
  method NodeName(m: Model, outputType: Option<string>) returns (r: Result<string, Error>)
    requires m.Valid()
    modifies m
    ensures m.Valid()
    ensures outputType.Some? ==>
      r == Success(outputType.value) && m.associationsCache == old(m.associationsCache) && m.typeCache == old(m.typeCache)
    ensures outputType.None? ==>
      (m.associationsCache, m.typeCache) == old(m.CachesAfterType()) &&
      r == if old(m.TypeRead()).Fail? then Failure(old(m.TypeRead()).error) else Success(m.Name())
  {
    if outputType.Some? {
      return Success(outputType.value);
    }
    var nodeType := m.Type();
    if nodeType.Failure? {
      return Failure(nodeType.error);
    }
    return Success(nodeType.value.name);
  }

  /** The registrations of both builders, after the node type is known. */
  method RegisterPaginationTypes(cache: Cache, nodeName: string, m: Model, description: Option<string>)
    requires cache.Valid()
    modifies cache
    ensures cache.Valid()
    ensures cache.types == PaginationOld.PaginationTypes(old(cache.types), nodeName, m.definition, description)
  {
    var connection := PaginationOld.MakeOffsetConnection(cache, nodeName, description);
    var orderBy := OrderByOld.GenModelOrderBy(cache, m.definition);
    var filters := ModelFilters.GenModelFilters(cache, m.definition);
  }

  /** The older `genModelOffsetPagination(model, opts)`, the one the schema index exports: a
      failing `type` read throws before anything is registered; otherwise the connection over
      the node type, the order-by input and the filter input are registered and the field,
      not wrapped as non-null, is returned. */
  method GenOffsetPagination(cache: Cache, m: Model, opts: PaginationOld.PaginationOpts) returns (r: Result<Field, Error>)
    requires cache.Valid() && m.Valid()
    modifies cache, m
    ensures cache.Valid() && m.Valid()
    ensures opts.outputType.Some? ==> m.associationsCache == old(m.associationsCache) && m.typeCache == old(m.typeCache)
    ensures opts.outputType.None? ==> (m.associationsCache, m.typeCache) == old(m.CachesAfterType())
    ensures var nodeName := opts.outputType.GetOr(m.Name());
      if opts.outputType.None? && old(m.TypeRead()).Fail? then
        r == Failure(old(m.TypeRead()).error) && cache.types == old(cache.types)
      else
        r == Success(PaginationOld.PaginationField(nodeName, m.Name(), opts.args, None)) &&
        cache.types == PaginationOld.PaginationTypes(old(cache.types), nodeName, m.definition, opts.description)
  {
    var nodeName := NodeName(m, opts.outputType);
    if nodeName.Failure? {
      return Failure(nodeName.error);
    }
    RegisterPaginationTypes(cache, nodeName.value, m, opts.description);
    r := Success(PaginationOld.PaginationField(nodeName.value, m.Name(), opts.args, None));
  }

  /** The newer `genModelOffsetPagination(model, opts)`, with a `config` option: the same
      reads and registrations, and the field wrapped as non-null. */
  method GenConfigOffsetPagination(cache: Cache, m: Model, opts: Pagination.ConfigPaginationOpts) returns (r: Result<Field, Error>)
    requires cache.Valid() && m.Valid()
    modifies cache, m
    ensures cache.Valid() && m.Valid()
    ensures opts.outputType.Some? ==> m.associationsCache == old(m.associationsCache) && m.typeCache == old(m.typeCache)
    ensures opts.outputType.None? ==> (m.associationsCache, m.typeCache) == old(m.CachesAfterType())
    ensures var nodeName := opts.outputType.GetOr(m.Name());
      if opts.outputType.None? && old(m.TypeRead()).Fail? then
        r == Failure(old(m.TypeRead()).error) && cache.types == old(cache.types)
      else
        r == Success(Pagination.ConfigPaginationField(nodeName, m.Name(), opts.args)) &&
        cache.types == PaginationOld.PaginationTypes(old(cache.types), nodeName, m.definition, opts.description)
    ensures r.Success? ==> r.value.typ.NonNull?
  {
    var nodeName := NodeName(m, opts.outputType);
    if nodeName.Failure? {
      return Failure(nodeName.error);
    }
    RegisterPaginationTypes(cache, nodeName.value, m, opts.description);
    r := Success(Pagination.ConfigPaginationField(nodeName.value, m.Name(), opts.args));
  }
}
