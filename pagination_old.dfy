/** The older offset pagination field (src/schema/genModelOffsetPagination.ts), the one the
    library's schema index exports and has-many associations use: its connection type, its
    arguments and its resolver, which issues one `findAndCountAll`. */
module PaginationOld {
  import opened Wrappers
  import opened Js
  import opened Records
  import opened Gql
  import opened Store
  import opened Errors
  import opened Filters
  import opened Definitions
  import opened TypeCache
  import opened OrderBy
  import OrderByOld
  import ModelFilters

  /** A `where` option: the store predicate for a source object and the custom arguments. */
  type WhereGetter = (Row, Record<Value>) -> Where

  datatype PaginationOpts = PaginationOpts(
    outputType: Option<string>,
    args: Record<InputField>,
    where: Option<WhereGetter>,
    description: Option<string>)

  /** The arguments a query passes, before destructuring: `offset` and `limit` may be a number,
      `null` or absent, `order` a list or absent, `filters` an object or absent; `custom` holds
      every other argument. */
  datatype PaginationArgs = PaginationArgs(
    offset: Value,
    limit: Value,
    order: Option<seq<GenericOrderBy>>,
    filters: Option<Record<Value>>,
    custom: Record<Value>)

  /** The resolver's result: the nodes and the count, `null` where not computed. */
  datatype Page = Page(nodes: Option<seq<Row>>, count: Option<nat>)

  /** `x ?? undefined` on a number argument. */
  function Nullish(v: Value): (r: Option<int>)
    ensures r.Some? <==> v.Num?
  {
    if v.Num? then Some(v.n) else None
  }

  const ReservedArgs: seq<string> := ["offset", "limit", "order", "filters"]

  /** The connection type `…OffsetConnection` over the node type of the given name. */
  function OffsetConnection(nodeName: string, description: Option<string>): (t: NamedType)
    ensures t.ObjectType? && t.name == nodeName + "OffsetConnection"
  {
    ObjectType(nodeName + "OffsetConnection", description, [
      ("nodes", TypeOnly(NonNullList(Ref(nodeName)))),
      ("count", TypeOnly(NonNull(Named(GraphQLInt))))])
  }

  /** The arguments of a pagination field: the custom arguments with the reserved ones spread
      over them. The order-by and filter inputs are the ones registered under the model's
      names. */
  function PaginationArgMap(modelName: string, customArgs: Record<InputField>): Record<InputField> {
    Spread(customArgs, [
      ("offset", InputField(Named(GraphQLInt), None)),
      ("limit", InputField(Named(GraphQLInt), None)),
      ("order", InputField(NonNullList(Ref(modelName + "OrderBy")), None)),
      ("filters", InputField(Ref(modelName + "Filters"), None))])
  }

  /** The reserved arguments override custom arguments of the same name; every other custom
      argument stays. */
  lemma PaginationArgMapGet(modelName: string, customArgs: Record<InputField>, k: string)
    ensures Get(PaginationArgMap(modelName, customArgs), k) ==
      if k == "offset" || k == "limit" then Some(InputField(Named(GraphQLInt), None))
      else if k == "order" then Some(InputField(NonNullList(Ref(modelName + "OrderBy")), None))
      else if k == "filters" then Some(InputField(Ref(modelName + "Filters"), None))
      else Get(customArgs, k)
  {
    var reserved := [
        ("offset", InputField(Named(GraphQLInt), None)),
        ("limit", InputField(Named(GraphQLInt), None)),
        ("order", InputField(NonNullList(Ref(modelName + "OrderBy")), None)),
        ("filters", InputField(Ref(modelName + "Filters"), None))];
    SpreadGet(customArgs, reserved, k);
    var r3, r2, r1 := reserved[..3], reserved[..2], reserved[..1];
    assert r3[..2] == r2 && r2[..1] == r1 && r1[..0] == [];
    assert LastValue(r1, k) == if k == "offset" then Some(reserved[0].1) else None;
    assert LastValue(r2, k) == if k == "offset" || k == "limit" then Some(reserved[0].1) else None;
    assert LastValue(r3, k) == if k == "offset" || k == "limit" then Some(reserved[0].1)
      else if k == "order" then Some(reserved[2].1) else None;
  }

  /** The pagination field of a model: the connection type, not wrapped as non-null, the
      pagination arguments and the pagination resolver, without a description. */
  function PaginationField(nodeName: string, modelName: string, customArgs: Record<InputField>, whereFrom: Option<string>): Field {
    Field(Ref(nodeName + "OffsetConnection"), None, Undefined, PaginationArgMap(modelName, customArgs),
      PaginationResolver(modelName, whereFrom))
  }

  /** `makeOffsetConnection(nodeType, { description })`, through the type cache. */
  method MakeOffsetConnection(cache: Cache, nodeName: string, description: Option<string>) returns (t: NamedType)
    requires cache.Valid()
    modifies cache
    ensures cache.Valid()
    ensures cache.types == Registered(old(cache.types), OffsetConnection(nodeName, description))
    ensures t == Lookup(old(cache.types), OffsetConnection(nodeName, description))
    ensures t.name == nodeName + "OffsetConnection"
  {
    t := cache.CacheType(OffsetConnection(nodeName, description));
  }

  /** The type cache after a pagination field is built: the connection, then the fields enum
      and the order-by input over the enum as cached, then the filter input, each registered
      first-wins. */
  function PaginationTypes(types: map<string, NamedType>, nodeName: string, d: ModelDefinition, description: Option<string>): map<string, NamedType> {
    var afterConnection := Registered(types, OffsetConnection(nodeName, description));
    var afterEnum := Registered(afterConnection, OrderByOld.FieldsEnum(d));
    var afterOrderBy := Registered(afterEnum, OrderByType(d.name, Lookup(afterConnection, OrderByOld.FieldsEnum(d))));
    Registered(afterOrderBy, ModelFilters.ModelFiltersType(d))
  }

  /** The names a pagination field over `nodeName` and a model named `modelName` registers. */
  function PaginationNames(nodeName: string, modelName: string): set<string> {
    {nodeName + "OffsetConnection", modelName + "Fields", modelName + "OrderBy", modelName + "Filters"}
  }

  /** Building a pagination field registers exactly the connection, the fields enum, the
      order-by input and the filter input by name, and leaves every other entry alone. */
  lemma PaginationTypesKeys(types: map<string, NamedType>, nodeName: string, d: ModelDefinition, description: Option<string>)
    ensures PaginationTypes(types, nodeName, d, description).Keys ==
      types.Keys + PaginationNames(nodeName, d.name)
    ensures forall n | n in types :: PaginationTypes(types, nodeName, d, description)[n] == types[n]
  {
    var afterConnection := Registered(types, OffsetConnection(nodeName, description));
    var afterEnum := Registered(afterConnection, OrderByOld.FieldsEnum(d));
    var orderBy := OrderByType(d.name, Lookup(afterConnection, OrderByOld.FieldsEnum(d)));
    var afterOrderBy := Registered(afterEnum, orderBy);
    OnlyGrows(types, OffsetConnection(nodeName, description));
    OnlyGrows(afterConnection, OrderByOld.FieldsEnum(d));
    OnlyGrows(afterEnum, orderBy);
    OnlyGrows(afterOrderBy, ModelFilters.ModelFiltersType(d));
  }

  /** The `where` of the query: an AND of the getter's predicate, if there is a getter, and the
      compiled filters, if given, in that order. */
  function PaginationWhere(getter: Option<WhereGetter>, source: Row, args: PaginationArgs): Result<Where, Error> {
    var fromGetter := if getter.Some? then [getter.value(source, args.custom)] else [];
    if args.filters.Some? then
      match FiltersWhere(args.filters.value)
      case Success(w) => Success(WhereAnd(fromGetter + [w]))
      case Failure(e) => Failure(e)
    else Success(WhereAnd(fromGetter))
  }

  /** `order?.map(convertOrderByToSequelizeOrderItem)`. */
  function OrderItems(order: Option<seq<GenericOrderBy>>): Option<seq<OrderItem>> {
    if order.Some? then Some(seq(|order.value|, i requires 0 <= i < |order.value| => ConvertOrderBy(order.value[i]))) else None
  }

  /** The single `findAndCountAll` query the resolver issues. */
  function PaginationQuery(getter: Option<WhereGetter>, source: Row, args: PaginationArgs): Result<FindOptions, Error> {
    match PaginationWhere(getter, source, args)
    case Success(w) =>
      Success(FindOptions(None, None, Nullish(args.offset), Nullish(args.limit),
        OrderItems(args.order),
        w))
    case Failure(e) => Failure(e)
  }

  /** A row matches the query's `where` exactly when it satisfies the getter's predicate (if
      any) and the filters (if any); with neither, every row matches. */
  lemma PaginationWhereMeaning(getter: Option<WhereGetter>, source: Row, args: PaginationArgs, row: Row)
    requires args.filters.Some? ==> FiltersWhere(args.filters.value).Success?
    ensures PaginationWhere(getter, source, args).Success?
    ensures Satisfies(row, PaginationWhere(getter, source, args).value) <==>
      (getter.Some? ==> Satisfies(row, getter.value(source, args.custom))) &&
      (args.filters.Some? ==> Satisfies(row, FiltersWhere(args.filters.value).value))
  {
    var parts := PaginationWhere(getter, source, args).value.parts;
    if getter.Some? && args.filters.Some? {
      assert parts == [getter.value(source, args.custom), FiltersWhere(args.filters.value).value];
      AndOfTwo(row, getter.value(source, args.custom), FiltersWhere(args.filters.value).value);
    } else if getter.Some? {
      assert parts == [getter.value(source, args.custom)];
      AndOfOne(row, getter.value(source, args.custom));
    } else if args.filters.Some? {
      assert parts == [FiltersWhere(args.filters.value).value];
      AndOfOne(row, FiltersWhere(args.filters.value).value);
    }
  }

  /** Filters that do not compile fail the resolver with the compiler's error. */
  lemma PaginationFiltersFail(getter: Option<WhereGetter>, source: Row, args: PaginationArgs)
    requires args.filters.Some? && FiltersWhere(args.filters.value).Failure?
    ensures PaginationQuery(getter, source, args) == Failure(FiltersWhere(args.filters.value).error)
  {
  }

  /** A `null` or absent offset or limit reaches the store as absent; `order` is the argument
      list, item by item, or absent when none is given. */
  lemma PaginationQueryOptions(getter: Option<WhereGetter>, source: Row, args: PaginationArgs)
    requires PaginationQuery(getter, source, args).Success?
    ensures var q := PaginationQuery(getter, source, args).value;
      (args.offset.Null? || args.offset.Undefined? ==> q.offset.None?) &&
      (args.limit.Null? || args.limit.Undefined? ==> q.limit.None?) &&
      (args.order.None? ==> q.order.None?) &&
      (args.order.Some? ==>
        q.order.Some? && |q.order.value| == |args.order.value| &&
        forall i | 0 <= i < |args.order.value| ::
          q.order.value[i] == (args.order.value[i].field, args.order.value[i].ordering))
  {
  }

  /** The resolver: the `where` conditions pushed one by one, then one `findAndCountAll`; both
      the nodes and the count are always returned. */
  method Resolve(getter: Option<WhereGetter>, source: Row, args: PaginationArgs, table: seq<Row>) returns (r: Result<Page, Error>)
    ensures PaginationQuery(getter, source, args).Failure? ==> r == Failure(PaginationQuery(getter, source, args).error)
    ensures PaginationQuery(getter, source, args).Success? ==>
      var (nodes, count) := FindAndCountAll(table, PaginationQuery(getter, source, args).value);
      r == Success(Page(Some(nodes), Some(count)))
  {
    var whereConditions: seq<Where> := [];
    ghost var fromGetter: seq<Where> := if getter.Some? then [getter.value(source, args.custom)] else [];
    if getter.Some? {
      whereConditions := whereConditions + [getter.value(source, args.custom)];
    }
    assert whereConditions == fromGetter;
    if args.filters.Some? {
      var filtersWhere := ResolveFilters(args.filters.value);
      if filtersWhere.Failure? {
        return Failure(filtersWhere.error);
      }
      whereConditions := whereConditions + [filtersWhere.value];
    }
    var order := OrderItems(args.order);
    var query := FindOptions(None, None, Nullish(args.offset), Nullish(args.limit), order, WhereAnd(whereConditions));
    assert PaginationQuery(getter, source, args) == Success(query);
    var (nodes, count) := FindAndCountAll(table, query);
    r := Success(Page(Some(nodes), Some(count)));
  }

  /** The count is the number of matching rows, whatever the window, and without a window the
      nodes are all of them. */
  lemma ResolveCount(getter: Option<WhereGetter>, source: Row, args: PaginationArgs, table: seq<Row>)
    requires PaginationQuery(getter, source, args).Success?
    ensures var q := PaginationQuery(getter, source, args).value;
      FindAndCountAll(table, q).1 == |Matching(table, q.where)|
    ensures var q := PaginationQuery(getter, source, args).value;
      !args.offset.Num? && !args.limit.Num? ==> FindAndCountAll(table, q).0 == Matching(table, q.where)
  {
    var q := PaginationQuery(getter, source, args).value;
    assert q.offset == Nullish(args.offset) && q.limit == Nullish(args.limit);
    if !args.offset.Num? && !args.limit.Num? {
      assert q.offset.None? && q.limit.None?;
      assert FindAll(table, q) == Window(Matching(table, q.where), None, None);
      assert FindAndCountAll(table, q).0 == FindAll(table, q);
    }
  }
}
