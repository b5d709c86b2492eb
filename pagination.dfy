/** The offset pagination field with a `config` option (src/schema/model/genModelOffsetPagination.ts):
    a non-null connection, and a resolver that merges the configured `where` and `order` with
    the arguments and runs only the queries the root selection asks for. */
module Pagination {
  import opened Wrappers
  import opened Js
  import opened Records
  import opened Gql
  import opened Store
  import opened Errors
  import opened Filters
  import opened Definitions
  import opened TypeCache
  import opened OrderBy
  import OrderByOld
  import ModelFilters
  import ResolveInfo
  import opened PaginationOld

  /** What a `config` getter returns. */
  datatype Config = Config(
    attributes: Option<seq<string>>,
    includes: Option<seq<Include>>,
    where: Option<Where>,
    order: Option<seq<OrderItem>>)

  /** The `config` option: the source object and the custom arguments give a `Config`. */
  type ConfigGetter = (Row, Record<Value>) -> Config

  datatype ConfigPaginationOpts = ConfigPaginationOpts(
    outputType: Option<string>,
    args: Record<InputField>,
    config: Option<ConfigGetter>,
    description: Option<string>)

  /** The queries a request runs: a `findAll` and a `count`, each only when asked for. */
  datatype Plan = Plan(find: Option<FindOptions>, count: Option<CountOptions>)

  /** The `where` of both queries: an AND of the configured `where`, if any, and the compiled
      filters, if given, in that order. */
  function ConfigWhere(config: Option<Config>, args: PaginationArgs): Result<Where, Error> {
    var fromConfig := if config.Some? && config.value.where.Some? then [config.value.where.value] else [];
    if args.filters.Some? then
      match FiltersWhere(args.filters.value)
      case Success(w) => Success(WhereAnd(fromConfig + [w]))
      case Failure(e) => Failure(e)
    else Success(WhereAnd(fromConfig))
  }

  /** The configured order items, or none. */
  function ConfiguredOrder(config: Option<Config>): seq<OrderItem> {
    if config.Some? && config.value.order.Some? then config.value.order.value else []
  }

  /** The `order` of the `findAll`: the argument's items, converted, then the configured ones. */
  function ConfigOrder(config: Option<Config>, args: PaginationArgs): seq<OrderItem> {
    (if args.order.Some? then OrderItems(args.order).value else []) + ConfiguredOrder(config)
  }

  /** The queries for a `where`, given the root selection. */
  function PlanFor(config: Option<Config>, args: PaginationArgs, where: Where, selected: set<string>): Plan {
    var includes := if config.Some? then config.value.includes else None;
    var attributes := if config.Some? then config.value.attributes else None;
    Plan(
      if "nodes" in selected then Some(FindOptions(attributes, includes, Nullish(args.offset), Nullish(args.limit), Some(ConfigOrder(config, args)), where)) else None,
      if "count" in selected then Some(CountOptions(includes, where)) else None)
  }

  /** The nodes and the count of a plan; a query not run leaves its part `null`. */
  function Execute(table: seq<Row>, plan: Plan): Page {
    Page(
      if plan.find.Some? then Some(FindAll(table, plan.find.value)) else None,
      if plan.count.Some? then Some(Count(table, plan.count.value)) else None)
  }

  /** The config the resolver obtains, if there is a getter. */
  function ConfigOf(getter: Option<ConfigGetter>, source: Row, args: PaginationArgs): Option<Config> {
    if getter.Some? then Some(getter.value(source, args.custom)) else None
  }

  /** The resolver's outcome: filters that do not compile fail first, then an unknown
      fragment in the selection; otherwise the planned queries run. */
  function ConfigResolve(getter: Option<ConfigGetter>, source: Row, args: PaginationArgs, info: ResolveInfo.Info, fuel: nat, table: seq<Row>): Result<Page, Error> {
    var config := ConfigOf(getter, source, args);
    match ConfigWhere(config, args)
    case Failure(e) => Failure(e)
    case Success(where) =>
      match ResolveInfo.Paths(info.fieldNodes, "", 0, info.fragments, 1, fuel)
      case Failure(e) => Failure(e)
      case Success(selected) => Success(Execute(table, PlanFor(config, args, where, selected)))
  }

  /** The resolver: the `where` conditions and the order items are pushed one source at a time,
      then the root selection decides which of the two queries run. */
  method Resolve(getter: Option<ConfigGetter>, source: Row, args: PaginationArgs, info: ResolveInfo.Info, fuel: nat, table: seq<Row>) returns (r: Result<Page, Error>)
    ensures r == ConfigResolve(getter, source, args, info, fuel, table)
  {
    var config := if getter.Some? then Some(getter.value(source, args.custom)) else None;
    assert config == ConfigOf(getter, source, args);
    var whereConditions: seq<Where> := [];
    ghost var fromConfig: seq<Where> := if config.Some? && config.value.where.Some? then [config.value.where.value] else [];
    if config.Some? && config.value.where.Some? {
      whereConditions := whereConditions + [config.value.where.value];
    }
    assert whereConditions == fromConfig;
    if args.filters.Some? {
      var filtersWhere := ResolveFilters(args.filters.value);
      if filtersWhere.Failure? {
        return Failure(filtersWhere.error);
      }
      whereConditions := whereConditions + [filtersWhere.value];
    }
    var where := WhereAnd(whereConditions);
    assert where == ConfigWhere(config, args).value;
    var order: seq<OrderItem> := [];
    if args.order.Some? {
      order := order + OrderItems(args.order).value;
    }
    if config.Some? && config.value.order.Some? {
      order := order + config.value.order.value;
    }
    assert order == ConfigOrder(config, args);
    var selectedFields := ResolveInfo.GetSelectedFieldsRoot(info, fuel);
    if selectedFields.Failure? {
      return Failure(selectedFields.error);
    }
    var includes := if config.Some? then config.value.includes else None;
    var attributes := if config.Some? then config.value.attributes else None;
    var nodes: Option<seq<Row>> := None;
    if "nodes" in selectedFields.value {
      nodes := Some(FindAll(table, FindOptions(attributes, includes, Nullish(args.offset), Nullish(args.limit), Some(order), where)));
    }
    var count: Option<nat> := None;
    if "count" in selectedFields.value {
      count := Some(Count(table, CountOptions(includes, where)));
    }
    assert Execute(table, PlanFor(config, args, where, selectedFields.value)) == Page(nodes, count);
    r := Success(Page(nodes, count));
  }

  /** A row matches the `where` exactly when it satisfies the configured `where` (if any) and
      the filters (if any); with neither, every row matches. */
  lemma ConfigWhereMeaning(config: Option<Config>, args: PaginationArgs, row: Row)
    requires args.filters.Some? ==> FiltersWhere(args.filters.value).Success?
    ensures ConfigWhere(config, args).Success?
    ensures Satisfies(row, ConfigWhere(config, args).value) <==>
      (config.Some? && config.value.where.Some? ==> Satisfies(row, config.value.where.value)) &&
      (args.filters.Some? ==> Satisfies(row, FiltersWhere(args.filters.value).value))
  {
    var parts := ConfigWhere(config, args).value.parts;
    if config.Some? && config.value.where.Some? && args.filters.Some? {
      assert parts == [config.value.where.value, FiltersWhere(args.filters.value).value];
      AndOfTwo(row, config.value.where.value, FiltersWhere(args.filters.value).value);
    } else if config.Some? && config.value.where.Some? {
      assert parts == [config.value.where.value];
      AndOfOne(row, config.value.where.value);
    } else if args.filters.Some? {
      assert parts == [FiltersWhere(args.filters.value).value];
      AndOfOne(row, FiltersWhere(args.filters.value).value);
    }
  }

  /** The order is the argument's items, each `[field, ordering]`, followed by the configured
      items; with neither it is empty. */
  lemma ConfigOrderMeaning(config: Option<Config>, args: PaginationArgs)
    ensures var items := if args.order.Some? then args.order.value else [];
      var order := ConfigOrder(config, args);
      |order| == |items| + |ConfiguredOrder(config)| &&
      (forall i | 0 <= i < |items| :: order[i] == (items[i].field, items[i].ordering)) &&
      order[|items|..] == ConfiguredOrder(config)
  {
  }

  /** The `findAll` runs exactly when `nodes` is selected and the `count` exactly when `count`
      is; the count shares the `where` and `include` of the `findAll` and has no order, offset
      or limit. A `null` offset or limit is left out of the `findAll`. */
  lemma PlanQueries(config: Option<Config>, args: PaginationArgs, where: Where, selected: set<string>)
    ensures var plan := PlanFor(config, args, where, selected);
      (plan.find.Some? <==> "nodes" in selected) &&
      (plan.count.Some? <==> "count" in selected) &&
      (plan.find.Some? ==>
        plan.find.value.where == where && plan.find.value.order == Some(ConfigOrder(config, args)) &&
        (args.offset.Null? || args.offset.Undefined? ==> plan.find.value.offset.None?) &&
        (args.limit.Null? || args.limit.Undefined? ==> plan.find.value.limit.None?)) &&
      (plan.count.Some? ==> plan.count.value.where == where) &&
      (plan.find.Some? && plan.count.Some? ==> plan.count.value.includes == plan.find.value.includes)
  {
  }

  /** Whatever the window of the `findAll`, the count is the number of rows the `where`
      matches; an unselected part is `null`. */
  lemma ResolveParts(getter: Option<ConfigGetter>, source: Row, args: PaginationArgs, info: ResolveInfo.Info, fuel: nat, table: seq<Row>)
    requires ConfigResolve(getter, source, args, info, fuel, table).Success?
    ensures var config := ConfigOf(getter, source, args);
      var where := ConfigWhere(config, args).value;
      var selected := ResolveInfo.Paths(info.fieldNodes, "", 0, info.fragments, 1, fuel).value;
      var page := ConfigResolve(getter, source, args, info, fuel, table).value;
      (page.count.Some? <==> "count" in selected) &&
      (page.nodes.Some? <==> "nodes" in selected) &&
      (page.count.Some? ==> page.count.value == |Matching(table, where)|) &&
      (page.nodes.Some? ==> |page.nodes.value| <= page.count.GetOr(|table|))
  {
    var config := ConfigOf(getter, source, args);
    var where := ConfigWhere(config, args).value;
    var selected := ResolveInfo.Paths(info.fieldNodes, "", 0, info.fragments, 1, fuel).value;
    var plan := PlanFor(config, args, where, selected);
    if plan.find.Some? {
      var q := plan.find.value;
      assert |Window(Matching(table, where), q.offset, q.limit)| <= |Matching(table, where)|;
    }
  }

  /** The connection field of `genModelOffsetPagination`: the non-null connection and the
      pagination arguments. */
  function ConfigPaginationField(nodeName: string, modelName: string, customArgs: Record<InputField>): Field {
    Field(NonNull(Ref(nodeName + "OffsetConnection")), None, Undefined, PaginationArgMap(modelName, customArgs),
      ConfigPaginationResolver(modelName))
  }
}
