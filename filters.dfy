/** The filter compiler (src/definitions/model/columnTypesFilters.ts): the operator tables,
    the `…Filters` input types built from them, and the compilation of a GraphQL `filters`
    argument into a store `where` tree. */
module Filters {
  import opened Wrappers
  import opened Js
  import opened Records
  import opened Gql
  import opened Store
  import opened Errors

  /** One operator key: whether its operand is a list of non-null values of the column type
      (`transformValueType`), the store operator it compiles to, and its description. */
  datatype FilterDefinition = FilterDefinition(takesList: bool, op: Op, description: string)

  const BaseFilterDefinitions: Record<FilterDefinition> := [
    ("eq", FilterDefinition(false, Eq, "Equal")),
    ("ne", FilterDefinition(false, Ne, "Not equal")),
    ("in", FilterDefinition(true, In, "In")),
    ("notIn", FilterDefinition(true, NotIn, "Not in"))]

  const NumericFilterDefinitions: Record<FilterDefinition> := [
    ("lt", FilterDefinition(false, Lt, "Less than")),
    ("lte", FilterDefinition(false, Lte, "Less than or equal")),
    ("gt", FilterDefinition(false, Gt, "Greater than")),
    ("gte", FilterDefinition(false, Gte, "Greater than or equal"))]

  const StringFilterDefinitions: Record<FilterDefinition> := [
    ("contains", FilterDefinition(false, Substring, "Contains substring")),
    ("startsWith", FilterDefinition(false, StartsWith, "Starts with substring")),
    ("endsWith", FilterDefinition(false, EndsWith, "Ends with substring"))]

  /** The three tables side by side; `AllFilterDefinitionsIsSpread` shows this is the
      source's `{ ...Base, ...Numeric, ...String }`. */
  const AllFilterDefinitions: Record<FilterDefinition> :=
    BaseFilterDefinitions + NumericFilterDefinitions + StringFilterDefinitions

  const BaseKeys: seq<string> := ["eq", "ne", "in", "notIn"]
  const NumericKeys: seq<string> := ["lt", "lte", "gt", "gte"]
  const StringKeys: seq<string> := ["contains", "startsWith", "endsWith"]

  lemma TableKeys()
    ensures Keys(BaseFilterDefinitions) == BaseKeys
    ensures Keys(NumericFilterDefinitions) == NumericKeys
    ensures Keys(StringFilterDefinitions) == StringKeys
  {
  }

  /** No operator key is in two tables. */
  lemma TablesDisjoint()
    ensures forall i | 0 <= i < |NumericKeys| :: NumericKeys[i] !in BaseKeys
    ensures forall i | 0 <= i < |StringKeys| :: StringKeys[i] !in BaseKeys
    ensures forall i | 0 <= i < |StringKeys| :: StringKeys[i] !in BaseKeys + NumericKeys
  {
  }

  /** The three tables have disjoint keys, so their spread is their concatenation. */
  lemma BaseNumericFlat()
    ensures Spread(BaseFilterDefinitions, NumericFilterDefinitions) == BaseFilterDefinitions + NumericFilterDefinitions
  {
    TableKeys();
    TablesDisjoint();
    assert forall i | 0 <= i < |NumericFilterDefinitions| :: NumericFilterDefinitions[i].0 == NumericKeys[i];
    SpreadDisjoint(BaseFilterDefinitions, NumericFilterDefinitions);
  }

  lemma BaseStringFlat()
    ensures Spread(BaseFilterDefinitions, StringFilterDefinitions) == BaseFilterDefinitions + StringFilterDefinitions
  {
    TableKeys();
    TablesDisjoint();
    assert forall i | 0 <= i < |StringFilterDefinitions| :: StringFilterDefinitions[i].0 == StringKeys[i];
    SpreadDisjoint(BaseFilterDefinitions, StringFilterDefinitions);
  }

  lemma AllFilterDefinitionsIsSpread()
    ensures AllFilterDefinitions == Spread(Spread(BaseFilterDefinitions, NumericFilterDefinitions), StringFilterDefinitions)
  {
    BaseNumericFlat();
    var bn := BaseFilterDefinitions + NumericFilterDefinitions;
    TableKeys();
    KeysAppend(BaseFilterDefinitions, NumericFilterDefinitions);
    TablesDisjoint();
    assert forall i | 0 <= i < |StringFilterDefinitions| :: StringFilterDefinitions[i].0 == StringKeys[i];
    SpreadDisjoint(bn, StringFilterDefinitions);
  }

  /** Each operator key compiles to its own store operator; `contains` is `Op.substring`,
      and only `in` and `notIn` take a list. */
  lemma OperatorTable()
    ensures Get(AllFilterDefinitions, "eq") == Some(FilterDefinition(false, Eq, "Equal"))
    ensures Get(AllFilterDefinitions, "ne") == Some(FilterDefinition(false, Ne, "Not equal"))
    ensures Get(AllFilterDefinitions, "in") == Some(FilterDefinition(true, In, "In"))
    ensures Get(AllFilterDefinitions, "notIn") == Some(FilterDefinition(true, NotIn, "Not in"))
    ensures Get(AllFilterDefinitions, "lt") == Some(FilterDefinition(false, Lt, "Less than"))
    ensures Get(AllFilterDefinitions, "lte") == Some(FilterDefinition(false, Lte, "Less than or equal"))
    ensures Get(AllFilterDefinitions, "gt") == Some(FilterDefinition(false, Gt, "Greater than"))
    ensures Get(AllFilterDefinitions, "gte") == Some(FilterDefinition(false, Gte, "Greater than or equal"))
    ensures Get(AllFilterDefinitions, "contains") == Some(FilterDefinition(false, Substring, "Contains substring"))
    ensures Get(AllFilterDefinitions, "startsWith") == Some(FilterDefinition(false, StartsWith, "Starts with substring"))
    ensures Get(AllFilterDefinitions, "endsWith") == Some(FilterDefinition(false, EndsWith, "Ends with substring"))
  {
    var all := AllFilterDefinitions;
    GetEntry(all, 0); GetEntry(all, 1); GetEntry(all, 2); GetEntry(all, 3);
    GetEntry(all, 4); GetEntry(all, 5); GetEntry(all, 6); GetEntry(all, 7);
    GetEntry(all, 8); GetEntry(all, 9); GetEntry(all, 10);
  }

  /** `assertFilterKey`: `key in AllFilterDefinitions`, which also holds for the names the
      object inherits from `Object.prototype`. */
  predicate AssertFilterKey(key: string) {
    Has(AllFilterDefinitions, key) || key in InheritedNames
  }

  /** The assertion passes for exactly the eleven operator keys and the inherited names; an
      inherited name is no operator key, so it has no definition of its own. */
  lemma KnownFilterKeys(key: string)
    ensures Has(AllFilterDefinitions, key) <==> key in BaseKeys + NumericKeys + StringKeys
    ensures AssertFilterKey(key) <==> key in BaseKeys + NumericKeys + StringKeys || key in InheritedNames
    ensures key in InheritedNames ==> !Has(AllFilterDefinitions, key)
  {
    AllKeysTable();
    HasIffKey(AllFilterDefinitions, key);
    if key in InheritedNames {
      InheritedNameNoKey(key);
    }
  }

  /** The keys of the whole table, table by table. */
  lemma AllKeysTable()
    ensures Keys(AllFilterDefinitions) == BaseKeys + NumericKeys + StringKeys
  {
    TableKeys();
  }

  /** No inherited name is an operator key. */
  lemma InheritedNameNoKey(key: string)
    requires key in InheritedNames
    ensures key !in BaseKeys + NumericKeys + StringKeys
  {
  }

  /** The error for a key without a definition: the failed assertion, or, for an inherited
      name, the `TypeError` of calling the `resolve` the inherited member does not have. */
  function FilterKeyError(key: string): (e: Error)
    ensures !Has(AllFilterDefinitions, key) ==> (e.UnknownFilterKey? <==> !AssertFilterKey(key))
  {
    if key in InheritedNames then ResolveNotAFunction(key) else UnknownFilterKey(key)
  }

  //////////////////////////////////////////////////////////////////////////
  // makeFiltersType

  /** The operand type of an operator on a column of type `t`. */
  function OperandType(def: FilterDefinition, t: NamedType): TypeRef {
    if def.takesList then NonNullList(Named(t)) else Named(t)
  }

  function FilterField(t: NamedType): (FilterDefinition, string) -> InputField {
    (def: FilterDefinition, _: string) => InputField(OperandType(def, t), Some(def.description))
  }

  /** The operator set of `makeFiltersType(t, extra)`: the base operators, then the extra ones. */
  function FilterSet(filtersDefinition: Option<Record<FilterDefinition>>): Record<FilterDefinition> {
    Spread(BaseFilterDefinitions, filtersDefinition.GetOr([]))
  }

  function MakeFiltersType(t: NamedType, filtersDefinition: Option<Record<FilterDefinition>>): (r: NamedType)
    ensures r.InputObject? && r.name == t.name + "Filters"
  {
    InputObject(t.name + "Filters", None, Mapped(FilterSet(filtersDefinition), FilterField(t)))
  }

  /** A field exists for each base or extra operator (an extra one shadowing a base one), and
      its type is the column type, or a list of non-null values of it for a list operator. */
  lemma MakeFiltersTypeFields(t: NamedType, filtersDefinition: Option<Record<FilterDefinition>>, key: string)
    ensures var fields := MakeFiltersType(t, filtersDefinition).inputFields;
            var def := if filtersDefinition.Some? && Has(filtersDefinition.value, key)
                       then Get(filtersDefinition.value, key) else Get(BaseFilterDefinitions, key);
            Get(fields, key) == if def.Some? then Some(InputField(OperandType(def.value, t), Some(def.value.description))) else None
  {
    var filters := FilterSet(filtersDefinition);
    MappedGet(filters, FilterField(t), key);
    SpreadRecordGet(BaseFilterDefinitions, filtersDefinition.GetOr([]), key);
  }

  /** Without extra list operators, `in` and `notIn` take `[T!]`, a list of non-null values, and `eq` takes `T`. */
  lemma ListOperands(t: NamedType, filtersDefinition: Option<Record<FilterDefinition>>)
    requires filtersDefinition.Some? ==> !Has(filtersDefinition.value, "in") && !Has(filtersDefinition.value, "notIn") && !Has(filtersDefinition.value, "eq")
    ensures Get(MakeFiltersType(t, filtersDefinition).inputFields, "in").Some?
    ensures Get(MakeFiltersType(t, filtersDefinition).inputFields, "in").value.typ == NonNullList(Named(t))
    ensures Get(MakeFiltersType(t, filtersDefinition).inputFields, "notIn").Some?
    ensures Get(MakeFiltersType(t, filtersDefinition).inputFields, "notIn").value.typ == NonNullList(Named(t))
    ensures Get(MakeFiltersType(t, filtersDefinition).inputFields, "eq").Some?
    ensures Get(MakeFiltersType(t, filtersDefinition).inputFields, "eq").value.typ == Named(t)
  {
    MakeFiltersTypeFields(t, filtersDefinition, "in");
    MakeFiltersTypeFields(t, filtersDefinition, "notIn");
    MakeFiltersTypeFields(t, filtersDefinition, "eq");
    GetEntry(BaseFilterDefinitions, 0);
    GetEntry(BaseFilterDefinitions, 2);
    GetEntry(BaseFilterDefinitions, 3);
  }

  const IntFilter := MakeFiltersType(GraphQLInt, Some(NumericFilterDefinitions))
  const FloatFilter := MakeFiltersType(GraphQLFloat, Some(NumericFilterDefinitions))
  const StringFilter := MakeFiltersType(GraphQLString, Some(StringFilterDefinitions))
  const IDFilter := MakeFiltersType(GraphQLID, None)
  const BooleanFilter := MakeFiltersType(GraphQLBoolean, None)

  lemma FilterTypeKeys(t: NamedType, filtersDefinition: Option<Record<FilterDefinition>>)
    ensures Keys(MakeFiltersType(t, filtersDefinition).inputFields) == Keys(FilterSet(filtersDefinition))
  {
    MappedKeys(FilterSet(filtersDefinition), FilterField(t));
  }

  /** ID and Boolean filters have only the base operators. */
  lemma BaseOnlyFilters()
    ensures Keys(IDFilter.inputFields) == BaseKeys
    ensures Keys(BooleanFilter.inputFields) == BaseKeys
  {
    TableKeys();
    FilterTypeKeys(GraphQLID, None);
    FilterTypeKeys(GraphQLBoolean, None);
  }

  lemma NumericSetKeys()
    ensures Keys(FilterSet(Some(NumericFilterDefinitions))) == BaseKeys + NumericKeys
  {
    TableKeys();
    BaseNumericFlat();
    KeysAppend(BaseFilterDefinitions, NumericFilterDefinitions);
  }

  /** Int and Float filters add the four comparisons. */
  lemma NumericFilters()
    ensures Keys(IntFilter.inputFields) == BaseKeys + NumericKeys
    ensures Keys(FloatFilter.inputFields) == BaseKeys + NumericKeys
  {
    NumericSetKeys();
    FilterTypeKeys(GraphQLInt, Some(NumericFilterDefinitions));
    FilterTypeKeys(GraphQLFloat, Some(NumericFilterDefinitions));
  }

  lemma StringSetKeys()
    ensures Keys(FilterSet(Some(StringFilterDefinitions))) == BaseKeys + StringKeys
  {
    TableKeys();
    BaseStringFlat();
    KeysAppend(BaseFilterDefinitions, StringFilterDefinitions);
  }

  /** The String filter adds the three substring operators. */
  lemma StringFilters()
    ensures Keys(StringFilter.inputFields) == BaseKeys + StringKeys
  {
    StringSetKeys();
    FilterTypeKeys(GraphQLString, Some(StringFilterDefinitions));
  }

  //////////////////////////////////////////////////////////////////////////
  // resolveFilter

  /** The conditions `resolveFilter` pushes for the entries of an operator map, in entry
      order, or the error of the first key without a definition. */
  function FilterConditions(entries: seq<(string, Value)>): Result<seq<Cond>, Error>
    decreases |entries|
  {
    if |entries| == 0 then Success([])
    else
      match FilterConditions(entries[..|entries| - 1])
      case Failure(e) => Failure(e)
      case Success(cs) =>
        var (key, value) := entries[|entries| - 1];
        match Get(AllFilterDefinitions, key)
        case None => Failure(FilterKeyError(key))
        case Some(def) => Success(cs + [Cmp(def.op, value)])
  }

  /** What `resolveFilter(filter)` returns: one AND node over the conditions. */
  function FilterCond(filter: Value): Result<Cond, Error> {
    match FilterConditions(ForInEntries(filter))
    case Success(cs) => Success(CondAnd(cs))
    case Failure(e) => Failure(e)
  }

  /** The conditions over one more entry, after a prefix that compiles. */
  lemma FilterConditionsStep(entries: seq<(string, Value)>, i: nat)
    requires i < |entries| && FilterConditions(entries[..i]).Success?
    ensures FilterConditions(entries[..i + 1]) ==
      match Get(AllFilterDefinitions, entries[i].0)
      case None => Failure(FilterKeyError(entries[i].0))
      case Some(def) => Success(FilterConditions(entries[..i]).value + [Cmp(def.op, entries[i].1)])
  {
    assert entries[..i + 1][..i] == entries[..i];
  }

  /** A failure on a prefix is the failure of the whole map. */
  lemma {:induction false} ConditionsFailurePersists(entries: seq<(string, Value)>, n: nat)
    requires n <= |entries|
    requires FilterConditions(entries[..n]).Failure?
    ensures FilterConditions(entries) == FilterConditions(entries[..n])
    decreases |entries|
  {
    if n < |entries| {
      var init := entries[..|entries| - 1];
      assert init[..n] == entries[..n];
      ConditionsFailurePersists(init, n);
    } else {
      assert entries[..n] == entries;
    }
  }

  /** Compilation succeeds iff every key is an operator key. */
  lemma {:induction false} FilterConditionsSucceed(entries: seq<(string, Value)>)
    ensures FilterConditions(entries).Success? <==> forall i | 0 <= i < |entries| :: Has(AllFilterDefinitions, entries[i].0)
    decreases |entries|
  {
    if |entries| > 0 {
      var n := |entries| - 1;
      var init := entries[..n];
      FilterConditionsSucceed(init);
      assert forall i | 0 <= i < n :: init[i] == entries[i];
    }
  }

  /** A successful compilation yields exactly one condition per key, in key order, each
      with the key's operator and the given operand. */
  lemma {:induction false} FilterConditionsSpec(entries: seq<(string, Value)>)
    requires FilterConditions(entries).Success?
    ensures var cs := FilterConditions(entries).value;
      |cs| == |entries| &&
      forall i | 0 <= i < |entries| ::
        Get(AllFilterDefinitions, entries[i].0).Some? &&
        cs[i] == Cmp(Get(AllFilterDefinitions, entries[i].0).value.op, entries[i].1)
    decreases |entries|
  {
    if |entries| > 0 {
      var n := |entries| - 1;
      var init := entries[..n];
      assert FilterConditions(init).Success?;
      FilterConditionsSpec(init);
      assert forall i | 0 <= i < n :: init[i] == entries[i];
    }
  }

  /** A failure names the first key that is not an operator key: the failed assertion, or
      the `TypeError` for an inherited name. */
  lemma {:induction false} FilterConditionsFailure(entries: seq<(string, Value)>)
    requires FilterConditions(entries).Failure?
    ensures exists i | 0 <= i < |entries| ::
      FilterConditions(entries).error == FilterKeyError(entries[i].0) &&
      !Has(AllFilterDefinitions, entries[i].0) &&
      forall j | 0 <= j < i :: Has(AllFilterDefinitions, entries[j].0)
    decreases |entries|
  {
    var init := entries[..|entries| - 1];
    var last := |entries| - 1;
    if FilterConditions(init).Failure? {
      FilterConditionsFailure(init);
      var i :| 0 <= i < |init| && FilterConditions(init).error == FilterKeyError(init[i].0) &&
        !Has(AllFilterDefinitions, init[i].0) && forall j | 0 <= j < i :: Has(AllFilterDefinitions, init[j].0);
      assert forall j | 0 <= j <= i :: init[j] == entries[j];
    } else {
      FilterConditionsSucceed(init);
      assert forall j | 0 <= j < last :: init[j] == entries[j];
      assert FilterConditions(entries).error == FilterKeyError(entries[last].0);
    }
  }

  /** A compiled operator map holds for a cell iff every operator in it holds. */
  lemma FilterCondMeaning(filter: Value, cell: Value)
    requires FilterCond(filter).Success?
    ensures var es := ForInEntries(filter);
            CondHolds(cell, FilterCond(filter).value) <==>
            forall i | 0 <= i < |es| ::
              Get(AllFilterDefinitions, es[i].0).Some? && OpHolds(Get(AllFilterDefinitions, es[i].0).value.op, cell, es[i].1)
  {
    FilterConditionsSpec(ForInEntries(filter));
  }

  /** An empty operator map, or a `null` one, compiles to an AND of nothing, which every
      cell satisfies. */
  lemma EmptyFilter(cell: Value)
    ensures FilterCond(Obj([])) == Success(CondAnd([]))
    ensures FilterCond(Null) == Success(CondAnd([]))
    ensures CondHolds(cell, CondAnd([]))
  {
  }

  method ResolveFilter(filter: Value) returns (r: Result<Cond, Error>)
    ensures r == FilterCond(filter)
  {
    var entries := ForInEntries(filter);
    var conditions: seq<Cond> := [];
    var i := 0;
    while i < |entries|
      invariant 0 <= i <= |entries|
      invariant FilterConditions(entries[..i]) == Success(conditions)
    {
      var (filterKey, value) := entries[i];
      FilterConditionsStep(entries, i);
      if !AssertFilterKey(filterKey) {
        ConditionsFailurePersists(entries, i + 1);
        return Failure(UnknownFilterKey(filterKey));
      }
      var filterDefinition := Get(AllFilterDefinitions, filterKey);
      if filterDefinition.None? {
        ConditionsFailurePersists(entries, i + 1);
        return Failure(ResolveNotAFunction(filterKey));
      }
      conditions := conditions + [Cmp(filterDefinition.value.op, value)];
      i := i + 1;
    }
    assert entries[..i] == entries;
    return Success(CondAnd(conditions));
  }

  //////////////////////////////////////////////////////////////////////////
  // resolveFilters

  /** The conjuncts `resolveFilters` pushes, `{ column: compile(ops) }` per column, or the
      first failure: an `undefined` entry, or an entry whose compilation fails. The
      compilation is a parameter so that the facts below hold for it whatever it is. */
  function CompileParts(entries: seq<(string, Value)>, compile: Value -> Result<Cond, Error>): Result<seq<Where>, Error>
    decreases |entries|
  {
    if |entries| == 0 then Success([])
    else
      match CompileParts(entries[..|entries| - 1], compile)
      case Failure(e) => Failure(e)
      case Success(parts) =>
        var (column, filter) := entries[|entries| - 1];
        if filter.Undefined? then Failure(UndefinedFilter(column))
        else
          match compile(filter)
          case Failure(e) => Failure(e)
          case Success(c) => Success(parts + [AttrCond(column, c)])
  }

  /** The conjuncts of `resolveFilters`, each column's operator map compiled by `resolveFilter`. */
  function FiltersParts(entries: seq<(string, Value)>): Result<seq<Where>, Error> {
    CompileParts(entries, FilterCond)
  }

  /** What `resolveFilters(filters)` returns: one AND node over the column conjuncts. */
  function FiltersWhere(filters: Record<Value>): Result<Where, Error> {
    match FiltersParts(filters)
    case Success(parts) => Success(WhereAnd(parts))
    case Failure(e) => Failure(e)
  }

  lemma {:induction false} PartsFailurePersists(entries: seq<(string, Value)>, n: nat, compile: Value -> Result<Cond, Error>)
    requires n <= |entries|
    requires CompileParts(entries[..n], compile).Failure?
    ensures CompileParts(entries, compile) == CompileParts(entries[..n], compile)
    decreases |entries|
  {
    if n < |entries| {
      var init := entries[..|entries| - 1];
      assert init[..n] == entries[..n];
      PartsFailurePersists(init, n, compile);
    } else {
      assert entries[..n] == entries;
    }
  }

  lemma {:induction false} PartsSucceed(entries: seq<(string, Value)>, compile: Value -> Result<Cond, Error>)
    ensures CompileParts(entries, compile).Success? <==>
      forall i | 0 <= i < |entries| :: !entries[i].1.Undefined? && compile(entries[i].1).Success?
    decreases |entries|
  {
    if |entries| > 0 {
      var init := entries[..|entries| - 1];
      PartsSucceed(init, compile);
      if CompileParts(init, compile).Failure? {
        var i :| 0 <= i < |init| && !(!init[i].1.Undefined? && compile(init[i].1).Success?);
        assert entries[i] == init[i];
      } else {
        forall i | 0 <= i < |init| ensures !entries[i].1.Undefined? && compile(entries[i].1).Success? {
          assert entries[i] == init[i];
        }
      }
    }
  }

  lemma {:induction false} PartsValues(entries: seq<(string, Value)>, compile: Value -> Result<Cond, Error>)
    requires CompileParts(entries, compile).Success?
    ensures var parts := CompileParts(entries, compile).value;
      |parts| == |entries| &&
      forall i | 0 <= i < |entries| ::
        compile(entries[i].1).Success? && parts[i] == AttrCond(entries[i].0, compile(entries[i].1).value)
    decreases |entries|
  {
    if |entries| > 0 {
      var init := entries[..|entries| - 1];
      var prev := CompileParts(init, compile);
      var last := entries[|entries| - 1];
      PartsValues(init, compile);
      var parts := prev.value + [AttrCond(last.0, compile(last.1).value)];
      assert CompileParts(entries, compile).value == parts;
      forall i | 0 <= i < |init|
        ensures compile(entries[i].1).Success? && parts[i] == AttrCond(entries[i].0, compile(entries[i].1).value)
      {
        assert entries[i] == init[i] && parts[i] == prev.value[i];
      }
    }
  }

  /** `resolveFilters` succeeds iff every entry is defined and compiles; it then yields one
      conjunct per column, in column order. */
  lemma FiltersPartsSpec(entries: seq<(string, Value)>)
    ensures FiltersParts(entries).Success? <==>
      forall i | 0 <= i < |entries| :: !entries[i].1.Undefined? && FilterCond(entries[i].1).Success?
    ensures FiltersParts(entries).Success? ==>
      var parts := FiltersParts(entries).value;
      |parts| == |entries| &&
      forall i | 0 <= i < |entries| :: parts[i] == AttrCond(entries[i].0, FilterCond(entries[i].1).value)
  {
    PartsSucceed(entries, FilterCond);
    if FiltersParts(entries).Success? {
      PartsValues(entries, FilterCond);
    }
  }

  /** A row satisfies the compiled filters iff each column's value satisfies that column's
      compiled operator map. */
  lemma FiltersMeaning(filters: Record<Value>, row: Row)
    requires FiltersWhere(filters).Success?
    ensures Satisfies(row, FiltersWhere(filters).value) <==>
      forall i | 0 <= i < |filters| ::
        FilterCond(filters[i].1).Success? && CondHolds(Cell(row, filters[i].0), FilterCond(filters[i].1).value)
  {
    FiltersPartsSpec(filters);
  }

  /** No filters compile to an AND of nothing, which matches every row. */
  lemma NoFilters(row: Row)
    ensures FiltersWhere([]) == Success(WhereAnd([]))
    ensures Satisfies(row, WhereAnd([]))
  {
  }

  method ResolveFilters(filters: Record<Value>) returns (r: Result<Where, Error>)
    ensures r == FiltersWhere(filters)
  {
    var conditions: seq<Where> := [];
    var i := 0;
    while i < |filters|
      invariant 0 <= i <= |filters|
      invariant FiltersParts(filters[..i]) == Success(conditions)
    {
      var (fieldName, filter) := filters[i];
      assert filters[..i + 1][..i] == filters[..i];
      if filter.Undefined? {
        PartsFailurePersists(filters, i + 1, FilterCond);
        return Failure(UndefinedFilter(fieldName));
      }
      var resolvedFilter := ResolveFilter(filter);
      if resolvedFilter.Failure? {
        PartsFailurePersists(filters, i + 1, FilterCond);
        return Failure(resolvedFilter.error);
      }
      conditions := conditions + [AttrCond(fieldName, resolvedFilter.value)];
      i := i + 1;
    }
    assert filters[..i] == filters;
    return Success(WhereAnd(conditions));
  }
}
