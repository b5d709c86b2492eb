/** Exposing a model in a schema (src/schema/model/exposeModel.ts): each enabled option
    names a query field, `findById`, `findByIds` or a pagination over the model. */
module Expose {
  import opened Wrappers
  import opened Js
  import opened Records
  import opened Gql
  import opened Store
  import opened Errors
  import opened Definitions
  import opened PaginationOld
  import opened ModelLoaders
  import opened Models
  import TypeCache
  import ModelPagination

  /** An option's value: the name of the exposed field, or `false` to disable it. */
  datatype ExposeField = Exposed(name: string) | Disabled

  predicate SupportedExposition(exposeField: string) {
    exposeField == "findById" || exposeField == "findByIds" || exposeField == "pagination"
  }

  /** `genModelFindById(model)`: the non-null model type, by a non-null `id` of the id type. */
  function FindByIdField(m: Model): Field {
    Field(NonNull(Ref(m.Name())), None, Undefined, [("id", InputField(NonNull(Named(m.IdType().gqlType)), None))],
      FindByIdResolver(m.Name()))
  }

  /** `genModelFindByIds(model)`: a non-null list of non-null values of the model type, by a
      non-null list of non-null ids. */
  function FindByIdsField(m: Model): Field {
    Field(NonNull(NonNullList(Ref(m.Name()))), None, Undefined,
      [("ids", InputField(NonNull(NonNullList(Named(m.IdType().gqlType))), None))], FindByIdsResolver(m.Name()))
  }

  /** `genExposition(model, exposeField)`, given how reading the model's `type` goes: an
      unsupported option throws before anything is read; the three supported ones read the
      type, and a failing read is their error. The pagination is the field the older
      `genModelOffsetPagination(model)` returns with no options. */
  function Exposition(m: Model, typeRead: Outcome<Error>, exposeField: string): (r: Result<Field, Error>)
    ensures r.Failure? <==> !SupportedExposition(exposeField) || typeRead.Fail?
    ensures r.Failure? && !SupportedExposition(exposeField) ==> r.error == UnsupportedExposeField(exposeField)
    ensures r.Failure? && SupportedExposition(exposeField) ==> r.error == typeRead.error
  {
    if !SupportedExposition(exposeField) then Failure(UnsupportedExposeField(exposeField))
    else if typeRead.Fail? then Failure(typeRead.error)
    else if exposeField == "findById" then Success(FindByIdField(m))
    else if exposeField == "findByIds" then Success(FindByIdsField(m))
    else Success(PaginationField(m.Name(), m.Name(), [], None))
  }

  /** One step of the reduction: a disabled option leaves the map alone, an enabled one sets
      its field under the given name; the first error stops the reduction. */
  function ExposeStep(m: Model, typeRead: Outcome<Error>): (Result<Record<Field>, Error>, ExposeField, string) -> Result<Record<Field>, Error> {
    (config: Result<Record<Field>, Error>, exposition: ExposeField, exposeField: string) =>
      if config.Failure? || exposition.Disabled? then config
      else
        match Exposition(m, typeRead, exposeField)
        case Failure(e) => Failure(e)
        case Success(f) => Success(Put(config.value, exposition.name, f))
  }

  /** `exposeModel(model, opts)`, given how the first read of the model's `type` goes. One
      outcome serves every option: a failing first read stops the reduction, and after a
      successful one the type is cached, so every later read succeeds. */
  function Expositions(m: Model, typeRead: Outcome<Error>, opts: seq<(string, ExposeField)>): Result<Record<Field>, Error> {
    Folded<ExposeField, Result<Record<Field>, Error>>(opts, ExposeStep(m, typeRead), Success([]))
  }

  /** The option key of the last enabled option that names `name`. */
  function LastExposing(opts: seq<(string, ExposeField)>, name: string): Option<string>
    decreases |opts|
  {
    if |opts| == 0 then None
    else if opts[|opts| - 1].1 == Exposed(name) then Some(opts[|opts| - 1].0)
    else LastExposing(opts[..|opts| - 1], name)
  }

  /** Every enabled option is one of the three supported ones. */
  predicate EnabledSupported(opts: seq<(string, ExposeField)>) {
    forall i | 0 <= i < |opts| :: opts[i].1.Exposed? ==> SupportedExposition(opts[i].0)
  }

  /** Every option is disabled. */
  predicate NoneEnabled(opts: seq<(string, ExposeField)>) {
    forall i | 0 <= i < |opts| :: opts[i].1.Disabled?
  }

  /** The reduction reads the model's `type`: some enabled supported option comes before
      any enabled unsupported one. */
  predicate ReadsType(opts: seq<(string, ExposeField)>)
    decreases |opts|
  {
    |opts| > 0 &&
    (ReadsType(opts[..|opts| - 1]) ||
     (EnabledSupported(opts[..|opts| - 1]) && opts[|opts| - 1].1.Exposed? && SupportedExposition(opts[|opts| - 1].0)))
  }

  /** Some option is enabled with nothing enabled before it. */
  lemma {:induction false} FirstEnabledExists(opts: seq<(string, ExposeField)>)
    requires !NoneEnabled(opts)
    ensures exists i | 0 <= i < |opts| :: opts[i].1.Exposed? && NoneEnabled(opts[..i])
    decreases |opts|
  {
    var init := opts[..|opts| - 1];
    if NoneEnabled(init) {
      assert opts[..|opts| - 1] == init;
    } else {
      FirstEnabledExists(init);
      var i :| 0 <= i < |init| && init[i].1.Exposed? && NoneEnabled(init[..i]);
      assert opts[i] == init[i] && opts[..i] == init[..i];
    }
  }

  /** The type is read exactly when the first enabled option is a supported one. */
  lemma {:induction false} ReadsTypeMeaning(opts: seq<(string, ExposeField)>)
    ensures ReadsType(opts) <==>
      exists i | 0 <= i < |opts| :: opts[i].1.Exposed? && SupportedExposition(opts[i].0) && NoneEnabled(opts[..i])
    decreases |opts|
  {
    if |opts| > 0 {
      var init := opts[..|opts| - 1];
      var last := |opts| - 1;
      ReadsTypeMeaning(init);
      if ReadsType(opts) {
        if ReadsType(init) {
          var i :| 0 <= i < |init| && init[i].1.Exposed? && SupportedExposition(init[i].0) && NoneEnabled(init[..i]);
          assert opts[i] == init[i] && opts[..i] == init[..i];
        } else {
          if !NoneEnabled(init) {
            FirstEnabledExists(init);
          }
          assert opts[..last] == init;
        }
      }
      if exists i | 0 <= i < |opts| :: opts[i].1.Exposed? && SupportedExposition(opts[i].0) && NoneEnabled(opts[..i]) {
        var i :| 0 <= i < |opts| && opts[i].1.Exposed? && SupportedExposition(opts[i].0) && NoneEnabled(opts[..i]);
        if i < last {
          assert init[i] == opts[i] && init[..i] == opts[..i];
        } else {
          assert opts[..i] == init;
          assert EnabledSupported(init);
        }
      }
    }
  }

  /** The reduction over one more option takes one more step. */
  lemma ExpositionsStep(m: Model, typeRead: Outcome<Error>, opts: seq<(string, ExposeField)>, i: int)
    requires 0 <= i < |opts|
    ensures var prev := Expositions(m, typeRead, opts[..i]);
      var e := Exposition(m, typeRead, opts[i].0);
      Expositions(m, typeRead, opts[..i + 1]) ==
        if prev.Failure? || opts[i].1.Disabled? then prev
        else if e.Failure? then Failure(e.error)
        else Success(Put(prev.value, opts[i].1.name, e.value))
  {
    var s := opts[..i + 1];
    assert s[..i] == opts[..i] && s[i] == opts[i];
  }

  /** So do the registrations. */
  lemma ExposeTypesStep(types: map<string, NamedType>, m: Model, typeRead: Outcome<Error>, opts: seq<(string, ExposeField)>, i: int)
    requires 0 <= i < |opts|
    ensures ExposeTypes(types, m, typeRead, opts[..i + 1]) ==
      if Expositions(m, typeRead, opts[..i]).Failure? || opts[i].1.Disabled? then ExposeTypes(types, m, typeRead, opts[..i])
      else ExpositionTypes(ExposeTypes(types, m, typeRead, opts[..i]), m, typeRead, opts[i].0)
  {
    var s := opts[..i + 1];
    assert s[..i] == opts[..i] && s[i] == opts[i];
  }

  /** The option predicates over one more option. */
  lemma OptionsStep(opts: seq<(string, ExposeField)>, i: int)
    requires 0 <= i < |opts|
    ensures ReadsType(opts[..i + 1]) ==
      (ReadsType(opts[..i]) || (EnabledSupported(opts[..i]) && opts[i].1.Exposed? && SupportedExposition(opts[i].0)))
    ensures EnabledSupported(opts[..i + 1]) ==
      (EnabledSupported(opts[..i]) && (opts[i].1.Exposed? ==> SupportedExposition(opts[i].0)))
    ensures NoneEnabled(opts[..i + 1]) == (NoneEnabled(opts[..i]) && opts[i].1.Disabled?)
  {
    var s := opts[..i + 1];
    assert s[..i] == opts[..i] && s[i] == opts[i];
    assert forall j | 0 <= j < i :: s[j] == opts[..i][j];
  }

  /** With supported options and a type that reads, the result has a field for exactly the
      names of the enabled options; when two options give the same name, the later one's
      field is kept. */
  lemma {:induction false} ExposeModelGet(m: Model, typeRead: Outcome<Error>, opts: seq<(string, ExposeField)>, name: string)
    requires EnabledSupported(opts) && typeRead.Pass?
    ensures Expositions(m, typeRead, opts).Success?
    ensures LastExposing(opts, name).None? ==> Get(Expositions(m, typeRead, opts).value, name).None?
    ensures LastExposing(opts, name).Some? ==>
      Exposition(m, typeRead, LastExposing(opts, name).value).Success? &&
      Get(Expositions(m, typeRead, opts).value, name) == Some(Exposition(m, typeRead, LastExposing(opts, name).value).value)
    decreases |opts|
  {
    if |opts| > 0 {
      var init := opts[..|opts| - 1];
      assert EnabledSupported(init) by {
        forall i | 0 <= i < |init| ensures init[i].1.Exposed? ==> SupportedExposition(init[i].0) {
          assert init[i] == opts[i];
        }
      }
      ExposeModelGet(m, typeRead, init, name);
      assert opts[|opts| - 1].1.Exposed? ==> SupportedExposition(opts[|opts| - 1].0);
    }
  }

  /** The reduction fails exactly when an enabled option is unsupported, or when some option
      is enabled and the type does not read. The error is that of the first enabled option
      that fails: every enabled option before it is supported, and when the type does not
      read, none is enabled before it. A disabled option is never looked at. */
  lemma {:induction false} ExposeModelFails(m: Model, typeRead: Outcome<Error>, opts: seq<(string, ExposeField)>)
    ensures Expositions(m, typeRead, opts).Failure? <==>
      !EnabledSupported(opts) || (typeRead.Fail? && !NoneEnabled(opts))
    ensures Expositions(m, typeRead, opts).Failure? ==>
      exists i | 0 <= i < |opts| ::
        opts[i].1.Exposed? && Exposition(m, typeRead, opts[i].0).Failure? &&
        Expositions(m, typeRead, opts).error == Exposition(m, typeRead, opts[i].0).error &&
        EnabledSupported(opts[..i]) && (typeRead.Fail? ==> NoneEnabled(opts[..i]))
    decreases |opts|
  {
    if |opts| > 0 {
      var last := |opts| - 1;
      var init := opts[..last];
      ExpositionsStep(m, typeRead, opts, last);
      OptionsStep(opts, last);
      assert opts[..last + 1] == opts;
      ExposeModelFails(m, typeRead, init);
      if Expositions(m, typeRead, init).Failure? {
        var i :| 0 <= i < |init| &&
          init[i].1.Exposed? && Exposition(m, typeRead, init[i].0).Failure? &&
          Expositions(m, typeRead, init).error == Exposition(m, typeRead, init[i].0).error &&
          EnabledSupported(init[..i]) && (typeRead.Fail? ==> NoneEnabled(init[..i]));
        assert opts[i] == init[i] && opts[..i] == init[..i];
      }
    }
  }

  /** The types one exposition registers: a pagination whose type read succeeds registers
      the older pagination's types over the model. */
  function ExpositionTypes(types: map<string, NamedType>, m: Model, typeRead: Outcome<Error>, exposeField: string): map<string, NamedType> {
    if exposeField == "pagination" && typeRead.Pass? then PaginationTypes(types, m.Name(), m.definition, None)
    else types
  }

  /** The types the whole reduction registers, option by option, until the first error. */
  function ExposeTypes(types: map<string, NamedType>, m: Model, typeRead: Outcome<Error>, opts: seq<(string, ExposeField)>): map<string, NamedType>
    decreases |opts|
  {
    if |opts| == 0 then types
    else
      var init := opts[..|opts| - 1];
      var prev := ExposeTypes(types, m, typeRead, init);
      if Expositions(m, typeRead, init).Failure? || opts[|opts| - 1].1.Disabled? then prev
      else ExpositionTypes(prev, m, typeRead, opts[|opts| - 1].0)
  }

  /** One exposition only adds types: a pagination whose type reads adds the model's
      pagination types, and every type already cached keeps its entry. */
  lemma ExpositionTypesKeys(types: map<string, NamedType>, m: Model, typeRead: Outcome<Error>, exposeField: string)
    ensures ExpositionTypes(types, m, typeRead, exposeField).Keys ==
      if exposeField == "pagination" && typeRead.Pass? then types.Keys + PaginationNames(m.Name(), m.Name()) else types.Keys
    ensures forall n | n in types :: ExpositionTypes(types, m, typeRead, exposeField)[n] == types[n]
  {
    PaginationTypesKeys(types, m.Name(), m.definition, None);
  }

  /** Exposing only adds types: every type already cached keeps its entry. */
  lemma {:induction false} ExposeTypesOnlyGrows(types: map<string, NamedType>, m: Model, typeRead: Outcome<Error>, opts: seq<(string, ExposeField)>)
    ensures types.Keys <= ExposeTypes(types, m, typeRead, opts).Keys
    ensures forall n | n in types :: ExposeTypes(types, m, typeRead, opts)[n] == types[n]
    decreases |opts|
  {
    if |opts| > 0 {
      var last := |opts| - 1;
      var init := opts[..last];
      ExposeTypesOnlyGrows(types, m, typeRead, init);
      ExpositionTypesKeys(ExposeTypes(types, m, typeRead, init), m, typeRead, opts[last].0);
    }
  }

  /** When the reduction succeeds with a pagination enabled, the connection, the fields
      enum, the order-by input and the filter input of the model are cached. */
  lemma {:induction false} ExposeTypesPagination(types: map<string, NamedType>, m: Model, typeRead: Outcome<Error>, opts: seq<(string, ExposeField)>, i: int)
    requires 0 <= i < |opts| && opts[i].0 == "pagination" && opts[i].1.Exposed?
    requires Expositions(m, typeRead, opts).Success?
    ensures PaginationNames(m.Name(), m.Name()) <= ExposeTypes(types, m, typeRead, opts).Keys
    decreases |opts|
  {
    var last := |opts| - 1;
    var init := opts[..last];
    assert opts[..last + 1] == opts;
    ExpositionsSuccessStep(m, typeRead, opts, last);
    ExposeTypesGrowStep(types, m, typeRead, opts, last);
    if i < last {
      assert init[i] == opts[i];
      ExposeTypesPagination(types, m, typeRead, init, i);
    }
  }

  /** A reduction that succeeds over one more option succeeded before it, and that option's
      exposition, when enabled, succeeds. */
  lemma ExpositionsSuccessStep(m: Model, typeRead: Outcome<Error>, opts: seq<(string, ExposeField)>, i: int)
    requires 0 <= i < |opts|
    ensures Expositions(m, typeRead, opts[..i + 1]).Success? ==>
      Expositions(m, typeRead, opts[..i]).Success? && (opts[i].1.Exposed? ==> Exposition(m, typeRead, opts[i].0).Success?)
  {
    ExpositionsStep(m, typeRead, opts, i);
  }

  /** The registrations over one more option keep every name, and an enabled pagination
      reached without an error adds the model's pagination types. */
  lemma ExposeTypesGrowStep(types: map<string, NamedType>, m: Model, typeRead: Outcome<Error>, opts: seq<(string, ExposeField)>, i: int)
    requires 0 <= i < |opts|
    ensures ExposeTypes(types, m, typeRead, opts[..i]).Keys <= ExposeTypes(types, m, typeRead, opts[..i + 1]).Keys
    ensures Expositions(m, typeRead, opts[..i]).Success? && opts[i].1.Exposed? && opts[i].0 == "pagination" && typeRead.Pass? ==>
      PaginationNames(m.Name(), m.Name()) <= ExposeTypes(types, m, typeRead, opts[..i + 1]).Keys
  {
    ExposeTypesStep(types, m, typeRead, opts, i);
    ExpositionTypesKeys(ExposeTypes(types, m, typeRead, opts[..i]), m, typeRead, opts[i].0);
  }

  /** `genModelFindById(model)` or `genModelFindByIds(model)` on the model object: both read
      the model's `type` first. */
  method GenFindField(m: Model, exposeField: string) returns (r: Result<Field, Error>)
    requires m.Valid() && (exposeField == "findById" || exposeField == "findByIds")
    modifies m
    ensures m.Valid()
    ensures r == Exposition(m, old(m.TypeRead()), exposeField)
    ensures (m.associationsCache, m.typeCache) == old(m.CachesAfterType())
  {
    var nodeType := m.Type();
    if nodeType.Failure? {
      return Failure(nodeType.error);
    }
    r := Success(if exposeField == "findById" then FindByIdField(m) else FindByIdsField(m));
  }

  /** `genExposition(model, exposeField)` on the model object and the type cache: the field
      is the specified one; the model's caches change exactly when a supported option reads
      its `type`, and only a pagination registers types. */
  method GenExposition(cache: TypeCache.Cache, m: Model, exposeField: string) returns (r: Result<Field, Error>)
    requires cache.Valid() && m.Valid()
    modifies cache, m
    ensures cache.Valid() && m.Valid()
    ensures r == Exposition(m, old(m.TypeRead()), exposeField)
    ensures (m.associationsCache, m.typeCache) ==
      if SupportedExposition(exposeField) then old(m.CachesAfterType()) else (old(m.associationsCache), old(m.typeCache))
    ensures !SupportedExposition(exposeField) ==> unchanged(m)
    ensures cache.types == ExpositionTypes(old(cache.types), m, old(m.TypeRead()), exposeField)
  {
    if exposeField == "findById" || exposeField == "findByIds" {
      r := GenFindField(m, exposeField);
    } else if exposeField == "pagination" {
      r := ModelPagination.GenOffsetPagination(cache, m, PaginationOpts(None, [], None, None));
    } else {
      r := Failure(UnsupportedExposeField(exposeField));
    }
  }

  /** One step of `exposeModel` on the model object and the type cache. */
  method ExposeOption(cache: TypeCache.Cache, m: Model, config: Result<Record<Field>, Error>, exposition: ExposeField, exposeField: string)
    returns (r: Result<Record<Field>, Error>)
    requires cache.Valid() && m.Valid()
    modifies cache, m
    ensures cache.Valid() && m.Valid()
    ensures r == ExposeStep(m, old(m.TypeRead()))(config, exposition, exposeField)
    ensures cache.types ==
      if config.Failure? || exposition.Disabled? then old(cache.types)
      else ExpositionTypes(old(cache.types), m, old(m.TypeRead()), exposeField)
    ensures config.Success? && exposition.Exposed? && SupportedExposition(exposeField) ==>
      (m.associationsCache, m.typeCache) == old(m.CachesAfterType())
    ensures !(config.Success? && exposition.Exposed? && SupportedExposition(exposeField)) ==> unchanged(m)
  {
    r := config;
    if config.Success? && exposition.Exposed? {
      var f := GenExposition(cache, m, exposeField);
      r := if f.Failure? then Failure(f.error) else Success(Put(config.value, exposition.name, f.value));
    }
  }

  /** How far `exposeModel` has got after the first `i` options: the reduction and the
      registrations so far are the specified ones, and the model's caches are the ones before
      the `type` read until the read happens, the ones after it from then on. */
  ghost predicate ExposeProgress(cache: TypeCache.Cache, m: Model, opts: seq<(string, ExposeField)>, i: int,
    r: Result<Record<Field>, Error>, typeRead: Outcome<Error>, types: map<string, NamedType>,
    before: Caches, after: Caches)
    reads cache, m
  {
    0 <= i <= |opts| && cache.Valid() && m.Valid() &&
    r == Expositions(m, typeRead, opts[..i]) &&
    cache.types == ExposeTypes(types, m, typeRead, opts[..i]) &&
    (ReadsType(opts[..i]) ==> (m.associationsCache, m.typeCache) == after) &&
    m.CachesValid(before) && m.TypeReadFrom(before) == typeRead && m.CachesAfterTypeFrom(before) == after &&
    (!ReadsType(opts[..i]) ==> (m.associationsCache, m.typeCache) == before) &&
    (r.Success? ==> EnabledSupported(opts[..i])) &&
    (r.Failure? ==> ReadsType(opts[..i]) || !EnabledSupported(opts[..i])) &&
    (r.Success? && ReadsType(opts[..i]) ==> typeRead.Pass? && m.typeCache.Some?)
  }

  /** One more option of `exposeModel`, on the model object and the type cache. */
  method ExposeNext(cache: TypeCache.Cache, m: Model, opts: seq<(string, ExposeField)>, i: int,
    r: Result<Record<Field>, Error>, ghost typeRead: Outcome<Error>, ghost types: map<string, NamedType>,
    ghost before: Caches, ghost after: Caches)
    returns (r': Result<Record<Field>, Error>)
    requires i < |opts| && ExposeProgress(cache, m, opts, i, r, typeRead, types, before, after)
    modifies cache, m
    ensures ExposeProgress(cache, m, opts, i + 1, r', typeRead, types, before, after)
  {
    ExpositionsStep(m, typeRead, opts, i);
    ExposeTypesStep(types, m, typeRead, opts, i);
    OptionsStep(opts, i);
    r' := ExposeOption(cache, m, r, opts[i].1, opts[i].0);
  }

  /** `exposeModel(model, opts)` on the model object and the type cache: the reduction is
      the specified one, the model's caches change exactly when it reads the `type`, and the
      cache gains the types of the expositions it reaches. */
  method ExposeModel(cache: TypeCache.Cache, m: Model, opts: seq<(string, ExposeField)>) returns (r: Result<Record<Field>, Error>)
    requires cache.Valid() && m.Valid()
    modifies cache, m
    ensures cache.Valid() && m.Valid()
    ensures r == Expositions(m, old(m.TypeRead()), opts)
    ensures (m.associationsCache, m.typeCache) ==
      if ReadsType(opts) then old(m.CachesAfterType()) else (old(m.associationsCache), old(m.typeCache))
    ensures cache.types == ExposeTypes(old(cache.types), m, old(m.TypeRead()), opts)
  {
    ghost var typeRead := m.TypeRead();
    ghost var before := (m.associationsCache, m.typeCache);
    ghost var after := m.CachesAfterType();
    ghost var types := cache.types;
    r := Success([]);
    var i := 0;
    assert opts[..0] == [];
    while i < |opts|
      invariant ExposeProgress(cache, m, opts, i, r, typeRead, types, before, after)
    {
      r := ExposeNext(cache, m, opts, i, r, typeRead, types, before, after);
      i := i + 1;
    }
    assert opts[..i] == opts;
  }

  /** The `findById` resolver: `ensureExistence(id, { ctx })`, so a missing id fails. */
  method ResolveFindById(m: Model, table: seq<Row>, id: Value, ctx: Option<ModelLoader>) returns (r: Result<Row, Error>)
    requires ctx.Some? ==> ctx.value.Valid()
    modifies if ctx.Some? then {ctx.value} else {}
    ensures ctx.Some? ==>
      ctx.value.Valid() && ctx.value.loaders == WithLoader(old(ctx.value.loaders), m.Name(), m.PrimaryKey())
    ensures var found := Lookup(table, m.PrimaryKey(), id,
      if ctx.Some? then Some(LoaderFor(old(ctx.value.loaders), m.Name(), m.PrimaryKey())) else None);
      r == if found.None? then Failure(EnsureExistenceFailed(m.Name(), id)) else Success(found.value)
  {
    r := m.EnsureExistence(table, id, ctx);
  }

  /** The lookup of the model's rows by primary key, through a loader when one is given. */
  function Looker(table: seq<Row>, primaryKey: string, loader: Option<Loader>): Value -> Option<Row> {
    id => Lookup(table, primaryKey, id, loader)
  }

  /** The rows for a list of ids, in id order, each looked up on its own with `look`; the
      first id in order that finds nothing decides the error. */
  function FindEach(name: string, ids: seq<Value>, look: Value -> Option<Row>): Result<seq<Row>, Error>
    decreases |ids|
  {
    if |ids| == 0 then Success([])
    else
      var prev := FindEach(name, ids[..|ids| - 1], look);
      var found := look(ids[|ids| - 1]);
      if prev.Failure? then prev
      else if found.None? then Failure(EnsureExistenceFailed(name, ids[|ids| - 1]))
      else Success(prev.value + [found.value])
  }

  /** The answer is a row per id, in id order, exactly when every id finds its row. */
  lemma {:induction false} FindEachSuccess(name: string, ids: seq<Value>, look: Value -> Option<Row>)
    ensures FindEach(name, ids, look).Success? <==> forall i | 0 <= i < |ids| :: look(ids[i]).Some?
    ensures FindEach(name, ids, look).Success? ==>
      |FindEach(name, ids, look).value| == |ids| &&
      forall i | 0 <= i < |ids| :: Some(FindEach(name, ids, look).value[i]) == look(ids[i])
    decreases |ids|
  {
    if |ids| > 0 {
      var init := ids[..|ids| - 1];
      FindEachSuccess(name, init, look);
      var prev := FindEach(name, init, look);
      var found := look(ids[|ids| - 1]);
      if prev.Failure? {
        var i :| 0 <= i < |init| && look(init[i]).None?;
        assert ids[i] == init[i];
      } else if found.Some? {
        var r := prev.value + [found.value];
        assert FindEach(name, ids, look) == Success(r);
        forall i | 0 <= i < |ids| ensures Some(r[i]) == look(ids[i]) {
          if i < |init| {
            assert r[i] == prev.value[i] && ids[i] == init[i];
          }
        }
      }
    }
  }

  /** Otherwise the error names the first id, in id order, that finds nothing. */
  lemma {:induction false} FindEachFailure(name: string, ids: seq<Value>, look: Value -> Option<Row>)
    ensures FindEach(name, ids, look).Failure? ==>
      exists i | 0 <= i < |ids| ::
        look(ids[i]).None? && FindEach(name, ids, look).error == EnsureExistenceFailed(name, ids[i]) &&
        forall j | 0 <= j < i :: look(ids[j]).Some?
    decreases |ids|
  {
    if |ids| > 0 {
      var init := ids[..|ids| - 1];
      FindEachFailure(name, init, look);
      var prev := FindEach(name, init, look);
      if prev.Failure? {
        var i :| 0 <= i < |init| && look(init[i]).None? && prev.error == EnsureExistenceFailed(name, init[i]) &&
          forall j | 0 <= j < i :: look(init[j]).Some?;
        assert ids[i] == init[i];
        assert forall j | 0 <= j < i :: ids[j] == init[j];
      } else {
        FindEachSuccess(name, init, look);
        assert forall j | 0 <= j < |init| :: ids[j] == init[j];
      }
    }
  }

  /** The `findByIds` resolver: `ensureExistence` for every id, in order. Every lookup runs,
      also after one has failed, as `Promise.all` starts them all; the loader a context gets
      is the same for every id. */
  method ResolveFindByIds(m: Model, table: seq<Row>, ids: seq<Value>, ctx: Option<ModelLoader>) returns (r: Result<seq<Row>, Error>)
    requires ctx.Some? ==> ctx.value.Valid()
    modifies if ctx.Some? then {ctx.value} else {}
    ensures ctx.Some? ==>
      ctx.value.Valid() &&
      ctx.value.loaders == if |ids| == 0 then old(ctx.value.loaders) else WithLoader(old(ctx.value.loaders), m.Name(), m.PrimaryKey())
    ensures r == FindEach(m.Name(), ids, Looker(table, m.PrimaryKey(),
      if ctx.Some? then Some(LoaderFor(old(ctx.value.loaders), m.Name(), m.PrimaryKey())) else None))
  {
    ghost var loader := if ctx.Some? then Some(LoaderFor(ctx.value.loaders, m.Name(), m.PrimaryKey())) else None;
    ghost var look := Looker(table, m.PrimaryKey(), loader);
    ghost var before := if ctx.Some? then ctx.value.loaders else map[];
    r := Success([]);
    var i := 0;
    while i < |ids|
      invariant 0 <= i <= |ids|
      invariant ctx.Some? ==>
        ctx.value.Valid() && before == old(ctx.value.loaders) &&
        ctx.value.loaders == if i == 0 then before else WithLoader(before, m.Name(), m.PrimaryKey())
      invariant r == FindEach(m.Name(), ids[..i], look)
    {
      if ctx.Some? {
        SharedLoader(before, m.Name(), m.PrimaryKey(), m.PrimaryKey());
      }
      var instance := m.EnsureExistence(table, ids[i], ctx);
      assert ids[..i + 1][..i] == ids[..i] && ids[..i + 1][i] == ids[i];
      ghost var found := look(ids[i]);
      assert instance == if found.None? then Failure(EnsureExistenceFailed(m.Name(), ids[i])) else Success(found.value);
      if r.Success? {
        r := if instance.Failure? then Failure(instance.error) else Success(r.value + [instance.value]);
      }
      i := i + 1;
    }
    assert ids[..i] == ids;
  }
}
