/** The model object (src/definitions/model/Model.ts): a definition, the store model generated
    from it, and two lazily filled caches, the association map and the output type. */
module Models {
  import opened Wrappers
  import opened Js
  import opened Records
  import opened Seqs
  import opened Gql
  import opened Store
  import opened Errors
  import opened Definitions
  import ColumnTypes
  import opened Database
  import opened Associations
  import opened Base
  import opened ModelLoaders

  /** The store association type an association definition creates, if it is one of the three. */
  function RelationKindOf(kind: AssociationKind): Option<RelationKind> {
    match kind
    case BelongsToKind => Some(BelongsTo)
    case HasOneKind => Some(HasOne)
    case HasManyKind => Some(HasMany)
    case OtherKind(_) => None
  }

  /** No association name occurs twice. */
  predicate DistinctNames(defs: seq<(string, AssociationDefinition)>) {
    forall i, j | 0 <= i < j < |defs| :: defs[i].0 != defs[j].0
  }

  /** Every association definition has one of the three supported types. */
  predicate AllSupported(defs: seq<(string, AssociationDefinition)>) {
    forall i | 0 <= i < |defs| :: !defs[i].1.kind.OtherKind?
  }

  /** The answer of a lookup by primary key: through the store when no loader is given,
      otherwise through the loader, a loader failure becoming `null`. */
  function Lookup(table: seq<Row>, primaryKey: string, identifier: Value, loader: Option<Loader>): Option<Row> {
    if loader.None? then FindByPk(table, primaryKey, identifier)
    else
      var loaded := Load(table, loader.value, identifier);
      if loaded.Success? then Some(loaded.value) else None
  }

  /** With a loader that loads by the model's primary key, over a table whose primary key is
      unique, a lookup with a context finds what a lookup without one finds. */
  lemma ContextAgrees(table: seq<Row>, primaryKey: string, identifier: Value, loader: Loader)
    requires loader.primaryKey == primaryKey && UniqueKey(table, primaryKey)
    ensures Lookup(table, primaryKey, identifier, Some(loader)) == Lookup(table, primaryKey, identifier, None)
  {
    LoadIsFindByPk(table, loader, identifier);
  }

  /** The two lazy caches of a model object: the association map and the output type. */
  type Caches = (Option<Record<AssociationSpecs>>, Option<NamedType>)

  class Model {
    const definition: ModelDefinition
    /** `_model`: the store model, generated from the definition by the constructor. */
    const model: IdKeyedStoreModel
    /** `_associations`: `None` until the first access. */
    var associationsCache: Option<Record<AssociationSpecs>>
    /** `_type`: `None` until the first access. */
    var typeCache: Option<NamedType>

    /** The cached association map only holds supported associations, and a cached type is
        the type of the definition with the cached associations. */
    ghost predicate Valid()
      reads this
    {
      CachesValid((associationsCache, typeCache))
    }

    /** The same condition on a pair of cache values. */
    ghost predicate CachesValid(caches: Caches) {
      (caches.0.Some? ==> SupportedKinds(caches.0.value)) &&
      (caches.1.Some? ==> caches.0.Some? && caches.1.value == GraphQLType(definition, caches.0.value))
    }

    constructor(definition: ModelDefinition)
      ensures this.definition == definition && model == GenDatabaseModel(definition)
      ensures associationsCache.None? && typeCache.None?
      ensures Valid()
    {
      this.definition := definition;
      PrimaryKeyIsId(definition);
      model := GenDatabaseModel(definition);
      associationsCache := None;
      typeCache := None;
    }

    function Name(): string {
      definition.name
    }

    /** `idType`: the id column's type, or the default UUID id type. */
    function IdType(): (t: ColumnType)
      ensures definition.id.Some? ==> t == definition.id.value.typ
      ensures definition.id.None? ==> t == ColumnTypes.ID
    {
      if definition.id.Some? then definition.id.value.typ else ColumnTypes.DefaultIDFieldDefinition.typ
    }

    /** The store model's primary key attribute, which is always `id`. */
    function PrimaryKey(): (pk: string)
      ensures pk == "id"
    {
      PrimaryKeyAttribute(model.attributes)
    }

    /** `genAssociation(name, def)`: the store association from this model to the target,
        aliased by the association name, unconstrained, cascading on delete exactly when
        `deleteCascade` is true; an unknown type is refused. */
    function GenAssociation(name: string, def: AssociationDefinition): (r: Result<Relation, Error>)
      ensures r.Failure? <==> def.kind.OtherKind?
      ensures r.Failure? ==> r.error == InvalidAssociationType(def.kind.raw)
      ensures r.Success? ==>
        Some(r.value.kind) == RelationKindOf(def.kind) && r.value.alias == name &&
        r.value.source == Name() && r.value.target == def.target.name && r.value.targetPk == def.target.primaryKey &&
        (r.value.onDelete == Cascade <==> def.deleteCascade == Some(true)) && !r.value.constraints &&
        (def.foreignKey.Some? ==> r.value.foreignKey == def.foreignKey.value)
    {
      var onDelete := if def.deleteCascade == Some(true) then Cascade else SetNull;
      match RelationKindOf(def.kind)
      case None => Failure(InvalidAssociationType(def.kind.raw))
      case Some(kind) =>
        var fk := def.foreignKey.GetOr(definition.sequelize.defaultForeignKey(kind, Name(), def.target.name, name));
        Success(Relation(kind, name, Name(), PrimaryKey(), def.target.name, def.target.primaryKey, fk, onDelete, false))
    }

    /** The association definitions the thunk returns, none when it is absent. */
    function AssociationDefs(): seq<(string, AssociationDefinition)> {
      definition.associations.GetOr([])
    }

    /** The loop of `associations` over the definitions in order: the map it has built and,
        once an entry fails, the error it stops with. */
    function Build(defs: seq<(string, AssociationDefinition)>): (b: (Record<AssociationSpecs>, Option<Error>))
      ensures SupportedKinds(b.0)
      ensures b.1.Some? ==> b.1.value.DuplicatedAssociation? || b.1.value.InvalidAssociationType?
      decreases |defs|
    {
      if |defs| == 0 then ([], None)
      else
        var prev := Build(defs[..|defs| - 1]);
        var entry := defs[|defs| - 1];
        if prev.1.Some? then prev
        else if Has(prev.0, entry.0) then (prev.0, Some(DuplicatedAssociation(Name(), entry.0)))
        else
          var rel := GenAssociation(entry.0, entry.1);
          if rel.Failure? then (prev.0, Some(rel.error))
          else
            var specs := AssociationSpecs(rel.value, entry.1);
            assert Put(prev.0, entry.0, specs) == prev.0 + [(entry.0, specs)];
            (Put(prev.0, entry.0, specs), None)
    }

    /** Once the loop has stopped, later definitions change nothing. */
    lemma {:induction false} BuildStops(defs: seq<(string, AssociationDefinition)>, i: nat)
      requires i <= |defs| && Build(defs[..i]).1.Some?
      ensures Build(defs) == Build(defs[..i])
      decreases |defs|
    {
      if i < |defs| {
        var init := defs[..|defs| - 1];
        assert init[..i] == defs[..i];
        BuildStops(init, i);
      } else {
        assert defs[..i] == defs;
      }
    }

    /** The loop succeeds exactly when the names are distinct and every type is supported;
        then the map has one entry per definition, in definition order. */
    lemma {:induction false} BuildMeaning(defs: seq<(string, AssociationDefinition)>)
      ensures Build(defs).1.None? <==> DistinctNames(defs) && AllSupported(defs)
      ensures Build(defs).1.None? ==> Keys(Build(defs).0) == Keys(defs)
      decreases |defs|
    {
      if |defs| > 0 {
        var init := defs[..|defs| - 1];
        var entry := defs[|defs| - 1];
        BuildMeaning(init);
        BuildLast(defs);
        HasIffKey(Build(init).0, entry.0);
        Snoc(defs);
        DistinctSnoc(init, entry);
        AllSupportedSnoc(init, entry);
        if Build(defs).1.None? {
          KeysAppend(Build(init).0, [Build(defs).0[|init|]]);
          KeysAppend(init, [entry]);
        }
      }
    }

    /** One step of the loop: the last definition is added exactly when the earlier ones
        succeeded, its name is new and its type is supported. */
    lemma BuildLast(defs: seq<(string, AssociationDefinition)>)
      requires |defs| > 0
      ensures var prev := Build(defs[..|defs| - 1]);
        var entry := defs[|defs| - 1];
        (Build(defs).1.None? <==> prev.1.None? && !Has(prev.0, entry.0) && !entry.1.kind.OtherKind?) &&
        (Build(defs).1.None? ==>
          |Build(defs).0| == |prev.0| + 1 &&
          Build(defs).0 == prev.0 + [Build(defs).0[|prev.0|]] && Build(defs).0[|prev.0|].0 == entry.0)
    {
    }

    /** After a successful loop, each name holds the store association created for it and
        its definition. */
    lemma {:induction false} BuildEntries(defs: seq<(string, AssociationDefinition)>, i: nat)
      requires Build(defs).1.None? && i < |defs|
      ensures GenAssociation(defs[i].0, defs[i].1).Success?
      ensures Get(Build(defs).0, defs[i].0) == Some(AssociationSpecs(GenAssociation(defs[i].0, defs[i].1).value, defs[i].1))
      decreases |defs|
    {
      var init := defs[..|defs| - 1];
      BuildMeaning(defs);
      if i < |defs| - 1 {
        assert defs[i] == init[i];
        assert defs[i].0 != defs[|defs| - 1].0;
        BuildEntries(init, i);
      }
    }

    /** What `associations` answers given the cache before the call. */
    function AssociationsResult(cache: Option<Record<AssociationSpecs>>): Result<Record<AssociationSpecs>, Error> {
      if cache.Some? then Success(cache.value)
      else
        var b := Build(AssociationDefs());
        if b.1.Some? then Failure(b.1.value) else Success(b.0)
    }

    /** The cache after `associations`: filled on the first call, even when the loop fails
        part way, in which case it holds the entries built before the failure. */
    function AssociationsAfter(cache: Option<Record<AssociationSpecs>>): (after: Record<AssociationSpecs>)
      ensures SupportedKinds(after) || cache.Some?
    {
      if cache.Some? then cache.value else Build(AssociationDefs()).0
    }

    /** `get associations()`: the cached map if there is one; otherwise an empty map is
        installed, then filled entry by entry. */
    method Associations() returns (r: Result<Record<AssociationSpecs>, Error>)
      requires Valid()
      modifies this
      ensures Valid()
      ensures typeCache == old(typeCache)
      ensures associationsCache == Some(AssociationsAfter(old(associationsCache)))
      ensures r == AssociationsResult(old(associationsCache))
    {
      if associationsCache.Some? {
        return Success(associationsCache.value);
      }
      associationsCache := Some([]);
      if definition.associations.None? {
        return Success([]);
      }
      var defs := definition.associations.value;
      var i := 0;
      while i < |defs|
        invariant 0 <= i <= |defs|
        invariant typeCache == old(typeCache)
        invariant associationsCache.Some? && Build(defs[..i]) == (associationsCache.value, None)
      {
        var entry := defs[i];
        assert defs[..i + 1][..i] == defs[..i];
        if Has(associationsCache.value, entry.0) {
          BuildStops(defs, i + 1);
          return Failure(DuplicatedAssociation(Name(), entry.0));
        }
        var rel := GenAssociation(entry.0, entry.1);
        if rel.Failure? {
          BuildStops(defs, i + 1);
          return Failure(rel.error);
        }
        associationsCache := Some(Put(associationsCache.value, entry.0, AssociationSpecs(rel.value, entry.1)));
        i := i + 1;
      }
      assert defs[..i] == defs;
      return Success(associationsCache.value);
    }

    /** `includeAssociation(name, options)`: the eager-loading entry of a known association. */
    method IncludeAssociation(name: string, options: Record<Value>) returns (r: Result<Include, Error>)
      requires Valid()
      modifies this
      ensures Valid()
      ensures typeCache == old(typeCache)
      ensures associationsCache == Some(AssociationsAfter(old(associationsCache)))
      ensures var a := AssociationsResult(old(associationsCache));
        r == if a.Failure? then Failure(a.error)
          else if !Has(a.value, name) then Failure(UnknownAssociation(name))
          else Success(Include(Get(a.value, name).value.relation, options))
    {
      var associations := Associations();
      if associations.Failure? {
        return Failure(associations.error);
      }
      var association := Get(associations.value, name);
      if association.None? {
        return Failure(UnknownAssociation(name));
      }
      return Success(Include(association.value.relation, options));
    }

    /** What the next `type` access answers: the cached type, or the type generated from the
        association map, or the error the associations getter throws. */
    function TypeAccess(): Result<NamedType, Error>
      requires Valid()
      reads this
    {
      TypeAccessFrom((associationsCache, typeCache))
    }

    /** Whether the next `type` access throws, and with which error. */
    function TypeRead(): Outcome<Error>
      requires Valid()
      reads this
    {
      TypeReadFrom((associationsCache, typeCache))
    }

    /** The association and type caches after the next `type` access. */
    function CachesAfterType(): Caches
      requires Valid()
      reads this
    {
      CachesAfterTypeFrom((associationsCache, typeCache))
    }

    /** What a `type` access answers from a pair of cache values. */
    function TypeAccessFrom(caches: Caches): Result<NamedType, Error>
      requires CachesValid(caches)
    {
      if caches.1.Some? then Success(caches.1.value)
      else
        match AssociationsResult(caches.0)
        case Failure(e) => Failure(e)
        case Success(a) =>
          assert a == AssociationsAfter(caches.0);
          Success(GraphQLType(definition, a))
    }

    function TypeReadFrom(caches: Caches): Outcome<Error>
      requires CachesValid(caches)
    {
      if TypeAccessFrom(caches).Failure? then Fail(TypeAccessFrom(caches).error) else Pass
    }

    function CachesAfterTypeFrom(caches: Caches): Caches
      requires CachesValid(caches)
    {
      if caches.1.Some? then caches
      else (Some(AssociationsAfter(caches.0)), if TypeAccessFrom(caches).Success? then Some(TypeAccessFrom(caches).value) else None)
    }

    /** `get type()`: generated on the first access, from the definition and the association
        map, and cached; later accesses return the cached type. */
    method Type() returns (r: Result<NamedType, Error>)
      requires Valid()
      modifies this
      ensures Valid()
      ensures r == old(TypeAccess()) && (associationsCache, typeCache) == old(CachesAfterType())
      ensures r.Success? ==> TypeAccess() == r && CachesAfterType() == (associationsCache, typeCache)
      ensures old(typeCache).Some? ==>
        r == Success(old(typeCache).value) && typeCache == old(typeCache) && associationsCache == old(associationsCache)
      ensures old(typeCache).None? ==>
        associationsCache == Some(AssociationsAfter(old(associationsCache))) &&
        var a := AssociationsResult(old(associationsCache));
        (a.Failure? ==> r == Failure(a.error) && typeCache.None?) &&
        (a.Success? ==> typeCache.Some? && r == Success(typeCache.value))
      ensures r.Success? ==> associationsCache.Some? && r.value == GraphQLType(definition, associationsCache.value)
    {
      if typeCache.Some? {
        return Success(typeCache.value);
      }
      var associations := Associations();
      if associations.Failure? {
        return Failure(associations.error);
      }
      var t := GraphQLType(definition, associations.value);
      typeCache := Some(t);
      return Success(t);
    }

    /** `findByPkAllAttrs(identifier, { ctx })`: through the store without a context, through
        the context's loader for this model's name otherwise. */
    method FindByPkAllAttrs(table: seq<Row>, identifier: Value, ctx: Option<ModelLoader>) returns (r: Option<Row>)
      requires ctx.Some? ==> ctx.value.Valid()
      modifies if ctx.Some? then {ctx.value} else {}
      ensures ctx.Some? ==>
        ctx.value.Valid() && ctx.value.loaders == WithLoader(old(ctx.value.loaders), Name(), PrimaryKey())
      ensures r == Lookup(table, PrimaryKey(), identifier,
        if ctx.Some? then Some(LoaderFor(old(ctx.value.loaders), Name(), PrimaryKey())) else None)
    {
      if ctx.None? {
        return FindByPk(table, PrimaryKey(), identifier);
      }
      var loader := ctx.value.GetModelLoader(Name(), PrimaryKey());
      var loaded := Load(table, loader, identifier);
      r := if loaded.Success? then Some(loaded.value) else None;
    }

    /** `ensureExistence(identifier, { ctx })`: the instance, or a failure naming the model and
        the identifier when the lookup finds nothing. */
    method EnsureExistence(table: seq<Row>, identifier: Value, ctx: Option<ModelLoader>) returns (r: Result<Row, Error>)
      requires ctx.Some? ==> ctx.value.Valid()
      modifies if ctx.Some? then {ctx.value} else {}
      ensures ctx.Some? ==>
        ctx.value.Valid() && ctx.value.loaders == WithLoader(old(ctx.value.loaders), Name(), PrimaryKey())
      ensures var found := Lookup(table, PrimaryKey(), identifier,
        if ctx.Some? then Some(LoaderFor(old(ctx.value.loaders), Name(), PrimaryKey())) else None);
        r == if found.None? then Failure(EnsureExistenceFailed(Name(), identifier)) else Success(found.value)
    {
      var instance := FindByPkAllAttrs(table, identifier, ctx);
      if instance.None? {
        return Failure(EnsureExistenceFailed(Name(), identifier));
      }
      return Success(instance.value);
    }

    /** `ensureExistenceOptional(identifier, { ctx })`: `null` for a `null` identifier, with no
        lookup and no loader created; otherwise `ensureExistence`. */
    method EnsureExistenceOptional(table: seq<Row>, identifier: Value, ctx: Option<ModelLoader>) returns (r: Result<Option<Row>, Error>)
      requires ctx.Some? ==> ctx.value.Valid()
      modifies if ctx.Some? then {ctx.value} else {}
      ensures ctx.Some? ==> ctx.value.Valid()
      ensures identifier.Null? ==> r == Success(None) && (ctx.Some? ==> ctx.value.loaders == old(ctx.value.loaders))
      ensures !identifier.Null? ==>
        (ctx.Some? ==> ctx.value.loaders == WithLoader(old(ctx.value.loaders), Name(), PrimaryKey())) &&
        var found := Lookup(table, PrimaryKey(), identifier,
          if ctx.Some? then Some(LoaderFor(old(ctx.value.loaders), Name(), PrimaryKey())) else None);
        r == if found.None? then Failure(EnsureExistenceFailed(Name(), identifier)) else Success(Some(found.value))
    {
      if identifier.Null? {
        return Success(None);
      }
      var instance := EnsureExistence(table, identifier, ctx);
      if instance.Failure? {
        return Failure(instance.error);
      }
      return Success(Some(instance.value));
    }

    /** `exists(opts)`: whether some row matches the count query. */
    function Exists(table: seq<Row>, opts: CountOptions): (r: bool)
      ensures r <==> exists i | 0 <= i < |table| :: Satisfies(table[i], opts.where)
    {
      CountPositive(table, opts);
      Count(table, opts) > 0
    }
  }

  lemma DistinctSnoc(init: seq<(string, AssociationDefinition)>, entry: (string, AssociationDefinition))
    ensures DistinctNames(init + [entry]) <==> DistinctNames(init) && entry.0 !in Keys(init)
  {
    var defs := init + [entry];
    if DistinctNames(init) && entry.0 !in Keys(init) {
      forall i, j | 0 <= i < j < |defs| ensures defs[i].0 != defs[j].0 {
        if j < |defs| - 1 {
          assert defs[i] == init[i] && defs[j] == init[j];
        } else {
          assert defs[i] == init[i];
          assert Keys(init)[i] == init[i].0;
        }
      }
    }
    if DistinctNames(defs) {
      forall i, j | 0 <= i < j < |init| ensures init[i].0 != init[j].0 {
        assert defs[i] == init[i] && defs[j] == init[j];
      }
      forall i | 0 <= i < |init| ensures Keys(init)[i] != entry.0 {
        assert defs[i] == init[i] && defs[|init|] == entry;
      }
    }
  }

  lemma AllSupportedSnoc(init: seq<(string, AssociationDefinition)>, entry: (string, AssociationDefinition))
    ensures AllSupported(init + [entry]) <==> AllSupported(init) && !entry.1.kind.OtherKind?
  {
    var defs := init + [entry];
    if AllSupported(defs) {
      forall i | 0 <= i < |init| ensures !init[i].1.kind.OtherKind? {
        assert defs[i] == init[i];
      }
      assert defs[|init|] == entry;
    }
    if AllSupported(init) && !entry.1.kind.OtherKind? {
      forall i | 0 <= i < |defs| ensures !defs[i].1.kind.OtherKind? {
        if i < |init| { assert defs[i] == init[i]; }
      }
    }
  }

  /** A failed first build leaves the entries before the failure in the cache, and the next
      access answers them as the association map, without an error. */
  lemma PartialMapAfterFailure(m: Model, cache: Option<Record<AssociationSpecs>>)
    requires cache.None? && m.AssociationsResult(cache).Failure?
    ensures m.AssociationsResult(Some(m.AssociationsAfter(cache))) == Success(m.Build(m.AssociationDefs()).0)
  {
  }

  /** Definitions given as an object have distinct names, so the only way building the map
      fails is an unsupported type, and with supported types it never fails. */
  lemma ObjectEntriesBuild(m: Model)
    requires DistinctNames(m.AssociationDefs())
    ensures m.AssociationsResult(None).Failure? <==> !AllSupported(m.AssociationDefs())
    ensures m.AssociationsResult(None).Failure? ==> m.AssociationsResult(None).error.InvalidAssociationType?
  {
    m.BuildMeaning(m.AssociationDefs());
    var defs := m.AssociationDefs();
    if m.Build(defs).1.Some? && m.Build(defs).1.value.DuplicatedAssociation? {
      DuplicateNeedsRepeat(m, defs);
    }
  }

  /** A duplicated-name error only comes from a name that occurs twice. */
  lemma {:induction false} DuplicateNeedsRepeat(m: Model, defs: seq<(string, AssociationDefinition)>)
    requires m.Build(defs).1.Some? && m.Build(defs).1.value.DuplicatedAssociation?
    ensures !DistinctNames(defs)
    decreases |defs|
  {
    var init := defs[..|defs| - 1];
    var entry := defs[|defs| - 1];
    var prev := m.Build(init);
    if prev.1.Some? {
      DuplicateNeedsRepeat(m, init);
      var i, j :| 0 <= i < j < |init| && init[i].0 == init[j].0;
      assert defs[i] == init[i] && defs[j] == init[j];
    } else {
      m.BuildMeaning(init);
      HasIffKey(prev.0, entry.0);
      var i :| 0 <= i < |init| && Keys(init)[i] == entry.0;
      assert defs[i] == init[i];
    }
  }
}
