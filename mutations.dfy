/** The mutation type of a model (src/schema/model/genModelMutations.ts): optional `create`,
    `update` and `delete` fields built from the model, and any further fields, under an
    object type named after the model. */
module Mutations {
  import opened Wrappers
  import opened Js
  import opened Records
  import opened Gql
  import opened Store
  import opened Errors
  import opened ModelLoaders
  import opened Models

  /** `CreateMutationArgs`: the input fields, the user resolver and a description. */
  datatype CreateMutationArgs = CreateMutationArgs(args: Record<InputField>, resolverId: string, description: Option<string>)

  /** `UpdateMutationArgs`, shaped like the create arguments. */
  datatype UpdateMutationArgs = UpdateMutationArgs(args: Record<InputField>, resolverId: string, description: Option<string>)

  /** `DeleteMutationArgs | true`: `true`, or an optional user resolver and a description. */
  datatype DeleteMutationArgs = DeleteTrue | DeleteArgs(resolverId: Option<string>, description: Option<string>)

  /** The options of the create and update builders. */
  datatype MutationOpts = MutationOpts(baseName: Option<string>, outputType: Option<TypeRef>)

  /** `GenModelMutationsArgs`; the `fields` thunk is given by the fields it returns. */
  datatype GenModelMutationsArgs = GenModelMutationsArgs(
    name: Option<string>,
    prefix: Option<string>,
    description: Option<string>,
    outputType: Option<TypeRef>,
    create: Option<CreateMutationArgs>,
    update: Option<UpdateMutationArgs>,
    delete: Option<DeleteMutationArgs>,
    fields: Option<Record<Field>>)

  /** The non-null `id` argument of the model's id type. */
  function IdArg(m: Model): InputField {
    InputField(NonNull(Named(m.IdType().gqlType)), None)
  }

  /** The non-null `input` argument: an input object with the user's fields. */
  function InputArg(typeName: string, args: Record<InputField>): InputField {
    InputField(NonNull(Named(InputObject(typeName, None, args))), None)
  }

  /** `genModelCreateMutation(model, createArgs, opts)`. */
  function CreateMutation(m: Model, c: CreateMutationArgs, opts: MutationOpts): Field {
    Field(NonNull(opts.outputType.GetOr(Ref(m.Name()))), c.description, Undefined,
      [("input", InputArg(opts.baseName.GetOr(m.Name()) + "CreateInput", c.args))], CreateResolver(c.resolverId))
  }

  /** `genModelUpdateMutation(model, updateArgs, opts)`. */
  function UpdateMutation(m: Model, u: UpdateMutationArgs, opts: MutationOpts): Field {
    Field(NonNull(opts.outputType.GetOr(Ref(m.Name()))), u.description, Undefined,
      [("id", IdArg(m)), ("input", InputArg(opts.baseName.GetOr(m.Name()) + "UpdateInput", u.args))],
      UpdateResolver(m.Name(), u.resolverId))
  }

  /** `genModelDeleteMutation(model, deleteArgs)`. */
  function DeleteMutation(m: Model, d: DeleteMutationArgs): Field {
    var resolverId := if d.DeleteTrue? then None else d.resolverId;
    var description := if d.DeleteTrue? then None else d.description;
    Field(NonNull(Named(GraphQLBoolean)), description, Undefined, [("id", IdArg(m))], DeleteResolver(m.Name(), resolverId))
  }

  /** The model name with the prefix, shared by the object type and its input types. */
  function BaseName(m: Model, a: GenModelMutationsArgs): string {
    a.prefix.GetOr("") + a.name.GetOr(m.Name())
  }

  /** A one-field object when the option is given, else nothing to spread. */
  function Optional(key: string, f: Option<Field>): Record<Field> {
    if f.Some? then [(key, f.value)] else []
  }

  /** The fields of the mutation type: `create`, `update` and `delete` in that order, each
      when its arguments are given, then the user's fields spread over them. */
  function MutationFields(m: Model, a: GenModelMutationsArgs): Record<Field> {
    var opts := MutationOpts(Some(BaseName(m, a)), a.outputType);
    var create := Optional("create", if a.create.Some? then Some(CreateMutation(m, a.create.value, opts)) else None);
    var update := Optional("update", if a.update.Some? then Some(UpdateMutation(m, a.update.value, opts)) else None);
    var delete := Optional("delete", if a.delete.Some? then Some(DeleteMutation(m, a.delete.value)) else None);
    Spread(Spread(Spread(Spread([], create), update), delete), a.fields.GetOr([]))
  }

  /** `genModelMutations(model, args)`: building the object type reads nothing; it holds
      the fields its thunk returns when GraphQL evaluates it without a throw. */
  function GenModelMutations(m: Model, a: GenModelMutationsArgs): (t: NamedType)
    ensures t.ObjectType? && t.name == BaseName(m, a) + "Mutation" && t.description == a.description
  {
    ObjectType(BaseName(m, a) + "Mutation", a.description, MutationFields(m, a))
  }

  /** A user field wins over a generated one of the same key; otherwise `create`, `update`
      and `delete` are present exactly when their arguments are given, built with the
      prefixed base name and the shared output type, and no other key is present. */
  lemma GenModelMutationsGet(m: Model, a: GenModelMutationsArgs, k: string)
    ensures var opts := MutationOpts(Some(BaseName(m, a)), a.outputType);
      var user := a.fields.GetOr([]);
      Get(GenModelMutations(m, a).fields, k) ==
        if Has(user, k) then Get(user, k)
        else if k == "create" && a.create.Some? then Some(CreateMutation(m, a.create.value, opts))
        else if k == "update" && a.update.Some? then Some(UpdateMutation(m, a.update.value, opts))
        else if k == "delete" && a.delete.Some? then Some(DeleteMutation(m, a.delete.value))
        else None
  {
    var opts := MutationOpts(Some(BaseName(m, a)), a.outputType);
    var create := Optional("create", if a.create.Some? then Some(CreateMutation(m, a.create.value, opts)) else None);
    var update := Optional("update", if a.update.Some? then Some(UpdateMutation(m, a.update.value, opts)) else None);
    var delete := Optional("delete", if a.delete.Some? then Some(DeleteMutation(m, a.delete.value)) else None);
    assert MutationFields(m, a) == Spread(Spread(Spread(Spread([], create), update), delete), a.fields.GetOr([]));
    OptionalGet("create", if a.create.Some? then Some(CreateMutation(m, a.create.value, opts)) else None, k);
    OptionalGet("update", if a.update.Some? then Some(UpdateMutation(m, a.update.value, opts)) else None, k);
    OptionalGet("delete", if a.delete.Some? then Some(DeleteMutation(m, a.delete.value)) else None, k);
    SpreadRecordGet([], create, k);
    SpreadRecordGet(Spread([], create), update, k);
    SpreadRecordGet(Spread(Spread([], create), update), delete, k);
    SpreadRecordGet(Spread(Spread(Spread([], create), update), delete), a.fields.GetOr([]), k);
  }

  lemma OptionalGet(key: string, f: Option<Field>, k: string)
    ensures Get(Optional(key, f), k) == if k == key then f else None
  {
    if f.Some? {
      SingletonGet(key, f.value, k);
    }
  }

  /** Without user fields, the generated fields come in the order `create`, `update`,
      `delete`, each present only when asked for. */
  lemma MutationFieldsOrder(m: Model, a: GenModelMutationsArgs)
    requires a.fields.None? && a.create.Some? && a.update.Some? && a.delete.Some?
    ensures Keys(GenModelMutations(m, a).fields) == ["create", "update", "delete"]
  {
    var opts := MutationOpts(Some(BaseName(m, a)), a.outputType);
    var c := CreateMutation(m, a.create.value, opts);
    var u := UpdateMutation(m, a.update.value, opts);
    var d := DeleteMutation(m, a.delete.value);
    assert MutationFields(m, a) == Spread(Spread(Spread([], [("create", c)]), [("update", u)]), [("delete", d)]);
    ThreeKeys("create", c, "update", u, "delete", d);
  }

  /** Three distinct keys spread one after the other onto `{}` keep that order. */
  lemma ThreeKeys<V>(k1: string, v1: V, k2: string, v2: V, k3: string, v3: V)
    requires k1 != k2 && k1 != k3 && k2 != k3
    ensures Keys(Spread(Spread(Spread([], [(k1, v1)]), [(k2, v2)]), [(k3, v3)])) == [k1, k2, k3]
  {
    TwoKeys(k1, v1, k2, v2);
    var r2 := [(k1, v1), (k2, v2)];
    assert !Has(r2, k3) by {
      assert r2[0].0 != k3 && r2[1].0 != k3;
    }
    SpreadNew(r2, k3, v3);
    assert Keys(r2 + [(k3, v3)]) == [k1, k2, k3];
  }

  /** Two distinct keys spread one after the other onto `{}`. */
  lemma TwoKeys<V>(k1: string, v1: V, k2: string, v2: V)
    requires k1 != k2
    ensures Spread(Spread([], [(k1, v1)]), [(k2, v2)]) == [(k1, v1), (k2, v2)]
  {
    SpreadNew([], k1, v1);
    assert [] + [(k1, v1)] == [(k1, v1)];
    SingletonGet(k1, v1, k2);
    SpreadNew([(k1, v1)], k2, v2);
  }

  /** The object type and the two input types it declares get three different names, so
      the schema can hold them together. */
  lemma MutationTypeNamesDistinct(base: string)
    ensures base + "CreateInput" != base + "UpdateInput"
    ensures base + "CreateInput" != base + "Mutation"
    ensures base + "UpdateInput" != base + "Mutation"
  {
    assert (base + "CreateInput")[|base|] == 'C';
    assert (base + "UpdateInput")[|base|] == 'U';
    assert (base + "Mutation")[|base|] == 'M';
  }

  /** `genModelCreateMutation(model, createArgs, opts)` on the model object: without an
      `outputType` it reads the model's `type`, whose failure is its own. */
  method GenModelCreateMutation(m: Model, c: CreateMutationArgs, opts: MutationOpts) returns (r: Result<Field, Error>)
    requires m.Valid()
    modifies m
    ensures m.Valid()
    ensures opts.outputType.Some? ==> unchanged(m)
    ensures opts.outputType.None? ==> (m.associationsCache, m.typeCache) == old(m.CachesAfterType())
    ensures r == if opts.outputType.None? && old(m.TypeRead()).Fail? then Failure(old(m.TypeRead()).error)
      else Success(CreateMutation(m, c, opts))
    ensures opts.outputType.None? && r.Success? ==> m.typeCache.Some?
  {
    if opts.outputType.None? {
      var nodeType := m.Type();
      if nodeType.Failure? {
        return Failure(nodeType.error);
      }
    }
    r := Success(CreateMutation(m, c, opts));
  }

  /** `genModelUpdateMutation(model, updateArgs, opts)` on the model object, reading the
      `type` the same way. */
  method GenModelUpdateMutation(m: Model, u: UpdateMutationArgs, opts: MutationOpts) returns (r: Result<Field, Error>)
    requires m.Valid()
    modifies m
    ensures m.Valid()
    ensures opts.outputType.Some? ==> unchanged(m)
    ensures opts.outputType.None? ==> (m.associationsCache, m.typeCache) == old(m.CachesAfterType())
    ensures r == if opts.outputType.None? && old(m.TypeRead()).Fail? then Failure(old(m.TypeRead()).error)
      else Success(UpdateMutation(m, u, opts))
    ensures opts.outputType.None? && r.Success? ==> m.typeCache.Some?
  {
    if opts.outputType.None? {
      var nodeType := m.Type();
      if nodeType.Failure? {
        return Failure(nodeType.error);
      }
    }
    r := Success(UpdateMutation(m, u, opts));
  }

  /** The fields thunk reads the model's `type`: a `create` or an `update` is asked for and
      no `outputType` is given. */
  predicate NeedsType(a: GenModelMutationsArgs) {
    a.outputType.None? && (a.create.Some? || a.update.Some?)
  }

  /** What the fields thunk of the mutation type returns, given how reading the model's
      `type` goes: it throws exactly when it must read a type that fails, and otherwise
      returns the fields the object type is given. */
  function MutationFieldsThunk(m: Model, typeRead: Outcome<Error>, a: GenModelMutationsArgs): (r: Result<Record<Field>, Error>)
    ensures r.Failure? <==> NeedsType(a) && typeRead.Fail?
    ensures r.Failure? ==> r.error == typeRead.error
    ensures r.Success? ==> r.value == GenModelMutations(m, a).fields
  {
    var read := if a.outputType.None? then typeRead else Pass;
    if (a.create.Some? || a.update.Some?) && read.Fail? then Failure(read.error)
    else Success(MutationFields(m, a))
  }

  /** The fields thunk of `genModelMutations(model, args)` on the model object: `create`,
      then `update`, each built when asked for and the first to fail ending it, then
      `delete` and the user's fields. The model's caches change exactly when the thunk reads
      the `type`. */
  method GenModelMutationFields(m: Model, a: GenModelMutationsArgs) returns (r: Result<Record<Field>, Error>)
    requires m.Valid()
    modifies m
    ensures m.Valid()
    ensures r == MutationFieldsThunk(m, old(m.TypeRead()), a)
    ensures NeedsType(a) ==> (m.associationsCache, m.typeCache) == old(m.CachesAfterType())
    ensures !NeedsType(a) ==> unchanged(m)
  {
    var opts := MutationOpts(Some(BaseName(m, a)), a.outputType);
    var create: Option<Field> := None;
    if a.create.Some? {
      var f := GenModelCreateMutation(m, a.create.value, opts);
      if f.Failure? {
        return Failure(f.error);
      }
      create := Some(f.value);
    }
    var update: Option<Field> := None;
    if a.update.Some? {
      var f := GenModelUpdateMutation(m, a.update.value, opts);
      if f.Failure? {
        return Failure(f.error);
      }
      update := Some(f.value);
    }
    var delete := if a.delete.Some? then Some(DeleteMutation(m, a.delete.value)) else None;
    r := Success(Spread(Spread(Spread(Spread([], Optional("create", create)), Optional("update", update)),
      Optional("delete", delete)), a.fields.GetOr([])));
  }

  /** The `create` resolver: the user resolver gets a `null` source and the `input`
      argument alone. */
  function ResolveCreate<R>(resolve: (Option<Row>, Value) -> R, args: Record<Value>): R {
    resolve(None, Get(args, "input").GetOr(Undefined))
  }

  /** The user resolver sees only the `input` argument: arguments that differ elsewhere give
      the same answer. */
  lemma ResolveCreateSeesInput<R>(resolve: (Option<Row>, Value) -> R, args: Record<Value>, args': Record<Value>)
    requires Get(args, "input") == Get(args', "input")
    ensures ResolveCreate(resolve, args) == ResolveCreate(resolve, args')
  {
  }

  /** The `update` resolver: the instance must exist; the user resolver then gets it as
      the source, with the `input` argument. */
  method ResolveUpdate<R>(m: Model, table: seq<Row>, id: Value, input: Value, resolve: (Option<Row>, Value) -> R, ctx: Option<ModelLoader>)
    returns (r: Result<R, Error>)
    requires ctx.Some? ==> ctx.value.Valid()
    modifies if ctx.Some? then {ctx.value} else {}
    ensures ctx.Some? ==>
      ctx.value.Valid() && ctx.value.loaders == WithLoader(old(ctx.value.loaders), m.Name(), m.PrimaryKey())
    ensures var found := Lookup(table, m.PrimaryKey(), id,
      if ctx.Some? then Some(LoaderFor(old(ctx.value.loaders), m.Name(), m.PrimaryKey())) else None);
      r == if found.None? then Failure(EnsureExistenceFailed(m.Name(), id)) else Success(resolve(Some(found.value), input))
  {
    var instance := m.EnsureExistence(table, id, ctx);
    if instance.Failure? {
      return Failure(instance.error);
    }
    r := Success(resolve(Some(instance.value), input));
  }

  /** `instance.destroy()`: the rows whose primary key is the instance's are removed and the
      others stay. */
  function Destroy(table: seq<Row>, pk: string, key: Value): (t: seq<Row>)
    ensures forall row | row in t :: row in table && Cell(row, pk) != key
    ensures forall row | row in table && Cell(row, pk) != key :: row in t
    ensures |t| <= |table|
    decreases |table|
  {
    if |table| == 0 then []
    else
      var rest := Destroy(table[..|table| - 1], pk, key);
      var last := table[|table| - 1];
      assert forall row | row in table[..|table| - 1] :: row in table;
      assert forall row | row in table :: row in table[..|table| - 1] || row == last;
      if Cell(last, pk) == key then rest else rest + [last]
  }

  /** When no row has the key, destroying leaves the table as it was, order included. */
  lemma {:induction false} DestroyKeepsOrder(table: seq<Row>, pk: string, key: Value)
    requires forall i | 0 <= i < |table| :: Cell(table[i], pk) != key
    ensures Destroy(table, pk, key) == table
    decreases |table|
  {
    if |table| > 0 {
      DestroyKeepsOrder(table[..|table| - 1], pk, key);
      assert table[..|table| - 1] + [table[|table| - 1]] == table;
    }
  }

  /** The `delete` resolver: the instance must exist. Without a user resolver the instance
      is destroyed; with one, the user resolver's effect on the table stands instead. Either
      way the answer is `true`. */
  method ResolveDelete(m: Model, table: seq<Row>, id: Value, resolve: Option<(Row, seq<Row>) -> seq<Row>>, ctx: Option<ModelLoader>)
    returns (r: Result<bool, Error>, table': seq<Row>)
    requires ctx.Some? ==> ctx.value.Valid()
    modifies if ctx.Some? then {ctx.value} else {}
    ensures ctx.Some? ==>
      ctx.value.Valid() && ctx.value.loaders == WithLoader(old(ctx.value.loaders), m.Name(), m.PrimaryKey())
    ensures var found := Lookup(table, m.PrimaryKey(), id,
      if ctx.Some? then Some(LoaderFor(old(ctx.value.loaders), m.Name(), m.PrimaryKey())) else None);
      (found.None? ==> r == Failure(EnsureExistenceFailed(m.Name(), id)) && table' == table) &&
      (found.Some? ==>
        r == Success(true) &&
        table' == if resolve.None? then Destroy(table, m.PrimaryKey(), Cell(found.value, m.PrimaryKey()))
                  else resolve.value(found.value, table))
  {
    var instance := m.EnsureExistence(table, id, ctx);
    if instance.Failure? {
      return Failure(instance.error), table;
    }
    if resolve.None? {
      table' := Destroy(table, m.PrimaryKey(), Cell(instance.value, m.PrimaryKey()));
      return Success(true), table';
    }
    table' := resolve.value(instance.value, table);
    r := Success(true);
  }

  /** Without a context, a default delete removes the row found and every row with its key,
      and keeps every other row. */
  lemma DefaultDeleteRemoves(m: Model, table: seq<Row>, id: Value, row: Row)
    requires FindByPk(table, m.PrimaryKey(), id).Some?
    ensures var t := Destroy(table, m.PrimaryKey(), id);
      FindByPk(t, m.PrimaryKey(), id).None? &&
      (row in table && Cell(row, m.PrimaryKey()) != id ==> row in t)
  {
  }
}
