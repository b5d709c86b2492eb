/** GraphQL type values as the library builds them. Input, scalar and enum types are
    embedded where they are used; object (output) types are referred to by name, since
    model types refer to each other in cycles and graphql-js resolves them lazily. */
module Gql {
  import opened Wrappers
  import opened Js
  import opened Records

  datatype TypeRef =
    | Named(t: NamedType)
    | Ref(name: string)
    | NonNull(of: TypeRef)
    | ListOf(of: TypeRef)

  datatype NamedType =
    | Scalar(name: string)
    | EnumType(name: string, description: Option<string>, values: Record<Value>)
    | InputObject(name: string, description: Option<string>, inputFields: Record<InputField>)
    | ObjectType(name: string, description: Option<string>, fields: Record<Field>)

  datatype InputField = InputField(typ: TypeRef, description: Option<string>)

  /** Which resolver graphql-js calls for a field; the behaviour of each resolver is
      modelled next to the builder that installs it. */
  datatype ResolverTag =
    | DefaultResolver
    | UserResolver(resolverId: string)
    | BelongsToResolver(association: string)
    | HasOneResolver(association: string)
    | PaginationResolver(model: string, whereFrom: Option<string>)
    | ConfigPaginationResolver(model: string)
    | FindByIdResolver(model: string)
    | FindByIdsResolver(model: string)
    | CreateResolver(resolverId: string)
    | UpdateResolver(model: string, resolverId: string)
    | DeleteResolver(model: string, userResolver: Option<string>)

  datatype Field = Field(
    typ: TypeRef,
    description: Option<string>,
    defaultValue: Value,
    args: Record<InputField>,
    resolver: ResolverTag)

  /** `new GraphQLNonNullList(t)`, a list of non-null `t`. */
  function NonNullList(t: TypeRef): TypeRef {
    ListOf(NonNull(t))
  }

  /** A field with only a type, as `{ type }` in a field config map. */
  function TypeOnly(t: TypeRef): Field {
    Field(t, None, Undefined, [], DefaultResolver)
  }

  const GraphQLID := Scalar("ID")
  const GraphQLInt := Scalar("Int")
  const GraphQLFloat := Scalar("Float")
  const GraphQLString := Scalar("String")
  const GraphQLBoolean := Scalar("Boolean")
  /** The custom `Date` scalar; its parsing and serialisation are not modelled. */
  const GraphQLDate := Scalar("Date")
}
