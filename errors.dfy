/** The errors the library throws, one constructor per `throw` or failing `assert`. */
module Errors {
  import opened Js

  datatype Error =
    | UnknownFilterKey(key: string)
    | ResolveNotAFunction(key: string)
    | UndefinedFilter(column: string)
    | InvalidAssociationType(kind: string)
    | DuplicatedAssociation(model: string, association: string)
    | UnknownAssociation(association: string)
    | UnsupportedAssociationType
    | EnsureExistenceFailed(model: string, id: Value)
    | NotLoaded(model: string, identifier: Value)
    | UnknownFragment(fragment: string)
    | SelectionTooDeep
    | InvalidNull(model: string, field: string)
    | InvalidValue(model: string, field: string, value: Value)
    | UnsupportedExposeField(exposeField: string)
}
