/** `cacheGraphQLType`: a process-wide map from type name to the first GraphQL type
    registered under that name. The module-level `Map` becomes the field of a `Cache`
    object that every builder receives. */
module TypeCache {
  import opened Gql

  /** The cache after `cacheGraphQLType(t)`: unchanged when the name is taken, otherwise
      extended with `t`. */
  function Registered(m: map<string, NamedType>, t: NamedType): map<string, NamedType> {
    if t.name in m then m else m[t.name := t]
  }

  /** What `cacheGraphQLType(t)` returns on the cache `m`. */
  function Lookup(m: map<string, NamedType>, t: NamedType): NamedType {
    if t.name in m then m[t.name] else t
  }

  /** Every entry is stored under its own name. */
  ghost predicate Coherent(m: map<string, NamedType>) {
    forall n | n in m :: m[n].name == n
  }

  class Cache {
    var types: map<string, NamedType>

    ghost predicate Valid()
      reads this
    {
      Coherent(types)
    }

    constructor()
      ensures Valid()
      ensures types == map[]
    {
      types := map[];
    }

    method CacheType(t: NamedType) returns (r: NamedType)
      requires Valid()
      modifies this
      ensures Valid()
      ensures types == Registered(old(types), t)
      ensures r == Lookup(old(types), t)
      ensures r.name == t.name
    {
      var typeName := t.name;
      if typeName in types {
        r := types[typeName];
        return;
      }
      types := types[typeName := t];
      r := t;
    }
  }

  /** A name already cached keeps its first type, which is returned; the argument is discarded. */
  lemma FirstWins(m: map<string, NamedType>, t: NamedType)
    requires t.name in m
    ensures Registered(m, t) == m
    ensures Lookup(m, t) == m[t.name]
  {
  }

  /** A new name stores the argument and returns it. */
  lemma StoresNew(m: map<string, NamedType>, t: NamedType)
    requires t.name !in m
    ensures Registered(m, t) == m[t.name := t]
    ensures Lookup(m, t) == t
  {
  }

  /** The returned type is named as the argument, on a coherent cache. */
  lemma LookupKeepsName(m: map<string, NamedType>, t: NamedType)
    requires Coherent(m)
    ensures Lookup(m, t).name == t.name
    ensures Coherent(Registered(m, t))
  {
  }

  /** The cache only grows, by the argument's name at most, and other entries are unchanged. */
  lemma OnlyGrows(m: map<string, NamedType>, t: NamedType)
    ensures Registered(m, t).Keys == m.Keys + {t.name}
    ensures forall n | n in m :: Registered(m, t)[n] == m[n]
  {
  }

  /** Registering twice has the effect of registering once, and answers the same. */
  lemma Idempotent(m: map<string, NamedType>, t: NamedType)
    ensures Registered(Registered(m, t), t) == Registered(m, t)
    ensures Lookup(Registered(m, t), t) == Lookup(m, t)
  {
  }
}
