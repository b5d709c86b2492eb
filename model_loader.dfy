/** The per-request registry of loaders (src/definitions/ModelLoader.ts): one loader per
    model name, each batching primary-key lookups into a single `IN` query. The DataLoader
    library around the batch function is not part of this model; a loader is represented by
    its name and the model it loads. */
module ModelLoaders {
  import opened Wrappers
  import opened Js
  import opened Store
  import opened Errors

  /** A loader: its DataLoader name, the model name and the primary-key attribute it loads by. */
  datatype Loader = Loader(name: string, modelName: string, primaryKey: string)

  /** `makeModelLoaderName(model)`. */
  function LoaderName(modelName: string): string {
    modelName + ":Loader"
  }

  function NewLoader(modelName: string, primaryKey: string): (l: Loader)
    ensures l.name == modelName + ":Loader" && l.modelName == modelName && l.primaryKey == primaryKey
  {
    Loader(LoaderName(modelName), modelName, primaryKey)
  }

  /** The registry after `getModelLoader` for a model: unchanged when the name has a loader. */
  function WithLoader(m: map<string, Loader>, modelName: string, primaryKey: string): map<string, Loader> {
    if modelName in m then m else m[modelName := NewLoader(modelName, primaryKey)]
  }

  /** The loader `getModelLoader` returns. */
  function LoaderFor(m: map<string, Loader>, modelName: string, primaryKey: string): Loader {
    if modelName in m then m[modelName] else NewLoader(modelName, primaryKey)
  }

  /** Every loader is stored under its model's name and named after it. */
  ghost predicate Coherent(m: map<string, Loader>) {
    forall n | n in m :: m[n].modelName == n && m[n].name == LoaderName(n)
  }

  class ModelLoader {
    var loaders: map<string, Loader>

    ghost predicate Valid()
      reads this
    {
      Coherent(loaders)
    }

    constructor()
      ensures Valid() && loaders == map[]
    {
      loaders := map[];
    }

    /** `getModelLoader(model)`: the cached loader of the model's name, or a new one. */
    method GetModelLoader(modelName: string, primaryKey: string) returns (l: Loader)
      requires Valid()
      modifies this
      ensures Valid()
      ensures loaders == WithLoader(old(loaders), modelName, primaryKey)
      ensures l == LoaderFor(old(loaders), modelName, primaryKey)
      ensures l.modelName == modelName
    {
      if modelName in loaders {
        l := loaders[modelName];
        return;
      }
      l := InitModelLoader(modelName, primaryKey);
    }

    /** `_initModelLoader(model)`: creates the loader and registers it under the model name. */
    method InitModelLoader(modelName: string, primaryKey: string) returns (l: Loader)
      requires Valid()
      modifies this
      ensures Valid()
      ensures l == NewLoader(modelName, primaryKey)
      ensures loaders == old(loaders)[modelName := l]
    {
      l := NewLoader(modelName, primaryKey);
      loaders := loaders[modelName := l];
    }
  }

  /** Once a name has a loader, every later request for that name gets the same loader,
      whatever primary key the asking model has: two models with one name share a loader. */
  lemma SharedLoader(m: map<string, Loader>, modelName: string, pk1: string, pk2: string)
    ensures LoaderFor(WithLoader(m, modelName, pk1), modelName, pk2) == LoaderFor(m, modelName, pk1)
    ensures WithLoader(WithLoader(m, modelName, pk1), modelName, pk2) == WithLoader(m, modelName, pk1)
  {
  }

  /** Initialising a loader adds exactly the model's name and leaves every other entry as it was. */
  lemma InitAddsOne(m: map<string, Loader>, modelName: string, primaryKey: string)
    requires modelName !in m
    ensures WithLoader(m, modelName, primaryKey).Keys == m.Keys + {modelName}
    ensures forall n | n in m :: WithLoader(m, modelName, primaryKey)[n] == m[n]
  {
  }

  //////////////////////////////////////////////////////////////////////////
  // The batch function

  /** The one query a batch issues: `primaryKey IN keys`. */
  function BatchQuery(primaryKey: string, keys: seq<Value>): FindOptions {
    FindOptions(None, None, None, None, None, AttrCond(primaryKey, Cmp(In, List(keys))))
  }

  /** `new Map(items.map(item => [item[primaryKey], item]))`: a later row replaces an earlier
      one with the same key. */
  function PkMap(items: seq<Row>, primaryKey: string): map<Value, Row> {
    if |items| == 0 then map[]
    else PkMap(items[..|items| - 1], primaryKey)[Cell(items[|items| - 1], primaryKey) := items[|items| - 1]]
  }

  /** A key is in the map exactly when some row has it. */
  lemma {:induction false} PkMapHas(items: seq<Row>, primaryKey: string, k: Value)
    ensures k in PkMap(items, primaryKey) <==> exists i | 0 <= i < |items| :: Cell(items[i], primaryKey) == k
  {
    if |items| > 0 {
      var init := items[..|items| - 1];
      var last := |items| - 1;
      PkMapHas(init, primaryKey, k);
      if exists i | 0 <= i < |items| :: Cell(items[i], primaryKey) == k {
        var i :| 0 <= i < |items| && Cell(items[i], primaryKey) == k;
        if i < last { assert init[i] == items[i]; }
      }
      if exists i | 0 <= i < |init| :: Cell(init[i], primaryKey) == k {
        var i :| 0 <= i < |init| && Cell(init[i], primaryKey) == k;
        assert items[i] == init[i];
      }
    }
  }

  /** A key in the map maps to the last row that has it. */
  lemma {:induction false} PkMapLast(items: seq<Row>, primaryKey: string, k: Value)
    requires k in PkMap(items, primaryKey)
    ensures exists j | 0 <= j < |items| ::
      Cell(items[j], primaryKey) == k && PkMap(items, primaryKey)[k] == items[j] &&
      forall j' | j < j' < |items| :: Cell(items[j'], primaryKey) != k
  {
    var init := items[..|items| - 1];
    var last := |items| - 1;
    if Cell(items[last], primaryKey) != k {
      PkMapLast(init, primaryKey, k);
      var j :| 0 <= j < |init| && Cell(init[j], primaryKey) == k && PkMap(init, primaryKey)[k] == init[j] &&
        forall j' | j < j' < |init| :: Cell(init[j'], primaryKey) != k;
      assert items[j] == init[j];
      assert forall j' | j < j' < |items| :: Cell(items[j'], primaryKey) != k by {
        forall j' | j < j' < |items| ensures Cell(items[j'], primaryKey) != k {
          if j' < last { assert items[j'] == init[j']; }
        }
      }
    }
  }

  /** A key is in the map exactly when some row has it, and it maps to the last such row. */
  lemma PkMapGet(items: seq<Row>, primaryKey: string, k: Value)
    ensures k in PkMap(items, primaryKey) <==> exists i | 0 <= i < |items| :: Cell(items[i], primaryKey) == k
    ensures k in PkMap(items, primaryKey) ==>
      exists j | 0 <= j < |items| :: Cell(items[j], primaryKey) == k && PkMap(items, primaryKey)[k] == items[j] &&
        forall j' | j < j' < |items| :: Cell(items[j'], primaryKey) != k
  {
    PkMapHas(items, primaryKey, k);
    if k in PkMap(items, primaryKey) {
      PkMapLast(items, primaryKey, k);
    }
  }

  /** The batch function of a loader: one query for all keys, then for each key, in order, the
      row with that primary key or a per-key error. */
  function BatchLoad(table: seq<Row>, loader: Loader, keys: seq<Value>): (r: seq<Result<Row, Error>>)
    ensures |r| == |keys|
  {
    var items := FindAll(table, BatchQuery(loader.primaryKey, keys));
    var m := PkMap(items, loader.primaryKey);
    seq(|keys|, i requires 0 <= i < |keys| =>
      if keys[i] in m then Success(m[keys[i]]) else Failure(NotLoaded(loader.modelName, keys[i])))
  }

  /** The rows the batch query returns are exactly the table rows whose primary key is one of
      the keys (a `null` key matches nothing). */
  lemma BatchQueryRows(table: seq<Row>, primaryKey: string, keys: seq<Value>, row: Row)
    ensures row in FindAll(table, BatchQuery(primaryKey, keys)) <==>
      row in table && Present(Cell(row, primaryKey)) && Cell(row, primaryKey) in keys
  {
  }

  /** Position `i` of the batch answers `keys[i]`: a row of the table with that primary key
      when there is one, and otherwise the per-key `NotLoaded` error. Equal keys get equal
      answers. */
  lemma BatchLoadMeaning(table: seq<Row>, loader: Loader, keys: seq<Value>, i: nat)
    requires i < |keys|
    ensures var r := BatchLoad(table, loader, keys);
      (r[i].Success? <==> Present(keys[i]) && exists row | row in table :: Cell(row, loader.primaryKey) == keys[i]) &&
      (r[i].Success? ==> r[i].value in table && Cell(r[i].value, loader.primaryKey) == keys[i]) &&
      (r[i].Failure? ==> r[i].error == NotLoaded(loader.modelName, keys[i])) &&
      (forall j | 0 <= j < |keys| && keys[j] == keys[i] :: r[j] == r[i])
  {
    var pk := loader.primaryKey;
    var items := FindAll(table, BatchQuery(pk, keys));
    var k := keys[i];
    PkMapGet(items, pk, k);
    if Present(k) && exists row | row in table :: Cell(row, pk) == k {
      var row :| row in table && Cell(row, pk) == k;
      BatchQueryRows(table, pk, keys, row);
      var n :| 0 <= n < |items| && items[n] == row;
    }
    if k in PkMap(items, pk) {
      var n :| 0 <= n < |items| && Cell(items[n], pk) == k && PkMap(items, pk)[k] == items[n];
      assert items[n] in items;
      BatchQueryRows(table, pk, keys, items[n]);
    }
  }

  /** `loader.load(id)`, one key at a time: the batch over that key alone. */
  function Load(table: seq<Row>, loader: Loader, id: Value): Result<Row, Error> {
    BatchLoad(table, loader, [id])[0]
  }

  /** No two rows of the table share a present primary key. */
  predicate UniqueKey(table: seq<Row>, primaryKey: string) {
    forall i, j | 0 <= i < |table| && 0 <= j < |table| ::
      Present(Cell(table[i], primaryKey)) && Cell(table[i], primaryKey) == Cell(table[j], primaryKey) ==> i == j
  }

  /** On a table whose primary key is unique, loading an id through a loader answers what
      `findByPk` answers, with a failure where `findByPk` finds nothing. */
  lemma LoadIsFindByPk(table: seq<Row>, loader: Loader, id: Value)
    requires UniqueKey(table, loader.primaryKey)
    ensures var r := Load(table, loader, id);
      (r.Success? <==> FindByPk(table, loader.primaryKey, id).Some?) &&
      (r.Success? ==> FindByPk(table, loader.primaryKey, id) == Some(r.value))
  {
    var pk := loader.primaryKey;
    BatchLoadMeaning(table, loader, [id], 0);
    var r := Load(table, loader, id);
    var f := FindByPk(table, pk, id);
    if f.Some? {
      assert f.value in table;
    }
    if r.Success? && Present(id) {
      assert Satisfies(r.value, AttrEq(pk, id));
      assert f.Some?;
      var a :| 0 <= a < |table| && table[a] == r.value;
      var b :| 0 <= b < |table| && table[b] == f.value;
      assert a == b;
    }
  }
}
