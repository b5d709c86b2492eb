/** Result caches (src/utils/memoize.ts). `memoize` wraps one function with a cache keyed by
    an args identifier; `memoizer` keeps one such cache per function, finding a function's
    cache through a tag it stores on the function object.

    A memoised function may read and change state outside it (the tests increment a
    counter); that state is the `world` of type `W`, and a function is a map from the world
    and the arguments to the new world and the result. */
module Memoize {
  import opened Wrappers
  import opened Js

  type Callback<!W> = (W, seq<Value>) -> (W, Value)

  /** The cache, the world and the result after one memoised call. */
  datatype Step<W> = Step(cache: map<string, Value>, world: W, result: Value)

  /** One memoised call whose arguments have identifier `id`: a truthy cached result is
      returned as it is; otherwise the function runs and its result replaces the entry. */
  function MemoStep<W>(func: Callback<W>, cache: map<string, Value>, world: W, args: seq<Value>, id: string): Step<W> {
    if id in cache && Truthy(cache[id]) then Step(cache, world, cache[id])
    else
      var ran := func(world, args);
      Step(cache[id := ran.1], ran.0, ran.1)
  }

  /** A hit leaves the world alone, so the function did not run; a miss is exactly one run of
      the function, whose result is stored under the identifier and nothing else changes. */
  lemma MemoStepMeaning<W>(func: Callback<W>, cache: map<string, Value>, world: W, args: seq<Value>, id: string)
    ensures var s := MemoStep(func, cache, world, args, id);
      (id in cache && Truthy(cache[id]) ==> s == Step(cache, world, cache[id])) &&
      (!(id in cache && Truthy(cache[id])) ==>
        (s.world, s.result) == func(world, args) && s.cache.Keys == cache.Keys + {id} && s.cache[id] == s.result &&
        forall k | k in cache && k != id :: s.cache[k] == cache[k])
  {
  }

  /** A second call with the same identifier right after a truthy result answers that result
      and does not run the function: the world is where the first call left it. */
  lemma RepeatIsCached<W>(func: Callback<W>, cache: map<string, Value>, world: W, args: seq<Value>, args': seq<Value>, id: string)
    requires Truthy(MemoStep(func, cache, world, args, id).result)
    ensures var first := MemoStep(func, cache, world, args, id);
      MemoStep(func, first.cache, first.world, args', id) == first
  {
  }

  /** A falsy result is not a hit: the next call with the same identifier runs the function
      again and stores its new result. */
  lemma FalsyIsRecomputed<W>(func: Callback<W>, cache: map<string, Value>, world: W, args: seq<Value>, id: string)
    requires !Truthy(MemoStep(func, cache, world, args, id).result)
    ensures var first := MemoStep(func, cache, world, args, id);
      var second := MemoStep(func, first.cache, first.world, args, id);
      (second.world, second.result) == func(first.world, args) && second.cache == first.cache[id := second.result]
  {
  }

  /** The default args identifier, `args.toString()`. */
  function DefaultArgsId(args: seq<Value>): string {
    ArrayToString(args)
  }

  /** `memoize(func, formatArgsId)`: the returned function, with its cache. */
  class Memoized<W> {
    const func: Callback<W>
    const formatArgsId: seq<Value> -> string
    var cache: map<string, Value>
    /** The state the function reads and changes. */
    var world: W

    constructor(func: Callback<W>, formatArgsId: Option<seq<Value> -> string>, world: W)
      ensures this.func == func && this.world == world && cache == map[]
      ensures formatArgsId.Some? ==> this.formatArgsId == formatArgsId.value
      ensures formatArgsId.None? ==> this.formatArgsId == DefaultArgsId
    {
      this.func := func;
      var format: seq<Value> -> string := if formatArgsId.Some? then formatArgsId.value else DefaultArgsId;
      this.formatArgsId := format;
      this.world := world;
      cache := map[];
    }

    /** A call of the memoised function. */
    method Call(args: seq<Value>) returns (res: Value)
      modifies this
      ensures var s := MemoStep(func, old(cache), old(world), args, formatArgsId(args));
        cache == s.cache && world == s.world && res == s.result
    {
      var argsId := formatArgsId(args);
      if argsId in cache && Truthy(cache[argsId]) {
        return cache[argsId];
      }
      var ran := func(world, args);
      world := ran.0;
      res := ran.1;
      cache := cache[argsId := res];
    }
  }

  /** The `Symbol` a memoizer stores on a function: an object, fresh when created. */
  class Symbol {
    constructor() {}
  }

  /** A function object, with the two expando attributes the memoizer reads: its tag and its
      attached args formatter. */
  class Func<W> {
    const run: Callback<W>
    var tag: Option<Symbol>
    var argsFormatter: Option<seq<Value> -> string>

    constructor(run: Callback<W>)
      ensures this.run == run && tag.None? && argsFormatter.None?
    {
      this.run := run;
      tag := None;
      argsFormatter := None;
    }
  }

  /** `attachMemoizerArgsFormatter(func, formatArgsId)`: sets the formatter on the function
      and returns the same function. */
  method AttachMemoizerArgsFormatter<W>(func: Func<W>, formatArgsId: seq<Value> -> string) returns (same: Func<W>)
    modifies func
    ensures same == func && func.argsFormatter == Some(formatArgsId) && func.tag == old(func.tag)
  {
    func.argsFormatter := Some(formatArgsId);
    return func;
  }

  /** The args identifier the memoizer uses: the attached formatter's, or `args.toString()`. */
  function MemoizerArgsId(argsFormatter: Option<seq<Value> -> string>, args: seq<Value>): string {
    if argsFormatter.Some? then argsFormatter.value(args) else DefaultArgsId(args)
  }

  /** `memoizer()`: the returned function, with its per-function caches. */
  class Memoizer<W> {
    var caches: map<Symbol, map<string, Value>>
    var world: W

    constructor(world: W)
      ensures caches == map[] && this.world == world
    {
      caches := map[];
      this.world := world;
    }

    /** A call `memo(func, ...args)`. A function without a cache here gets a fresh tag and a
        cache holding just this call's result, whatever it is; a function with a cache makes
        a memoised call on it. */
    method Call(func: Func<W>, args: seq<Value>) returns (res: Value)
      modifies this, func
      ensures func.argsFormatter == old(func.argsFormatter)
      ensures var id := MemoizerArgsId(old(func.argsFormatter), args);
        if old(func.tag).Some? && old(func.tag).value in old(caches) then
          var s := MemoStep(func.run, old(caches)[old(func.tag).value], old(world), args, id);
          func.tag == old(func.tag) && caches == old(caches)[func.tag.value := s.cache] && world == s.world && res == s.result
        else
          func.tag.Some? && fresh(func.tag.value) && (world, res) == func.run(old(world), args) &&
          caches == old(caches)[func.tag.value := map[id := res]]
    {
      var argsId := MemoizerArgsId(func.argsFormatter, args);
      if func.tag.None? || func.tag.value !in caches {
        var newIdentifier := new Symbol();
        func.tag := Some(newIdentifier);
        var ran := func.run(world, args);
        world := ran.0;
        res := ran.1;
        caches := caches[newIdentifier := map[argsId := res]];
        return;
      }
      var identifier := func.tag.value;
      var functionCache := caches[identifier];
      if argsId in functionCache && Truthy(functionCache[argsId]) {
        return functionCache[argsId];
      }
      var ran := func.run(world, args);
      world := ran.0;
      res := ran.1;
      caches := caches[identifier := functionCache[argsId := res]];
    }
  }

  /** A fresh tag is not the tag of any cache already kept, so the first call for a function
      adds exactly one cache and leaves every other function's cache as it was. */
  lemma FirstCallAddsOne<W>(caches: map<Symbol, map<string, Value>>, tag: Symbol, entry: map<string, Value>)
    requires tag !in caches
    ensures caches[tag := entry].Keys == caches.Keys + {tag}
    ensures forall t | t in caches :: caches[tag := entry][t] == caches[t]
  {
  }

  /** The counter of the tests: `increment(value)` adds `value` to the world and answers the
      new total. */
  function Increment(world: int, args: seq<Value>): (int, Value) {
    var v := if |args| > 0 && args[0].Num? then args[0].n else 0;
    (world + v, Num(world + v))
  }

  /** As in the tests: from a nonzero total, a second call with the same arguments answers
      the first call's total again instead of adding once more. */
  lemma IncrementMemoized(world: int, n: int, id: string)
    requires world + n != 0
    ensures var first := MemoStep(Increment, map[], world, [Num(n)], id);
      first.result == Num(world + n) &&
      MemoStep(Increment, first.cache, first.world, [Num(n)], id).result == Num(world + n) &&
      MemoStep(Increment, first.cache, first.world, [Num(n)], id).world == world + n
  {
    var first := MemoStep(Increment, map[], world, [Num(n)], id);
    assert Truthy(first.result);
    RepeatIsCached(Increment, map[], world, [Num(n)], [Num(n)], id);
  }
}
