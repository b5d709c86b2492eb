/** Plain JavaScript objects used as records (src/utils/object.ts): the key-ordered view of
    `{ [key]: value }`, the property assignment `obj[key] = value`, the object spread
    `{ ...a, ...b }`, and the four record combinators the library builds everything from.
    Keys are visited in insertion order (JavaScript's reordering of integer-like keys is
    not modelled). */
module Records {
  import opened Wrappers
  import opened Seqs

  /** No key occurs twice: what makes a sequence of pairs an object. */
  ghost predicate Keyed<V>(r: seq<(string, V)>) {
    forall i, j | 0 <= i < j < |r| :: r[i].0 != r[j].0
  }

  type Record<V> = r: seq<(string, V)> | Keyed(r) witness []

  function Keys<V>(r: seq<(string, V)>): (ks: seq<string>)
    ensures |ks| == |r|
    ensures forall i | 0 <= i < |r| :: ks[i] == r[i].0
  {
    seq(|r|, i requires 0 <= i < |r| => r[i].0)
  }

  /** Position of the first entry with key `k`, or -1. */
  function IndexOf<V>(r: seq<(string, V)>, k: string): (i: int)
    ensures -1 <= i < |r|
    ensures 0 <= i ==> r[i].0 == k && forall j | 0 <= j < i :: r[j].0 != k
    ensures i < 0 ==> forall j | 0 <= j < |r| :: r[j].0 != k
  {
    if |r| == 0 then -1
    else if r[|r| - 1].0 == k && IndexOf(r[..|r| - 1], k) < 0 then |r| - 1
    else IndexOf(r[..|r| - 1], k)
  }

  /** `k in obj` */
  predicate Has<V>(r: seq<(string, V)>, k: string) {
    IndexOf(r, k) >= 0
  }

  /** `obj[k]`, with `None` for a missing key. */
  function Get<V>(r: seq<(string, V)>, k: string): Option<V> {
    var i := IndexOf(r, k);
    if i < 0 then None else Some(r[i].1)
  }

  /** In an object every entry is what its key reads. */
  lemma GetEntry<V>(r: Record<V>, i: nat)
    requires i < |r|
    ensures Get(r, r[i].0) == Some(r[i].1)
  {
  }

  lemma KeysAppend<V>(a: seq<(string, V)>, b: seq<(string, V)>)
    ensures Keys(a + b) == Keys(a) + Keys(b)
  {
  }

  lemma HasIffKey<V>(r: seq<(string, V)>, k: string)
    ensures Has(r, k) <==> k in Keys(r)
  {
    if k in Keys(r) {
      var i :| 0 <= i < |r| && Keys(r)[i] == k;
      assert r[i].0 == k;
    }
  }

  /** A one-entry object holds exactly its key. */
  lemma SingletonGet<V>(key: string, v: V, k: string)
    ensures Get([(key, v)], k) == if k == key then Some(v) else None
  {
  }

  /** The assignment `obj[k] = v`: an existing key keeps its position, a new key goes last. */
  function Put<V>(r: Record<V>, k: string, v: V): (r': Record<V>)
    ensures Has(r, k) ==> Keys(r') == Keys(r)
    ensures !Has(r, k) ==> r' == r + [(k, v)]
    ensures Get(r', k) == Some(v)
    ensures forall k' | k' != k :: Get(r', k') == Get(r, k')
  {
    var i := IndexOf(r, k);
    if i < 0 then
      var r' := r + [(k, v)];
      assert Keyed(r') by {
        forall a, b | 0 <= a < b < |r'| ensures r'[a].0 != r'[b].0 {
          if b < |r| { assert r'[a] == r[a] && r'[b] == r[b]; }
        }
      }
      assert IndexOf(r', k) == |r|;
      forall k' | k' != k ensures Get(r', k') == Get(r, k') {
        assert r'[..|r|] == r;
      }
      r'
    else
      var r' := r[i := (k, v)];
      assert Keys(r') == Keys(r);
      assert Keyed(r') by {
        forall a, b | 0 <= a < b < |r'| ensures r'[a].0 != r'[b].0 {
          assert r'[a].0 == Keys(r')[a] == Keys(r)[a] == r[a].0;
          assert r'[b].0 == Keys(r')[b] == Keys(r)[b] == r[b].0;
        }
      }
      GetEntry(r', i);
      forall k' | k' != k ensures Get(r', k') == Get(r, k') {
        var j := IndexOf(r, k');
        if j >= 0 {
          GetEntry(r', j);
        } else {
          assert forall a | 0 <= a < |r'| :: r'[a].0 == r[a].0 || a == i;
        }
      }
      r'
  }

  /** The last value an entry list gives key `k`. */
  function LastValue<V>(es: seq<(string, V)>, k: string): Option<V> {
    if |es| == 0 then None
    else if es[|es| - 1].0 == k then Some(es[|es| - 1].1)
    else LastValue(es[..|es| - 1], k)
  }

  /** `{ ...a, ...Object.fromEntries(es) }`: each entry of `es`, in order, assigned onto `a`. */
  function Spread<V>(a: Record<V>, es: seq<(string, V)>): Record<V>
    decreases |es|
  {
    if |es| == 0 then a
    else Put(Spread(a, es[..|es| - 1]), es[|es| - 1].0, es[|es| - 1].1)
  }

  /** A later key shadows an earlier one: a key reads its last value in `es`, else its value in `a`. */
  lemma {:induction false} SpreadGet<V>(a: Record<V>, es: seq<(string, V)>, k: string)
    ensures Get(Spread(a, es), k) == if LastValue(es, k).Some? then LastValue(es, k) else Get(a, k)
    decreases |es|
  {
    if |es| > 0 {
      SpreadGet(a, es[..|es| - 1], k);
    }
  }

  /** The spread holds exactly the keys of both sides. */
  lemma {:induction false} SpreadHas<V>(a: Record<V>, es: seq<(string, V)>, k: string)
    ensures Has(Spread(a, es), k) <==> Has(a, k) || LastValue(es, k).Some?
    decreases |es|
  {
    if |es| > 0 {
      SpreadHas(a, es[..|es| - 1], k);
    }
  }

  /** Spreading distinct keys that the left side lacks appends them in order. */
  lemma {:induction false} SpreadFresh<V>(a: Record<V>, es: seq<(string, V)>)
    requires forall i | 0 <= i < |es| :: !Has(a, es[i].0)
    requires forall i, j | 0 <= i < j < |es| :: es[i].0 != es[j].0
    ensures Spread(a, es) == a + es
    decreases |es|
  {
    if |es| > 0 {
      var init := es[..|es| - 1];
      var last := es[|es| - 1];
      SpreadFresh(a, init);
      assert !Has(a + init, last.0) by {
        forall j | 0 <= j < |a + init| ensures (a + init)[j].0 != last.0 {
          if j >= |a| {
            assert (a + init)[j] == es[j - |a|];
          }
        }
      }
      Snoc(es);
      Associative(a, init, [last]);
    }
  }

  /** Spreading one new key appends it. */
  lemma SpreadNew<V>(a: Record<V>, k: string, v: V)
    requires !Has(a, k)
    ensures Spread(a, [(k, v)]) == a + [(k, v)]
  {
    assert [(k, v)][..0] == [];
  }

  /** Spreading an object whose keys the left side lacks appends it. */
  lemma SpreadDisjoint<V>(a: Record<V>, b: Record<V>)
    requires forall i | 0 <= i < |b| :: b[i].0 !in Keys(a)
    ensures Spread(a, b) == a + b
  {
    forall i | 0 <= i < |b| ensures !Has(a, b[i].0) {
      HasIffKey(a, b[i].0);
    }
    SpreadFresh(a, b);
  }

  /** In an object the first and the last entry of a key are the same entry. */
  lemma {:induction false} LastValueOfRecord<V>(r: Record<V>, k: string)
    ensures LastValue(r, k) == Get(r, k)
    decreases |r|
  {
    if |r| > 0 {
      var init := r[..|r| - 1];
      LastValueOfRecord(init, k);
      if r[|r| - 1].0 == k {
        assert IndexOf(init, k) < 0 by {
          forall j | 0 <= j < |init| ensures init[j].0 != k {
            assert init[j] == r[j];
          }
        }
      } else if IndexOf(init, k) >= 0 {
        assert IndexOf(r, k) == IndexOf(init, k);
      }
    }
  }

  /** `{ ...a, ...b }` for two objects: `b` wins on the keys they share. */
  lemma SpreadRecordGet<V>(a: Record<V>, b: Record<V>, k: string)
    ensures Get(Spread(a, b), k) == if Has(b, k) then Get(b, k) else Get(a, k)
  {
    SpreadGet(a, b, k);
    LastValueOfRecord(b, k);
  }

  /** A spread of an object keeps the left side's keys in place and appends the new keys. */
  lemma {:induction false} SpreadKeysPrefix<V>(a: Record<V>, es: seq<(string, V)>)
    ensures |Spread(a, es)| >= |a|
    ensures Keys(Spread(a, es))[..|a|] == Keys(a)
    decreases |es|
  {
    if |es| > 0 {
      SpreadKeysPrefix(a, es[..|es| - 1]);
    }
  }

  /** In particular the first key stays first. */
  lemma SpreadKeepsFirst<V>(a: Record<V>, es: seq<(string, V)>)
    requires |a| > 0
    ensures |Spread(a, es)| > 0 && Spread(a, es)[0].0 == a[0].0
  {
    SpreadKeysPrefix(a, es);
    assert Keys(Spread(a, es))[0] == Keys(a)[0];
  }

  //////////////////////////////////////////////////////////////////////////
  // mapRecord, filterRecord, reduceRecord, makeRecordFromEntries

  /** `mapRecord(obj, fn)`: same keys, same order, each value `fn(value, key)`. */
  function Mapped<V, W>(r: Record<V>, f: (V, string) -> W): Record<W> {
    var m := seq(|r|, i requires 0 <= i < |r| => (r[i].0, f(r[i].1, r[i].0)));
    assert Keys(m) == Keys(r);
    m
  }

  lemma MappedKeys<V, W>(r: Record<V>, f: (V, string) -> W)
    ensures Keys(Mapped(r, f)) == Keys(r)
  {
  }

  /** Each key of the mapped record reads `fn(value, key)`, and only the input's keys are there. */
  lemma MappedGet<V, W>(r: Record<V>, f: (V, string) -> W, k: string)
    ensures Get(Mapped(r, f), k) == if Has(r, k) then Some(f(Get(r, k).value, k)) else None
  {
    var m := Mapped(r, f);
    var i := IndexOf(r, k);
    if i >= 0 {
      GetEntry(m, i);
      GetEntry(r, i);
    } else {
      assert forall j | 0 <= j < |m| :: m[j].0 == r[j].0;
    }
  }

  /** `filterRecord(obj, fn)`: the entries whose predicate holds, in order. */
  function Filtered<V>(r: Record<V>, p: (V, string) -> bool): (f: Record<V>)
    ensures forall e | e in f :: e in r && p(e.1, e.0)
    ensures forall e | e in r && p(e.1, e.0) :: e in f
    ensures |f| <= |r|
    decreases |r|
  {
    if |r| == 0 then []
    else
      var init := r[..|r| - 1];
      var last := r[|r| - 1];
      var f := Filtered(init, p);
      if p(last.1, last.0) then
        assert forall e | e in f :: e.0 != last.0 by {
          forall e | e in f ensures e.0 != last.0 {
            var j :| 0 <= j < |init| && init[j] == e;
            assert r[j] == e;
          }
        }
        f + [last]
      else f
  }

  /** The filtered record keeps exactly the keys whose predicate holds, with their values. */
  lemma FilteredGet<V>(r: Record<V>, p: (V, string) -> bool, k: string)
    ensures Get(Filtered(r, p), k) == if Has(r, k) && p(Get(r, k).value, k) then Get(r, k) else None
  {
    var f := Filtered(r, p);
    var i := IndexOf(r, k);
    var j := IndexOf(f, k);
    if j >= 0 {
      assert f[j] in r;
      var i' :| 0 <= i' < |r| && r[i'] == f[j];
      GetEntry(r, i');
      GetEntry(f, j);
    }
  }

  /** `reduceRecord(obj, fn, init)`: a left fold over the entries in key order. */
  function Folded<V, A>(r: seq<(string, V)>, f: (A, V, string) -> A, init: A): A
    decreases |r|
  {
    if |r| == 0 then init
    else f(Folded(r[..|r| - 1], f, init), r[|r| - 1].1, r[|r| - 1].0)
  }

  /** `makeRecordFromEntries(entries)`: assigning every entry in order onto `{}`. */
  function FromEntries<V>(es: seq<(string, V)>): Record<V> {
    Spread([], es)
  }

  /** Every entry key is present, and the last value of a repeated key wins. */
  lemma FromEntriesGet<V>(es: seq<(string, V)>, k: string)
    ensures Get(FromEntries(es), k) == LastValue(es, k)
  {
    SpreadGet([], es, k);
  }

  method MapRecord<V, W>(obj: Record<V>, fn: (V, string) -> W) returns (newObj: Record<W>)
    ensures newObj == Mapped(obj, fn)
  {
    newObj := [];
    var i := 0;
    while i < |obj|
      invariant 0 <= i <= |obj|
      invariant newObj == Mapped(obj[..i], fn)
    {
      var (key, value) := obj[i];
      assert !Has(newObj, key) by {
        assert forall j | 0 <= j < |newObj| :: newObj[j].0 == obj[j].0;
      }
      newObj := Put(newObj, key, fn(value, key));
      assert obj[..i + 1] == obj[..i] + [obj[i]];
      i := i + 1;
    }
    assert obj[..i] == obj;
  }

  method FilterRecord<V>(obj: Record<V>, fn: (V, string) -> bool) returns (newObj: Record<V>)
    ensures newObj == Filtered(obj, fn)
  {
    newObj := [];
    var i := 0;
    while i < |obj|
      invariant 0 <= i <= |obj|
      invariant newObj == Filtered(obj[..i], fn)
    {
      FilteredPut(obj, fn, i);
      if fn(obj[i].1, obj[i].0) {
        newObj := Put(newObj, obj[i].0, obj[i].1);
      }
      i := i + 1;
    }
    assert obj[..i] == obj;
  }

  /** One more entry of the record: it is appended when its predicate holds, and its key is
      not among those kept so far. */
  lemma FilteredStep<V>(r: Record<V>, p: (V, string) -> bool, i: nat)
    requires i < |r|
    ensures !Has(Filtered(r[..i], p), r[i].0)
    ensures Filtered(r[..i + 1], p) == if p(r[i].1, r[i].0) then Filtered(r[..i], p) + [r[i]] else Filtered(r[..i], p)
  {
    var prefix := r[..i + 1];
    assert prefix[..i] == r[..i] && prefix[i] == r[i];
    FilteredLast(prefix, p);
    FilteredOmits(r, p, i);
  }

  /** The step of `filterRecord`: assigning the entry at `i` when its predicate holds. */
  lemma FilteredPut<V>(r: Record<V>, p: (V, string) -> bool, i: nat)
    requires i < |r|
    ensures Filtered(r[..i + 1], p) ==
      if p(r[i].1, r[i].0) then Put(Filtered(r[..i], p), r[i].0, r[i].1) else Filtered(r[..i], p)
  {
    FilteredStep(r, p, i);
  }

  /** The filter of a nonempty record, from the filter of all but its last entry. */
  lemma FilteredLast<V>(r: Record<V>, p: (V, string) -> bool)
    requires |r| > 0
    ensures Filtered(r, p) == if p(r[|r| - 1].1, r[|r| - 1].0) then Filtered(r[..|r| - 1], p) + [r[|r| - 1]] else Filtered(r[..|r| - 1], p)
  {
  }

  /** The entries kept from before position `i` do not hold the key at `i`. */
  lemma FilteredOmits<V>(r: Record<V>, p: (V, string) -> bool, i: nat)
    requires i < |r|
    ensures !Has(Filtered(r[..i], p), r[i].0)
  {
    var f := Filtered(r[..i], p);
    forall j | 0 <= j < |f| ensures f[j].0 != r[i].0 {
      assert f[j] in r[..i];
    }
  }

  method ReduceRecord<V, A>(obj: Record<V>, fn: (A, V, string) -> A, initialValue: A) returns (acc: A)
    ensures acc == Folded(obj, fn, initialValue)
  {
    acc := initialValue;
    var i := 0;
    while i < |obj|
      invariant 0 <= i <= |obj|
      invariant acc == Folded(obj[..i], fn, initialValue)
    {
      var (key, value) := obj[i];
      assert obj[..i + 1][..i] == obj[..i];
      acc := fn(acc, value, key);
      i := i + 1;
    }
    assert obj[..i] == obj;
  }

  method MakeRecordFromEntries<V>(entries: seq<(string, V)>) returns (acc: Record<V>)
    ensures acc == FromEntries(entries)
  {
    acc := [];
    var i := 0;
    while i < |entries|
      invariant 0 <= i <= |entries|
      invariant acc == FromEntries(entries[..i])
    {
      var (key, val) := entries[i];
      assert entries[..i + 1][..i] == entries[..i];
      acc := Put(acc, key, val);
      i := i + 1;
    }
    assert entries[..i] == entries;
  }
}
