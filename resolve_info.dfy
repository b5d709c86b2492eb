/** The walk over a query's selection tree that collects the selected field paths
    (src/graphql-utils/schema/resolveInfo.ts). A path is the dot-joined field names from depth
    1 down to the field; the root fields themselves, at depth 0, are not recorded. */
module ResolveInfo {
  import opened Wrappers
  import opened Errors

  /** A selection node. A field without a selection set has no sub-selections. */
  datatype Selection =
    | Field(name: string, selections: seq<Selection>)
    | InlineFragment(fragmentSelections: seq<Selection>)
    | FragmentSpread(fragmentName: string)

  /** The part of the resolve info the walk reads. */
  datatype Info = Info(fieldNodes: seq<Selection>, fragments: map<string, seq<Selection>>)

  /** The path of a field named `name` under `path` at `depth`; `""` stands for no path (the
      source's `null`, and an empty path, which is falsy, behaves the same). */
  function NewPath(path: string, depth: nat, name: string): (p: string)
    ensures depth == 0 ==> p == ""
    ensures depth > 0 && path == "" ==> p == name
    ensures depth > 0 && path != "" ==> p == path + "." + name
  {
    if depth > 0 then (if path != "" then path + "." else "") + name else ""
  }

  /** The paths `descendSelection` adds for `sels`, in order, or the error of the first unknown
      fragment it meets. Each fragment spread spends one unit of `fuel`; running out is
      reported as `SelectionTooDeep`. A `maxDepth` of 0 means no depth bound. */
  function Paths(sels: seq<Selection>, path: string, depth: nat, fragments: map<string, seq<Selection>>, maxDepth: nat, fuel: nat): Result<set<string>, Error>
    decreases fuel, sels
  {
    if maxDepth != 0 && depth > maxDepth then Success({})
    else if |sels| == 0 then Success({})
    else
      match Paths(sels[..|sels| - 1], path, depth, fragments, maxDepth, fuel)
      case Failure(e) => Failure(e)
      case Success(before) =>
        match sels[|sels| - 1]
        case Field(name, sub) =>
          var newPath := NewPath(path, depth, name);
          var here := if newPath != "" then {newPath} else {};
          (match Paths(sub, newPath, depth + 1, fragments, maxDepth, fuel)
           case Failure(e) => Failure(e)
           case Success(below) => Success(before + here + below))
        case InlineFragment(sub) =>
          (match Paths(sub, path, depth, fragments, maxDepth, fuel)
           case Failure(e) => Failure(e)
           case Success(below) => Success(before + below))
        case FragmentSpread(name) =>
          if name !in fragments then Failure(UnknownFragment(name))
          else if fuel == 0 then Failure(SelectionTooDeep)
          else
            (match Paths(fragments[name], path, depth, fragments, maxDepth, fuel - 1)
             case Failure(e) => Failure(e)
             case Success(below) => Success(before + below))
  }

  /** The set after adding the walk's paths to `selected`. */
  function Added(selected: set<string>, r: Result<set<string>, Error>): Result<set<string>, Error> {
    match r
    case Success(s) => Success(selected + s)
    case Failure(e) => Failure(e)
  }

  /** `descendSelection`: walks `sels` in order, adding each field's path to the set and
      descending into its selection set, and into fragments at the same path and depth. */
  method Descend(sels: seq<Selection>, selected: set<string>, path: string, depth: nat, fragments: map<string, seq<Selection>>, maxDepth: nat, fuel: nat) returns (r: Result<set<string>, Error>)
    ensures r == Added(selected, Paths(sels, path, depth, fragments, maxDepth, fuel))
    decreases fuel, sels, 1
  {
    if maxDepth != 0 && depth > maxDepth {
      assert selected + {} == selected;
      return Success(selected);
    }
    var acc := selected;
    var i := 0;
    assert Paths(sels[..0], path, depth, fragments, maxDepth, fuel) == Success({});
    assert selected + {} == selected;
    while i < |sels|
      invariant 0 <= i <= |sels|
      invariant Added(selected, Paths(sels[..i], path, depth, fragments, maxDepth, fuel)) == Success(acc)
      decreases |sels| - i
    {
      var below: Result<set<string>, Error>;
      if sels[i].Field? {
        below := DescendField(sels, i, acc, selected, path, depth, fragments, maxDepth, fuel);
      } else {
        below := DescendFragment(sels, i, acc, selected, path, depth, fragments, maxDepth, fuel);
      }
      if below.Failure? {
        PathsPrefixFails(sels, i + 1, path, depth, fragments, maxDepth, fuel);
        return below;
      }
      acc := below.value;
      i := i + 1;
    }
    assert sels[..|sels|] == sels;
    r := Success(acc);
  }

  /** One field of the loop: its path is added, then its selection set is walked one level
      deeper under that path. */
  method DescendField(sels: seq<Selection>, i: nat, acc: set<string>, ghost selected: set<string>, path: string, depth: nat, fragments: map<string, seq<Selection>>, maxDepth: nat, fuel: nat) returns (below: Result<set<string>, Error>)
    requires i < |sels| && sels[i].Field?
    requires !(maxDepth != 0 && depth > maxDepth)
    requires Paths(sels[..i], path, depth, fragments, maxDepth, fuel).Success?
    requires acc == selected + Paths(sels[..i], path, depth, fragments, maxDepth, fuel).value
    ensures below == Added(selected, Paths(sels[..i + 1], path, depth, fragments, maxDepth, fuel))
    decreases fuel, sels, 0
  {
    ghost var before := Paths(sels[..i], path, depth, fragments, maxDepth, fuel).value;
    var newPath := NewPath(path, depth, sels[i].name);
    var paths := acc;
    if newPath != "" {
      paths := paths + {newPath};
    }
    ghost var here: set<string> := if newPath != "" then {newPath} else {};
    PathAdded(acc, selected, before, newPath);
    below := Descend(sels[i].selections, paths, newPath, depth + 1, fragments, maxDepth, fuel);
    FieldStep(sels, i, path, depth, fragments, maxDepth, fuel);
    AddedTwice(selected, before + here, Paths(sels[i].selections, newPath, depth + 1, fragments, maxDepth, fuel));
  }

  /** One fragment of the loop: its selections are walked at the same path and depth; a
      spread of an unknown fragment fails. */
  method DescendFragment(sels: seq<Selection>, i: nat, acc: set<string>, ghost selected: set<string>, path: string, depth: nat, fragments: map<string, seq<Selection>>, maxDepth: nat, fuel: nat) returns (below: Result<set<string>, Error>)
    requires i < |sels| && !sels[i].Field?
    requires !(maxDepth != 0 && depth > maxDepth)
    requires Paths(sels[..i], path, depth, fragments, maxDepth, fuel).Success?
    requires acc == selected + Paths(sels[..i], path, depth, fragments, maxDepth, fuel).value
    ensures below == Added(selected, Paths(sels[..i + 1], path, depth, fragments, maxDepth, fuel))
    decreases fuel, sels, 0
  {
    ghost var before := Paths(sels[..i], path, depth, fragments, maxDepth, fuel).value;
    FragmentStep(sels, i, path, depth, fragments, maxDepth, fuel);
    if sels[i].InlineFragment? {
      below := Descend(sels[i].fragmentSelections, acc, path, depth, fragments, maxDepth, fuel);
      AddedTwice(selected, before, Paths(sels[i].fragmentSelections, path, depth, fragments, maxDepth, fuel));
    } else {
      var fragmentName := sels[i].fragmentName;
      if fragmentName !in fragments {
        below := Failure(UnknownFragment(fragmentName));
      } else if fuel == 0 {
        below := Failure(SelectionTooDeep);
      } else {
        below := Descend(fragments[fragmentName], acc, path, depth, fragments, maxDepth, fuel - 1);
        AddedTwice(selected, before, Paths(fragments[fragmentName], path, depth, fragments, maxDepth, fuel - 1));
      }
    }
  }

  /** Adding a field's path to the accumulated set. */
  lemma PathAdded(acc: set<string>, selected: set<string>, before: set<string>, newPath: string)
    requires acc == selected + before
    ensures (if newPath != "" then acc + {newPath} else acc) == selected + (before + if newPath != "" then {newPath} else {})
  {
  }

  lemma AddedTwice(selected: set<string>, extra: set<string>, r: Result<set<string>, Error>)
    ensures Added(selected + extra, r) == Added(selected, Added(extra, r))
  {
    if r.Success? {
      assert (selected + extra) + r.value == selected + (extra + r.value);
    }
  }

  /** A field after a prefix: its path, then what its selection set adds. */
  lemma FieldStep(sels: seq<Selection>, i: nat, path: string, depth: nat, fragments: map<string, seq<Selection>>, maxDepth: nat, fuel: nat)
    requires i < |sels| && sels[i].Field?
    requires !(maxDepth != 0 && depth > maxDepth)
    requires Paths(sels[..i], path, depth, fragments, maxDepth, fuel).Success?
    ensures var before := Paths(sels[..i], path, depth, fragments, maxDepth, fuel).value;
      var newPath := NewPath(path, depth, sels[i].name);
      var here := if newPath != "" then {newPath} else {};
      Paths(sels[..i + 1], path, depth, fragments, maxDepth, fuel) ==
        Added(before + here, Paths(sels[i].selections, newPath, depth + 1, fragments, maxDepth, fuel))
  {
    assert sels[..i + 1][..i] == sels[..i];
    assert sels[..i + 1][i] == sels[i];
  }

  /** An inline fragment or a fragment spread after a prefix: what its selections add, at the
      same path and depth. */
  lemma FragmentStep(sels: seq<Selection>, i: nat, path: string, depth: nat, fragments: map<string, seq<Selection>>, maxDepth: nat, fuel: nat)
    requires i < |sels| && !sels[i].Field?
    requires !(maxDepth != 0 && depth > maxDepth)
    requires Paths(sels[..i], path, depth, fragments, maxDepth, fuel).Success?
    ensures var before := Paths(sels[..i], path, depth, fragments, maxDepth, fuel).value;
      Paths(sels[..i + 1], path, depth, fragments, maxDepth, fuel) ==
        if sels[i].InlineFragment? then
          Added(before, Paths(sels[i].fragmentSelections, path, depth, fragments, maxDepth, fuel))
        else if sels[i].fragmentName !in fragments then Failure(UnknownFragment(sels[i].fragmentName))
        else if fuel == 0 then Failure(SelectionTooDeep)
        else Added(before, Paths(fragments[sels[i].fragmentName], path, depth, fragments, maxDepth, fuel - 1))
  {
    assert sels[..i + 1][..i] == sels[..i];
    assert sels[..i + 1][i] == sels[i];
  }

  /** Once a prefix fails, the whole walk fails with the same error. */
  lemma {:induction false} PathsPrefixFails(sels: seq<Selection>, n: nat, path: string, depth: nat, fragments: map<string, seq<Selection>>, maxDepth: nat, fuel: nat)
    requires n <= |sels|
    requires Paths(sels[..n], path, depth, fragments, maxDepth, fuel).Failure?
    ensures Paths(sels, path, depth, fragments, maxDepth, fuel) == Paths(sels[..n], path, depth, fragments, maxDepth, fuel)
    decreases |sels| - n
  {
    if n < |sels| {
      assert sels[..n + 1][..n] == sels[..n];
      PathsPrefixFails(sels, n + 1, path, depth, fragments, maxDepth, fuel);
    } else {
      assert sels[..n] == sels;
    }
  }

  /** `getResolveInfoSelectedFields(info, { maxDepth })`: the walk from the root field nodes,
      at depth 0 with no path, into an empty set. */
  method GetSelectedFields(info: Info, maxDepth: nat, fuel: nat) returns (r: Result<set<string>, Error>)
    ensures r == Paths(info.fieldNodes, "", 0, info.fragments, maxDepth, fuel)
  {
    r := Descend(info.fieldNodes, {}, "", 0, info.fragments, maxDepth, fuel);
    var walk := Paths(info.fieldNodes, "", 0, info.fragments, maxDepth, fuel);
    if walk.Success? {
      assert {} + walk.value == walk.value;
    }
  }

  /** `getResolveInfoSelectedFieldsRoot(info)`: the same walk bounded at depth 1. */
  method GetSelectedFieldsRoot(info: Info, fuel: nat) returns (r: Result<set<string>, Error>)
    ensures r == Paths(info.fieldNodes, "", 0, info.fragments, 1, fuel)
  {
    r := GetSelectedFields(info, 1, fuel);
  }

  //////////////////////////////////////////////////////////////////////////
  // Properties of the walk

  /** The number of `.` in a path. */
  function Dots(p: string): nat {
    if |p| == 0 then 0 else (if p[|p| - 1] == '.' then 1 else 0) + Dots(p[..|p| - 1])
  }

  lemma {:induction false} DotsAppend(a: string, b: string)
    ensures Dots(a + b) == Dots(a) + Dots(b)
    decreases |b|
  {
    if |b| == 0 {
      assert a + b == a;
    } else {
      assert (a + b)[..|a + b| - 1] == a + b[..|b| - 1];
      DotsAppend(a, b[..|b| - 1]);
    }
  }

  /** Field names as GraphQL allows them: non-empty and without `.`, through every selection
      set and fragment. */
  predicate WellNamed(sels: seq<Selection>)
    decreases sels
  {
    forall i | 0 <= i < |sels| ::
      match sels[i]
      case Field(name, sub) => name != "" && Dots(name) == 0 && WellNamed(sub)
      case InlineFragment(sub) => WellNamed(sub)
      case FragmentSpread(_) => true
  }

  predicate WellNamedFragments(fragments: map<string, seq<Selection>>) {
    forall n | n in fragments :: WellNamed(fragments[n])
  }

  /** The path handed down at a depth holds one segment per level from depth 1 to the
      level above. */
  predicate PathAtDepth(path: string, depth: nat) {
    if depth <= 1 then path == "" else path != "" && Dots(path) == depth - 2
  }

  /** No path is empty and, with a bound `m`, each has at most `m` segments (`m - 1` dots). */
  predicate Bounded(paths: set<string>, maxDepth: nat) {
    forall p | p in paths :: p != "" && (maxDepth != 0 ==> Dots(p) < maxDepth)
  }

  /** A field's path at depth `d >= 1` has `d` segments. */
  lemma NewPathAtDepth(path: string, depth: nat, name: string)
    requires PathAtDepth(path, depth)
    requires name != "" && Dots(name) == 0
    ensures PathAtDepth(NewPath(path, depth, name), depth + 1)
    ensures depth > 0 ==> NewPath(path, depth, name) != "" && Dots(NewPath(path, depth, name)) == depth - 1
  {
    if depth > 1 {
      DotsAppend(path, ".");
      DotsAppend(path + ".", name);
      assert Dots(".") == 1 by { assert "."[..0] == ""; }
    }
  }

  /** Every path the walk records at depth `d` or below, starting from a path of the right
      shape, satisfies the bound. */
  lemma {:induction false} PathsBounded(sels: seq<Selection>, path: string, depth: nat, fragments: map<string, seq<Selection>>, maxDepth: nat, fuel: nat)
    requires WellNamed(sels) && WellNamedFragments(fragments)
    requires PathAtDepth(path, depth)
    requires Paths(sels, path, depth, fragments, maxDepth, fuel).Success?
    ensures Bounded(Paths(sels, path, depth, fragments, maxDepth, fuel).value, maxDepth)
    decreases fuel, sels
  {
    if maxDepth != 0 && depth > maxDepth {
    } else if |sels| > 0 {
      var init := sels[..|sels| - 1];
      assert WellNamed(init) by {
        forall i | 0 <= i < |init| ensures init[i] == sels[i] { }
      }
      PathsBounded(init, path, depth, fragments, maxDepth, fuel);
      var last := sels[|sels| - 1];
      assert last == sels[|sels| - 1];
      match last
      case Field(name, sub) =>
        NewPathAtDepth(path, depth, name);
        PathsBounded(sub, NewPath(path, depth, name), depth + 1, fragments, maxDepth, fuel);
      case InlineFragment(sub) =>
        PathsBounded(sub, path, depth, fragments, maxDepth, fuel);
      case FragmentSpread(name) =>
        PathsBounded(fragments[name], path, depth, fragments, maxDepth, fuel - 1);
    }
  }

  /** The walk from the root with a bound `m` records only non-empty paths of at most `m`
      segments; root fields (depth 0) are never recorded. */
  lemma SelectedFieldsBounded(info: Info, maxDepth: nat, fuel: nat)
    requires WellNamed(info.fieldNodes) && WellNamedFragments(info.fragments)
    requires Paths(info.fieldNodes, "", 0, info.fragments, maxDepth, fuel).Success?
    ensures Bounded(Paths(info.fieldNodes, "", 0, info.fragments, maxDepth, fuel).value, maxDepth)
  {
    PathsBounded(info.fieldNodes, "", 0, info.fragments, maxDepth, fuel);
  }

  /** An inline fragment adds what its selections add, at the same path and depth. */
  lemma InlineFragmentTransparent(sub: seq<Selection>, path: string, depth: nat, fragments: map<string, seq<Selection>>, maxDepth: nat, fuel: nat)
    ensures Paths([InlineFragment(sub)], path, depth, fragments, maxDepth, fuel) == Paths(sub, path, depth, fragments, maxDepth, fuel)
  {
    var one := [InlineFragment(sub)];
    if !(maxDepth != 0 && depth > maxDepth) {
      assert one[..0] == [];
      AddedTwice({}, {}, Paths(sub, path, depth, fragments, maxDepth, fuel));
      var walk := Paths(sub, path, depth, fragments, maxDepth, fuel);
      if walk.Success? {
        assert {} + walk.value == walk.value;
      }
    } else {
      assert sub == [] || Paths(sub, path, depth, fragments, maxDepth, fuel) == Success({});
    }
  }

  /** A spread of a known fragment adds what the fragment's selections add, at the same path
      and depth; a spread of an unknown one fails with its name. */
  lemma FragmentSpreadTransparent(name: string, path: string, depth: nat, fragments: map<string, seq<Selection>>, maxDepth: nat, fuel: nat)
    requires !(maxDepth != 0 && depth > maxDepth)
    ensures name !in fragments ==>
      Paths([FragmentSpread(name)], path, depth, fragments, maxDepth, fuel) == Failure(UnknownFragment(name))
    ensures name in fragments && fuel > 0 ==>
      Paths([FragmentSpread(name)], path, depth, fragments, maxDepth, fuel) == Paths(fragments[name], path, depth, fragments, maxDepth, fuel - 1)
  {
    var one := [FragmentSpread(name)];
    assert one[..0] == [];
    if name in fragments && fuel > 0 {
      var walk := Paths(fragments[name], path, depth, fragments, maxDepth, fuel - 1);
      if walk.Success? {
        assert {} + walk.value == walk.value;
      }
    }
  }

  /** The names of a list of fields. */
  function Names(sub: seq<Selection>): (r: set<string>)
    requires forall i | 0 <= i < |sub| :: sub[i].Field?
    ensures forall i | 0 <= i < |sub| :: sub[i].name in r
    ensures forall x | x in r :: exists i | 0 <= i < |sub| :: sub[i].name == x
  {
    if |sub| == 0 then {}
    else
      var init := sub[..|sub| - 1];
      assert forall i | 0 <= i < |init| :: init[i] == sub[i];
      Names(init) + {sub[|sub| - 1].name}
  }

  /** Fields directly under a depth-1 bound are recorded by name, and nothing below them. */
  lemma {:induction false} ChildNames(sub: seq<Selection>, fragments: map<string, seq<Selection>>, fuel: nat)
    requires forall i | 0 <= i < |sub| :: sub[i].Field? && sub[i].name != ""
    ensures Paths(sub, "", 1, fragments, 1, fuel) == Success(Names(sub))
    decreases |sub|
  {
    if |sub| > 0 {
      var init := sub[..|sub| - 1];
      ChildNames(init, fragments, fuel);
      var last := sub[|sub| - 1];
      assert NewPath("", 1, last.name) == last.name;
      assert Paths(last.selections, last.name, 2, fragments, 1, fuel) == Success({});
      assert Names(init) + {last.name} + {} == Names(sub);
    }
  }

  /** `getResolveInfoSelectedFieldsRoot` on a field whose selection set holds only fields
      gives exactly their names: the root field itself and anything deeper are left out. */
  lemma RootSelection(root: string, sub: seq<Selection>, fragments: map<string, seq<Selection>>, fuel: nat)
    requires forall i | 0 <= i < |sub| :: sub[i].Field? && sub[i].name != ""
    ensures Paths([Field(root, sub)], "", 0, fragments, 1, fuel) == Success(Names(sub))
  {
    var one := [Field(root, sub)];
    assert one[..0] == [];
    ChildNames(sub, fragments, fuel);
    assert {} + {} + Names(sub) == Names(sub);
  }

  /** The walk records a field that has a selection set as well as the fields below it: the
      query `somePagination { field1 field2 { field3 } }` gives `field1`, `field2` and
      `field2.field3`. */
  lemma NestedFieldRecorded(fragments: map<string, seq<Selection>>, maxDepth: nat, fuel: nat)
    requires maxDepth == 0 || maxDepth >= 2
    ensures Paths([Field("somePagination", [Field("field1", []), Field("field2", [Field("field3", [])])])], "", 0, fragments, maxDepth, fuel)
      == Success({"field1", "field2", "field2.field3"})
  {
    var inner := [Field("field3", [])];
    var children := [Field("field1", []), Field("field2", inner)];
    assert inner[..0] == [] && children[..1] == [Field("field1", [])] && children[..1][..0] == [];
    assert NewPath("field2", 2, "field3") == "field2.field3";
    assert NewPath("", 1, "field1") == "field1" && NewPath("", 1, "field2") == "field2";
    assert NewPath("", 0, "somePagination") == "";
    assert Paths([], "field2.field3", 3, fragments, maxDepth, fuel) == Success({});
    assert Paths([], "field1", 2, fragments, maxDepth, fuel) == Success({});
    assert Paths(inner[..0], "field2", 2, fragments, maxDepth, fuel) == Success({});
    FieldStep(inner, 0, "field2", 2, fragments, maxDepth, fuel);
    assert inner[..1] == inner;
    var e: set<string> := {};
    assert e + {"field2.field3"} + e == {"field2.field3"};
    assert Added(e + {"field2.field3"}, Success(e)) == Success({"field2.field3"});
    assert Paths(inner, "field2", 2, fragments, maxDepth, fuel) == Success({"field2.field3"});
    FieldStep(children, 0, "", 1, fragments, maxDepth, fuel);
    assert e + {"field1"} + e == {"field1"};
    assert Added(e + {"field1"}, Success(e)) == Success({"field1"});
    assert Paths(children[..1], "", 1, fragments, maxDepth, fuel) == Success({"field1"});
    FieldStep(children, 1, "", 1, fragments, maxDepth, fuel);
    assert children[..2] == children;
    assert {"field1"} + {"field2"} + {"field2.field3"} == {"field1", "field2", "field2.field3"};
    assert Paths(children, "", 1, fragments, maxDepth, fuel) == Success({"field1", "field2", "field2.field3"});
    var root := [Field("somePagination", children)];
    assert root[..0] == [];
    FieldStep(root, 0, "", 0, fragments, maxDepth, fuel);
    assert root[..1] == root;
    var three: set<string> := {"field1", "field2", "field2.field3"};
    assert e + e + three == three;
  }
}
