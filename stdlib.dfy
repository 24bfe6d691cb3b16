/** The table of builtins the evaluator resolves names in: the package
    map `builtins` of sonar-lang/evaluator/builtins.go, which `InitStdlib`
    extends in place with the array, map and type builtins, and the call
    of a builtin by its name. */
module Stdlib {
  import opened Objects
  import opened State
  import opened Builtins
  import opened ArrayBuiltins
  import opened MapBuiltins
  import opened TypesBuiltins

  const CoreNames: set<string> :=
    {"len", "print", "slice", "contains", "copy", "type", "index", "sort", "reverse", "range"}
  const ArrayNames: set<string> := {"push", "pop"}
  const MapNames: set<string> := {"mapKeys", "mapValues", "mapEntries"}
  const TypesNames: set<string> := {"convertable", "str", "int", "float", "map"}

  /** A Go map from names to builtin objects. */
  function Table(names: set<string>): (r: map<string, Object>)
    ensures r.Keys == names && forall n :: n in names ==> r[n] == Builtin(n)
  {
    map n | n in names :: Builtin(n)
  }

  /** One table after another, a later one winning on a shared name. */
  function Merged(base: map<string, Object>, fs: seq<map<string, Object>>): map<string, Object>
    decreases |fs|
  {
    if |fs| == 0 then base else Merged(base, fs[..|fs| - 1]) + fs[|fs| - 1]
  }

  class Library {
    var builtins: map<string, Object>

    /** The package map as declared. */
    constructor ()
      ensures builtins == Table(CoreNames)
    {
      builtins := Table(CoreNames);
    }

    /** `for k, v := range f { builtins[k] = v }`, in whatever order the
        Go map is visited. */
    method CopyEntries(f: map<string, Object>)
      modifies this
      ensures builtins == old(builtins) + f
    {
      var left := f.Keys;
      while left != {}
        invariant left <= f.Keys
        invariant builtins == old(builtins) + map k | k in f.Keys - left :: f[k]
        decreases left
      {
        var k :| k in left;
        builtins := builtins[k := f[k]];
        left := left - {k};
      }
      assert (map k | k in f.Keys - {} :: f[k]) == f;
    }

    /** The outer loop of `InitStdlib`: the tables copied one after the
        other. */
    method CopyTables(stdlibFunctions: seq<map<string, Object>>)
      modifies this
      ensures builtins == Merged(old(builtins), stdlibFunctions)
    {
      for j := 0 to |stdlibFunctions|
        invariant builtins == Merged(old(builtins), stdlibFunctions[..j])
      {
        CopyEntries(stdlibFunctions[j]);
        MergedSnoc(old(builtins), stdlibFunctions, j);
      }
      assert stdlibFunctions[..|stdlibFunctions|] == stdlibFunctions;
    }

    /** Copies every entry of the three stdlib tables into `builtins`. */
    method InitStdlib()
      modifies this
      ensures builtins == old(builtins) + Table(ArrayNames) + Table(MapNames) + Table(TypesNames)
    {
      var stdlibFunctions := [Table(ArrayNames), Table(MapNames), Table(TypesNames)];
      CopyTables(stdlibFunctions);
      MergedThree(old(builtins), stdlibFunctions);
    }
  }

  lemma MergedSnoc(base: map<string, Object>, fs: seq<map<string, Object>>, j: nat)
    requires j < |fs|
    ensures Merged(base, fs[..j + 1]) == Merged(base, fs[..j]) + fs[j]
  {
    assert fs[..j + 1][..j] == fs[..j];
  }

  lemma MergedThree(base: map<string, Object>, fs: seq<map<string, Object>>)
    requires |fs| == 3
    ensures Merged(base, fs) == base + fs[0] + fs[1] + fs[2]
  {
    assert Merged(base, fs[..1]) == base + fs[0] by {
      assert fs[..1][..0] == [];
    }
    assert Merged(base, fs[..2]) == base + fs[0] + fs[1] by {
      assert fs[..2][..1] == fs[..1];
    }
    assert fs[..3] == fs && fs[..3][..2] == fs[..2];
  }

  /** Merging tables of builtins gives the table of all their names: after
      InitStdlib every name of the four groups maps to its own builtin. */
  lemma TablesMerge(a: set<string>, b: set<string>)
    ensures Table(a) + Table(b) == Table(a + b)
  {
  }

  /** The four groups share no name, so no entry of InitStdlib replaces
      another. */
  lemma GroupsDisjoint()
    ensures CoreNames !! ArrayNames && CoreNames !! MapNames && CoreNames !! TypesNames
    ensures ArrayNames !! MapNames && ArrayNames !! TypesNames && MapNames !! TypesNames
  {
  }

  /** Calls the builtin of that name with evaluated arguments. */
  function CallBuiltin(name: string, args: seq<Object>, st: State): (r: Outcome<Object>)
    ensures r.Out? ==> r.st.frames == st.frames && |st.heap| <= |r.st.heap| && st.next <= r.st.next
    ensures r.Out? && name != "pop" ==> Extends(st, r.st)
    ensures name !in CoreNames + ArrayNames + MapNames + TypesNames ==> r == Stop(Unmodelled)
  {
    match name
    case "len" => Len(args, st)
    case "print" => Print(args, st)
    case "slice" => Slice(args, st)
    case "contains" => ContainsBuiltin(args, st)
    case "copy" => Copy(args, st)
    case "type" => TypeBuiltin(args, st)
    case "index" => IndexOf(args, st)
    case "sort" => Sort(args, st)
    case "reverse" => Reverse(args, st)
    case "range" => Range(args, st)
    case "push" => Push(args, st)
    case "pop" => PopAsWritten(args, st)
    case "mapKeys" => MapKeys(args, st)
    case "mapValues" => MapValues(args, st)
    case "mapEntries" => MapEntries(args, st)
    case "convertable" => Convertable(args, st)
    case "str" => StrBuiltin(args, st)
    case "int" => IntBuiltin(args, st)
    case "float" => FloatBuiltin(args, st)
    case "map" => MapBuiltin(args, st)
    case _ => Stop(Unmodelled)
  }
}
