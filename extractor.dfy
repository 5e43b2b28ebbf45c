/** CreateStructs: one struct per type key of the flattened schema, visited in
    sorted order, with every error kept and the slice blocks of all fields. */
module Extractor {
  import opened Wrappers
  import opened Schema
  import opened Strings
  import opened Names
  import opened Order
  import opened Errors
  import opened Fields

  /** What one type key contributes: its struct, its slice blocks and the
      error of getFields, if any. */
  type TypeVisit = (StructMeta, seq<SliceMeta>, Option<string>)

  /** The state CreateStructs builds up: the structs by name, the slice blocks
      and the collected errors. */
  datatype Run = Run(structs: map<string, StructMeta>, slices: seq<SliceMeta>, errs: seq<string>)

  /** One iteration: append the slice blocks, append the error twice (once
      before and once after the struct name is computed), and store the struct
      under its name, replacing an earlier struct of that name. */
  function Add(r: Run, s: StructMeta, slices: seq<SliceMeta>, err: Option<string>): Run
  {
    Run(r.structs[s.Name := s], r.slices + slices, r.errs + (if err.Some? then [err.value, err.value] else []))
  }

  /** The state after visiting `v` in order, from nothing. */
  function RunOf(v: seq<TypeVisit>): Run
  {
    if v == [] then Run(map[], [], [])
    else Add(RunOf(v[..|v| - 1]), v[|v| - 1].0, v[|v| - 1].1, v[|v| - 1].2)
  }

  lemma RunOfPrefix(v: seq<TypeVisit>, i: nat)
    requires i < |v|
    ensures RunOf(v[..i + 1]) == Add(RunOf(v[..i]), v[i].0, v[i].1, v[i].2)
  {
    assert v[..i + 1][..i] == v[..i];
  }

  /** Two runs one after the other: the second one's structs replace the
      first one's under the same name, and the slices and the errors are
      concatenated. */
  function Then(a: Run, b: Run): Run
  {
    Run(a.structs + b.structs, a.slices + b.slices, a.errs + b.errs)
  }

  lemma AddThen(a: Run, b: Run, s: StructMeta, slices: seq<SliceMeta>, err: Option<string>)
    ensures Add(Then(a, b), s, slices, err) == Then(a, Add(b, s, slices, err))
  {
    assert (a.structs + b.structs)[s.Name := s] == a.structs + b.structs[s.Name := s];
    var e := if err.Some? then [err.value, err.value] else [];
    assert (a.slices + b.slices) + slices == a.slices + (b.slices + slices);
    assert (a.errs + b.errs) + e == a.errs + (b.errs + e);
  }

  /** A run over `v1` and then `v2` is the two runs in sequence: later keys
      never undo what earlier keys contributed, except by replacing a struct
      of the same name, and every key is processed whatever failed before it. */
  lemma {:induction false} RunOfAppend(v1: seq<TypeVisit>, v2: seq<TypeVisit>)
    ensures RunOf(v1 + v2) == Then(RunOf(v1), RunOf(v2))
    decreases |v2|
  {
    var r1 := RunOf(v1);
    if v2 == [] {
      assert v1 + v2 == v1;
      assert r1.structs + map[] == r1.structs;
      assert r1.slices + [] == r1.slices && r1.errs + [] == r1.errs;
    } else {
      var init, last := v2[..|v2| - 1], v2[|v2| - 1];
      assert v1 + v2 == (v1 + init) + [last];
      assert (v1 + v2)[..|v1 + v2| - 1] == v1 + init;
      RunOfAppend(v1, init);
      AddThen(r1, RunOf(init), last.0, last.1, last.2);
    }
  }

  /** The structs are keyed by exactly the names of the visited structs. */
  lemma {:induction false} RunOfNames(v: seq<TypeVisit>)
    ensures RunOf(v).structs.Keys == set i | 0 <= i < |v| :: v[i].0.Name
  {
    if v != [] {
      var init := v[..|v| - 1];
      RunOfNames(init);
      assert forall i | 0 <= i < |init| :: init[i] == v[i];
      assert (set i | 0 <= i < |v| :: v[i].0.Name) == (set i | 0 <= i < |init| :: init[i].0.Name) + {v[|v| - 1].0.Name};
    }
  }

  /** Every stored struct is one of the visited structs, under its own name. */
  lemma {:induction false} RunOfEntries(v: seq<TypeVisit>)
    ensures var structs := RunOf(v).structs;
      forall n | n in structs :: structs[n].Name == n && exists i | 0 <= i < |v| :: structs[n] == v[i].0
  {
    if v != [] {
      var init, last := v[..|v| - 1], v[|v| - 1];
      RunOfEntries(init);
      var structs := RunOf(v).structs;
      assert structs == RunOf(init).structs[last.0.Name := last.0];
      forall n | n in structs
        ensures structs[n].Name == n && exists i | 0 <= i < |v| :: structs[n] == v[i].0
      {
        if n == last.0.Name {
          assert structs[n] == v[|v| - 1].0;
        } else {
          assert n in RunOf(init).structs && structs[n] == RunOf(init).structs[n];
          var i :| 0 <= i < |init| && RunOf(init).structs[n] == init[i].0;
          assert structs[n] == v[i].0;
        }
      }
    }
  }

  /** The visit a stored struct comes from. */
  lemma RunOfEntry(v: seq<TypeVisit>, n: string) returns (i: nat)
    requires n in RunOf(v).structs
    ensures i < |v| && RunOf(v).structs[n] == v[i].0 && v[i].0.Name == n
  {
    RunOfEntries(v);
    i :| 0 <= i < |v| && RunOf(v).structs[n] == v[i].0;
  }

  /** A struct that no later struct shares its name with is the one stored
      under that name: later keys win. */
  lemma {:induction false} RunOfLastWins(v: seq<TypeVisit>, i: nat)
    requires i < |v|
    requires forall j | i < j < |v| :: v[j].0.Name != v[i].0.Name
    ensures v[i].0.Name in RunOf(v).structs && RunOf(v).structs[v[i].0.Name] == v[i].0
  {
    if i < |v| - 1 {
      var init := v[..|v| - 1];
      assert forall j | 0 <= j < |init| :: init[j] == v[j];
      RunOfLastWins(init, i);
    }
  }

  /** The errors of the failing visits, in visiting order. */
  function Failures(v: seq<TypeVisit>): seq<string>
  {
    if v == [] then []
    else Failures(v[..|v| - 1]) + (if v[|v| - 1].2.Some? then [v[|v| - 1].2.value] else [])
  }

  /** Each item twice in a row. */
  function Doubled(s: seq<string>): seq<string>
  {
    if s == [] then [] else Doubled(s[..|s| - 1]) + [s[|s| - 1], s[|s| - 1]]
  }

  /** Doubled(s) holds s[i] at positions 2i and 2i+1 and nothing else. */
  lemma {:induction false} DoubledAt(s: seq<string>)
    ensures |Doubled(s)| == 2 * |s|
    ensures forall i | 0 <= i < |s| :: Doubled(s)[2 * i] == s[i] && Doubled(s)[2 * i + 1] == s[i]
  {
    if s != [] {
      var init := s[..|s| - 1];
      DoubledAt(init);
      forall i | 0 <= i < |s|
        ensures Doubled(s)[2 * i] == s[i] && Doubled(s)[2 * i + 1] == s[i]
      {
        if i < |init| {
          assert Doubled(s)[2 * i] == Doubled(init)[2 * i];
          assert Doubled(s)[2 * i + 1] == Doubled(init)[2 * i + 1];
        }
      }
    }
  }

  /** The collected errors are the failures, each one twice. */
  lemma {:induction false} RunOfErrors(v: seq<TypeVisit>)
    ensures RunOf(v).errs == Doubled(Failures(v))
  {
    if v != [] {
      var init, last := v[..|v| - 1], v[|v| - 1];
      RunOfErrors(init);
      if last.2.Some? {
        var f := Failures(init) + [last.2.value];
        assert f[..|f| - 1] == Failures(init);
      } else {
        assert Failures(v) == Failures(init);
      }
    }
  }

  /** There is a failure exactly when some visit failed. */
  lemma {:induction false} FailuresExist(v: seq<TypeVisit>)
    ensures Failures(v) != [] <==> exists i | 0 <= i < |v| :: v[i].2.Some?
  {
    if v != [] {
      var init := v[..|v| - 1];
      FailuresExist(init);
      assert forall i | 0 <= i < |init| :: init[i] == v[i];
    }
  }

  /** A failing visit leaves a failure behind. */
  lemma FailedVisit(v: seq<TypeVisit>, i: nat)
    requires i < |v| && v[i].2.Some?
    ensures Failures(v) != []
  {
    FailuresExist(v);
  }

  /** The failing visit behind a non-empty list of failures. */
  lemma SomeFailedVisit(v: seq<TypeVisit>) returns (i: nat)
    requires Failures(v) != []
    ensures i < |v| && v[i].2.Some?
  {
    FailuresExist(v);
    i :| 0 <= i < |v| && v[i].2.Some?;
  }

  /** Each slice block is a block of one of the visits. */
  lemma {:induction false} RunOfSlices(v: seq<TypeVisit>)
    ensures forall m | 0 <= m < |RunOf(v).slices| :: exists i | 0 <= i < |v| :: RunOf(v).slices[m] in v[i].1
  {
    if v == [] {
      assert RunOf(v).slices == [];
    } else {
      var init, last := v[..|v| - 1], v[|v| - 1];
      RunOfSlices(init);
      var r, r0 := RunOf(v), RunOf(init);
      assert r.slices == r0.slices + last.1;
      forall m | 0 <= m < |r.slices|
        ensures exists i | 0 <= i < |v| :: r.slices[m] in v[i].1
      {
        if m < |r0.slices| {
          assert r.slices[m] == r0.slices[m];
          var i :| 0 <= i < |init| && r0.slices[m] in init[i].1;
          assert v[i] == init[i];
        } else {
          assert last.1[m - |r0.slices|] == r.slices[m];
          assert r.slices[m] in v[|v| - 1].1;
        }
      }
    }
  }

  /** The visit a slice block comes from. */
  lemma RunOfSlice(v: seq<TypeVisit>, m: nat) returns (i: nat)
    requires m < |RunOf(v).slices|
    ensures i < |v| && RunOf(v).slices[m] in v[i].1
  {
    RunOfSlices(v);
    i :| 0 <= i < |v| && RunOf(v).slices[m] in v[i].1;
  }

  /** Every type's properties can be resolved without a panic. */
  ghost predicate TypesResolvable(types: map<string, Schema>)
  {
    forall k | k in types :: PropertiesResolvable(k, types[k].Properties, types)
  }

  /** What the type under `typeKey` contributes: the struct with the pointer
      path as ID and the struct name of its last segment, its fields' slice
      blocks and getFields' error. */
  ghost function TypeVisitOf(types: map<string, Schema>, typeKey: string): TypeVisit
    requires typeKey in types && TypesResolvable(types)
  {
    var t := types[typeKey];
    var fs := FieldsResult(typeKey, t.Properties, types, t.Required);
    (StructMeta(typeKey, StructName(typeKey, t, 1), fs.fields), fs.slices, fs.err)
  }

  /** The contributions of `keys`, in order. */
  ghost function TypeVisits(types: map<string, Schema>, keys: seq<string>): (r: seq<TypeVisit>)
    requires TypesResolvable(types)
    requires forall k | k in keys :: k in types
    ensures |r| == |keys|
  {
    seq(|keys|, i requires 0 <= i < |keys| => TypeVisitOf(types, keys[i]))
  }

  /** The `i`th contribution is the one of the `i`th key. */
  lemma TypeVisitOfKey(types: map<string, Schema>, keys: seq<string>, i: nat)
    requires TypesResolvable(types)
    requires forall k | k in keys :: k in types
    requires i < |keys|
    ensures keys[i] in types && TypeVisits(types, keys)[i] == TypeVisitOf(types, keys[i])
  {
  }

  /** The state after visiting all type keys in sorted order. */
  ghost function FinalRun(types: map<string, Schema>): Run
    requires TypesResolvable(types)
  {
    RunOf(TypeVisits(types, SortedKeys(types.Keys)))
  }

  /** The error CreateStructs returns for a finished run. */
  function RunError(r: Run): Option<string>
  {
    if |r.errs| > 0 then Some(Join(r.errs, ", ")) else None
  }

  /** The body of CreateStructs' loop for one type key. */
  method VisitType(types: map<string, Schema>, typeKey: string, r: Run) returns (r': Run)
    requires typeKey in types && TypesResolvable(types)
    ensures var t := TypeVisitOf(types, typeKey); r' == Add(r, t.0, t.1, t.2)
  {
    var v := types[typeKey];
    var fields, typeSlices, err := GetFields(typeKey, v.Properties, types, v.Required);
    var slices := r.slices + typeSlices;
    var errs := r.errs;
    if err.Some? {
      errs := errs + [err.value];
    }
    var structName := GetStructName(typeKey, v, 1);
    if err.Some? {
      errs := errs + [err.value];
    }
    assert errs == r.errs + (if err.Some? then [err.value, err.value] else []);
    var s := StructMeta(typeKey, structName, fields);
    r' := Run(r.structs[s.Name := s], slices, errs);
  }

  /** The loop of CreateStructs: visit the type keys in the given order. */
  method VisitTypes(types: map<string, Schema>, keys: seq<string>) returns (r: Run)
    requires TypesResolvable(types)
    requires forall k | k in keys :: k in types
    ensures r == RunOf(TypeVisits(types, keys))
  {
    ghost var v := TypeVisits(types, keys);
    r := Run(map[], [], []);
    for i := 0 to |keys|
      invariant r == RunOf(v[..i])
    {
      RunOfPrefix(v, i);
      r := VisitType(types, keys[i], r);
    }
    assert v[..|keys|] == v;
  }

  /** CreateStructs over the flattened types map: every type key in sorted
      order, the slice blocks in that order, and all errors joined. */
  method CreateStructs(types: map<string, Schema>)
    returns (structs: map<string, StructMeta>, slices: seq<SliceMeta>, err: Option<string>)
    requires TypesResolvable(types)
    ensures structs == FinalRun(types).structs && slices == FinalRun(types).slices
    ensures err == RunError(FinalRun(types))
  {
    var keys := OrderedKeyNames(types);
    var r := VisitTypes(types, keys);
    structs, slices := r.structs, r.slices;
    if |r.errs| > 0 {
      var joined := JoinErrors(r.errs);
      err := Some(joined);
    } else {
      err := None;
    }
  }

  /** The name of each visit is the struct name of its key. */
  lemma VisitNames(types: map<string, Schema>, keys: seq<string>)
    requires TypesResolvable(types)
    requires forall k | k in keys :: k in types
    ensures var v := TypeVisits(types, keys);
      forall i | 0 <= i < |v| :: v[i].0.Name == StructName(keys[i], types[keys[i]], 1)
  {
  }

  /** Visiting `keys` stores a struct under the struct name of each key. */
  lemma VisitsNamesCover(types: map<string, Schema>, keys: seq<string>, k: string)
    requires TypesResolvable(types)
    requires forall k | k in keys :: k in types
    requires k in keys
    ensures StructName(k, types[k], 1) in RunOf(TypeVisits(types, keys)).structs
  {
    var v := TypeVisits(types, keys);
    RunOfNames(v);
    VisitNames(types, keys);
    var i :| 0 <= i < |keys| && keys[i] == k;
    assert v[i].0.Name == StructName(k, types[k], 1);
  }

  /** Visiting `keys` stores structs under no other names. */
  lemma VisitsNamesOnly(types: map<string, Schema>, keys: seq<string>, n: string) returns (k: string)
    requires TypesResolvable(types)
    requires forall k | k in keys :: k in types
    requires n in RunOf(TypeVisits(types, keys)).structs
    ensures k in keys && n == StructName(k, types[k], 1)
  {
    var v := TypeVisits(types, keys);
    RunOfNames(v);
    VisitNames(types, keys);
    var i :| 0 <= i < |v| && v[i].0.Name == n;
    k := keys[i];
  }

  /** Visiting `keys` stores structs under exactly their struct names. */
  lemma VisitsNames(types: map<string, Schema>, keys: seq<string>)
    requires TypesResolvable(types)
    requires forall k | k in keys :: k in types
    ensures RunOf(TypeVisits(types, keys)).structs.Keys == set k | k in keys :: StructName(k, types[k], 1)
  {
    var structs := RunOf(TypeVisits(types, keys)).structs;
    forall k | k in keys
      ensures StructName(k, types[k], 1) in structs
    {
      VisitsNamesCover(types, keys, k);
    }
    forall n | n in structs
      ensures n in set k | k in keys :: StructName(k, types[k], 1)
    {
      var k := VisitsNamesOnly(types, keys, n);
    }
  }

  /** CreateStructs keys its structs by the struct names of the type keys:
      every type key is processed, whatever failed. */
  lemma CreateStructsNames(types: map<string, Schema>)
    requires TypesResolvable(types)
    ensures FinalRun(types).structs.Keys == set k | k in types :: StructName(k, types[k], 1)
  {
    var keys := SortedKeys(types.Keys);
    VisitsNames(types, keys);
    assert (set k | k in keys :: StructName(k, types[k], 1)) == set k | k in types :: StructName(k, types[k], 1);
  }

  /** The key of the visit a stored struct comes from. */
  lemma VisitsEntry(types: map<string, Schema>, keys: seq<string>, n: string) returns (k: string)
    requires TypesResolvable(types)
    requires forall k | k in keys :: k in types
    requires n in RunOf(TypeVisits(types, keys)).structs
    ensures k in keys && RunOf(TypeVisits(types, keys)).structs[n] == TypeVisitOf(types, k).0
  {
    var i := RunOfEntry(TypeVisits(types, keys), n);
    TypeVisitOfKey(types, keys, i);
    k := keys[i];
  }

  /** Every struct CreateStructs returns is the struct of one type key: that
      key as ID, its struct name as name and key, and getFields' fields. */
  lemma CreateStructsEntries(types: map<string, Schema>)
    requires TypesResolvable(types)
    ensures var structs := FinalRun(types).structs;
      forall n | n in structs ::
        structs[n].Name == n && structs[n].ID in types &&
        structs[n] == StructMeta(structs[n].ID, StructName(structs[n].ID, types[structs[n].ID], 1),
                                 FieldsResult(structs[n].ID, types[structs[n].ID].Properties, types, types[structs[n].ID].Required).fields)
  {
    var keys := SortedKeys(types.Keys);
    var structs := FinalRun(types).structs;
    forall n | n in structs
      ensures structs[n].Name == n && structs[n].ID in types &&
        structs[n] == StructMeta(structs[n].ID, StructName(structs[n].ID, types[structs[n].ID], 1),
                                 FieldsResult(structs[n].ID, types[structs[n].ID].Properties, types, types[structs[n].ID].Required).fields)
    {
      var i := RunOfEntry(TypeVisits(types, keys), n);
      var k := VisitsEntry(types, keys, n);
    }
  }

  /** When several type keys give the same struct name, the struct under that
      name is the one of the greatest of them in sort order. */
  lemma CreateStructsGreatestKeyWins(types: map<string, Schema>, k: string)
    requires TypesResolvable(types)
    requires k in types
    requires forall k' | k' in types && k' != k && StructName(k', types[k'], 1) == StructName(k, types[k], 1) :: Less(k', k)
    ensures StructName(k, types[k], 1) in FinalRun(types).structs
    ensures FinalRun(types).structs[StructName(k, types[k], 1)] == TypeVisitOf(types, k).0
  {
    var keys := SortedKeys(types.Keys);
    SortedKeysStrictlySorted(types.Keys);
    var v := TypeVisits(types, keys);
    var i :| 0 <= i < |keys| && keys[i] == k;
    TypeVisitOfKey(types, keys, i);
    forall j | i < j < |v|
      ensures v[j].0.Name != v[i].0.Name
    {
      TypeVisitOfKey(types, keys, j);
      assert Less(k, keys[j]);
      if StructName(keys[j], types[keys[j]], 1) == StructName(k, types[k], 1) {
        LessAsymmetric(k, keys[j]);
      }
    }
    RunOfLastWins(v, i);
  }

  /** The getFields errors of the type keys, in sorted key order. */
  ghost function TypeFailures(types: map<string, Schema>): seq<string>
    requires TypesResolvable(types)
  {
    Failures(TypeVisits(types, SortedKeys(types.Keys)))
  }

  /** The error of CreateStructs joins every getFields error twice, in sorted
      key order, with ", " between each two. */
  lemma CreateStructsErrorDoubled(types: map<string, Schema>)
    requires TypesResolvable(types)
    ensures RunError(FinalRun(types))
      == if TypeFailures(types) == [] then None else Some(Join(Doubled(TypeFailures(types)), ", "))
  {
    var v := TypeVisits(types, SortedKeys(types.Keys));
    RunOfErrors(v);
    DoubledAt(Failures(v));
  }

  /** Visiting `keys` fails exactly when getFields fails for one of them. */
  lemma VisitsFailures(types: map<string, Schema>, keys: seq<string>)
    requires TypesResolvable(types)
    requires forall k | k in keys :: k in types
    ensures Failures(TypeVisits(types, keys)) != [] <==> exists k | k in keys :: TypeVisitOf(types, k).2.Some?
  {
    var v := TypeVisits(types, keys);
    if k :| k in keys && TypeVisitOf(types, k).2.Some? {
      var i :| 0 <= i < |keys| && keys[i] == k;
      TypeVisitOfKey(types, keys, i);
      FailedVisit(v, i);
    }
    if Failures(v) != [] {
      var i := SomeFailedVisit(v);
      TypeVisitOfKey(types, keys, i);
    }
  }

  /** CreateStructs fails exactly when getFields fails for some type. */
  lemma CreateStructsFailures(types: map<string, Schema>)
    requires TypesResolvable(types)
    ensures RunError(FinalRun(types)).Some? <==>
      exists k | k in types :: FieldsResult(k, types[k].Properties, types, types[k].Required).err.Some?
  {
    var keys := SortedKeys(types.Keys);
    var v := TypeVisits(types, keys);
    RunOfErrors(v);
    DoubledAt(Failures(v));
    VisitsFailures(types, keys);
  }

  /** The key whose visit a slice block comes from. */
  lemma VisitsSlice(types: map<string, Schema>, keys: seq<string>, m: nat) returns (k: string)
    requires TypesResolvable(types)
    requires forall k | k in keys :: k in types
    requires m < |RunOf(TypeVisits(types, keys)).slices|
    ensures k in keys && RunOf(TypeVisits(types, keys)).slices[m] in TypeVisitOf(types, k).1
  {
    var i := RunOfSlice(TypeVisits(types, keys), m);
    TypeVisitOfKey(types, keys, i);
    k := keys[i];
  }

  /** Every slice block CreateStructs returns is one of the slice blocks
      getFields returned for some type. */
  lemma CreateStructsSlices(types: map<string, Schema>)
    requires TypesResolvable(types)
    ensures var slices := FinalRun(types).slices;
      forall m | 0 <= m < |slices| :: exists k | k in types ::
        slices[m] in FieldsResult(k, types[k].Properties, types, types[k].Required).slices
  {
    var keys := SortedKeys(types.Keys);
    var slices := FinalRun(types).slices;
    forall m | 0 <= m < |slices|
      ensures exists k | k in types :: slices[m] in FieldsResult(k, types[k].Properties, types, types[k].Required).slices
    {
      var k := VisitsSlice(types, keys, m);
    }
  }

  /** getFields' slice blocks of each of `keys`, one type after the other. */
  ghost function TypeSlices(types: map<string, Schema>, keys: seq<string>): seq<SliceMeta>
    requires TypesResolvable(types)
    requires forall k | k in keys :: k in types
  {
    if keys == [] then []
    else
      var k := keys[|keys| - 1];
      TypeSlices(types, keys[..|keys| - 1]) + FieldsResult(k, types[k].Properties, types, types[k].Required).slices
  }

  /** The visits of a prefix of the keys are the prefix of the visits. */
  lemma TypeVisitsPrefix(types: map<string, Schema>, keys: seq<string>, n: nat)
    requires TypesResolvable(types)
    requires forall k | k in keys :: k in types
    requires n <= |keys|
    ensures TypeVisits(types, keys)[..n] == TypeVisits(types, keys[..n])
  {
    var v, w := TypeVisits(types, keys)[..n], TypeVisits(types, keys[..n]);
    forall i | 0 <= i < n
      ensures v[i] == w[i]
    {
      TypeVisitOfKey(types, keys, i);
      TypeVisitOfKey(types, keys[..n], i);
    }
  }

  /** Visiting `keys` concatenates their slice blocks in key order. */
  lemma {:induction false} VisitsSlicesInOrder(types: map<string, Schema>, keys: seq<string>)
    requires TypesResolvable(types)
    requires forall k | k in keys :: k in types
    ensures RunOf(TypeVisits(types, keys)).slices == TypeSlices(types, keys)
  {
    if keys != [] {
      var n := |keys| - 1;
      var v := TypeVisits(types, keys);
      VisitsSlicesInOrder(types, keys[..n]);
      TypeVisitsPrefix(types, keys, n);
      TypeVisitOfKey(types, keys, n);
      assert RunOf(v).slices == RunOf(v[..n]).slices + v[n].1;
    }
  }

  /** CreateStructs concatenates the slice blocks of the types in sorted key order. */
  lemma CreateStructsSlicesInOrder(types: map<string, Schema>)
    requires TypesResolvable(types)
    ensures FinalRun(types).slices == TypeSlices(types, SortedKeys(types.Keys))
  {
    VisitsSlicesInOrder(types, SortedKeys(types.Keys));
  }
}
