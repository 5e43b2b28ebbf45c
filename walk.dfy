/** The state getFields builds up while it visits the properties, as a fold
    over the sequence of per-property resolutions. Nothing here depends on how
    a property is resolved. */
module Walks {
  import opened Wrappers
  import opened Schema

  /** The resolution of one property: its field and its error, if any. */
  type Visit = (FieldMeta, Option<string>)

  /** The fields by golang name, the slice blocks, the golang names of the
      failed fields and their errors. */
  datatype Walk = Walk(fields: map<string, FieldMeta>, slices: seq<SliceMeta>, missing: seq<string>, errors: seq<string>)

  /** One visit: store the field under its name, append its slice block and,
      on failure, its name and its error. */
  function Step(w: Walk, meta: FieldMeta, err: Option<string>): Walk
  {
    Walk(w.fields[meta.Name := meta],
         w.slices + (if meta.Slice.Some? then [meta.Slice.value] else []),
         w.missing + (if err.Some? then [meta.Name] else []),
         w.errors + (if err.Some? then [err.value] else []))
  }

  /** The state after visiting `v` in order, from nothing. */
  function WalkOf(v: seq<Visit>): Walk
  {
    if v == [] then Walk(map[], [], [], [])
    else Step(WalkOf(v[..|v| - 1]), v[|v| - 1].0, v[|v| - 1].1)
  }

  lemma WalkOfSnoc(v: seq<Visit>, x: Visit)
    ensures WalkOf(v + [x]) == Step(WalkOf(v), x.0, x.1)
  {
    assert (v + [x])[..|v|] == v;
  }

  /** The walk over one more visit of `v`. */
  lemma WalkOfPrefix(v: seq<Visit>, i: nat)
    requires i < |v|
    ensures WalkOf(v[..i + 1]) == Step(WalkOf(v[..i]), v[i].0, v[i].1)
  {
    assert v[..i + 1] == v[..i] + [v[i]];
    WalkOfSnoc(v[..i], v[i]);
  }

  /** Two walks one after the other: the second one's fields replace the
      first one's under the same name, the sequences are concatenated. */
  function Concat(a: Walk, b: Walk): Walk
  {
    Walk(a.fields + b.fields, a.slices + b.slices, a.missing + b.missing, a.errors + b.errors)
  }

  lemma StepConcat(a: Walk, b: Walk, meta: FieldMeta, err: Option<string>)
    ensures Step(Concat(a, b), meta, err) == Concat(a, Step(b, meta, err))
  {
    assert (a.fields + b.fields)[meta.Name := meta] == a.fields + b.fields[meta.Name := meta];
    var s := if meta.Slice.Some? then [meta.Slice.value] else [];
    var m := if err.Some? then [meta.Name] else [];
    var e := if err.Some? then [err.value] else [];
    assert (a.slices + b.slices) + s == a.slices + (b.slices + s);
    assert (a.missing + b.missing) + m == a.missing + (b.missing + m);
    assert (a.errors + b.errors) + e == a.errors + (b.errors + e);
  }

  /** Walking `v1` and then `v2` is the two walks concatenated: the walk is a
      homomorphism from visit sequences to walks, so the slices, the missing
      names and the errors keep the visiting order. */
  lemma {:induction false} WalkOfAppend(v1: seq<Visit>, v2: seq<Visit>)
    ensures WalkOf(v1 + v2) == Concat(WalkOf(v1), WalkOf(v2))
    decreases |v2|
  {
    var w1 := WalkOf(v1);
    if v2 == [] {
      assert v1 + v2 == v1;
      assert w1.fields + map[] == w1.fields;
      assert w1.slices + [] == w1.slices && w1.missing + [] == w1.missing && w1.errors + [] == w1.errors;
    } else {
      var init, last := v2[..|v2| - 1], v2[|v2| - 1];
      assert v1 + v2 == (v1 + init) + [last];
      WalkOfSnoc(v1 + init, last);
      WalkOfAppend(v1, init);
      StepConcat(w1, WalkOf(init), last.0, last.1);
    }
  }

  /** The fields are keyed by exactly the names of the visited fields. */
  lemma {:induction false} WalkOfNames(v: seq<Visit>)
    ensures WalkOf(v).fields.Keys == set i | 0 <= i < |v| :: v[i].0.Name
  {
    if v != [] {
      var init := v[..|v| - 1];
      WalkOfNames(init);
      assert forall i | 0 <= i < |init| :: init[i] == v[i];
      assert (set i | 0 <= i < |v| :: v[i].0.Name) == (set i | 0 <= i < |init| :: init[i].0.Name) + {v[|v| - 1].0.Name};
    }
  }

  /** Every stored field is one of the visited fields, under its own name. */
  lemma {:induction false} WalkOfEntries(v: seq<Visit>)
    ensures var fields := WalkOf(v).fields;
      forall n | n in fields :: fields[n].Name == n && exists i | 0 <= i < |v| :: fields[n] == v[i].0
  {
    if v != [] {
      var init := v[..|v| - 1];
      var last := v[|v| - 1];
      WalkOfEntries(init);
      var fields := WalkOf(v).fields;
      assert fields == WalkOf(init).fields[last.0.Name := last.0];
      forall n | n in fields
        ensures fields[n].Name == n && exists i | 0 <= i < |v| :: fields[n] == v[i].0
      {
        if n == last.0.Name {
          assert fields[n] == v[|v| - 1].0;
        } else {
          assert n in WalkOf(init).fields && fields[n] == WalkOf(init).fields[n];
          var i :| 0 <= i < |init| && WalkOf(init).fields[n] == init[i].0;
          assert fields[n] == v[i].0;
        }
      }
    }
  }

  /** The visit a stored field comes from. */
  lemma WalkOfEntry(v: seq<Visit>, n: string) returns (i: nat)
    requires n in WalkOf(v).fields
    ensures i < |v| && WalkOf(v).fields[n] == v[i].0 && v[i].0.Name == n
  {
    WalkOfEntries(v);
    i :| 0 <= i < |v| && WalkOf(v).fields[n] == v[i].0;
  }

  /** A field that no later field shares its name with is the one stored
      under that name: later visits win. */
  lemma {:induction false} WalkOfLastWins(v: seq<Visit>, i: nat)
    requires i < |v|
    requires forall j | i < j < |v| :: v[j].0.Name != v[i].0.Name
    ensures v[i].0.Name in WalkOf(v).fields && WalkOf(v).fields[v[i].0.Name] == v[i].0
  {
    if i < |v| - 1 {
      var init := v[..|v| - 1];
      assert forall j | 0 <= j < |init| :: init[j] == v[j];
      WalkOfLastWins(init, i);
    }
  }

  /** Each missing name comes with the error of the same visit, and there is
      one exactly when some visit failed. */
  lemma {:induction false} WalkOfFailures(v: seq<Visit>)
    ensures var w := WalkOf(v);
      |w.missing| == |w.errors| &&
      forall m | 0 <= m < |w.missing| :: exists i | 0 <= i < |v| :: w.missing[m] == v[i].0.Name && v[i].1 == Some(w.errors[m])
    ensures WalkOf(v).missing != [] <==> exists i | 0 <= i < |v| :: v[i].1.Some?
  {
    if v != [] {
      var init, last := v[..|v| - 1], v[|v| - 1];
      WalkOfFailures(init);
      assert forall i | 0 <= i < |init| :: init[i] == v[i];
      var w, w0 := WalkOf(v), WalkOf(init);
      if last.1.Some? {
        assert w.missing[|w0.missing|] == last.0.Name && w.errors[|w0.errors|] == last.1.value;
      }
    }
  }

  /** A failing visit leaves a missing name behind. */
  lemma WalkOfFailed(v: seq<Visit>, i: nat)
    requires i < |v| && v[i].1.Some?
    ensures WalkOf(v).missing != []
  {
    WalkOfFailures(v);
  }

  /** The failing visit a missing name comes from. */
  lemma WalkOfMissing(v: seq<Visit>, m: nat) returns (i: nat)
    requires m < |WalkOf(v).missing|
    ensures i < |v| && WalkOf(v).missing[m] == v[i].0.Name && m < |WalkOf(v).errors| && v[i].1 == Some(WalkOf(v).errors[m])
  {
    WalkOfFailures(v);
    i :| 0 <= i < |v| && WalkOf(v).missing[m] == v[i].0.Name && v[i].1 == Some(WalkOf(v).errors[m]);
  }

  /** Each slice block is the block of one of the visited fields. */
  lemma {:induction false} WalkOfSlices(v: seq<Visit>)
    ensures forall m | 0 <= m < |WalkOf(v).slices| :: exists i | 0 <= i < |v| :: v[i].0.Slice == Some(WalkOf(v).slices[m])
  {
    if v == [] {
      assert WalkOf(v).slices == [];
    } else {
      var init, last := v[..|v| - 1], v[|v| - 1];
      WalkOfSlices(init);
      var w, w0 := WalkOf(v), WalkOf(init);
      forall m | 0 <= m < |w.slices|
        ensures exists i | 0 <= i < |v| :: v[i].0.Slice == Some(w.slices[m])
      {
        assert w.slices == w0.slices + (if last.0.Slice.Some? then [last.0.Slice.value] else []);
        if m < |w0.slices| {
          assert w.slices[m] == w0.slices[m];
          assert exists i | 0 <= i < |init| :: init[i].0.Slice == Some(w0.slices[m]);
          var i :| 0 <= i < |init| && init[i].0.Slice == Some(w0.slices[m]);
          assert v[i] == init[i];
        } else {
          assert v[|v| - 1].0.Slice == Some(w.slices[m]);
        }
      }
    }
  }

  /** The visit a slice block comes from. */
  lemma WalkOfSlice(v: seq<Visit>, m: nat) returns (i: nat)
    requires m < |WalkOf(v).slices|
    ensures i < |v| && v[i].0.Slice == Some(WalkOf(v).slices[m])
  {
    WalkOfSlices(v);
    i :| 0 <= i < |v| && v[i].0.Slice == Some(WalkOf(v).slices[m]);
  }
}
