/** The order in which the extractor visits map keys: Go's sort.Strings, which
    compares strings byte by byte. UTF-8 byte order coincides with code point
    order, so comparing Dafny characters one by one gives the same order. */
module Order {

  /** Strict lexicographic order; a proper prefix comes first. */
  predicate Less(a: string, b: string)
  {
    if a == [] then b != []
    else if b == [] then false
    else if a[0] != b[0] then a[0] < b[0]
    else Less(a[1..], b[1..])
  }

  predicate LessEq(a: string, b: string)
  {
    a == b || Less(a, b)
  }

  lemma {:induction false} LessIrreflexive(a: string)
    ensures !Less(a, a)
  {
    if a != [] {
      LessIrreflexive(a[1..]);
    }
  }

  lemma {:induction false} LessAsymmetric(a: string, b: string)
    requires Less(a, b)
    ensures !Less(b, a)
  {
    if a != [] && b != [] && a[0] == b[0] {
      LessAsymmetric(a[1..], b[1..]);
    }
  }

  lemma {:induction false} LessTransitive(a: string, b: string, c: string)
    requires Less(a, b) && Less(b, c)
    ensures Less(a, c)
  {
    if a != [] && a[0] == b[0] && b[0] == c[0] {
      LessTransitive(a[1..], b[1..], c[1..]);
    }
  }

  lemma {:induction false} LessTotal(a: string, b: string)
    ensures a == b || Less(a, b) || Less(b, a)
  {
    if a != [] && b != [] && a[0] == b[0] {
      LessTotal(a[1..], b[1..]);
      if a[1..] == b[1..] {
        assert a == [a[0]] + a[1..] && b == [b[0]] + b[1..];
      }
    }
  }

  lemma LessEqTransitive(a: string, b: string, c: string)
    requires LessEq(a, b) && LessEq(b, c)
    ensures LessEq(a, c)
  {
    if a != b && b != c {
      LessTransitive(a, b, c);
    }
  }

  /** `!Less(b, a)` is the same as `LessEq(a, b)`. */
  lemma NotLessIsLessEq(a: string, b: string)
    ensures !Less(b, a) <==> LessEq(a, b)
  {
    LessTotal(a, b);
    if Less(a, b) {
      LessAsymmetric(a, b);
    }
    if a == b {
      LessIrreflexive(a);
    }
  }

  ghost predicate Sorted(s: seq<string>)
  {
    forall i, j :: 0 <= i < j < |s| ==> LessEq(s[i], s[j])
  }

  ghost predicate StrictlySorted(s: seq<string>)
  {
    forall i, j :: 0 <= i < j < |s| ==> Less(s[i], s[j])
  }

  lemma {:induction false} MinimumExists(s: set<string>)
    requires s != {}
    ensures exists m :: m in s && forall x :: x in s ==> LessEq(m, x)
  {
    var y :| y in s;
    if s == {y} {
      assert forall x :: x in s ==> LessEq(y, x);
    } else {
      MinimumExists(s - {y});
      var m :| m in s - {y} && forall x :: x in s - {y} ==> LessEq(m, x);
      LessTotal(m, y);
      if Less(m, y) {
        assert forall x :: x in s ==> LessEq(m, x);
      } else {
        forall x | x in s
          ensures LessEq(y, x)
        {
          if x != y {
            LessEqTransitive(y, m, x);
          }
        }
      }
    }
  }

  /** The keys of a map in the order sort.Strings leaves them: each exactly
      once (SortedKeysStrictlySorted adds that they ascend). */
  ghost function SortedKeys(s: set<string>): (r: seq<string>)
    ensures |r| == |s|
    ensures forall k :: k in r <==> k in s
    decreases |s|
  {
    if s == {} then []
    else
      MinimumExists(s);
      var m :| m in s && forall x :: x in s ==> LessEq(m, x);
      [m] + SortedKeys(s - {m})
  }

  /** SortedKeys ascends strictly. */
  lemma {:induction false} SortedKeysStrictlySorted(s: set<string>)
    ensures StrictlySorted(SortedKeys(s))
    decreases |s|
  {
    if s != {} {
      var r := SortedKeys(s);
      var m := r[0];
      var rest := SortedKeys(s - {m});
      assert r == [m] + rest;
      SortedKeysStrictlySorted(s - {m});
      forall i, j | 0 <= i < j < |r|
        ensures Less(r[i], r[j])
      {
        if i == 0 {
          assert r[j] == rest[j - 1];
          assert r[j] in s - {m};
          assert LessEq(m, r[j]);
        } else {
          assert r[i] == rest[i - 1] && r[j] == rest[j - 1];
        }
      }
    }
  }

  /** Dropping the head of a strictly ascending sequence drops exactly that element. */
  lemma StrictTail(s: seq<string>)
    requires StrictlySorted(s) && s != []
    ensures StrictlySorted(s[1..])
    ensures forall k :: k in s[1..] <==> k in s && k != s[0]
  {
    forall k | k in s[1..]
      ensures k != s[0]
    {
      var i :| 1 <= i < |s| && s[i] == k;
      assert Less(s[0], s[i]);
      LessIrreflexive(k);
    }
    forall k | k in s && k != s[0]
      ensures k in s[1..]
    {
      var i :| 0 <= i < |s| && s[i] == k;
      assert s[1..][i - 1] == k;
    }
  }

  /** The head of a strictly ascending sequence is below every other element. */
  lemma StrictHead(s: seq<string>, k: string)
    requires StrictlySorted(s) && k in s && k != s[0]
    ensures Less(s[0], k)
  {
    var i :| 0 <= i < |s| && s[i] == k;
  }

  /** A strictly ascending enumeration of a set is unique: it is SortedKeys. */
  lemma {:induction false} SortedKeysUnique(s: seq<string>, keys: set<string>)
    requires StrictlySorted(s)
    requires forall k :: k in s <==> k in keys
    ensures s == SortedKeys(keys)
    decreases |s|
  {
    var r := SortedKeys(keys);
    SortedKeysStrictlySorted(keys);
    if s == [] {
      assert keys == {};
    } else {
      assert s[0] in keys;
      assert r[0] in keys;
      if r[0] != s[0] {
        StrictHead(s, r[0]);
        StrictHead(r, s[0]);
        LessAsymmetric(s[0], r[0]);
      }
      StrictTail(s);
      StrictTail(r);
      SortedKeysUnique(s[1..], keys - {s[0]});
      SortedKeysUnique(r[1..], keys - {s[0]});
      assert s == [s[0]] + s[1..];
      assert r == [r[0]] + r[1..];
    }
  }

  /** Two equal elements at different positions occur at least twice. */
  lemma Duplicate(s: seq<string>, i: int, j: int)
    requires 0 <= i < j < |s| && s[i] == s[j]
    ensures multiset(s)[s[i]] >= 2
  {
    assert s == s[..j] + [s[j]] + s[j + 1..];
    assert s[..j][i] == s[i];
    assert multiset(s[..j])[s[i]] >= 1;
  }

  /** A sorted arrangement of the elements of a set is SortedKeys of that set. */
  lemma SortedSetIsSortedKeys(keys: seq<string>, s: set<string>)
    requires Sorted(keys)
    requires multiset(keys) == multiset(s)
    ensures keys == SortedKeys(s)
  {
    forall p, q | 0 <= p < q < |keys|
      ensures Less(keys[p], keys[q])
    {
      if keys[p] == keys[q] {
        Duplicate(keys, p, q);
      }
    }
    forall k
      ensures k in keys <==> k in s
    {
      assert k in keys <==> k in multiset(keys);
    }
    SortedKeysUnique(keys, s);
  }

  /** sort.Strings: an in-place insertion sort. */
  method SortStrings(a: array<string>)
    modifies a
    ensures Sorted(a[..])
    ensures multiset(a[..]) == multiset(old(a[..]))
  {
    var i := 0;
    while i < a.Length
      invariant 0 <= i <= a.Length
      invariant forall p, q :: 0 <= p < q < i ==> LessEq(a[p], a[q])
      invariant multiset(a[..]) == multiset(old(a[..]))
    {
      var j := i;
      while j > 0 && Less(a[j], a[j - 1])
        invariant 0 <= j <= i
        invariant forall p, q :: 0 <= p < q <= i && q != j ==> LessEq(a[p], a[q])
        invariant multiset(a[..]) == multiset(old(a[..]))
      {
        a[j - 1], a[j] := a[j], a[j - 1];
        j := j - 1;
      }
      if j > 0 {
        NotLessIsLessEq(a[j - 1], a[j]);
        forall p | 0 <= p < j
          ensures LessEq(a[p], a[j])
        {
          if p < j - 1 {
            LessEqTransitive(a[p], a[j - 1], a[j]);
          }
        }
      }
      i := i + 1;
    }
  }

  /** The first half of getOrderedKeyNamesFromSchemaMap: copy the keys into a
      new array in the map's own (unspecified) order. */
  method KeysIntoArray<V>(m: map<string, V>) returns (a: array<string>)
    ensures fresh(a)
    ensures multiset(a[..]) == multiset(m.Keys)
  {
    a := new string[|m|];
    var rest := m.Keys;
    var idx := 0;
    while rest != {}
      invariant 0 <= idx <= a.Length
      invariant idx + |rest| == |m|
      invariant multiset(a[..idx]) + multiset(rest) == multiset(m.Keys)
      decreases rest
    {
      var k :| k in rest;
      a[idx] := k;
      assert a[..idx + 1] == a[..idx] + [k];
      assert multiset(rest) == multiset(rest - {k}) + multiset{k};
      idx := idx + 1;
      rest := rest - {k};
    }
    assert a[..] == a[..idx];
  }

  /** getOrderedKeyNamesFromSchemaMap: the keys, copied out and sorted in place. */
  method OrderedKeyNames<V>(m: map<string, V>) returns (keys: seq<string>)
    ensures keys == SortedKeys(m.Keys)
  {
    var a := KeysIntoArray(m);
    SortStrings(a);
    keys := a[..];
    SortedSetIsSortedKeys(keys, m.Keys);
  }
}
