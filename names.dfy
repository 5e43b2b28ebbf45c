/** Name derivation: getGolangName, getStructName and their helpers
    splitOnAll, matches and capitaliseFirstLetter. */
module Names {
  import opened Schema
  import opened Strings

  /** The characters getGolangName splits on. */
  const Separators: seq<char> := ['_', ' ', '.', '-']

  /** strings.ToUpper on one character, for ASCII only. */
  function Upper(c: char): char
  {
    if 'a' <= c <= 'z' then (c as int - 32) as char else c
  }

  lemma UpperIdempotent(c: char)
    ensures Upper(Upper(c)) == Upper(c)
  {
  }

  lemma UpperKeepsSeparators(c: char)
    ensures Upper(c) in Separators <==> c in Separators
  {
  }

  /** matches: whether `c` is one of `any`. */
  method Matches(c: char, any: seq<char>) returns (found: bool)
    ensures found <==> c in any
  {
    for i := 0 to |any|
      invariant c !in any[..i]
    {
      if any[i] == c {
        return true;
      }
      assert any[..i + 1] == any[..i] + [any[i]];
    }
    assert any[..|any|] == any;
    return false;
  }

  /** What splitOnAll returns: the pieces between separators, keeping the empty
      ones that adjacent separators or a leading separator make, but dropping
      the last piece when it is empty. */
  function Segments(s: string, seps: seq<char>): seq<string>
  {
    var p := Pieces(s, seps);
    if p[|p| - 1] == "" then p[..|p| - 1] else p
  }

  /** splitOnAll: cut `s` at every character of `splitItems`. */
  method SplitOnAll(s: string, splitItems: seq<char>) returns (rv: seq<string>)
    ensures rv == Segments(s, splitItems)
  {
    rv := [];
    var buf := "";
    for i := 0 to |s|
      invariant rv + [buf] == Pieces(s[..i], splitItems)
    {
      var c := s[i];
      var m := Matches(c, splitItems);
      assert s[..i + 1] == s[..i] + [c];
      PiecesSnoc(s[..i], c, splitItems);
      if m {
        rv := rv + [buf];
        buf := "";
      } else {
        assert (rv + [buf])[..|rv|] == rv;
        buf := buf + [c];
      }
    }
    assert s[..|s|] == s;
    if |buf| > 0 {
      rv := rv + [buf];
    } else {
      assert (rv + [buf])[..|rv|] == rv;
    }
  }

  /** No segment contains a separator. */
  lemma SegmentsSeparatorFree(s: string, seps: seq<char>)
    ensures forall i, j :: 0 <= i < |Segments(s, seps)| && 0 <= j < |Segments(s, seps)[i]| ==> Segments(s, seps)[i][j] !in seps
  {
    PiecesSeparatorFree(s, seps);
    var p := Pieces(s, seps);
    forall i, j | 0 <= i < |Segments(s, seps)| && 0 <= j < |Segments(s, seps)[i]|
      ensures Segments(s, seps)[i][j] !in seps
    {
      assert Segments(s, seps)[i] == p[i];
    }
  }

  /** The last piece is empty exactly when the string is empty or ends in a separator. */
  lemma LastPieceEmpty(s: string, seps: seq<char>)
    ensures Pieces(s, seps)[|Pieces(s, seps)| - 1] == "" <==> s == [] || s[|s| - 1] in seps
  {
  }

  /** With one separator, the segments joined by it give back the string,
      except for a trailing separator, whose empty segment was dropped. */
  lemma SegmentsRebuild(s: string, c: char)
    ensures Join(Segments(s, [c]), [c]) + (if s != [] && s[|s| - 1] == c then [c] else []) == s
  {
    var p := Pieces(s, [c]);
    JoinOfPieces(s, c);
    LastPieceEmpty(s, [c]);
    if p[|p| - 1] == "" {
      if |p| == 1 {
        assert s == [];
      } else {
        assert p == p[..|p| - 1] + [""];
        JoinSnoc(p[..|p| - 1], "", [c]);
      }
    }
  }

  /** capitaliseFirstLetter: upper-case the first character, keep the rest. */
  function CapitaliseFirstLetter(s: string): (r: string)
    ensures |r| == |s|
    ensures s != [] ==> r[0] == Upper(s[0]) && r[1..] == s[1..]
  {
    if s == "" then s else [Upper(s[0])] + s[1..]
  }

  /** The capitalised segments, concatenated. */
  function CapitalisedConcat(segs: seq<string>): string
  {
    if segs == [] then "" else CapitalisedConcat(segs[..|segs| - 1]) + CapitaliseFirstLetter(segs[|segs| - 1])
  }

  /** What getGolangName returns. */
  function GolangName(s: string): string
  {
    CapitalisedConcat(Segments(s, Separators))
  }

  /** getGolangName: split on the separators and capitalise each segment. */
  method GetGolangName(s: string) returns (r: string)
    ensures r == GolangName(s)
  {
    var segs := SplitOnAll(s, Separators);
    r := "";
    for i := 0 to |segs|
      invariant r == CapitalisedConcat(segs[..i])
    {
      assert segs[..i + 1][..i] == segs[..i];
      r := r + CapitaliseFirstLetter(segs[i]);
    }
    assert segs[..|segs|] == segs;
  }

  /** An independent reading of getGolangName, one character at a time: drop
      every separator and upper-case every character that starts the string or
      follows a separator. */
  function Identifier(s: string): string
  {
    if s == [] then []
    else
      var init := s[..|s| - 1];
      var c := s[|s| - 1];
      if c in Separators then Identifier(init)
      else Identifier(init) + [if init == [] || init[|init| - 1] in Separators then Upper(c) else c]
  }

  lemma CapitaliseSnoc(x: string, c: char)
    ensures CapitaliseFirstLetter(x + [c]) == CapitaliseFirstLetter(x) + [if x == [] then Upper(c) else c]
  {
    if x != [] {
      assert (x + [c])[1..] == x[1..] + [c];
    }
  }

  lemma CapitalisedConcatSnoc(segs: seq<string>, x: string)
    ensures CapitalisedConcat(segs + [x]) == CapitalisedConcat(segs) + CapitaliseFirstLetter(x)
  {
    assert (segs + [x])[..|segs|] == segs;
  }

  /** The capitalised pieces after one more character. */
  lemma CapitalisedExtend(p: seq<string>, c: char)
    requires |p| >= 1
    ensures CapitalisedConcat(Extend(p, c, Separators)) ==
      if c in Separators then CapitalisedConcat(p)
      else CapitalisedConcat(p) + [if p[|p| - 1] == [] then Upper(c) else c]
  {
    if c in Separators {
      CapitalisedConcatSnoc(p, "");
    } else {
      CapitalisedAddToLast(p[..|p| - 1], p[|p| - 1], c);
    }
  }

  lemma CapitalisedAddToLast(init: seq<string>, last: string, c: char)
    ensures CapitalisedConcat(init + [last + [c]]) ==
      CapitalisedConcat(init) + CapitaliseFirstLetter(last) + [if last == [] then Upper(c) else c]
  {
    CapitalisedConcatSnoc(init, last + [c]);
    CapitaliseSnoc(last, c);
    var a, b := CapitalisedConcat(init), CapitaliseFirstLetter(last);
    var x := if last == [] then Upper(c) else c;
    assert a + (b + [x]) == (a + b) + [x];
  }

  lemma {:induction false} ConcatOfPiecesIsIdentifier(s: string)
    ensures CapitalisedConcat(Pieces(s, Separators)) == Identifier(s)
  {
    if s != [] {
      var init := s[..|s| - 1];
      var c := s[|s| - 1];
      assert init + [c] == s;
      PiecesSnoc(init, c, Separators);
      ConcatOfPiecesIsIdentifier(init);
      LastPieceEmpty(init, Separators);
      CapitalisedExtend(Pieces(init, Separators), c);
    }
  }

  /** getGolangName agrees with the character-by-character reading. */
  lemma GolangNameIsIdentifier(s: string)
    ensures GolangName(s) == Identifier(s)
  {
    ConcatOfPiecesIsIdentifier(s);
    var p := Pieces(s, Separators);
    if p[|p| - 1] == "" {
      assert p == p[..|p| - 1] + [""];
    }
  }

  lemma {:induction false} IdentifierSeparatorFree(s: string)
    ensures forall i :: 0 <= i < |Identifier(s)| ==> Identifier(s)[i] !in Separators
  {
    if s != [] {
      IdentifierSeparatorFree(s[..|s| - 1]);
      UpperKeepsSeparators(s[|s| - 1]);
    }
  }

  /** A golang name never contains '_', ' ', '.' or '-'. */
  lemma GolangNameSeparatorFree(s: string)
    ensures forall i :: 0 <= i < |GolangName(s)| ==> GolangName(s)[i] !in Separators
  {
    GolangNameIsIdentifier(s);
    IdentifierSeparatorFree(s);
  }

  lemma {:induction false} IdentifierOfSeparatorFree(s: string)
    requires forall i :: 0 <= i < |s| ==> s[i] !in Separators
    ensures Identifier(s) == CapitaliseFirstLetter(s)
  {
    if s != [] {
      var init := s[..|s| - 1];
      IdentifierOfSeparatorFree(init);
      if init != [] {
        assert CapitaliseFirstLetter(s) == CapitaliseFirstLetter(init) + [s[|s| - 1]];
      }
    }
  }

  /** A name without separators only has its first letter upper-cased. */
  lemma GolangNameOfSeparatorFree(s: string)
    requires forall i :: 0 <= i < |s| ==> s[i] !in Separators
    ensures GolangName(s) == CapitaliseFirstLetter(s)
  {
    GolangNameIsIdentifier(s);
    IdentifierOfSeparatorFree(s);
  }

  lemma {:induction false} IdentifierHeadUpper(s: string)
    ensures Identifier(s) != [] ==> Upper(Identifier(s)[0]) == Identifier(s)[0]
  {
    if s != [] {
      var init := s[..|s| - 1];
      var c := s[|s| - 1];
      IdentifierHeadUpper(init);
      UpperIdempotent(c);
    }
  }

  /** getGolangName is idempotent. */
  lemma GolangNameIdempotent(s: string)
    ensures GolangName(GolangName(s)) == GolangName(s)
  {
    var t := GolangName(s);
    GolangNameSeparatorFree(s);
    GolangNameOfSeparatorFree(t);
    GolangNameIsIdentifier(s);
    IdentifierHeadUpper(s);
    if t != [] {
      assert t == [t[0]] + t[1..];
    }
  }

  /** The name used for the root pointer "#": title, else description, else "Root". */
  function RootName(t: Schema): string
  {
    if t.Title != "" then t.Title
    else if t.Description != "" then t.Description
    else "Root"
  }

  /** The '/'-segments of a pointer path after every "#/" is removed. */
  function PathSegments(reference: string): (r: seq<string>)
    ensures |r| >= 1
  {
    Pieces(RemoveMarker(reference), "/")
  }

  /** The golang names of the parts, concatenated. */
  function GolangNames(parts: seq<string>): string
  {
    if parts == [] then "" else GolangNames(parts[..|parts| - 1]) + GolangName(parts[|parts| - 1])
  }

  /** What getStructName returns; Go panics when more segments are asked for
      than the path has. */
  function StructName(reference: string, t: Schema, n: nat): string
    requires reference == "#" || n <= |PathSegments(reference)|
  {
    if reference == "#" then GolangName(RootName(t))
    else
      var parts := PathSegments(reference);
      var name := GolangNames(parts[|parts| - n..]);
      if name == "" then "Root" else name
  }

  lemma GolangNamesSnoc(parts: seq<string>, i: nat)
    requires i < |parts|
    ensures GolangNames(parts[..i + 1]) == GolangNames(parts[..i]) + GolangName(parts[i])
  {
    assert parts[..i + 1][..i] == parts[..i];
  }

  /** The root branch of getStructName: the golang name of the chosen root name. */
  lemma StructNameOfRoot(t: Schema, rootName: string, n: nat)
    requires rootName == RootName(t)
    ensures StructName("#", t, n) == GolangName(rootName)
  {
  }

  /** The path branch of getStructName, given the pieces and the concatenated
      golang names of the last `n` of them. */
  lemma StructNameOfPath(reference: string, t: Schema, n: nat, parts: seq<string>, sb: string)
    requires reference != "#" && parts == PathSegments(reference) && n <= |parts|
    requires sb == GolangNames(parts[|parts| - n..])
    ensures StructName(reference, t, n) == if sb == "" then "Root" else sb
  {
    assert parts[|parts| - n..] == PathSegments(reference)[|PathSegments(reference)| - n..];
  }

  /** Outside the root pointer the struct name comes from the path alone: the
      node's title and description play no part. */
  lemma StructNameOfPathIgnoresSchema(reference: string, t1: Schema, t2: Schema, n: nat)
    requires reference != "#" && n <= |PathSegments(reference)|
    ensures StructName(reference, t1, n) == StructName(reference, t2, n)
  {
  }

  /** The loop of getStructName: the golang names of the parts, appended in order. */
  method ConcatGolangNames(parts: seq<string>) returns (sb: string)
    ensures sb == GolangNames(parts)
  {
    sb := "";
    for i := 0 to |parts|
      invariant sb == GolangNames(parts[..i])
    {
      GolangNamesSnoc(parts, i);
      var g := GetGolangName(parts[i]);
      sb := sb + g;
    }
    assert parts[..|parts|] == parts;
  }

  /** getStructName: a struct name from a pointer path such as #/definitions/address,
      built from its last `n` segments. */
  method GetStructName(reference: string, structType: Schema, n: nat) returns (r: string)
    requires reference == "#" || n <= |PathSegments(reference)|
    ensures r == StructName(reference, structType, n)
  {
    if reference == "#" {
      var rootName := structType.Title;
      if rootName == "" {
        rootName := structType.Description;
      }
      if rootName == "" {
        rootName := "Root";
      }
      r := GetGolangName(rootName);
      StructNameOfRoot(structType, rootName, n);
    } else {
      var clean := RemoveMarker(reference);
      var parts := Pieces(clean, "/");
      assert parts == PathSegments(reference);
      var sb := ConcatGolangNames(parts[|parts| - n..]);
      StructNameOfPath(reference, structType, n, parts, sb);
      r := if sb == "" then "Root" else sb;
    }
  }

  lemma {:induction false} GolangNamesSeparatorFree(parts: seq<string>)
    ensures forall i :: 0 <= i < |GolangNames(parts)| ==> GolangNames(parts)[i] !in Separators
  {
    if parts != [] {
      GolangNamesSeparatorFree(parts[..|parts| - 1]);
      GolangNameSeparatorFree(parts[|parts| - 1]);
    }
  }

  /** A struct name has no separators, and only the root pointer can give an
      empty one (a title made of separators only). */
  lemma StructNameShape(reference: string, t: Schema, n: nat)
    requires reference == "#" || n <= |PathSegments(reference)|
    ensures forall i :: 0 <= i < |StructName(reference, t, n)| ==> StructName(reference, t, n)[i] !in Separators
    ensures reference != "#" ==> StructName(reference, t, n) != ""
  {
    if reference == "#" {
      GolangNameSeparatorFree(RootName(t));
    } else {
      var parts := PathSegments(reference);
      GolangNamesSeparatorFree(parts[|parts| - n..]);
    }
  }

  lemma CleanOfLastSegment(prefix: string, name: string)
    requires prefix == [] || prefix[|prefix| - 1] != '#'
    requires '/' !in name
    ensures RemoveMarker(prefix + "/" + name) == RemoveMarker(prefix) + ['/'] + name
  {
    assert prefix + "/" + name == prefix + ("/" + name);
    RemoveMarkerAppend(prefix, "/" + name);
    RemoveMarkerAppend("/", name);
    RemoveMarkerWithoutSlash(name);
  }

  lemma LastPathSegment(prefix: string, name: string)
    requires prefix == [] || prefix[|prefix| - 1] != '#'
    requires '/' !in name
    ensures var parts := PathSegments(prefix + "/" + name); parts[|parts| - 1..] == [name]
  {
    CleanOfLastSegment(prefix, name);
    var x := RemoveMarker(prefix);
    PiecesAtSeparator(x, '/', name, "/");
    PiecesOfSeparatorFree(name, "/");
  }

  /** For a path ending in "/name", where the boundary cannot form "#/" and the
      name has no '/', the depth-1 struct name is the golang name
      of `name`, or "Root" when that is empty. This covers #/definitions/<name>
      and <parent>/properties/<name>. */
  lemma StructNameOfLastSegment(prefix: string, name: string, t: Schema)
    requires prefix == [] || prefix[|prefix| - 1] != '#'
    requires '/' !in name
    ensures 1 <= |PathSegments(prefix + "/" + name)|
    ensures StructName(prefix + "/" + name, t, 1) == if GolangName(name) == "" then "Root" else GolangName(name)
  {
    var reference := prefix + "/" + name;
    assert reference[|prefix|] == '/';
    LastPathSegment(prefix, name);
    var parts := PathSegments(reference);
    assert GolangNames([name]) == GolangName(name);
    StructNameOfPath(reference, t, 1, parts, GolangName(name));
  }
}
