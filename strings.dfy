/** The string helpers the extractor takes from Go's standard library:
    strings.Split, strings.Join and strings.Replace with an empty replacement. */
module Strings {

  /** The pieces of `s` between separators: strings.Split(s, sep) when `seps`
      is the one character `sep`. There is always one piece more than there are
      separators, so an empty string gives [""] and adjacent separators give an
      empty piece between them. Defined from the right end, as a buffer that is
      cut at each separator. */
  function Pieces(s: string, seps: seq<char>): (r: seq<string>)
    ensures |r| >= 1
  {
    if s == [] then [""]
    else
      var init := Pieces(s[..|s| - 1], seps);
      var c := s[|s| - 1];
      if c in seps then init + [""]
      else init[..|init| - 1] + [init[|init| - 1] + [c]]
  }

  /** No piece contains a separator. */
  lemma {:induction false} PiecesSeparatorFree(s: string, seps: seq<char>)
    ensures forall i, j :: 0 <= i < |Pieces(s, seps)| && 0 <= j < |Pieces(s, seps)[i]| ==> Pieces(s, seps)[i][j] !in seps
  {
    if s != [] {
      PiecesSeparatorFree(s[..|s| - 1], seps);
    }
  }

  /** A string without separators is one piece. */
  lemma {:induction false} PiecesOfSeparatorFree(s: string, seps: seq<char>)
    requires forall j :: 0 <= j < |s| ==> s[j] !in seps
    ensures Pieces(s, seps) == [s]
  {
    if s != [] {
      PiecesOfSeparatorFree(s[..|s| - 1], seps);
      assert s[..|s| - 1] + [s[|s| - 1]] == s;
    }
  }

  /** Pieces, read as a step that appends one character. */
  lemma PiecesSnoc(s: string, d: char, seps: seq<char>)
    ensures Pieces(s + [d], seps) == Extend(Pieces(s, seps), d, seps)
  {
    assert (s + [d])[..|s|] == s;
  }

  /** The pieces after one more character: a new empty piece after a separator,
      otherwise the character added to the last piece. */
  function Extend(p: seq<string>, d: char, seps: seq<char>): seq<string>
    requires |p| >= 1
  {
    if d in seps then p + [""] else p[..|p| - 1] + [p[|p| - 1] + [d]]
  }

  lemma ExtendAppend(pa: seq<string>, pb: seq<string>, d: char, seps: seq<char>)
    requires |pb| >= 1
    ensures Extend(pa + pb, d, seps) == pa + Extend(pb, d, seps)
  {
    var x := pa + pb;
    if d !in seps {
      assert x[..|x| - 1] == pa + pb[..|pb| - 1];
    }
  }

  /** Splitting at a separator splits the pieces. */
  lemma {:induction false} PiecesAtSeparator(a: string, c: char, b: string, seps: seq<char>)
    requires c in seps
    ensures Pieces(a + [c] + b, seps) == Pieces(a, seps) + Pieces(b, seps)
    decreases |b|
  {
    if b == [] {
      assert a + [c] + b == a + [c];
      PiecesSnoc(a, c, seps);
    } else {
      var b' := b[..|b| - 1];
      var d := b[|b| - 1];
      assert a + [c] + b == (a + [c] + b') + [d];
      assert b == b' + [d];
      PiecesSnoc(a + [c] + b', d, seps);
      PiecesSnoc(b', d, seps);
      PiecesAtSeparator(a, c, b', seps);
      ExtendAppend(Pieces(a, seps), Pieces(b', seps), d, seps);
    }
  }

  /** strings.Join: the items with `sep` between each two, none after the last. */
  function Join(items: seq<string>, sep: string): (r: string)
  {
    if |items| == 0 then ""
    else if |items| == 1 then items[0]
    else Join(items[..|items| - 1], sep) + sep + items[|items| - 1]
  }

  /** Joining adds exactly |sep| characters between each two items. */
  lemma {:induction false} JoinLength(items: seq<string>, sep: string)
    ensures |Join(items, sep)| == TotalLength(items) + (if items == [] then 0 else |sep| * (|items| - 1))
  {
    if |items| > 1 {
      JoinLength(items[..|items| - 1], sep);
    }
  }

  function TotalLength(items: seq<string>): nat
  {
    if items == [] then 0 else TotalLength(items[..|items| - 1]) + |items[|items| - 1]|
  }

  /** Splitting a joined list at its one-character separator gives the list back,
      provided no item contains the separator. */
  lemma {:induction false} PiecesOfJoin(items: seq<string>, c: char)
    requires items != []
    requires forall i, j :: 0 <= i < |items| && 0 <= j < |items[i]| ==> items[i][j] != c
    ensures Pieces(Join(items, [c]), [c]) == items
    decreases |items|
  {
    var last := items[|items| - 1];
    PiecesOfSeparatorFree(last, [c]);
    if |items| > 1 {
      var init := items[..|items| - 1];
      PiecesOfJoin(init, c);
      PiecesAtSeparator(Join(init, [c]), c, last, [c]);
      assert Join(init, [c]) + [c] + last == Join(items, [c]);
    }
  }

  /** Joining the pieces of a string with its one separator gives the string back. */
  lemma {:induction false} JoinOfPieces(s: string, c: char)
    ensures Join(Pieces(s, [c]), [c]) == s
  {
    if s != [] {
      var init := s[..|s| - 1];
      var d := s[|s| - 1];
      assert init + [d] == s;
      PiecesSnoc(init, d, [c]);
      JoinOfPieces(init, c);
      JoinExtend(Pieces(init, [c]), d, c);
    }
  }

  lemma JoinExtend(p: seq<string>, d: char, c: char)
    requires |p| >= 1
    ensures Join(Extend(p, d, [c]), [c]) == Join(p, [c]) + [d]
  {
    if d == c {
      JoinSnoc(p, "", [c]);
    } else {
      JoinAddToLast(p, [d], [c]);
    }
  }

  /** Join of one more item. */
  lemma JoinSnoc(p: seq<string>, x: string, sep: string)
    requires |p| >= 1
    ensures Join(p + [x], sep) == Join(p, sep) + sep + x
  {
    assert (p + [x])[..|p|] == p;
  }

  /** Join after extending the last item. */
  lemma JoinAddToLast(p: seq<string>, x: string, sep: string)
    requires |p| >= 1
    ensures Join(p[..|p| - 1] + [p[|p| - 1] + x], sep) == Join(p, sep) + x
  {
    var n := |p|;
    var q := p[..n - 1] + [p[n - 1] + x];
    if n > 1 {
      assert q[..n - 1] == p[..n - 1];
    }
  }

  /** strings.Replace(s, "#/", "", -1): one scan from the left that drops every
      non-overlapping "#/" it meets. */
  function RemoveMarker(s: string): (r: string)
    ensures |r| <= |s|
  {
    if |s| < 2 then s
    else if s[0] == '#' && s[1] == '/' then RemoveMarker(s[2..])
    else [s[0]] + RemoveMarker(s[1..])
  }

  /** A string without '#' is left alone. */
  lemma {:induction false} RemoveMarkerWithoutHash(s: string)
    requires '#' !in s
    ensures RemoveMarker(s) == s
  {
    if |s| >= 2 {
      assert s[0] != '#';
      RemoveMarkerWithoutHash(s[1..]);
      assert [s[0]] + s[1..] == s;
    }
  }

  /** A string without '/' is left alone: no "#/" can start in it. */
  lemma {:induction false} RemoveMarkerWithoutSlash(s: string)
    requires '/' !in s
    ensures RemoveMarker(s) == s
  {
    if |s| >= 2 {
      assert s[1] != '/';
      RemoveMarkerWithoutSlash(s[1..]);
      assert [s[0]] + s[1..] == s;
    }
  }

  /** Removal works piecewise on a concatenation when no "#/" straddles the boundary. */
  lemma {:induction false} RemoveMarkerAppend(x: string, y: string)
    requires !(x != [] && y != [] && x[|x| - 1] == '#' && y[0] == '/')
    ensures RemoveMarker(x + y) == RemoveMarker(x) + RemoveMarker(y)
    decreases |x|
  {
    if x == [] {
      assert x + y == y;
    } else if |x| == 1 {
      if y != [] {
        assert (x + y)[0] == x[0] && (x + y)[1] == y[0];
        assert (x + y)[1..] == y;
      }
    } else {
      assert (x + y)[0] == x[0] && (x + y)[1] == x[1];
      if x[0] == '#' && x[1] == '/' {
        assert (x + y)[2..] == x[2..] + y;
        RemoveMarkerAppend(x[2..], y);
      } else {
        assert (x + y)[1..] == x[1..] + y;
        RemoveMarkerAppend(x[1..], y);
      }
    }
  }

  /** The scan does not look again at what it kept: "##//" loses only its inner "#/". */
  lemma RemoveMarkerSinglePass()
    ensures RemoveMarker("##//") == "#/"
  {
    assert "##//"[1..] == "#//";
    assert "#//"[2..] == "/";
  }

  /** In any context, "##//" leaves one "#/" behind, so a second removal
      changes the result again: the removal is not repeated until no "#/" is left. */
  lemma RemoveMarkerNotRepeated(x: string, y: string)
    ensures RemoveMarker(x + "##//" + y) == RemoveMarker(x) + "#/" + RemoveMarker(y)
    ensures RemoveMarker(RemoveMarker(x + "##//" + y)) != RemoveMarker(x + "##//" + y)
  {
    RemoveMarkerAppend(x, "##//");
    RemoveMarkerAppend(x + "##//", y);
    RemoveMarkerSinglePass();
    var a, b := RemoveMarker(x), RemoveMarker(y);
    RemoveMarkerAppend(a, "#/");
    RemoveMarkerAppend(a + "#/", b);
    assert "#/"[2..] == "";
    assert |RemoveMarker(a + "#/" + b)| <= |a| + |b| < |a + "#/" + b|;
  }
}
