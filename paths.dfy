/** `joinPath` (internal/actions/catalog.go): gluing a server's base path to a path of
    the API description. */
module Paths {
  import opened Text

  /** One side of the join once blanks and every leading and trailing `/` are gone. */
  function Segment(x: string): (r: string)
    ensures r == [] || (r[0] != '/' && r[|r| - 1] != '/')
  {
    TrimChar(TrimSpace(x), '/')
  }

  /** One side as `joinPath` rewrites it: `"/" + Trim(side, "/")`, where a blank side
      first becomes `/` (and so stays `/`). */
  function Side(x: string): string
  {
    var t := TrimSpace(x);
    if t == [] then "/" else "/" + TrimChar(t, '/')
  }

  lemma SideIsSegment(x: string)
    ensures Side(x) == "/" + Segment(x)
    ensures Side(x) == "/" <==> Segment(x) == []
  {
    var g := Segment(x);
    assert |"/" + g| == |g| + 1;
  }

  /** `joinPath`: a side that is only `/` disappears. */
  function JoinPath(prefix: string, pathValue: string): (r: string)
  {
    JoinSides(Side(prefix), Side(pathValue))
  }

  /** The join of the two rewritten sides. */
  function JoinSides(left: string, right: string): string
  {
    if left == "/" then right
    else if right == "/" then left
    else left + right
  }

  lemma JoinSidesOfSegments(a: string, b: string)
    requires a != [] && b != []
    ensures JoinSides("/" + a, "/" + b) == "/" + a + "/" + b
  {
    assert |"/" + a| > 1 && |"/" + b| > 1;
  }

  /** A root prefix (blank, `/`, `//`, ...) leaves the path as its own `/segment`. */
  lemma JoinPathUnderRoot(prefix: string, pathValue: string)
    requires Segment(prefix) == []
    ensures JoinPath(prefix, pathValue) == "/" + Segment(pathValue)
  {
    SideIsSegment(prefix);
    SideIsSegment(pathValue);
  }

  /** A root path value leaves the prefix as its own `/segment`. */
  lemma JoinPathOfRoot(prefix: string, pathValue: string)
    requires Segment(pathValue) == []
    ensures JoinPath(prefix, pathValue) == "/" + Segment(prefix)
  {
    SideIsSegment(prefix);
    SideIsSegment(pathValue);
  }

  /** Otherwise exactly one `/` joins the two segments, whatever slashes and blanks
      surrounded them. */
  lemma JoinPathOfSegments(prefix: string, pathValue: string)
    requires Segment(prefix) != [] && Segment(pathValue) != []
    ensures JoinPath(prefix, pathValue) == "/" + Segment(prefix) + "/" + Segment(pathValue)
  {
    SideIsSegment(prefix);
    SideIsSegment(pathValue);
    JoinSidesOfSegments(Segment(prefix), Segment(pathValue));
  }

  lemma JoinPathShape(prefix: string, pathValue: string)
    ensures var r := JoinPath(prefix, pathValue);
      && |r| >= 1 && r[0] == '/'
      && (r == "/" || r[|r| - 1] != '/')
      && (r == "/" <==> Segment(prefix) == [] && Segment(pathValue) == [])
  {
    var a, b := Segment(prefix), Segment(pathValue);
    var r := JoinPath(prefix, pathValue);
    if a == [] {
      JoinPathUnderRoot(prefix, pathValue);
    } else if b == [] {
      JoinPathOfRoot(prefix, pathValue);
    } else {
      JoinPathOfSegments(prefix, pathValue);
    }
    JoinedShape(r, a, b);
  }

  /** The shape of a join, from the segments it was made of. */
  lemma JoinedShape(r: string, a: string, b: string)
    requires a == [] || a[|a| - 1] != '/'
    requires b == [] || b[|b| - 1] != '/'
    requires a == [] ==> r == "/" + b
    requires a != [] && b == [] ==> r == "/" + a
    requires a != [] && b != [] ==> r == "/" + a + "/" + b
    ensures |r| >= 1 && r[0] == '/'
    ensures r == "/" || r[|r| - 1] != '/'
    ensures r == "/" <==> a == [] && b == []
  {
    if a != [] && b != [] {
      assert |r| == |a| + |b| + 2 && r[|r| - 1] == b[|b| - 1];
    } else if a == [] {
      assert |r| == |b| + 1 && (b != [] ==> r[|r| - 1] == b[|b| - 1]);
    } else {
      assert |r| == |a| + 1 && r[|r| - 1] == a[|a| - 1];
    }
  }

  /** A path in canonical form: a leading `/`, at least one more character, no second
      leading `/`, no trailing `/`, no surrounding blanks. */
  predicate CanonicalPath(p: string)
  {
    |p| >= 2 && p[0] == '/' && p[1] != '/' && p[|p| - 1] != '/' && !IsSpace(p[|p| - 1])
  }

  lemma SegmentOfCanonical(p: string)
    requires CanonicalPath(p)
    ensures Segment(p) == p[1..]
  {
    assert !IsSpace(p[0]);
    TrimSpaceOfTrimmed(p);
    var q := p[1..];
    TrimOneLeadingSlash(p);
    assert q[|q| - 1] == p[|p| - 1];
    TrimRightCharNoop(q, '/');
    assert TrimChar(p, '/') == q;
  }

  lemma TrimRightCharNoop(s: string, c: char)
    requires s != [] && s[|s| - 1] != c
    ensures TrimRightChar(s, c) == s
  {
  }

  lemma TrimOneLeadingSlash(p: string)
    requires |p| >= 2 && p[0] == '/' && p[1] != '/'
    ensures TrimLeftChar(p, '/') == p[1..]
  {
    assert p[1..][0] == p[1];
  }

  /** Two canonical paths are simply concatenated: the server prefix
      `/api/invoicing/v1` and the path `/contacts` give `/api/invoicing/v1/contacts`. */
  lemma JoinPathOfCanonical(prefix: string, pathValue: string)
    requires CanonicalPath(prefix) && CanonicalPath(pathValue)
    ensures JoinPath(prefix, pathValue) == prefix + pathValue
  {
    SegmentOfCanonical(prefix);
    SegmentOfCanonical(pathValue);
    JoinPathOfSegments(prefix, pathValue);
    SlashedConcat(prefix, pathValue);
  }

  lemma SlashedConcat(p: string, q: string)
    requires p != [] && p[0] == '/' && q != [] && q[0] == '/'
    ensures "/" + p[1..] + "/" + q[1..] == p + q
  {
    assert p == "/" + p[1..];
    assert q == "/" + q[1..];
  }

  /** The server prefix and the first path of the invoicing fixture. */
  lemma JoinPathFixture()
    ensures JoinPath("/api/invoicing/v1", "/contacts") == "/api/invoicing/v1/contacts"
  {
    var p, q := "/api/invoicing/v1", "/contacts";
    assert p + q == "/api/invoicing/v1/contacts";
    assert CanonicalPath(p) && CanonicalPath(q);
    JoinPathOfCanonical(p, q);
  }
}
