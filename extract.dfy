/** `extractSSRProps` (internal/actions/catalog.go): the JSON payload that a reference
    page embeds in its `ssr-props` script element. */
module Extract {
  import opened Wrappers
  import opened Text

  /** The opening tag that `ssrPropsPattern` looks for. */
  const Open: string := "<" + OpenRest
  const OpenRest: string := "script id=\"ssr-props\"" + " type=\"application/json\">"
  /** The closing tag that ends the lazy `(.*?)` group. */
  const Close: string := "</script>"
  const NotFound: string := "ssr props payload not found"

  /** The pattern `(?s)<script id="ssr-props" type="application/json">(.*?)</script>`:
      the leftmost opening tag, then everything up to the first closing tag after it
      (newlines included). */
  function ExtractSSRProps(html: string): (r: Result<string, string>)
    ensures r.Err? ==> r.error == NotFound
  {
    var i := IndexFrom(html, Open, 0);
    if i < 0 then Err(NotFound)
    else
      var j := IndexFrom(html, Close, i + |Open|);
      if j < 0 then Err(NotFound)
      else Ok(html[i + |Open|..j])
  }

  /** What is extracted sits between an opening and a closing tag of the page, and holds
      no closing tag itself. */
  lemma ExtractSSRPropsFramed(html: string)
    ensures var r := ExtractSSRProps(html);
      r.Ok? ==> !Contains(r.value, Close) && Contains(html, Open + r.value + Close)
  {
    var i := IndexFrom(html, Open, 0);
    if i >= 0 {
      var j := IndexFrom(html, Close, i + |Open|);
      if j >= 0 {
        NoEarlierOccurrence(html, i + |Open|, j, Close);
        Framed(html, i, j);
      }
    }
  }

  /** A page without an opening tag has no payload. */
  lemma ExtractSSRPropsMissing(html: string)
    ensures !Contains(html, Open) ==> ExtractSSRProps(html) == Err(NotFound)
  {
    var i := IndexFrom(html, Open, 0);
    if i >= 0 {
      assert OccursAt(html, i, Open);
    }
  }

  /** A page whose first opening tag, at `i`, has no closing tag after it has no payload. */
  lemma ExtractSSRPropsUnclosed(html: string, i: nat)
    requires OccursAt(html, i, Open) && forall k :: 0 <= k < i ==> !OccursAt(html, k, Open)
    requires !Contains(html[i + |Open|..], Close)
    ensures ExtractSSRProps(html) == Err(NotFound)
  {
    assert IndexFrom(html, Open, 0) == i;
    var from := i + |Open|;
    var j := IndexFrom(html, Close, from);
    if j >= 0 {
      OccursInSuffix(html, from, j, Close);
    }
  }

  /** An occurrence at or after `from` is an occurrence in the suffix from there. */
  lemma OccursInSuffix(s: string, from: nat, j: nat, p: string)
    requires from <= j && OccursAt(s, j, p)
    ensures Contains(s[from..], p)
  {
    assert s[from..][j - from..j - from + |p|] == s[j..j + |p|];
    assert OccursAt(s[from..], j - from, p);
  }

  /** An occurrence inside a slice is an occurrence in the whole string. */
  lemma NoEarlierOccurrence(s: string, from: nat, j: nat, p: string)
    requires p != [] && from <= j <= |s|
    requires forall i :: from <= i < j ==> !OccursAt(s, i, p)
    ensures !Contains(s[from..j], p)
  {
    forall k | 0 <= k <= |s[from..j]| - |p|
      ensures !OccursAt(s[from..j], k, p)
    {
      if OccursAt(s[from..j], k, p) {
        forall t | 0 <= t < |p| ensures s[from + k + t] == p[t] {
          assert s[from..j][k..k + |p|][t] == p[t];
        }
        assert s[from + k..from + k + |p|] == p;
        assert from + k < j && OccursAt(s, from + k, p);
      }
    }
  }

  lemma Framed(html: string, i: nat, j: nat)
    requires OccursAt(html, i, Open) && i + |Open| <= j && OccursAt(html, j, Close)
    ensures Contains(html, Open + html[i + |Open|..j] + Close)
  {
    assert html[i..j + |Close|] == html[i..i + |Open|] + html[i + |Open|..j] + html[j..j + |Close|];
    assert OccursAt(html, i, Open + html[i + |Open|..j] + Close);
  }

  /** The first character of `m` never recurs inside `m`, so an occurrence of `m`
      cannot overlap the start of another one. */
  predicate FirstCharUnique(m: string)
  {
    m != [] && m[0] !in m[1..]
  }

  /** In `head + pre + m + rest`, when `pre` does not contain `m`, the first occurrence
      of `m` at or after `|head|` is the one right after `pre`. */
  lemma FirstOccurrence(head: string, pre: string, m: string, rest: string)
    requires FirstCharUnique(m)
    requires !Contains(pre, m)
    ensures IndexFrom(head + pre + m + rest, m, |head|) == |head| + |pre|
  {
    var s := head + pre + m + rest;
    var at := |head| + |pre|;
    assert s[at..at + |m|] == m;
    assert OccursAt(s, at, m);
    forall i | |head| <= i < at ensures !OccursAt(s, i, m) {
      if i + |m| <= at {
        assert s[i..i + |m|] == pre[i - |head|..i - |head| + |m|];
        assert !OccursAt(pre, i - |head|, m);
      } else {
        var d := at - i;
        assert m[1..][d - 1] == m[d];
        assert s[i..i + |m|][d] == s[at] == m[0] != m[d];
      }
    }
  }

  lemma MarkersFirstCharUnique()
    ensures FirstCharUnique(Open)
    ensures FirstCharUnique(Close)
  {
    OpenFirstCharUnique();
    assert Close[1..] == "/script>";
  }

  lemma OpenFirstCharUnique()
    ensures FirstCharUnique(Open)
  {
    assert Open[1..] == OpenRest;
    assert '<' !in "script id=\"ssr-props\"";
    assert '<' !in " type=\"application/json\">";
  }

  /** A string without the first character of `m` does not contain `m`. */
  lemma NotContainsWithoutFirstChar(s: string, m: string)
    requires m != []
    requires forall i :: 0 <= i < |s| ==> s[i] != m[0]
    ensures !Contains(s, m)
  {
    forall k | 0 <= k <= |s| - |m| ensures !OccursAt(s, k, m) {
      assert s[k..k + |m|][0] == s[k];
    }
  }

  /** Round trip: wrapping a payload in the script element, on a page with no earlier
      script element of that kind, extracts exactly that payload. */
  lemma ExtractOfPage(pre: string, payload: string, post: string)
    requires !Contains(pre, Open)
    requires !Contains(payload, Close)
    ensures ExtractSSRProps(pre + Open + payload + Close + post) == Ok(payload)
  {
    var head := pre + Open;
    var html := head + payload + Close + post;
    OpenFoundAt(pre, payload + Close + post, html);
    CloseFoundAt(head, payload, post);
    SliceOfJoin(head, payload, Close, post);
    ExtractAt(html, |pre|, |head| + |payload|);
  }

  lemma OpenFoundAt(pre: string, rest: string, html: string)
    requires !Contains(pre, Open) && html == pre + Open + rest
    ensures IndexFrom(html, Open, 0) == |pre|
  {
    MarkersFirstCharUnique();
    FirstOccurrence([], pre, Open, rest);
    Regroup(pre, Open, rest, html);
  }

  lemma CloseFoundAt(head: string, payload: string, post: string)
    requires !Contains(payload, Close)
    ensures IndexFrom(head + payload + Close + post, Close, |head|) == |head| + |payload|
  {
    MarkersFirstCharUnique();
    FirstOccurrence(head, payload, Close, post);
  }

  /** The extraction once both markers have been found. */
  lemma ExtractAt(html: string, i: nat, j: nat)
    requires IndexFrom(html, Open, 0) == i
    requires i + |Open| <= |html| && IndexFrom(html, Close, i + |Open|) == j
    ensures i + |Open| <= j <= |html|
    ensures ExtractSSRProps(html) == Ok(html[i + |Open|..j])
  {
  }

  lemma Regroup(pre: string, m: string, rest: string, s: string)
    requires s == pre + m + rest
    ensures [] + pre + m + rest == s
  {
  }

  lemma SliceOfJoin(a: string, b: string, c: string, d: string)
    ensures (a + b + c + d)[|a|..|a| + |b|] == b
  {
  }

  /** The page of the extraction test. */
  lemma ExtractFixture()
    ensures ExtractSSRProps("<html><body>" + Open + "{\"document\":{}}" + Close + "</body></html>")
         == Ok("{\"document\":{}}")
  {
    var pre, payload, post := "<html><body>", "{\"document\":{}}", "</body></html>";
    assert !Contains(pre, Open);
    NotContainsWithoutFirstChar(payload, Close);
    ExtractOfPage(pre, payload, post);
  }
}
