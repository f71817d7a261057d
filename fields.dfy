/** `strings.Fields` and the single-space join built from it: the whitespace collapse
    that `cleanSnippet` (internal/holded/client.go) applies to a response body. */
module Whitespace {
  import opened Text

  /** A field: a non-empty run of characters none of which is a space. */
  predicate IsWord(w: string)
  {
    w != [] && forall i :: 0 <= i < |w| ==> !IsSpace(w[i])
  }

  /** The leading run of non-space characters of `s`. */
  function WordPrefix(s: string): (r: string)
    ensures |r| <= |s| && r == s[..|r|]
    ensures forall i :: 0 <= i < |r| ==> !IsSpace(r[i])
    ensures |r| < |s| ==> IsSpace(s[|r|])
    ensures s != [] && !IsSpace(s[0]) ==> r != []
  {
    if s == [] || IsSpace(s[0]) then [] else [s[0]] + WordPrefix(s[1..])
  }

  /** `strings.Fields`: the maximal runs of non-space characters, in order. */
  function Fields(s: string): (r: seq<string>)
    ensures forall i :: 0 <= i < |r| ==> IsWord(r[i])
    decreases |s|
  {
    var t := TrimLeftSpace(s);
    if t == [] then []
    else
      var w := WordPrefix(t);
      [w] + Fields(t[|w|..])
  }

  /** `strings.Join(strings.Fields(s), " ")`. */
  function Collapse(s: string): string
  {
    Join(Fields(s), " ")
  }

  /** The characters of `s` that are not spaces, in order. */
  function NonSpace(s: string): string
  {
    if s == [] then []
    else (if IsSpace(s[0]) then [] else [s[0]]) + NonSpace(s[1..])
  }

  function Concat(parts: seq<string>): string
  {
    if parts == [] then [] else parts[0] + Concat(parts[1..])
  }

  /** Every space in `s` is a single ' ' that follows a non-space character. This is kept
      by every prefix. */
  predicate NoSpaceRuns(s: string)
  {
    forall i :: 0 <= i < |s| && IsSpace(s[i]) ==> s[i] == ' ' && 0 < i && !IsSpace(s[i - 1])
  }

  /** Words separated by exactly one ' ', with no space at either end. */
  predicate SingleSpaced(s: string)
  {
    NoSpaceRuns(s) && (s == [] || !IsSpace(s[|s| - 1]))
  }

  lemma NoSpaceRunsPrefix(s: string, n: nat)
    requires NoSpaceRuns(s) && n <= |s|
    ensures NoSpaceRuns(s[..n])
  {
  }

  /** `Fields` finds nothing exactly when every character is a space. */
  lemma FieldsEmpty(s: string)
    ensures Fields(s) == [] <==> forall i :: 0 <= i < |s| ==> IsSpace(s[i])
  {
    TrimLeftSpaceDropsSpaces(s);
  }

  lemma TrimLeftOfNonSpace(s: string)
    requires s == [] || !IsSpace(s[0])
    ensures TrimLeftSpace(s) == s
  {
  }

  /** A leading space does not change the fields. */
  lemma FieldsSkipSpace(s: string)
    ensures Fields(" " + s) == Fields(s)
  {
    assert (" " + s)[1..] == s;
  }

  /** The word at the head of `w + rest` is `w` when `rest` starts with a space. */
  lemma {:induction false} WordPrefixOfWord(w: string, rest: string)
    requires IsWord(w)
    requires rest == [] || IsSpace(rest[0])
    ensures WordPrefix(w + rest) == w
    decreases |w|
  {
    assert (w + rest)[1..] == w[1..] + rest;
    if |w| > 1 {
      WordPrefixOfWord(w[1..], rest);
    } else {
      assert w[1..] + rest == rest;
    }
  }

  /** Joining words with single spaces gives a single-spaced string that starts with the
      first word. */
  lemma {:induction false} JoinSingleSpaced(fs: seq<string>)
    requires forall i :: 0 <= i < |fs| ==> IsWord(fs[i])
    ensures SingleSpaced(Join(fs, " "))
    ensures fs != [] ==> Join(fs, " ") != [] && !IsSpace(Join(fs, " ")[0])
    decreases |fs|
  {
    if |fs| >= 2 {
      var f, j := fs[0], Join(fs[1..], " ");
      JoinSingleSpaced(fs[1..]);
      var s := f + " " + j;
      assert Join(fs, " ") == s;
      forall i | 0 <= i < |s| && IsSpace(s[i])
        ensures s[i] == ' ' && 0 < i && !IsSpace(s[i - 1])
      {
        if i > |f| {
          assert s[i] == j[i - |f| - 1];
          assert i - |f| - 1 > 0;
          assert s[i - 1] == j[i - |f| - 2];
        }
      }
      assert s[|s| - 1] == j[|j| - 1];
    }
  }

  /** A word followed by nothing or by a space is the first field. */
  lemma FieldsCons(f: string, rest: string)
    requires IsWord(f)
    requires rest == [] || IsSpace(rest[0])
    ensures Fields(f + rest) == [f] + Fields(rest)
  {
    TrimLeftOfNonSpace(f + rest);
    WordPrefixOfWord(f, rest);
    assert (f + rest)[|f|..] == rest;
  }

  lemma FieldsOfWord(w: string)
    requires IsWord(w)
    ensures Fields(w) == [w]
  {
    FieldsCons(w, []);
    assert w + [] == w;
    assert Fields([]) == [];
  }

  /** Round trip: the fields of words joined with single spaces are those words. */
  lemma {:induction false} FieldsOfJoin(fs: seq<string>)
    requires forall i :: 0 <= i < |fs| ==> IsWord(fs[i])
    ensures Fields(Join(fs, " ")) == fs
    decreases |fs|
  {
    if fs == [] {
      assert Fields([]) == [];
    } else if |fs| == 1 {
      FieldsOfWord(fs[0]);
    } else {
      assert fs == [fs[0]] + fs[1..];
      FieldsOfJoin(fs[1..]);
      FieldsOfJoinStep(fs[0], fs[1..]);
    }
  }

  lemma JoinCons(f: string, rest: seq<string>)
    requires rest != []
    ensures Join([f] + rest, " ") == f + (" " + Join(rest, " "))
  {
    assert ([f] + rest)[1..] == rest;
  }

  lemma FieldsOfJoinStep(f: string, rest: seq<string>)
    requires IsWord(f) && rest != []
    requires Fields(Join(rest, " ")) == rest
    ensures Fields(Join([f] + rest, " ")) == [f] + rest
  {
    var j := Join(rest, " ");
    JoinCons(f, rest);
    JoinSingleSpaced(rest);
    FieldsCons(f, " " + j);
    FieldsSkipSpace(j);
  }

  /** Collapsing an already collapsed string changes nothing. */
  lemma CollapseIdempotent(s: string)
    ensures Collapse(Collapse(s)) == Collapse(s)
    ensures SingleSpaced(Collapse(s))
  {
    FieldsOfJoin(Fields(s));
    JoinSingleSpaced(Fields(s));
  }

  /** A string with a non-space character collapses to a non-empty string. */
  lemma CollapseNonEmpty(s: string, k: nat)
    requires k < |s| && !IsSpace(s[k])
    ensures Collapse(s) != []
  {
    FieldsEmpty(s);
    JoinSingleSpaced(Fields(s));
  }

  lemma {:induction false} NonSpaceAppend(a: string, b: string)
    ensures NonSpace(a + b) == NonSpace(a) + NonSpace(b)
    decreases |a|
  {
    if a == [] {
      assert a + b == b;
    } else {
      assert (a + b)[1..] == a[1..] + b;
      NonSpaceAppend(a[1..], b);
    }
  }

  lemma {:induction false} NonSpaceOfSpaces(s: string)
    requires forall i :: 0 <= i < |s| ==> IsSpace(s[i])
    ensures NonSpace(s) == []
    decreases |s|
  {
    if s != [] {
      NonSpaceOfSpaces(s[1..]);
    }
  }

  lemma {:induction false} NonSpaceOfNonSpaces(s: string)
    requires forall i :: 0 <= i < |s| ==> !IsSpace(s[i])
    ensures NonSpace(s) == s
    decreases |s|
  {
    if s != [] {
      NonSpaceOfNonSpaces(s[1..]);
    }
  }

  lemma NonSpaceTrimLeft(s: string)
    ensures NonSpace(TrimLeftSpace(s)) == NonSpace(s)
  {
    var l := TrimLeftSpace(s);
    TrimLeftSpaceDropsSpaces(s);
    assert s == s[..|s| - |l|] + l;
    NonSpaceAppend(s[..|s| - |l|], l);
    NonSpaceOfSpaces(s[..|s| - |l|]);
  }

  lemma NonSpaceTrimRight(s: string)
    ensures NonSpace(TrimRightSpace(s)) == NonSpace(s)
  {
    var r := TrimRightSpace(s);
    TrimRightSpaceDropsSpaces(s);
    assert s == r + s[|r|..];
    NonSpaceAppend(r, s[|r|..]);
    NonSpaceOfSpaces(s[|r|..]);
  }

  /** Trimming removes only spaces, so it keeps the non-space characters. */
  lemma NonSpaceOfTrimmed(s: string)
    ensures NonSpace(TrimSpace(s)) == NonSpace(s)
  {
    NonSpaceTrimLeft(s);
    NonSpaceTrimRight(TrimLeftSpace(s));
  }

  /** The fields hold exactly the non-space characters of `s`, in order. */
  lemma {:induction false} FieldsKeepNonSpace(s: string)
    ensures Concat(Fields(s)) == NonSpace(s)
    decreases |s|
  {
    var t := TrimLeftSpace(s);
    NonSpaceTrimLeft(s);
    if t != [] {
      var w := WordPrefix(t);
      assert t == w + t[|w|..];
      NonSpaceAppend(w, t[|w|..]);
      NonSpaceOfNonSpaces(w);
      FieldsKeepNonSpace(t[|w|..]);
    }
  }

  /** Joining with spaces adds no non-space character. */
  lemma {:induction false} NonSpaceOfJoin(fs: seq<string>)
    requires forall i :: 0 <= i < |fs| ==> IsWord(fs[i])
    ensures NonSpace(Join(fs, " ")) == Concat(fs)
    decreases |fs|
  {
    if |fs| == 1 {
      NonSpaceOfNonSpaces(fs[0]);
      assert Concat(fs) == fs[0] + Concat([]);
    } else if |fs| >= 2 {
      var f, j := fs[0], Join(fs[1..], " ");
      NonSpaceOfJoin(fs[1..]);
      NonSpaceAppend(f + " ", j);
      NonSpaceAppend(f, " ");
      NonSpaceOfNonSpaces(f);
    }
  }

  /** What collapsing keeps: every non-space character, in order, and nothing else but
      single spaces between words. */
  lemma CollapseKeepsNonSpace(s: string)
    ensures NonSpace(Collapse(s)) == NonSpace(s)
    ensures SingleSpaced(Collapse(s))
  {
    NonSpaceOfJoin(Fields(s));
    FieldsKeepNonSpace(s);
    JoinSingleSpaced(Fields(s));
  }
}
