/** `normalizeToken` (internal/actions/catalog.go): the slug rule used for action ids and
    for matching references. */
module Slug {
  import opened Text

  /** The characters `[a-z0-9]` that the slug cleaner keeps. */
  predicate IsSlugChar(c: char)
  {
    'a' <= c <= 'z' || '0' <= c <= '9'
  }

  /** A run of `[a-z0-9]` only. */
  predicate Word(w: string)
  {
    forall i :: 0 <= i < |w| ==> IsSlugChar(w[i])
  }

  /** Only slug characters and dashes, and never two dashes in a row. */
  predicate DashSeparated(s: string)
  {
    && (forall i :: 0 <= i < |s| ==> IsSlugChar(s[i]) || s[i] == '-')
    && (forall i :: 0 <= i < |s| - 1 ==> !(s[i] == '-' && s[i + 1] == '-'))
  }

  /** A normalised token: dash-separated runs of `[a-z0-9]`, no dash at either end. */
  predicate IsSlug(s: string)
  {
    DashSeparated(s) && (s == [] || (s[0] != '-' && s[|s| - 1] != '-'))
  }

  /** Drops the rest of a run that `[^a-z0-9]+` matches. */
  function DropRun(s: string): (r: string)
    ensures |r| <= |s| && r == s[|s| - |r|..]
    ensures r == [] || IsSlugChar(r[0])
  {
    if s != [] && !IsSlugChar(s[0]) then DropRun(s[1..]) else s
  }

  /** `slugCleaner.ReplaceAllString(s, "-")`: every maximal run of characters outside
      `[a-z0-9]` becomes a single `-`. */
  function CollapseRuns(s: string): (r: string)
    ensures s == [] <==> r == []
    decreases |s|
  {
    if s == [] then []
    else if IsSlugChar(s[0]) then [s[0]] + CollapseRuns(s[1..])
    else "-" + CollapseRuns(DropRun(s[1..]))
  }

  /** The output of the cleaner starts with `-` exactly when the input starts outside
      `[a-z0-9]`. */
  lemma CollapseRunsHead(s: string)
    requires s != []
    ensures CollapseRuns(s)[0] == '-' <==> !IsSlugChar(s[0])
  {
  }

  /** The output of the cleaner never holds two dashes in a row. */
  lemma {:induction false} CollapseRunsDashSeparated(s: string)
    ensures DashSeparated(CollapseRuns(s))
    decreases |s|
  {
    if s != [] {
      if IsSlugChar(s[0]) {
        CollapseRunsDashSeparated(s[1..]);
        DashSeparatedCons(s[0], CollapseRuns(s[1..]));
      } else {
        var d := DropRun(s[1..]);
        CollapseRunsDashSeparated(d);
        if d != [] {
          CollapseRunsHead(d);
        }
        DashSeparatedCons('-', CollapseRuns(d));
      }
    }
  }

  lemma DashSeparatedCons(c: char, t: string)
    requires DashSeparated(t)
    requires IsSlugChar(c) || (c == '-' && (t == [] || t[0] != '-'))
    ensures DashSeparated([c] + t)
  {
    var s := [c] + t;
    forall i | 0 < i < |s| ensures s[i] == t[i - 1] {
    }
  }

  /** `normalizeToken`: trim, lower-case, collapse runs, trim dashes. */
  function NormalizeToken(value: string): (r: string)
  {
    TrimChar(CollapseRuns(Lower(TrimSpace(value))), '-')
  }

  lemma DashSeparatedSlice(s: string, i: nat, j: nat)
    requires DashSeparated(s) && i <= j <= |s|
    ensures DashSeparated(s[i..j])
  {
    var t := s[i..j];
    forall k | 0 <= k < |t| ensures IsSlugChar(t[k]) || t[k] == '-' {
      assert t[k] == s[i + k];
    }
    forall k | 0 <= k < |t| - 1 ensures !(t[k] == '-' && t[k + 1] == '-') {
      assert t[k] == s[i + k] && t[k + 1] == s[i + k + 1];
    }
  }

  lemma TrimDashesKeepsDashSeparated(s: string)
    requires DashSeparated(s)
    ensures IsSlug(TrimChar(s, '-'))
  {
    var l := TrimLeftChar(s, '-');
    var r := TrimRightChar(l, '-');
    assert l == s[|s| - |l|..|s|];
    DashSeparatedSlice(s, |s| - |l|, |s|);
    assert r == l[0..|r|];
    DashSeparatedSlice(l, 0, |r|);
  }

  /** Whatever the input, the output is a slug. */
  lemma NormalizeTokenIsSlug(value: string)
    ensures IsSlug(NormalizeToken(value))
  {
    CollapseRunsDashSeparated(Lower(TrimSpace(value)));
    TrimDashesKeepsDashSeparated(CollapseRuns(Lower(TrimSpace(value))));
  }

  lemma {:induction false} CollapseRunsOfDashSeparated(s: string)
    requires DashSeparated(s)
    ensures CollapseRuns(s) == s
    decreases |s|
  {
    if s != [] {
      assert DashSeparated(s[1..]) by {
        forall i | 0 <= i < |s[1..]| - 1 ensures !(s[1..][i] == '-' && s[1..][i + 1] == '-') {
          assert s[1..][i] == s[i + 1] && s[1..][i + 1] == s[i + 2];
        }
      }
      CollapseRunsOfDashSeparated(s[1..]);
      if !IsSlugChar(s[0]) {
        assert s[0] == '-';
        assert DropRun(s[1..]) == s[1..] by {
          if s[1..] != [] {
            assert s[1] != '-';
          }
        }
      }
      assert s == [s[0]] + s[1..];
    }
  }

  lemma NormalizeTokenOfSlug(s: string)
    requires IsSlug(s)
    ensures NormalizeToken(s) == s
  {
    if s != [] {
      assert IsSlugChar(s[0]) && IsSlugChar(s[|s| - 1]);
      TrimSpaceOfTrimmed(s);
    }
    assert Lower(s) == s by {
      forall i | 0 <= i < |s| ensures Lower(s)[i] == s[i] {
        assert IsSlugChar(s[i]) || s[i] == '-';
      }
    }
    CollapseRunsOfDashSeparated(s);
  }

  /** Normalising twice is normalising once. */
  lemma NormalizeTokenIdempotent(value: string)
    ensures NormalizeToken(NormalizeToken(value)) == NormalizeToken(value)
  {
    NormalizeTokenIsSlug(value);
    NormalizeTokenOfSlug(NormalizeToken(value));
  }

  lemma {:induction false} CollapseRunsOfWord(w: string, t: string)
    requires Word(w)
    ensures CollapseRuns(w + t) == w + CollapseRuns(t)
    decreases |w|
  {
    if w != [] {
      var s := w + t;
      assert s[0] == w[0] && IsSlugChar(s[0]);
      assert s[1..] == w[1..] + t;
      assert CollapseRuns(s) == [w[0]] + CollapseRuns(w[1..] + t);
      CollapseRunsOfWord(w[1..], t);
      assert w == [w[0]] + w[1..];
    } else {
      assert w + t == t;
    }
  }

  lemma CollapseRunsOfSeparatedWord(sep: char, b: string)
    requires Word(b)
    requires !IsSlugChar(sep)
    ensures CollapseRuns([sep] + b) == "-" + b
  {
    var tail := [sep] + b;
    assert tail[1..] == b;
    assert DropRun(b) == b;
    CollapseRunsOfWord(b, []);
    assert b + [] == b;
  }

  /** Two words joined by one separator character collapse to the words joined by `-`. */
  lemma CollapseRunsOfTwoWords(a: string, sep: char, b: string)
    requires Word(a)
    requires Word(b)
    requires !IsSlugChar(sep)
    ensures CollapseRuns(a + [sep] + b) == a + "-" + b
  {
    assert a + [sep] + b == a + ([sep] + b);
    CollapseRunsOfWord(a, [sep] + b);
    CollapseRunsOfSeparatedWord(sep, b);
  }

  lemma TrimSpaceCommutesWithCase(s: string)
    ensures TrimSpace(Lower(s)) == Lower(TrimSpace(s))
    ensures TrimSpace(Upper(s)) == Upper(TrimSpace(s))
  {
    TrimLeftSpaceLower(s);
    TrimRightSpaceLower(TrimLeftSpace(s));
    TrimLeftSpaceUpper(s);
    TrimRightSpaceUpper(TrimLeftSpace(s));
  }

  lemma {:induction false} TrimLeftSpaceLower(s: string)
    ensures TrimLeftSpace(Lower(s)) == Lower(TrimLeftSpace(s))
    decreases |s|
  {
    if s != [] {
      CaseKeepsSpace(s[0]);
      TrimLeftSpaceLower(s[1..]);
      assert Lower(s)[0] == LowerChar(s[0]) && Lower(s)[1..] == Lower(s[1..]);
    }
  }

  lemma {:induction false} TrimLeftSpaceUpper(s: string)
    ensures TrimLeftSpace(Upper(s)) == Upper(TrimLeftSpace(s))
    decreases |s|
  {
    if s != [] {
      CaseKeepsSpace(s[0]);
      TrimLeftSpaceUpper(s[1..]);
      assert Upper(s)[0] == UpperChar(s[0]) && Upper(s)[1..] == Upper(s[1..]);
    }
  }

  lemma {:induction false} TrimRightSpaceLower(s: string)
    ensures TrimRightSpace(Lower(s)) == Lower(TrimRightSpace(s))
    decreases |s|
  {
    if s != [] {
      var n := |s| - 1;
      CaseKeepsSpace(s[n]);
      TrimRightSpaceLower(s[..n]);
      LowerOfInit(s);
    }
  }

  lemma {:induction false} TrimRightSpaceUpper(s: string)
    ensures TrimRightSpace(Upper(s)) == Upper(TrimRightSpace(s))
    decreases |s|
  {
    if s != [] {
      var n := |s| - 1;
      CaseKeepsSpace(s[n]);
      TrimRightSpaceUpper(s[..n]);
      UpperOfInit(s);
    }
  }

  lemma LowerOfInit(s: string)
    requires s != []
    ensures Lower(s)[|s| - 1] == LowerChar(s[|s| - 1]) && Lower(s)[..|s| - 1] == Lower(s[..|s| - 1])
  {
  }

  lemma UpperOfInit(s: string)
    requires s != []
    ensures Upper(s)[|s| - 1] == UpperChar(s[|s| - 1]) && Upper(s)[..|s| - 1] == Upper(s[..|s| - 1])
  {
  }

  /** Letter case never matters: a reference matches in any mix of upper and lower case. */
  lemma NormalizeTokenIgnoresCase(value: string)
    ensures NormalizeToken(Upper(value)) == NormalizeToken(value)
    ensures NormalizeToken(Lower(value)) == NormalizeToken(value)
  {
    TrimSpaceCommutesWithCase(value);
    LowerOfCaseMapped(TrimSpace(value));
  }

  /** Lower-casing leaves `[a-z0-9]` alone. */
  lemma LowerOfSlugWords(a: string, c: char, b: string)
    requires Word(a)
    requires Word(b)
    ensures Lower(a + [c] + b) == a + [LowerChar(c)] + b
  {
    var s := a + [c] + b;
    var m := a + [LowerChar(c)] + b;
    forall i | 0 <= i < |s| ensures Lower(s)[i] == m[i] {
      if i < |a| {
        assert s[i] == a[i] && m[i] == a[i];
      } else if i > |a| {
        assert s[i] == b[i - |a| - 1] && m[i] == b[i - |a| - 1];
      }
    }
  }

  /** The ends of `a + m + b` are the ends of `a` and `b`. */
  lemma EndsOfJoin(a: string, m: string, b: string)
    requires a != [] && b != []
    ensures var t := a + m + b; t[0] == a[0] && t[|t| - 1] == b[|b| - 1]
  {
  }

  lemma TrimSpaceOfWords(a: string, sep: char, b: string)
    requires a != [] && b != [] && IsSlugChar(a[0]) && IsSlugChar(b[|b| - 1])
    ensures TrimSpace(a + [sep] + b) == a + [sep] + b
  {
    EndsOfJoin(a, [sep], b);
    TrimSpaceOfTrimmed(a + [sep] + b);
  }

  lemma TrimDashesOfWords(a: string, b: string)
    requires a != [] && b != [] && IsSlugChar(a[0]) && IsSlugChar(b[|b| - 1])
    ensures TrimChar(a + "-" + b, '-') == a + "-" + b
  {
    EndsOfJoin(a, "-", b);
  }

  /** Whatever separates two words (a space, `_`, `-`, `.`, ...), the token joins them
      with one `-`. */
  lemma NormalizeTokenOfTwoWords(a: string, sep: char, b: string)
    requires a != [] && b != []
    requires Word(a)
    requires Word(b)
    requires !IsSlugChar(LowerChar(sep))
    ensures NormalizeToken(a + [sep] + b) == a + "-" + b
  {
    assert IsSlugChar(a[0]) && IsSlugChar(b[|b| - 1]);
    TrimSpaceOfWords(a, sep, b);
    LowerOfSlugWords(a, sep, b);
    CollapseRunsOfTwoWords(a, LowerChar(sep), b);
    TrimDashesOfWords(a, b);
  }
}
