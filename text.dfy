/** The parts of Go's `strings` package that the core relies on, over `seq<char>`.
    Whitespace follows `unicode.IsSpace`; case mapping is ASCII only. */
module Text {

  /** `unicode.IsSpace`: in ASCII, space and `\t` through `\r`; beyond it, U+0085, U+00A0
      and the Unicode White_Space characters. */
  predicate IsSpace(c: char)
  {
    if c < '\U{0080}' then c == ' ' || '\t' <= c <= '\r'
    else
      || c == '\U{0085}' || c == '\U{00A0}' || c == '\U{1680}'
      || ('\U{2000}' <= c <= '\U{200A}') || c == '\U{2028}' || c == '\U{2029}'
      || c == '\U{202F}' || c == '\U{205F}' || c == '\U{3000}'
  }

  function TrimLeftSpace(s: string): (r: string)
    ensures |r| <= |s| && r == s[|s| - |r|..]
    ensures r == [] || !IsSpace(r[0])
  {
    if s != [] && IsSpace(s[0]) then TrimLeftSpace(s[1..]) else s
  }

  function TrimRightSpace(s: string): (r: string)
    ensures |r| <= |s| && r == s[..|r|]
    ensures r == [] || !IsSpace(r[|r| - 1])
  {
    if s != [] && IsSpace(s[|s| - 1]) then TrimRightSpace(s[..|s| - 1]) else s
  }

  /** `strings.TrimSpace`. */
  function TrimSpace(s: string): (r: string)
    ensures |r| <= |s|
    ensures Trimmed(r)
  {
    TrimRightSpace(TrimLeftSpace(s))
  }

  /** What `TrimLeftSpace` drops is spaces. */
  lemma {:induction false} TrimLeftSpaceDropsSpaces(s: string)
    ensures forall i :: 0 <= i < |s| - |TrimLeftSpace(s)| ==> IsSpace(s[i])
    decreases |s|
  {
    if s != [] && IsSpace(s[0]) {
      TrimLeftSpaceDropsSpaces(s[1..]);
    }
  }

  /** What `TrimRightSpace` drops is spaces. */
  lemma {:induction false} TrimRightSpaceDropsSpaces(s: string)
    ensures forall i :: |TrimRightSpace(s)| <= i < |s| ==> IsSpace(s[i])
    decreases |s|
  {
    if s != [] && IsSpace(s[|s| - 1]) {
      TrimRightSpaceDropsSpaces(s[..|s| - 1]);
    }
  }

  /** Trimming leaves nothing exactly when every character is a space. */
  lemma TrimSpaceEmpty(s: string)
    ensures TrimSpace(s) == [] <==> forall i :: 0 <= i < |s| ==> IsSpace(s[i])
  {
    TrimLeftSpaceDropsSpaces(s);
    TrimRightSpaceDropsSpaces(TrimLeftSpace(s));
    if TrimSpace(s) == [] {
      assert TrimLeftSpace(s) == [];
    }
  }

  /** A string that `TrimSpace` leaves alone. */
  predicate Trimmed(s: string)
  {
    s == [] || (!IsSpace(s[0]) && !IsSpace(s[|s| - 1]))
  }

  lemma TrimSpaceOfTrimmed(s: string)
    requires Trimmed(s)
    ensures TrimSpace(s) == s
  {
  }

  lemma TrimSpaceIdempotent(s: string)
    ensures TrimSpace(TrimSpace(s)) == TrimSpace(s)
  {
    TrimSpaceOfTrimmed(TrimSpace(s));
  }

  /** The blank test the source writes as `strings.TrimSpace(x) == ""`. */
  predicate Blank(s: string)
  {
    TrimSpace(s) == []
  }

  function LowerChar(c: char): char
  {
    if 'A' <= c <= 'Z' then (c as int + 32) as char else c
  }

  function UpperChar(c: char): char
  {
    if 'a' <= c <= 'z' then (c as int - 32) as char else c
  }

  /** ASCII case mapping never turns a space into a non-space or back. */
  lemma CaseKeepsSpace(c: char)
    ensures IsSpace(LowerChar(c)) == IsSpace(c)
    ensures IsSpace(UpperChar(c)) == IsSpace(c)
  {
  }

  /** `strings.ToLower`, ASCII letters only. */
  function Lower(s: string): (r: string)
    ensures |r| == |s|
    ensures forall i :: 0 <= i < |s| ==> r[i] == LowerChar(s[i])
  {
    seq(|s|, i requires 0 <= i < |s| => LowerChar(s[i]))
  }

  /** `strings.ToUpper`, ASCII letters only. */
  function Upper(s: string): (r: string)
    ensures |r| == |s|
    ensures forall i :: 0 <= i < |s| ==> r[i] == UpperChar(s[i])
  {
    seq(|s|, i requires 0 <= i < |s| => UpperChar(s[i]))
  }

  lemma LowerOfCaseMapped(s: string)
    ensures Lower(Upper(s)) == Lower(s)
    ensures Lower(Lower(s)) == Lower(s)
  {
    forall i | 0 <= i < |s|
      ensures LowerChar(UpperChar(s[i])) == LowerChar(s[i])
      ensures LowerChar(LowerChar(s[i])) == LowerChar(s[i])
    {
    }
  }

  function TrimLeftChar(s: string, c: char): (r: string)
    ensures |r| <= |s| && r == s[|s| - |r|..]
    ensures r == [] || r[0] != c
  {
    if s != [] && s[0] == c then TrimLeftChar(s[1..], c) else s
  }

  function TrimRightChar(s: string, c: char): (r: string)
    ensures |r| <= |s| && r == s[..|r|]
    ensures r == [] || r[|r| - 1] != c
  {
    if s != [] && s[|s| - 1] == c then TrimRightChar(s[..|s| - 1], c) else s
  }

  /** `strings.Trim(s, cutset)` for a one-character cutset: strip `c` from both ends. */
  function TrimChar(s: string, c: char): (r: string)
    ensures |r| <= |s|
    ensures r == [] || (r[0] != c && r[|r| - 1] != c)
  {
    TrimRightChar(TrimLeftChar(s, c), c)
  }

  predicate HasPrefix(s: string, p: string)
  {
    |p| <= |s| && s[..|p|] == p
  }

  predicate HasSuffix(s: string, p: string)
  {
    |p| <= |s| && s[|s| - |p|..] == p
  }

  /** `strings.TrimSuffix`. */
  function TrimSuffix(s: string, p: string): (r: string)
    ensures HasSuffix(s, p) ==> r + p == s
    ensures !HasSuffix(s, p) ==> r == s
  {
    if HasSuffix(s, p) then s[..|s| - |p|] else s
  }

  /** `p` occurs in `s` starting at index `i`. */
  predicate OccursAt(s: string, i: int, p: string)
  {
    0 <= i && i + |p| <= |s| && s[i..i + |p|] == p
  }

  /** `strings.Contains`. */
  predicate Contains(s: string, p: string)
  {
    exists i :: 0 <= i <= |s| - |p| && OccursAt(s, i, p)
  }

  /** The first index at or after `from` where `p` occurs in `s` (`strings.Index` on a suffix). */
  function IndexFrom(s: string, p: string, from: nat): (r: int)
    requires from <= |s|
    ensures r == -1 || (from <= r <= |s| - |p| && OccursAt(s, r, p))
    ensures r == -1 ==> forall i :: from <= i <= |s| - |p| ==> !OccursAt(s, i, p)
    ensures r != -1 ==> forall i :: from <= i < r ==> !OccursAt(s, i, p)
    decreases |s| - from
  {
    if from + |p| > |s| then -1
    else if OccursAt(s, from, p) then from
    else if from == |s| then -1
    else IndexFrom(s, p, from + 1)
  }

  /** `strings.ReplaceAll(s, pat, rep)` for a non-empty `pat`: leftmost, non-overlapping. */
  function ReplaceAll(s: string, pat: string, rep: string): string
    requires pat != []
    decreases |s|
  {
    if s == [] then []
    else if HasPrefix(s, pat) then rep + ReplaceAll(s[|pat|..], pat, rep)
    else [s[0]] + ReplaceAll(s[1..], pat, rep)
  }

  /** `strings.Join`. */
  function Join(parts: seq<string>, sep: string): string
  {
    if parts == [] then []
    else if |parts| == 1 then parts[0]
    else parts[0] + sep + Join(parts[1..], sep)
  }
}
