/** The assembly part of `LoadCatalog` (internal/actions/catalog.go): merging the actions
    of every reference page by `METHOD path`, sorting them, and `ensureUniqueIDs`. */
module Assembly {
  import opened Wrappers
  import opened Ordering
  import opened Sorting
  import opened Decimal
  import opened Actions

  const DocsBaseURL: string := "https://developers.holded.com"
  /** The `Source` of every catalog. */
  const Source: string := DocsBaseURL + "/reference/api-key"

  /** `Catalog`, without its generation time. */
  datatype Catalog = Catalog(source: string, actions: seq<Action>)

  /** The key of `actionsByKey`: `Method + " " + Path`. */
  function ActionKey(a: Action): string
  {
    a.httpMethod + " " + a.path
  }

  /** Every entry of the merge map sits under its own key. */
  ghost predicate KeyedBy(m: map<string, Action>)
  {
    forall k :: k in m ==> ActionKey(m[k]) == k
  }

  /** Stores the actions of one page under their keys in turn; a later one replaces an
      earlier one with the same key. */
  function Overwrite(m: map<string, Action>, actions: seq<Action>): (r: map<string, Action>)
    ensures forall x :: x in r.Values ==> x in m.Values || x in actions
    decreases |actions|
  {
    if actions == [] then m
    else
      var init := actions[..|actions| - 1];
      var last := actions[|actions| - 1];
      var r := Overwrite(m, init)[ActionKey(last) := last];
      forall x | x in r.Values ensures x in m.Values || x in actions {
        var k :| k in r && r[k] == x;
        if k != ActionKey(last) {
          assert x in Overwrite(m, init).Values;
          assert x in m.Values || x in init;
        }
      }
      r
  }

  /** `actionsByKey` after the pages `pages`, in fetch order. */
  function MergePages(pages: seq<seq<Action>>): map<string, Action>
    decreases |pages|
  {
    if pages == [] then map[] else Overwrite(MergePages(pages[..|pages| - 1]), pages[|pages| - 1])
  }

  lemma {:induction false} OverwriteKeyed(m: map<string, Action>, actions: seq<Action>)
    requires KeyedBy(m)
    ensures KeyedBy(Overwrite(m, actions))
    decreases |actions|
  {
    if actions != [] {
      OverwriteKeyed(m, actions[..|actions| - 1]);
    }
  }

  lemma {:induction false} MergePagesKeyed(pages: seq<seq<Action>>)
    ensures KeyedBy(MergePages(pages))
    decreases |pages|
  {
    if pages != [] {
      MergePagesKeyed(pages[..|pages| - 1]);
      OverwriteKeyed(MergePages(pages[..|pages| - 1]), pages[|pages| - 1]);
    }
  }

  /** The action stored under a key is the last action of the page with that key. */
  lemma {:induction false} OverwriteLast(m: map<string, Action>, actions: seq<Action>, i: nat)
    requires i < |actions|
    requires forall j :: i < j < |actions| ==> ActionKey(actions[j]) != ActionKey(actions[i])
    ensures ActionKey(actions[i]) in Overwrite(m, actions)
    ensures Overwrite(m, actions)[ActionKey(actions[i])] == actions[i]
    decreases |actions|
  {
    if i < |actions| - 1 {
      var init := actions[..|actions| - 1];
      assert init[i] == actions[i];
      OverwriteLast(m, init, i);
    }
  }

  /** A key that no action of the page has keeps its old entry. */
  lemma {:induction false} OverwriteUntouched(m: map<string, Action>, actions: seq<Action>, k: string)
    requires k in m
    requires forall j :: 0 <= j < |actions| ==> ActionKey(actions[j]) != k
    ensures k in Overwrite(m, actions) && Overwrite(m, actions)[k] == m[k]
    decreases |actions|
  {
    if actions != [] {
      OverwriteUntouched(m, actions[..|actions| - 1], k);
    }
  }

  /** No action of the pages has key `k`. */
  ghost predicate KeyAbsent(pages: seq<seq<Action>>, k: string)
  {
    forall q, j :: 0 <= q < |pages| && 0 <= j < |pages[q]| ==> ActionKey(pages[q][j]) != k
  }

  lemma KeyAbsentPrefix(pages: seq<seq<Action>>, n: nat, k: string)
    requires n <= |pages| && KeyAbsent(pages, k)
    ensures KeyAbsent(pages[..n], k)
  {
    forall q, j | 0 <= q < n && 0 <= j < |pages[..n][q]|
      ensures ActionKey(pages[..n][q][j]) != k
    {
      assert pages[..n][q] == pages[q];
    }
  }

  /** Later pages win: the last action with a given `METHOD path`, over all pages in fetch
      order, is the one kept. */
  lemma {:induction false} MergePagesLast(pages: seq<seq<Action>>, p: nat, i: nat)
    requires p < |pages| && i < |pages[p]|
    requires forall j :: i < j < |pages[p]| ==> ActionKey(pages[p][j]) != ActionKey(pages[p][i])
    requires KeyAbsent(pages[p + 1..], ActionKey(pages[p][i]))
    ensures ActionKey(pages[p][i]) in MergePages(pages)
    ensures MergePages(pages)[ActionKey(pages[p][i])] == pages[p][i]
    decreases |pages|
  {
    var k := ActionKey(pages[p][i]);
    var init := pages[..|pages| - 1];
    var last := pages[|pages| - 1];
    if p == |pages| - 1 {
      OverwriteLast(MergePages(init), last, i);
    } else {
      assert init[p] == pages[p];
      assert init[p + 1..] == pages[p + 1..][..|pages| - p - 2];
      KeyAbsentPrefix(pages[p + 1..], |pages| - p - 2, k);
      MergePagesLast(init, p, i);
      assert forall j :: 0 <= j < |last| ==> ActionKey(last[j]) != k by {
        forall j | 0 <= j < |last| ensures ActionKey(last[j]) != k {
          assert pages[p + 1..][|pages| - p - 2] == last;
        }
      }
      OverwriteUntouched(MergePages(init), last, k);
    }
  }

  /** Every merged action comes from some page. */
  lemma {:induction false} MergePagesSource(pages: seq<seq<Action>>, x: Action) returns (p: nat)
    requires x in MergePages(pages).Values
    ensures p < |pages| && x in pages[p]
    decreases |pages|
  {
    var init := pages[..|pages| - 1];
    if x in MergePages(init).Values {
      p := MergePagesSource(init, x);
      assert init[p] == pages[p];
    } else {
      p := |pages| - 1;
    }
  }

  /** The sort key of the catalog: `API`, then `Path`, then `Method`, then `OperationID`. */
  function CatalogKey(a: Action): seq<string>
  {
    [a.api, a.path, a.httpMethod, a.operationId]
  }

  /** Distinct merged actions differ in `METHOD path`, so the sort order has no ties. */
  lemma KeyedValuesInjective(m: map<string, Action>)
    requires KeyedBy(m)
    ensures KeyInjective(m.Values, CatalogKey)
  {
    forall x, y | x in m.Values && y in m.Values && CatalogKey(x) == CatalogKey(y)
      ensures x == y
    {
      var kx :| kx in m && m[kx] == x;
      var ky :| ky in m && m[ky] == y;
      assert x.httpMethod == CatalogKey(x)[2] == CatalogKey(y)[2] == y.httpMethod;
      assert x.path == CatalogKey(x)[1] == CatalogKey(y)[1] == y.path;
    }
  }

  /** The merged actions in catalog order, before the ids are made unique. */
  ghost function SortedCatalog(pages: seq<seq<Action>>): (r: seq<Action>)
    ensures StrictlySorted(r, CatalogKey)
  {
    MergePagesKeyed(pages);
    KeyedValuesInjective(MergePages(pages));
    SortedSet(MergePages(pages).Values, CatalogKey)
  }

  /** One action per `METHOD path`: two positions of the catalog never share one. */
  lemma SortedCatalogKeysUnique(pages: seq<seq<Action>>, i: nat, j: nat)
    requires i < j < |SortedCatalog(pages)|
    ensures ActionKey(SortedCatalog(pages)[i]) != ActionKey(SortedCatalog(pages)[j])
  {
    var s := SortedCatalog(pages);
    var m := MergePages(pages);
    MergePagesKeyed(pages);
    KeyLessIrreflexive(CatalogKey(s[i]));
    assert s[i] in m.Values && s[j] in m.Values;
    var ki :| ki in m && m[ki] == s[i];
    var kj :| kj in m && m[kj] == s[j];
  }

  /** Every action of the catalog was read from one of the pages. */
  lemma SortedCatalogSource(pages: seq<seq<Action>>, x: Action) returns (p: nat)
    requires x in SortedCatalog(pages)
    ensures p < |pages| && x in pages[p]
  {
    p := MergePagesSource(pages, x);
  }

  /** The last action with a given `METHOD path`, over all pages in fetch order, is in
      the catalog. */
  lemma LastActionInCatalog(pages: seq<seq<Action>>, p: nat, i: nat)
    requires p < |pages| && i < |pages[p]|
    requires forall j :: i < j < |pages[p]| ==> ActionKey(pages[p][j]) != ActionKey(pages[p][i])
    requires KeyAbsent(pages[p + 1..], ActionKey(pages[p][i]))
    ensures pages[p][i] in SortedCatalog(pages)
  {
    MergePagesLast(pages, p, i);
  }

  /** Number of actions of `s` whose id is `id`. */
  function CountId(s: seq<Action>, id: string): nat
    decreases |s|
  {
    if s == [] then 0 else CountId(s[..|s| - 1], id) + (if s[|s| - 1].id == id then 1 else 0)
  }

  /** The id `ensureUniqueIDs` gives the `i`-th action: its own at the first occurrence
      of that id, `id-k` at the k-th. */
  function SuffixedId(s: seq<Action>, i: nat): string
    requires i < |s|
  {
    var k := CountId(s[..i + 1], s[i].id);
    if k == 1 then s[i].id else s[i].id + "-" + NatToString(k)
  }

  lemma {:induction false} CountIdPositive(s: seq<Action>, i: nat)
    requires i < |s|
    ensures CountId(s[..i + 1], s[i].id) >= 1
  {
    assert s[..i + 1][..i] == s[..i];
  }

  /** Counting over a longer prefix counts every earlier occurrence too. */
  lemma {:induction false} CountIdGrows(s: seq<Action>, i: nat, j: nat)
    requires i < j < |s| && s[i].id == s[j].id
    ensures CountId(s[..j + 1], s[j].id) > CountId(s[..i + 1], s[i].id)
    decreases j - i
  {
    var id := s[j].id;
    assert s[..j + 1][..j] == s[..j];
    CountIdMonotone(s, i + 1, j);
  }

  lemma {:induction false} CountIdMonotone(s: seq<Action>, a: nat, b: nat)
    requires a <= b <= |s|
    ensures forall id :: CountId(s[..a], id) <= CountId(s[..b], id)
    decreases b - a
  {
    if a < b {
      CountIdMonotone(s, a, b - 1);
      assert s[..b][..b - 1] == s[..b - 1];
    }
  }

  /** No earlier action has the same id: the id is kept. */
  lemma {:induction false} CountIdAbsent(s: seq<Action>, n: nat, id: string)
    requires n <= |s|
    requires forall j :: 0 <= j < n ==> s[j].id != id
    ensures CountId(s[..n], id) == 0
    decreases n
  {
    if n > 0 {
      assert s[..n][..n - 1] == s[..n - 1];
      CountIdAbsent(s, n - 1, id);
    }
  }

  /** The first occurrence of an id keeps it unchanged. */
  lemma FirstOccurrenceKept(s: seq<Action>, i: nat)
    requires i < |s|
    requires forall j :: 0 <= j < i ==> s[j].id != s[i].id
    ensures SuffixedId(s, i) == s[i].id
  {
    CountIdAbsent(s, i, s[i].id);
    assert s[..i + 1][..i] == s[..i];
  }

  /** A repeated id gets the suffix `-k`, `k` being how many times it occurred so far
      (at least two). */
  lemma RepeatSuffixed(s: seq<Action>, j: nat, i: nat)
    requires j < i < |s| && s[j].id == s[i].id
    ensures var k := CountId(s[..i + 1], s[i].id);
      k >= 2 && SuffixedId(s, i) == s[i].id + "-" + NatToString(k)
  {
    CountIdPositive(s, j);
    CountIdGrows(s, j, i);
  }

  lemma SuffixCancel(id: string, a: string, b: string)
    requires id + "-" + a == id + "-" + b
    ensures a == b
  {
    assert a == (id + "-" + a)[|id| + 1..];
    assert b == (id + "-" + b)[|id| + 1..];
  }

  /** Two occurrences of the same id always end up with different ids. */
  lemma OccurrencesRenamedApart(s: seq<Action>, i: nat, j: nat)
    requires i < j < |s| && s[i].id == s[j].id
    ensures SuffixedId(s, i) != SuffixedId(s, j)
  {
    var id := s[i].id;
    var ki, kj := CountId(s[..i + 1], id), CountId(s[..j + 1], id);
    CountIdPositive(s, i);
    CountIdGrows(s, i, j);
    if ki == 1 {
      assert |SuffixedId(s, j)| > |id|;
    } else if SuffixedId(s, i) == SuffixedId(s, j) {
      SuffixCancel(id, NatToString(ki), NatToString(kj));
      ParseNatToString(ki);
      ParseNatToString(kj);
    }
  }

  /** `ensureUniqueIDs` does not make every id unique: a renamed id is never checked
      against the ids already present, so `a, a, a-2` becomes `a, a-2, a-2`. */
  lemma SuffixedIdsMayCollide(x: Action)
    requires x.id == "a"
    ensures var s := [x, x, x.(id := "a-2")];
      SuffixedId(s, 0) == "a" && SuffixedId(s, 1) == "a-2" && SuffixedId(s, 2) == "a-2"
  {
    var s := [x, x, x.(id := "a-2")];
    assert s[..1] == [x] && [x][..0] == [];
    assert CountId([x], "a") == 1;
    assert s[..2] == [x, x] && [x, x][..1] == [x];
    assert CountId([x, x], "a") == 2;
    assert s[..3] == s && s[..2] == [x, x];
    assert "a" != "a-2";
    CountIdAbsent(s, 2, "a-2");
    assert CountId(s, "a-2") == 1;
    assert NatToString(2) == "2";
    assert "a" + "-" + "2" == "a-2";
  }

  /** `ensureUniqueIDs`: the k-th action with a given id (k at least 2) gets `id-k`;
      nothing else changes. */
  method EnsureUniqueIDs(a: array<Action>)
    modifies a
    ensures forall i :: 0 <= i < a.Length ==> a[i] == old(a[i]).(id := SuffixedId(old(a[..]), i))
  {
    ghost var s := a[..];
    var seen: map<string, nat> := map[];
    for i := 0 to a.Length
      invariant forall j :: i <= j < a.Length ==> a[j] == s[j]
      invariant forall j :: 0 <= j < i ==> a[j] == s[j].(id := SuffixedId(s, j))
      invariant forall id :: id in seen ==> seen[id] == CountId(s[..i], id)
      invariant forall id :: id !in seen ==> CountId(s[..i], id) == 0
    {
      var id := a[i].id;
      var n := (if id in seen then seen[id] else 0) + 1;
      seen := seen[id := n];
      assert s[..i + 1][..i] == s[..i];
      if n != 1 {
        a[i] := a[i].(id := id + "-" + NatToString(n));
      }
    }
  }

  /** The actions of the pages fetched so far (an error page has none). */
  function PageActions(pages: seq<Result<seq<Action>, string>>): (r: seq<seq<Action>>)
    ensures |r| == |pages|
    decreases |pages|
  {
    if pages == [] then []
    else
      var last := pages[|pages| - 1];
      PageActions(pages[..|pages| - 1]) + [if last.Ok? then last.value else []]
  }

  lemma PageActionsStep(pages: seq<Result<seq<Action>, string>>, p: nat)
    requires p < |pages| && pages[p].Ok?
    ensures PageActions(pages[..p + 1]) == PageActions(pages[..p]) + [pages[p].value]
  {
    assert pages[..p + 1][..p] == pages[..p];
  }

  /** The inner loop of `LoadCatalog`: stores one page's actions by key. */
  method MergePage(byKey: map<string, Action>, actions: seq<Action>) returns (m: map<string, Action>)
    ensures m == Overwrite(byKey, actions)
  {
    m := byKey;
    for i := 0 to |actions|
      invariant m == Overwrite(byKey, actions[..i])
    {
      assert actions[..i + 1][..i] == actions[..i];
      m := m[ActionKey(actions[i]) := actions[i]];
    }
    assert actions[..|actions|] == actions;
  }

  /** The fetch-and-merge loop of `LoadCatalog`: the first failed fetch is the error,
      otherwise every page's actions merged by key. */
  method MergeFetched(pages: seq<Result<seq<Action>, string>>) returns (r: Result<map<string, Action>, string>)
    ensures r.Err? <==> exists p :: 0 <= p < |pages| && pages[p].Err?
    ensures r.Err? ==> exists p :: 0 <= p < |pages| && pages[p] == Err(r.error)
                                   && forall q :: 0 <= q < p ==> pages[q].Ok?
    ensures r.Ok? ==> r.value == MergePages(PageActions(pages))
  {
    var byKey: map<string, Action> := map[];
    for p := 0 to |pages|
      invariant forall q :: 0 <= q < p ==> pages[q].Ok?
      invariant byKey == MergePages(PageActions(pages[..p]))
    {
      if pages[p].Err? {
        return Err(pages[p].error);
      }
      byKey := MergePage(byKey, pages[p].value);
      PageActionsStep(pages, p);
      assert PageActions(pages[..p + 1])[..p] == PageActions(pages[..p]);
    }
    assert pages[..|pages|] == pages;
    r := Ok(byKey);
  }

  /** `LoadCatalog` over the outcome of fetching each seed page in turn: the first failed
      fetch is the error; otherwise the merged actions in catalog order, ids made
      unique. */
  method LoadCatalog(pages: seq<Result<seq<Action>, string>>) returns (r: Result<Catalog, string>)
    ensures r.Err? <==> exists p :: 0 <= p < |pages| && pages[p].Err?
    ensures r.Err? ==> exists p :: 0 <= p < |pages| && pages[p] == Err(r.error)
                                   && forall q :: 0 <= q < p ==> pages[q].Ok?
    ensures r.Ok? ==> r.value.source == Source
    ensures r.Ok? ==> RenamedFrom(r.value.actions, SortedCatalog(PageActions(pages)))
  {
    var merged := MergeFetched(pages);
    if merged.Err? {
      return Err(merged.error);
    }
    MergePagesKeyed(PageActions(pages));
    var actions := SortAndRename(merged.value);
    r := Ok(Catalog(Source, actions));
  }

  /** `r` is `s` with the ids `ensureUniqueIDs` gives them. */
  ghost predicate RenamedFrom(r: seq<Action>, s: seq<Action>)
  {
    |r| == |s| && forall i :: 0 <= i < |s| ==> r[i] == s[i].(id := SuffixedId(s, i))
  }

  /** The sort and the renaming of `LoadCatalog`. */
  method SortAndRename(byKey: map<string, Action>) returns (actions: seq<Action>)
    requires KeyedBy(byKey)
    ensures KeyInjective(byKey.Values, CatalogKey)
    ensures RenamedFrom(actions, SortedSet(byKey.Values, CatalogKey))
  {
    KeyedValuesInjective(byKey);
    var sorted := SortSet(byKey.Values, CatalogKey);
    var a := new Action[|sorted|](i requires 0 <= i < |sorted| => sorted[i]);
    assert a[..] == sorted;
    EnsureUniqueIDs(a);
    actions := a[..];
  }
}
