/** `Catalog.Find` (internal/actions/catalog.go): resolving a user's reference to one
    action, by canonical id first and by operation id second, ignoring case. */
module Lookup {
  import opened Wrappers
  import opened Text
  import opened Slug
  import opened Ordering
  import opened Sorting
  import opened Seqs
  import opened Parameters
  import opened Actions
  import opened Assembly

  datatype FindError =
    | MissingReference
    | NotFound(ref: string)
    /** The reference names the operation of several actions; `options` are their ids,
        sorted. */
    | Ambiguous(ref: string, options: seq<string>)

  /** The token a reference is compared by. */
  function Token(ref: string): string
  {
    NormalizeToken(TrimSpace(ref))
  }

  /** The action's id normalises (by `norm`) to `token`. The lookup is written for any
      normaliser and used with `NormalizeToken`. */
  predicate IdMatches(norm: string -> string, a: Action, token: string)
  {
    norm(a.id) == token
  }

  predicate OperationMatches(norm: string -> string, a: Action, token: string)
  {
    norm(a.operationId) == token
  }

  function IdMatcher(norm: string -> string, token: string): Action -> bool
  {
    a => IdMatches(norm, a, token)
  }

  function OperationMatcher(norm: string -> string, token: string): Action -> bool
  {
    a => OperationMatches(norm, a, token)
  }

  function IdOf(a: Action): string
  {
    a.id
  }

  /** What `Find` returns for `ref` over the catalog's actions. */
  function Resolve(actions: seq<Action>, ref: string): Result<Action, FindError>
  {
    if Blank(ref) then Err(MissingReference) else ResolveToken(NormalizeToken, actions, Token(ref), ref)
  }

  /** `Find` once the reference is known not to be blank and has been normalised to
      `token`: the first id match, else the one operation match, else an error naming
      `ref`. */
  function ResolveToken(norm: string -> string, actions: seq<Action>, token: string, ref: string): (r: Result<Action, FindError>)
    ensures r.Err? ==> (r.error.NotFound? || r.error.Ambiguous?) && r.error.ref == ref
  {
    match FirstWith(IdMatcher(norm, token), actions, 0)
    case Some(i) => Ok(actions[i])
    case None => ResolveOperation(norm, actions, token, ref)
  }

  /** What `Find` returns is justified: an action that matches by id or by operation id,
      or an error only when no id matches (and, for not-found, no operation id either);
      ambiguity lists at least two ids, sorted. */
  lemma ResolveTokenSound(norm: string -> string, actions: seq<Action>, token: string, ref: string)
    ensures var r := ResolveToken(norm, actions, token, ref);
      && (r.Ok? ==> r.value in actions)
      && (r.Ok? ==> IdMatches(norm, r.value, token) || OperationMatches(norm, r.value, token))
      && (r.Err? ==> forall a :: a in actions ==> !IdMatches(norm, a, token))
      && (r.Err? && r.error.NotFound? ==> forall a :: a in actions ==> !OperationMatches(norm, a, token))
      && (r.Err? && r.error.Ambiguous? ==> |r.error.options| >= 2 && Sorted(r.error.options, Itself))
  {
    var k := FirstWith(IdMatcher(norm, token), actions, 0);
    if k.None? {
      assert forall a :: a in actions ==> !IdMatches(norm, a, token);
    }
  }

  /** How the reference is written beyond its token changes neither whether it resolves
      nor the action found; only the error, which names the reference as written, differs. */
  lemma ResolveTokenRef(norm: string -> string, actions: seq<Action>, token: string, ref1: string, ref2: string)
    ensures ResolveToken(norm, actions, token, ref1).Ok? <==> ResolveToken(norm, actions, token, ref2).Ok?
    ensures ResolveToken(norm, actions, token, ref1).Ok? ==>
      ResolveToken(norm, actions, token, ref1) == ResolveToken(norm, actions, token, ref2)
  {
  }

  /** Only a blank reference is reported as missing. */
  lemma ResolveMissing(actions: seq<Action>, ref: string)
    ensures Resolve(actions, ref) == Err(MissingReference) <==> Blank(ref)
  {
    if !Blank(ref) {
      ResolveTokenNeverMissing(NormalizeToken, actions, Token(ref), ref);
    }
  }

  lemma ResolveTokenNeverMissing(norm: string -> string, actions: seq<Action>, token: string, ref: string)
    ensures ResolveToken(norm, actions, token, ref) != Err(MissingReference)
  {
    var r := ResolveToken(norm, actions, token, ref);
    assert r.Ok? || !r.error.MissingReference?;
  }

  /** The second half of `Find`: the operation-id matches decide. */
  function ResolveOperation(norm: string -> string, actions: seq<Action>, token: string, ref: string): (r: Result<Action, FindError>)
    ensures r.Ok? ==> r.value in actions && OperationMatches(norm, r.value, token)
    ensures r.Err? ==> r.error.NotFound? || r.error.Ambiguous?
    ensures r.Err? ==> r.error.ref == ref
    ensures r.Err? && r.error.NotFound? ==> forall a :: a in actions ==> !OperationMatches(norm, a, token)
    ensures r.Err? && r.error.Ambiguous? ==> |r.error.options| >= 2 && Sorted(r.error.options, Itself)
  {
    var matches := Filter(OperationMatcher(norm, token), actions);
    if |matches| == 0 then Err(NotFound(ref))
    else if |matches| == 1 then (assert matches[0] in matches; Ok(matches[0]))
    else Err(Ambiguous(ref, SortBy(Map(IdOf, matches), Itself)))
  }

  /** An id match wins, and the first one in catalog order. */
  lemma ResolveById(norm: string -> string, actions: seq<Action>, token: string, ref: string, i: nat)
    requires i < |actions| && IdMatches(norm, actions[i], token)
    requires forall j :: 0 <= j < i ==> !IdMatches(norm, actions[j], token)
    ensures ResolveToken(norm, actions, token, ref) == Ok(actions[i])
  {
    var k := FirstWith(IdMatcher(norm, token), actions, 0);
  }

  /** Without an id match, an operation id that exactly one action has selects it. */
  lemma ResolveByOperation(norm: string -> string, actions: seq<Action>, token: string, ref: string, i: nat)
    requires forall j :: 0 <= j < |actions| ==> !IdMatches(norm, actions[j], token)
    requires i < |actions| && OperationMatches(norm, actions[i], token)
    requires forall j :: 0 <= j < |actions| && j != i ==> !OperationMatches(norm, actions[j], token)
    ensures ResolveToken(norm, actions, token, ref) == Ok(actions[i])
  {
    FilterSingle(OperationMatcher(norm, token), actions, i);
  }

  /** Several operation matches and no id match: the error lists every matching action's
      id, sorted. */
  lemma ResolveAmbiguous(norm: string -> string, actions: seq<Action>, token: string, ref: string, i: nat, j: nat)
    requires forall k :: 0 <= k < |actions| ==> !IdMatches(norm, actions[k], token)
    requires i < j < |actions|
    requires OperationMatches(norm, actions[i], token) && OperationMatches(norm, actions[j], token)
    ensures var r := ResolveToken(norm, actions, token, ref);
      && r.Err? && r.error.Ambiguous?
      && multiset(r.error.options) == multiset(Map(IdOf, Filter(OperationMatcher(norm, token), actions)))
  {
    FilterTwo(OperationMatcher(norm, token), actions, i, j);
  }

  /** No match at all: the reference is reported as not found. */
  lemma ResolveNotFound(norm: string -> string, actions: seq<Action>, token: string, ref: string)
    requires forall k :: 0 <= k < |actions| ==> !IdMatches(norm, actions[k], token)
    requires forall k :: 0 <= k < |actions| ==> !OperationMatches(norm, actions[k], token)
    ensures ResolveToken(norm, actions, token, ref) == Err(NotFound(ref))
  {
    FilterNone(OperationMatcher(norm, token), actions);
  }

  lemma TokenIgnoresCase(ref: string)
    ensures Token(Upper(ref)) == Token(ref)
    ensures Blank(Upper(ref)) <==> Blank(ref)
  {
    TrimSpaceCommutesWithCase(ref);
    NormalizeTokenIgnoresCase(TrimSpace(ref));
  }

  /** Case does not matter: upper-casing the reference finds the same action. */
  lemma ResolveIgnoresCase(actions: seq<Action>, ref: string)
    ensures Resolve(actions, Upper(ref)).Ok? <==> Resolve(actions, ref).Ok?
    ensures Resolve(actions, ref).Ok? ==> Resolve(actions, Upper(ref)) == Resolve(actions, ref)
  {
    if Blank(ref) {
      BlankIgnoresCase(actions, ref);
    } else {
      TokenIgnoresCaseResolve(actions, ref);
    }
  }

  lemma BlankIgnoresCase(actions: seq<Action>, ref: string)
    requires Blank(ref)
    ensures Resolve(actions, ref) == Err(MissingReference)
    ensures Resolve(actions, Upper(ref)) == Err(MissingReference)
  {
    TokenIgnoresCase(ref);
  }

  lemma TokenIgnoresCaseResolve(actions: seq<Action>, ref: string)
    requires !Blank(ref)
    ensures Resolve(actions, Upper(ref)).Ok? <==> Resolve(actions, ref).Ok?
    ensures Resolve(actions, ref).Ok? ==> Resolve(actions, Upper(ref)) == Resolve(actions, ref)
  {
    TokenIgnoresCase(ref);
    var t := Token(ref);
    assert Resolve(actions, ref) == ResolveToken(NormalizeToken, actions, t, ref);
    assert Resolve(actions, Upper(ref)) == ResolveToken(NormalizeToken, actions, t, Upper(ref));
    ResolveTokenRef(NormalizeToken, actions, t, ref, Upper(ref));
  }

  /** `Catalog.Find`. */
  method Find(c: Catalog, ref: string) returns (r: Result<Action, FindError>)
    ensures r == Resolve(c.actions, ref)
  {
    var needle := TrimSpace(ref);
    if needle == [] {
      return Err(MissingReference);
    }
    r := FindNormalized(NormalizeToken, c.actions, NormalizeToken(needle), ref);
  }

  /** The two passes of `Find` over the actions, comparing by `norm`. */
  method FindNormalized(norm: string -> string, actions: seq<Action>, normalized: string, ref: string)
    returns (r: Result<Action, FindError>)
    ensures r == ResolveToken(norm, actions, normalized, ref)
  {
    var first := FirstIdIndex(norm, actions, normalized);
    if first.Some? {
      return Ok(actions[first.value]);
    }
    var matches := OperationMatchesIn(norm, actions, normalized);
    if |matches| == 0 {
      return Err(NotFound(ref));
    } else if |matches| == 1 {
      return Ok(matches[0]);
    }
    var options := CollectIds(matches);
    assert options == Map(IdOf, matches);
    r := Err(Ambiguous(ref, SortBy(options, Itself)));
  }

  /** The first pass of `Find`: the first action whose id matches. */
  method FirstIdIndex(norm: string -> string, actions: seq<Action>, normalized: string) returns (r: Option<nat>)
    ensures r == FirstWith(IdMatcher(norm, normalized), actions, 0)
  {
    for i := 0 to |actions|
      invariant forall j :: 0 <= j < i ==> !IdMatches(norm, actions[j], normalized)
    {
      if norm(actions[i].id) == normalized {
        var k := FirstWith(IdMatcher(norm, normalized), actions, 0);
        return Some(i);
      }
    }
    r := None;
  }

  /** The second pass of `Find`: every action whose operation id matches, in order. */
  method OperationMatchesIn(norm: string -> string, actions: seq<Action>, normalized: string) returns (matches: seq<Action>)
    ensures matches == Filter(OperationMatcher(norm, normalized), actions)
  {
    matches := [];
    for i := 0 to |actions|
      invariant matches == Filter(OperationMatcher(norm, normalized), actions[..i])
    {
      assert actions[..i + 1] == actions[..i] + [actions[i]];
      FilterSnoc(OperationMatcher(norm, normalized), actions[..i], actions[i]);
      if norm(actions[i].operationId) == normalized {
        matches := matches + [actions[i]];
      }
    }
    assert actions[..|actions|] == actions;
  }

  /** The ids of the ambiguous matches, in catalog order. */
  method CollectIds(matches: seq<Action>) returns (options: seq<string>)
    ensures |options| == |matches|
    ensures forall i :: 0 <= i < |matches| ==> options[i] == matches[i].id
  {
    options := [];
    for i := 0 to |matches|
      invariant |options| == i
      invariant forall k :: 0 <= k < i ==> options[k] == matches[k].id
    {
      options := options + [matches[i].id];
    }
  }
}
