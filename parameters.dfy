/** Parameter and request-body decoding of internal/actions/catalog.go: `schemaType`,
    `decodeParameters`, `decodeParametersList`, `mergeParameters`, `decodeRequestBody`. */
module Parameters {
  import opened Wrappers
  import opened Text
  import opened Ordering
  import opened Sorting

  /** `parameterSchema`: `enum` holds the `fmt.Sprint` rendering of each JSON value. */
  datatype ParameterSchema = ParameterSchema(typ: string, items: Option<ParameterSchema>, enum: seq<string>)

  /** One raw JSON entry of a `parameters` list: either it does not decode as a
      `parameterSpec` object, or it is one. */
  datatype RawParameter =
    | Undecodable
    | ParameterSpec(ref: string, name: string, location: string, required: bool,
                    description: string, schema: Option<ParameterSchema>)

  /** `ActionParameter`; `location` is the JSON field `in`. */
  datatype ActionParameter = ActionParameter(name: string, location: string, required: bool,
                                             typ: string, description: string, enum: seq<string>)

  /** `schemaType`: the trimmed `type`, written `array[T]` for an array whose items
      have a type `T`. */
  function SchemaType(schema: Option<ParameterSchema>): (r: string)
    ensures r == [] <==> schema.None? || Blank(schema.value.typ)
    ensures Trimmed(r)
  {
    match schema
    case None => []
    case Some(s) =>
      var kind := TrimSpace(s.typ);
      if kind == [] then []
      else if kind == "array" && s.items.Some? then
        var itemType := SchemaType(s.items);
        if itemType != [] then "array[" + itemType + "]" else kind
      else kind
  }

  /** Reads back the element type out of `array[T]`. */
  function ElementType(t: string): (r: Option<string>)
    ensures r.Some? ==> "array[" + r.value + "]" == t
  {
    if |t| >= 7 && t[..6] == "array[" && t[|t| - 1] == ']' then
      assert t == t[..6] + t[6..|t| - 1] + [t[|t| - 1]];
      Some(t[6..|t| - 1])
    else None
  }

  /** The type of an array schema is the type of its items, wrapped once: reading it
      back gives the item type. An array whose items are untyped is just `array`. */
  lemma SchemaTypeOfArray(s: ParameterSchema)
    requires TrimSpace(s.typ) == "array" && s.items.Some?
    ensures SchemaType(s.items) != [] ==> ElementType(SchemaType(Some(s))) == Some(SchemaType(s.items))
    ensures SchemaType(s.items) == [] ==> SchemaType(Some(s)) == "array"
  {
    var inner := SchemaType(s.items);
    if inner != [] {
      assert SchemaType(Some(s)) == "array[" + inner + "]";
      ElementTypeOfWrapped(inner);
    }
  }

  lemma ElementTypeOfWrapped(inner: string)
    ensures ElementType("array[" + inner + "]") == Some(inner)
  {
    var t := "array[" + inner + "]";
    assert t[..6] == "array[";
    assert t[6..|t| - 1] == inner;
  }

  /** What `decodeParametersList` guarantees of every parameter it keeps. */
  predicate WellFormedParameter(p: ActionParameter)
  {
    && p.name != [] && Trimmed(p.name)
    && p.location != [] && Lower(p.location) == p.location
    && (p.location == "path" ==> p.required)
    && Trimmed(p.description)
  }

  /** The body of the loop in `decodeParametersList` for one entry. An entry is dropped
      when it does not decode, is a `$ref`, or has a blank name or location; a kept one
      takes its type from the schema and its trimmed description from the entry, and a
      path parameter is always required. */
  function DecodeParameter(raw: RawParameter): (r: Option<ActionParameter>)
    ensures r.Some? <==> raw.ParameterSpec? && Blank(raw.ref) && !Blank(raw.name) && !Blank(raw.location)
    ensures r.Some? ==> WellFormedParameter(r.value)
    ensures r.Some? ==> r.value.name == TrimSpace(raw.name) && r.value.location == Lower(TrimSpace(raw.location))
    ensures r.Some? ==> r.value.required == (raw.required || r.value.location == "path")
    ensures r.Some? ==> r.value.typ == SchemaType(raw.schema) && r.value.description == TrimSpace(raw.description)
    ensures r.Some? ==> r.value.enum == (if raw.schema.Some? then raw.schema.value.enum else [])
  {
    match raw
    case Undecodable => None
    case ParameterSpec(ref, name, location, required, description, schema) =>
      if !Blank(ref) then None
      else
        var n := TrimSpace(name);
        var loc := TrimSpace(location);
        if n == [] || loc == [] then None
        else
          LowerOfCaseMapped(loc);
          assert Lower(loc) != [] by { assert |Lower(loc)| == |loc|; }
          Some(ActionParameter(
            n, Lower(loc),
            required || Lower(loc) == "path",
            SchemaType(schema),
            TrimSpace(description),
            if schema.Some? then schema.value.enum else []))
  }

  /** The kept parameters of `list`, in list order. */
  function DecodeAll(list: seq<RawParameter>): (r: seq<ActionParameter>)
    ensures |r| <= |list|
    decreases |list|
  {
    if list == [] then [] else DecodeAll(list[..|list| - 1]) + KeptParameter(DecodeParameter(list[|list| - 1]))
  }

  /** The parameter an entry decodes to, if any, as a list of zero or one. */
  function KeptParameter(d: Option<ActionParameter>): (r: seq<ActionParameter>)
    ensures d.None? ==> r == []
    ensures d.Some? ==> r == [d.value]
  {
    match d
    case Some(p) => [p]
    case None => []
  }

  /** Every entry that decodes is kept. */
  lemma {:induction false} DecodeAllKeeps(list: seq<RawParameter>, i: nat)
    requires i < |list| && DecodeParameter(list[i]).Some?
    ensures DecodeParameter(list[i]).value in DecodeAll(list)
    decreases |list|
  {
    var init := list[..|list| - 1];
    var d := DecodeParameter(list[i]);
    if i < |init| {
      assert init[i] == list[i];
      DecodeAllKeeps(init, i);
      assert d.value in DecodeAll(init);
    } else {
      assert i == |list| - 1;
      KeptLast(DecodeAll(init), d);
    }
  }

  lemma KeptLast(init: seq<ActionParameter>, d: Option<ActionParameter>)
    requires d.Some?
    ensures d.value in init + KeptParameter(d)
  {
  }

  /** Every kept parameter comes from an entry of the list. */
  lemma {:induction false} DecodeAllSource(list: seq<RawParameter>, p: ActionParameter) returns (i: nat)
    requires p in DecodeAll(list)
    ensures i < |list| && DecodeParameter(list[i]) == Some(p)
    decreases |list|
  {
    var init := list[..|list| - 1];
    if p in DecodeAll(init) {
      i := DecodeAllSource(init, p);
      assert init[i] == list[i];
    } else {
      i := |list| - 1;
    }
  }

  lemma {:induction false} DecodeAllWellFormed(list: seq<RawParameter>)
    ensures forall p :: p in DecodeAll(list) ==> WellFormedParameter(p)
    decreases |list|
  {
    if list != [] {
      DecodeAllWellFormed(list[..|list| - 1]);
    }
  }

  /** The comparator of both parameter sorts: by `in`, then by `name`. */
  function ParamKey(p: ActionParameter): seq<string>
  {
    [p.location, p.name]
  }

  /** What `decodeParametersList` returns for `list`. */
  function ParametersOf(list: seq<RawParameter>): seq<ActionParameter>
  {
    SortBy(DecodeAll(list), ParamKey)
  }

  /** `decodeParametersList`: decodes each entry, keeps the well-formed ones, sorts them. */
  method DecodeParametersList(list: seq<RawParameter>) returns (params: seq<ActionParameter>)
    ensures params == ParametersOf(list)
    ensures Sorted(params, ParamKey)
    ensures multiset(params) == multiset(DecodeAll(list))
  {
    params := [];
    for i := 0 to |list|
      invariant params == DecodeAll(list[..i])
    {
      assert list[..i + 1][..i] == list[..i];
      var decoded := DecodeParameter(list[i]);
      if decoded.Some? {
        params := params + [decoded.value];
      }
    }
    assert list[..|list|] == list;
    params := SortBy(params, ParamKey);
  }

  /** `decodeParameters`: `raw` is `None` when the `parameters` entry is missing or is
      not a JSON array; then there are no parameters. */
  method DecodeParameters(raw: Option<seq<RawParameter>>) returns (params: seq<ActionParameter>)
    ensures raw.None? ==> params == []
    ensures raw.Some? ==> params == ParametersOf(raw.value)
  {
    if raw.None? {
      return [];
    }
    params := DecodeParametersList(raw.value);
  }

  /** The key of the merge map: lower-cased `in` and `name`. */
  function MergeKey(p: ActionParameter): string
  {
    Lower(p.location) + ":" + Lower(p.name)
  }

  /** Every entry of the merge map sits under its own key. */
  ghost predicate KeyedBy(m: map<string, ActionParameter>)
  {
    forall k :: k in m ==> MergeKey(m[k]) == k
  }

  /** Stores each parameter of `ps` under its key in turn; a later one replaces an
      earlier one with the same key. */
  function MergeInto(m: map<string, ActionParameter>, ps: seq<ActionParameter>): (r: map<string, ActionParameter>)
    ensures forall k :: k in r <==> k in m || exists i :: 0 <= i < |ps| && MergeKey(ps[i]) == k
    ensures forall x :: x in r.Values ==> x in m.Values || x in ps
    decreases |ps|
  {
    if ps == [] then m
    else
      var init := ps[..|ps| - 1];
      var last := ps[|ps| - 1];
      var r := MergeInto(m, init)[MergeKey(last) := last];
      assert forall i :: 0 <= i < |init| ==> init[i] == ps[i];
      forall x | x in r.Values ensures x in m.Values || x in ps {
        var k :| k in r && r[k] == x;
        if k != MergeKey(last) {
          assert x in MergeInto(m, init).Values;
        }
      }
      r
  }

  lemma {:induction false} MergeIntoKeyed(m: map<string, ActionParameter>, ps: seq<ActionParameter>)
    requires KeyedBy(m)
    ensures KeyedBy(MergeInto(m, ps))
    decreases |ps|
  {
    if ps != [] {
      MergeIntoKeyed(m, ps[..|ps| - 1]);
    }
  }

  /** The parameter stored under a key is the last one of `ps` with that key. */
  lemma {:induction false} MergeIntoLast(m: map<string, ActionParameter>, ps: seq<ActionParameter>, i: nat)
    requires i < |ps|
    requires forall j :: i < j < |ps| ==> MergeKey(ps[j]) != MergeKey(ps[i])
    ensures MergeKey(ps[i]) in MergeInto(m, ps) && MergeInto(m, ps)[MergeKey(ps[i])] == ps[i]
    decreases |ps|
  {
    if i < |ps| - 1 {
      var init := ps[..|ps| - 1];
      assert init[i] == ps[i];
      MergeIntoLast(m, init, i);
    }
  }

  /** A key that no parameter of `ps` has keeps its old entry. */
  lemma {:induction false} MergeIntoUntouched(m: map<string, ActionParameter>, ps: seq<ActionParameter>, k: string)
    requires k in m
    requires forall j :: 0 <= j < |ps| ==> MergeKey(ps[j]) != k
    ensures k in MergeInto(m, ps) && MergeInto(m, ps)[k] == m[k]
    decreases |ps|
  {
    if ps != [] {
      MergeIntoUntouched(m, ps[..|ps| - 1], k);
    }
  }

  /** Distinct entries of a keyed map differ in `in` or `name`, so the final sort has no
      ties. */
  lemma KeyedValuesInjective(m: map<string, ActionParameter>)
    requires KeyedBy(m)
    ensures KeyInjective(m.Values, ParamKey)
  {
    forall x, y | x in m.Values && y in m.Values && ParamKey(x) == ParamKey(y)
      ensures x == y
    {
      var kx :| kx in m && m[kx] == x;
      var ky :| ky in m && m[ky] == y;
      assert x.location == y.location && x.name == y.name;
    }
  }

  /** The merge map of `mergeParameters`: path-level parameters first, then the
      operation's. */
  function MergedMap(pathParams: seq<ActionParameter>, opParams: seq<ActionParameter>): map<string, ActionParameter>
  {
    MergeInto(MergeInto(map[], pathParams), opParams)
  }

  lemma MergedMapKeyed(pathParams: seq<ActionParameter>, opParams: seq<ActionParameter>)
    ensures KeyedBy(MergedMap(pathParams, opParams))
    ensures KeyInjective(MergedMap(pathParams, opParams).Values, ParamKey)
  {
    MergeIntoKeyed(map[], pathParams);
    MergeIntoKeyed(MergeInto(map[], pathParams), opParams);
    KeyedValuesInjective(MergedMap(pathParams, opParams));
  }

  /** What `mergeParameters` returns. */
  ghost function MergedParameters(pathParams: seq<ActionParameter>, opParams: seq<ActionParameter>): seq<ActionParameter>
  {
    if |pathParams| == 0 && |opParams| == 0 then []
    else
      MergedMapKeyed(pathParams, opParams);
      SortedSet(MergedMap(pathParams, opParams).Values, ParamKey)
  }

  /** `mergeParameters`: one parameter per lower-cased (`in`, `name`), the operation's
      replacing the path's, in (`in`, `name`) order. */
  method MergeParameters(pathParams: seq<ActionParameter>, opParams: seq<ActionParameter>)
    returns (result: seq<ActionParameter>)
    ensures result == MergedParameters(pathParams, opParams)
    ensures StrictlySorted(result, ParamKey)
    ensures forall p :: p in result ==> p in pathParams || p in opParams
  {
    if |pathParams| == 0 && |opParams| == 0 {
      return [];
    }
    var merged: map<string, ActionParameter> := map[];
    for i := 0 to |pathParams|
      invariant merged == MergeInto(map[], pathParams[..i])
    {
      assert pathParams[..i + 1][..i] == pathParams[..i];
      merged := merged[MergeKey(pathParams[i]) := pathParams[i]];
    }
    assert pathParams[..|pathParams|] == pathParams;
    for i := 0 to |opParams|
      invariant merged == MergeInto(MergeInto(map[], pathParams), opParams[..i])
    {
      assert opParams[..i + 1][..i] == opParams[..i];
      merged := merged[MergeKey(opParams[i]) := opParams[i]];
    }
    assert opParams[..|opParams|] == opParams;
    MergedMapKeyed(pathParams, opParams);
    result := SortSet(merged.Values, ParamKey);
    forall p | p in result ensures p in pathParams || p in opParams {
      assert p in merged.Values;
      assert p in MergeInto(map[], pathParams).Values || p in opParams;
    }
  }

  /** An operation-level parameter survives the merge, unless a later one of the same
      operation has its key. */
  lemma OperationParameterWins(pathParams: seq<ActionParameter>, opParams: seq<ActionParameter>, i: nat)
    requires i < |opParams|
    requires forall j :: i < j < |opParams| ==> MergeKey(opParams[j]) != MergeKey(opParams[i])
    ensures opParams[i] in MergedParameters(pathParams, opParams)
  {
    MergeIntoLast(MergeInto(map[], pathParams), opParams, i);
    MergedMapKeyed(pathParams, opParams);
  }

  /** A path-level parameter survives the merge when no operation parameter and no later
      path parameter has its key. */
  lemma PathParameterKept(pathParams: seq<ActionParameter>, opParams: seq<ActionParameter>, i: nat)
    requires i < |pathParams|
    requires forall j :: i < j < |pathParams| ==> MergeKey(pathParams[j]) != MergeKey(pathParams[i])
    requires forall j :: 0 <= j < |opParams| ==> MergeKey(opParams[j]) != MergeKey(pathParams[i])
    ensures pathParams[i] in MergedParameters(pathParams, opParams)
  {
    MergeIntoLast(map[], pathParams, i);
    MergeIntoUntouched(MergeInto(map[], pathParams), opParams, MergeKey(pathParams[i]));
    MergedMapKeyed(pathParams, opParams);
  }

  /** No two merged parameters share a key: a path parameter shadowed by an operation
      parameter is gone. */
  lemma MergedKeysUnique(pathParams: seq<ActionParameter>, opParams: seq<ActionParameter>, a: nat, b: nat)
    requires var r := MergedParameters(pathParams, opParams); a < b < |r|
    ensures var r := MergedParameters(pathParams, opParams); MergeKey(r[a]) != MergeKey(r[b])
  {
    MergedMapKeyed(pathParams, opParams);
    var m := MergedMap(pathParams, opParams);
    var r := MergedParameters(pathParams, opParams);
    assert r[a] in m.Values && r[b] in m.Values;
    KeyLessIrreflexive(ParamKey(r[a]));
    if MergeKey(r[a]) == MergeKey(r[b]) {
    }
  }

  /** `requestBodySpec`; `content` is the set of media types its `content` object maps. */
  datatype RequestBodySpec = RequestBodySpec(required: bool, content: set<string>)

  /** `ActionRequestBody`. */
  datatype ActionRequestBody = ActionRequestBody(required: bool, contentTypes: seq<string>)

  function Itself(s: string): seq<string>
  {
    [s]
  }

  lemma ItselfInjective(s: set<string>)
    ensures KeyInjective(s, Itself)
  {
    forall x, y | Itself(x) == Itself(y) ensures x == y {
      assert Itself(x)[0] == x;
    }
  }

  /** What `decodeRequestBody` returns. */
  ghost function RequestBodyOf(raw: Option<RequestBodySpec>): Option<ActionRequestBody>
  {
    match raw
    case None => None
    case Some(spec) =>
      ItselfInjective(spec.content);
      Some(ActionRequestBody(spec.required, SortedSet(spec.content, Itself)))
  }

  /** `decodeRequestBody`: no body stays no body; otherwise the media types in
      `sort.Strings` order. */
  method DecodeRequestBody(raw: Option<RequestBodySpec>) returns (r: Option<ActionRequestBody>)
    ensures r == RequestBodyOf(raw)
    ensures r.None? <==> raw.None?
    ensures raw.Some? ==> r.value.required == raw.value.required
    ensures raw.Some? ==> StrictlySorted(r.value.contentTypes, Itself)
    ensures raw.Some? ==> |r.value.contentTypes| == |raw.value.content|
    ensures raw.Some? ==> forall t :: t in r.value.contentTypes <==> t in raw.value.content
  {
    if raw.None? {
      return None;
    }
    ItselfInjective(raw.value.content);
    var contentTypes := SortSet(raw.value.content, Itself);
    r := Some(ActionRequestBody(raw.value.required, contentTypes));
  }

  /** The path-level parameter of the build test has no `in`, so it is dropped. */
  lemma DecodeParameterWithoutLocation()
    ensures DecodeParameter(ParameterSpec("", "contactId", "", false, "", None)) == None
  {
  }
}
