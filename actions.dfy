/** `buildActionsFromProps` (internal/actions/catalog.go): the actions of one API
    description, one per path and HTTP method. */
module Actions {
  import opened Wrappers
  import opened Text
  import opened Slug
  import opened Paths
  import opened Parameters
  import opened Seqs

  /** `Action`. */
  datatype Action = Action(
    id: string,
    api: string,
    operationId: string,
    httpMethod: string,
    path: string,
    summary: string,
    description: string,
    parameters: seq<ActionParameter>,
    requestBody: Option<ActionRequestBody>)

  /** `operationSpec`. */
  datatype OperationSpec = OperationSpec(
    operationId: string,
    summary: string,
    description: string,
    parameters: seq<RawParameter>,
    requestBody: Option<RequestBodySpec>)

  /** One value of a path item, a `json.RawMessage`, read the two ways the source reads it:
      as a list of parameters (`None` when it is not a JSON array) and as an operation
      (`None` when it does not decode as an `operationSpec` object). */
  datatype RawMessage = RawMessage(asParameters: Option<seq<RawParameter>>, asOperation: Option<OperationSpec>)

  /** One entry of `servers`; `parsedPath` is the path `url.Parse` finds in the trimmed
      URL, `None` when it does not parse. */
  datatype Server = Server(url: string, parsedPath: Option<string>)

  /** `schemaSpec`: the part of the page's props that the builder reads. */
  datatype Schema = Schema(title: string, servers: seq<Server>, paths: map<string, map<string, RawMessage>>)

  datatype BuildError = UndecodableProps | MissingTitle

  /** The HTTP methods that become actions. */
  const HttpMethods: set<string> := {"GET", "POST", "PUT", "DELETE", "PATCH"}

  /** The base path of the first server, or `/` when there is none, it is blank, it does
      not parse, or its path is blank. */
  function ServerPrefix(servers: seq<Server>): (r: string)
    ensures r == "/" || (|servers| > 0 && !Blank(servers[0].url)
                         && servers[0].parsedPath == Some(r) && !Blank(r))
  {
    if |servers| > 0 && !Blank(servers[0].url) && servers[0].parsedPath.Some?
       && !Blank(servers[0].parsedPath.value)
    then servers[0].parsedPath.value
    else "/"
  }

  /** `apiShort`: the title lower-cased, without a trailing ` api`, as a slug; `holded`
      when nothing is left. */
  function ApiShort(apiName: string): string
  {
    var t := NormalizeToken(TrimSuffix(Lower(apiName), " api"));
    if t == [] then "holded" else t
  }

  /** The API part of an action id is never empty and is a slug. */
  lemma ApiShortIsSlug(apiName: string)
    ensures ApiShort(apiName) != [] && IsSlug(ApiShort(apiName))
  {
    NormalizeTokenIsSlug(TrimSuffix(Lower(apiName), " api"));
    HoldedIsSlug();
  }

  lemma HoldedIsSlug()
    ensures IsSlug("holded")
  {
    var h := "holded";
    assert h[0] == 'h' && h[1] == 'o' && h[2] == 'l' && h[3] == 'd' && h[4] == 'e' && h[5] == 'd';
  }

  /** `idBase`: the operation id, or `METHOD /path` when there is none. */
  function IdBase(httpMethod: string, fullPath: string, opId: string): string
  {
    if opId == [] then httpMethod + " " + fullPath else opId
  }

  /** The method an item key names, when it is one that becomes an action. */
  function MethodOf(methodKey: string): string
  {
    Upper(TrimSpace(methodKey))
  }

  /** The raw `parameters` entry of a path item (a missing key is an empty message). */
  function PathParametersRaw(item: map<string, RawMessage>): Option<seq<RawParameter>>
  {
    if "parameters" in item then item["parameters"].asParameters else None
  }

  /** The `parameters` of a path item as `decodeParameters` returns them. */
  function PathParametersOf(item: map<string, RawMessage>): seq<ActionParameter>
  {
    match PathParametersRaw(item) case None => [] case Some(list) => ParametersOf(list)
  }

  /** The operation that the value under (path, method key) decodes to, if any. */
  function OperationAt(schema: Schema, key: (string, string)): Option<OperationSpec>
  {
    if key.0 in schema.paths && key.1 in schema.paths[key.0]
    then schema.paths[key.0][key.1].asOperation
    else None
  }

  /** The (path, method key) pairs that produce an action. */
  ghost predicate Qualifies(schema: Schema, key: (string, string))
  {
    MethodOf(key.1) in HttpMethods && OperationAt(schema, key).Some?
  }

  /** The action built for a (path, method key) pair, given the joined path and the
      decoded path-level parameters of its path item. Only qualifying pairs are built;
      for any other pair this reads an empty operation. */
  ghost function ActionFrom(schema: Schema, fullPath: string, pathParameters: seq<ActionParameter>,
                            key: (string, string)): Action
  {
    var apiName := TrimSpace(schema.title);
    var httpMethod := MethodOf(key.1);
    var op := match OperationAt(schema, key)
      case Some(op) => op
      case None => OperationSpec([], [], [], [], None);
    var opId := TrimSpace(op.operationId);
    Action(
      ApiShort(apiName) + "." + NormalizeToken(IdBase(httpMethod, fullPath, opId)),
      apiName,
      opId,
      httpMethod,
      fullPath,
      TrimSpace(op.summary),
      TrimSpace(op.description),
      MergedParameters(pathParameters, ParametersOf(op.parameters)),
      RequestBodyOf(op.requestBody))
  }

  /** The action built for a (path, method key) pair. */
  ghost function ActionFor(schema: Schema, key: (string, string)): Action
  {
    var item := if key.0 in schema.paths then schema.paths[key.0] else map[];
    ActionFrom(schema, JoinPath(ServerPrefix(schema.servers), key.0), PathParametersOf(item), key)
  }

  /** The body of the inner loop for one qualifying method key. */
  method BuildAction(schema: Schema, apiName: string, apiShort: string, pathValue: string,
                     fullPath: string, pathParameters: seq<ActionParameter>, methodKey: string)
    returns (action: Action)
    requires Qualifies(schema, (pathValue, methodKey))
    requires apiName == TrimSpace(schema.title) && apiShort == ApiShort(apiName)
    ensures action == ActionFrom(schema, fullPath, pathParameters, (pathValue, methodKey))
  {
    var httpMethod := Upper(TrimSpace(methodKey));
    var op := schema.paths[pathValue][methodKey].asOperation.value;
    var opId := TrimSpace(op.operationId);
    var idBase := opId;
    if idBase == [] {
      idBase := httpMethod + " " + fullPath;
    }
    var opParameters := DecodeParametersList(op.parameters);
    var parameters := MergeParameters(pathParameters, opParameters);
    var requestBody := DecodeRequestBody(op.requestBody);
    action := Action(
      apiShort + "." + NormalizeToken(idBase),
      apiName,
      opId,
      httpMethod,
      fullPath,
      TrimSpace(op.summary),
      TrimSpace(op.description),
      parameters,
      requestBody);
  }

  /** No key is listed twice. */
  ghost predicate Distinct(keys: seq<(string, string)>)
  {
    forall i, j :: 0 <= i < j < |keys| ==> keys[i] != keys[j]
  }

  /** `keys` lists exactly the qualifying pairs of path `pathValue` whose method key is in
      `done`. */
  ghost predicate Covers(schema: Schema, pathValue: string, keys: seq<(string, string)>, done: set<string>)
  {
    forall k :: k in keys <==> Qualifies(schema, k) && k.0 == pathValue && k.1 in done
  }

  /** The actions built for `keys`, one per pair, in order. */
  ghost function ActionsFor(schema: Schema, keys: seq<(string, string)>): seq<Action>
  {
    Map(k => ActionFor(schema, k), keys)
  }

  lemma ActionsForAppend(schema: Schema, keys: seq<(string, string)>, more: seq<(string, string)>)
    ensures ActionsFor(schema, keys + more) == ActionsFor(schema, keys) + ActionsFor(schema, more)
  {
    MapAppend(k => ActionFor(schema, k), keys, more);
  }

  /** For pairs that all name path `pathValue`, building with its joined path and
      path-level parameters is building each pair on its own. */
  lemma ActionsFromOfPath(schema: Schema, pathValue: string, keys: seq<(string, string)>)
    requires pathValue in schema.paths
    requires forall k :: k in keys ==> k.0 == pathValue
    ensures Map(k => ActionFrom(schema, JoinPath(ServerPrefix(schema.servers), pathValue),
                                PathParametersOf(schema.paths[pathValue]), k), keys)
         == ActionsFor(schema, keys)
  {
    var fullPath := JoinPath(ServerPrefix(schema.servers), pathValue);
    var pathParameters := PathParametersOf(schema.paths[pathValue]);
    var l := Map(k => ActionFrom(schema, fullPath, pathParameters, k), keys);
    var r := ActionsFor(schema, keys);
    forall i | 0 <= i < |keys| ensures l[i] == r[i] {
      assert keys[i] in keys;
    }
  }

  lemma CoversStep(schema: Schema, pathValue: string, keys: seq<(string, string)>, done: set<string>, m: string)
    requires Covers(schema, pathValue, keys, done) && Distinct(keys) && m !in done
    ensures var keys' := if Qualifies(schema, (pathValue, m)) then keys + [(pathValue, m)] else keys;
      Covers(schema, pathValue, keys', done + {m}) && Distinct(keys')
  {
    if Qualifies(schema, (pathValue, m)) {
      assert (pathValue, m) !in keys;
    }
  }

  /** The inner loop over the keys of one path item, in map order. */
  method BuildMethodActions(schema: Schema, apiName: string, apiShort: string, pathValue: string,
                            fullPath: string, pathParameters: seq<ActionParameter>)
    returns (actions: seq<Action>, ghost keys: seq<(string, string)>)
    requires pathValue in schema.paths
    requires apiName == TrimSpace(schema.title) && apiShort == ApiShort(apiName)
    ensures Covers(schema, pathValue, keys, schema.paths[pathValue].Keys) && Distinct(keys)
    ensures actions == Map(k => ActionFrom(schema, fullPath, pathParameters, k), keys)
  {
    ghost var build := k => ActionFrom(schema, fullPath, pathParameters, k);
    var item := schema.paths[pathValue];
    actions, keys := [], [];
    var methodKeys := item.Keys;
    while methodKeys != {}
      invariant methodKeys <= item.Keys
      invariant Covers(schema, pathValue, keys, item.Keys - methodKeys) && Distinct(keys)
      invariant actions == Map(build, keys)
      decreases |methodKeys|
    {
      var methodKey :| methodKey in methodKeys;
      CoversStep(schema, pathValue, keys, item.Keys - methodKeys, methodKey);
      var httpMethod := Upper(TrimSpace(methodKey));
      if httpMethod in HttpMethods && item[methodKey].asOperation.Some? {
        var action := BuildAction(schema, apiName, apiShort, pathValue, fullPath, pathParameters, methodKey);
        MapSnoc(build, keys, (pathValue, methodKey));
        actions := actions + [action];
        keys := keys + [(pathValue, methodKey)];
      }
      DoneStep(item.Keys, methodKeys, methodKey);
      methodKeys := methodKeys - {methodKey};
    }
  }

  /** One turn of the outer loop: the actions of path `pathValue`. */
  method BuildPathActions(schema: Schema, apiName: string, apiShort: string, pathValue: string)
    returns (actions: seq<Action>, ghost keys: seq<(string, string)>)
    requires pathValue in schema.paths
    requires apiName == TrimSpace(schema.title) && apiShort == ApiShort(apiName)
    ensures Covers(schema, pathValue, keys, schema.paths[pathValue].Keys) && Distinct(keys)
    ensures actions == ActionsFor(schema, keys)
  {
    var fullPath := JoinPath(ServerPrefix(schema.servers), pathValue);
    var pathParameters := DecodeParameters(PathParametersRaw(schema.paths[pathValue]));
    actions, keys := BuildMethodActions(schema, apiName, apiShort, pathValue, fullPath, pathParameters);
    ActionsFromOfPath(schema, pathValue, keys);
  }

  /** `keys` lists exactly the qualifying pairs whose path is in `done`. */
  ghost predicate CoversPaths(schema: Schema, keys: seq<(string, string)>, done: set<string>)
  {
    forall k :: k in keys <==> Qualifies(schema, k) && k.0 in done
  }

  lemma CoversPathsStep(schema: Schema, keys: seq<(string, string)>, done: set<string>,
                        pathValue: string, pathKeys: seq<(string, string)>)
    requires CoversPaths(schema, keys, done) && Distinct(keys) && pathValue !in done
    requires pathValue in schema.paths
    requires Covers(schema, pathValue, pathKeys, schema.paths[pathValue].Keys) && Distinct(pathKeys)
    ensures CoversPaths(schema, keys + pathKeys, done + {pathValue}) && Distinct(keys + pathKeys)
  {
    var all := keys + pathKeys;
    forall i, j | 0 <= i < j < |all| ensures all[i] != all[j] {
      if i < |keys| <= j {
        assert all[i] in keys && all[j] in pathKeys;
      }
    }
  }

  /** The outer loop over the paths of the description, in map order. */
  method BuildPaths(schema: Schema, apiName: string, apiShort: string)
    returns (actions: seq<Action>, ghost keys: seq<(string, string)>)
    requires apiName == TrimSpace(schema.title) && apiShort == ApiShort(apiName)
    ensures (forall k :: k in keys <==> Qualifies(schema, k)) && Distinct(keys)
    ensures actions == ActionsFor(schema, keys)
  {
    actions, keys := [], [];
    var remaining := schema.paths.Keys;
    while remaining != {}
      invariant remaining <= schema.paths.Keys
      invariant CoversPaths(schema, keys, schema.paths.Keys - remaining) && Distinct(keys)
      invariant actions == ActionsFor(schema, keys)
      decreases |remaining|
    {
      var pathValue :| pathValue in remaining;
      var pathActions, pathKeys := BuildPathActions(schema, apiName, apiShort, pathValue);
      BuildPathsStep(schema, keys, remaining, pathValue, pathKeys);
      ActionsForAppend(schema, keys, pathKeys);
      actions := actions + pathActions;
      keys := keys + pathKeys;
      remaining := remaining - {pathValue};
    }
    CoversAllPaths(schema, keys);
  }

  /** One pass of the outer loop: path `pathValue` moves to the done paths. */
  lemma BuildPathsStep(schema: Schema, keys: seq<(string, string)>, remaining: set<string>,
                       pathValue: string, pathKeys: seq<(string, string)>)
    requires remaining <= schema.paths.Keys && pathValue in remaining
    requires CoversPaths(schema, keys, schema.paths.Keys - remaining) && Distinct(keys)
    requires Covers(schema, pathValue, pathKeys, schema.paths[pathValue].Keys) && Distinct(pathKeys)
    ensures CoversPaths(schema, keys + pathKeys, schema.paths.Keys - (remaining - {pathValue}))
    ensures Distinct(keys + pathKeys)
  {
    CoversPathsStep(schema, keys, schema.paths.Keys - remaining, pathValue, pathKeys);
    DoneStep(schema.paths.Keys, remaining, pathValue);
  }

  /** Once every path is done, the keys are exactly the qualifying pairs. */
  lemma CoversAllPaths(schema: Schema, keys: seq<(string, string)>)
    requires CoversPaths(schema, keys, schema.paths.Keys - {})
    ensures forall k :: k in keys <==> Qualifies(schema, k)
  {
    assert schema.paths.Keys - {} == schema.paths.Keys;
  }

  /** `buildActionsFromProps`. `props` is `None` when the payload is not valid JSON for
      the props shape. On success there is one action per qualifying (path, method key)
      pair, `keys` telling which, in the order the maps happened to be walked. */
  method BuildActionsFromProps(props: Option<Schema>)
    returns (r: Result<seq<Action>, BuildError>, ghost keys: seq<(string, string)>)
    ensures props.None? ==> r == Err(UndecodableProps)
    ensures props.Some? && Blank(props.value.title) ==> r == Err(MissingTitle)
    ensures props.Some? && !Blank(props.value.title) ==> r.Ok?
    ensures r.Ok? ==> (forall k :: k in keys <==> Qualifies(props.value, k)) && Distinct(keys)
    ensures r.Ok? ==> |r.value| == |keys|
    ensures r.Ok? ==> forall i :: 0 <= i < |keys| ==> r.value[i] == ActionFor(props.value, keys[i])
    ensures r.Ok? ==> forall k :: Qualifies(props.value, k) ==> ActionFor(props.value, k) in r.value
    ensures r.Ok? ==> forall a :: a in r.value ==> exists k :: Qualifies(props.value, k) && a == ActionFor(props.value, k)
  {
    keys := [];
    if props.None? {
      return Err(UndecodableProps), keys;
    }
    var schema := props.value;
    var apiName := TrimSpace(schema.title);
    if apiName == [] {
      return Err(MissingTitle), keys;
    }
    var apiShort := ApiShort(apiName);
    var actions;
    actions, keys := BuildPaths(schema, apiName, apiShort);
    ActionsOfQualifying(schema, keys);
    r := Ok(actions);
  }

  /** Listing every qualifying pair once, the actions built are exactly the actions of
      the qualifying pairs. */
  lemma ActionsOfQualifying(schema: Schema, keys: seq<(string, string)>)
    requires forall k :: k in keys <==> Qualifies(schema, k)
    ensures forall k :: Qualifies(schema, k) ==> ActionFor(schema, k) in ActionsFor(schema, keys)
    ensures forall a :: a in ActionsFor(schema, keys) ==> exists k :: Qualifies(schema, k) && a == ActionFor(schema, k)
  {
    MapImage(k => ActionFor(schema, k), k => Qualifies(schema, k), keys);
  }

  /** The description of the build test: a GET on `/contacts` and a DELETE on
      `/contacts/{contactId}`, whose path item also lists `parameters`. */
  function FixtureSchema(): Schema
  {
    var list := RawMessage(None, Some(OperationSpec("List Contacts", "List all contacts", [], [], None)));
    var del := RawMessage(None, Some(OperationSpec("Delete Contact", "", "", [], None)));
    var params := RawMessage(Some([ParameterSpec("", "contactId", "", false, "", None)]), None);
    Schema("Invoice API",
           [Server("https://api.holded.com/api/invoicing/v1", Some("/api/invoicing/v1"))],
           map["/contacts" := map["get" := list],
               "/contacts/{contactId}" := map["delete" := del, "parameters" := params]])
  }

  lemma FixtureMethods()
    ensures MethodOf("get") == "GET" && MethodOf("delete") == "DELETE"
  {
    TrimSpaceOfTrimmed("get");
    TrimSpaceOfTrimmed("delete");
  }

  /** The qualifying pairs of the build test are its two operations; the `parameters`
      entry is not one. */
  lemma FixtureQualifies(k: (string, string))
    ensures Qualifies(FixtureSchema(), k) <==> k == ("/contacts", "get") || k == ("/contacts/{contactId}", "delete")
  {
    FixtureOperations(k);
    FixtureMethods();
  }

  /** Only the two operations decode as operations. */
  lemma FixtureOperations(k: (string, string))
    ensures OperationAt(FixtureSchema(), k).Some? <==> k == ("/contacts", "get") || k == ("/contacts/{contactId}", "delete")
  {
  }

  /** The build test yields two actions: any repeat-free listing of the qualifying pairs
      has two entries. */
  lemma BuildFixtureCount(keys: seq<(string, string)>)
    requires forall k :: k in keys <==> Qualifies(FixtureSchema(), k)
    requires Distinct(keys)
    ensures |keys| == 2
  {
    var a, b := ("/contacts", "get"), ("/contacts/{contactId}", "delete");
    FixtureQualifies(a);
    FixtureQualifies(b);
    forall k | Qualifies(FixtureSchema(), k) ensures k == a || k == b {
      FixtureQualifies(k);
    }
    TwoQualifying(FixtureSchema(), keys, a, b);
  }

  /** A schema where exactly two pairs qualify builds two actions. */
  lemma TwoQualifying(schema: Schema, keys: seq<(string, string)>, a: (string, string), b: (string, string))
    requires a != b && Qualifies(schema, a) && Qualifies(schema, b)
    requires forall k :: Qualifies(schema, k) ==> k == a || k == b
    requires forall k :: k in keys <==> Qualifies(schema, k)
    requires Distinct(keys)
    ensures |keys| == 2
  {
    DistinctOfTwo(keys, a, b);
  }

  /** Distinct keys drawn from two values, both present, are exactly two. */
  lemma DistinctOfTwo(keys: seq<(string, string)>, a: (string, string), b: (string, string))
    requires a != b && a in keys && b in keys && Distinct(keys)
    requires forall k :: k in keys ==> k == a || k == b
    ensures |keys| == 2
  {
    var i :| 0 <= i < |keys| && keys[i] == a;
    var j :| 0 <= j < |keys| && keys[j] == b;
    forall n | 0 <= n < |keys| ensures (keys[n] == a && n == i) || (keys[n] == b && n == j) {
      assert keys[n] in keys;
    }
    var last := |keys| - 1;
    assert (keys[last] == a && last == i) || (keys[last] == b && last == j);
    assert (keys[last - 1] == a && last - 1 == i) || (keys[last - 1] == b && last - 1 == j);
    assert (keys[0] == a && 0 == i) || (keys[0] == b && 0 == j);
  }

  /** The two actions of the build test: their paths are under the server's base path and
      their API is the title. */
  lemma BuildFixtureActions()
    ensures var s := FixtureSchema();
      var get, del := ActionFor(s, ("/contacts", "get")), ActionFor(s, ("/contacts/{contactId}", "delete"));
      && get.httpMethod == "GET" && get.path == "/api/invoicing/v1/contacts"
      && del.httpMethod == "DELETE" && del.path == "/api/invoicing/v1/contacts/{contactId}"
      && get.api == "Invoice API" && del.api == "Invoice API"
  {
    FixturePrefix();
    ActionsUnderPrefix(FixtureSchema());
  }

  lemma ActionsUnderPrefix(s: Schema)
    requires s.title == "Invoice API" && ServerPrefix(s.servers) == "/api/invoicing/v1"
    ensures var get, del := ActionFor(s, ("/contacts", "get")), ActionFor(s, ("/contacts/{contactId}", "delete"));
      && get.httpMethod == "GET" && get.path == "/api/invoicing/v1/contacts"
      && del.httpMethod == "DELETE" && del.path == "/api/invoicing/v1/contacts/{contactId}"
      && get.api == "Invoice API" && del.api == "Invoice API"
  {
    ActionForFields(s, ("/contacts", "get"));
    ActionForFields(s, ("/contacts/{contactId}", "delete"));
    FixtureMethods();
    FixtureTitle();
    FixturePaths();
  }

  lemma JoinPathOfContact(prefix: string, item: string)
    requires prefix == "/api/invoicing/v1" && item == "/contacts/{contactId}"
    ensures JoinPath(prefix, item) == "/api/invoicing/v1/contacts/{contactId}"
  {
    assert prefix + item == "/api/invoicing/v1/contacts/{contactId}";
    assert item[0] == '/' && item[1] == 'c' && item[|item| - 1] == '}';
    assert prefix[0] == '/' && prefix[1] == 'a' && prefix[|prefix| - 1] == '1';
    JoinPathOfCanonical(prefix, item);
  }

  lemma FixturePaths()
    ensures JoinPath("/api/invoicing/v1", "/contacts") == "/api/invoicing/v1/contacts"
    ensures JoinPath("/api/invoicing/v1", "/contacts/{contactId}") == "/api/invoicing/v1/contacts/{contactId}"
  {
    JoinPathFixture();
    JoinPathOfContact("/api/invoicing/v1", "/contacts/{contactId}");
  }

  /** Method, path and API of the action built for a pair. */
  lemma ActionForFields(schema: Schema, key: (string, string))
    ensures ActionFor(schema, key).httpMethod == MethodOf(key.1)
    ensures ActionFor(schema, key).path == JoinPath(ServerPrefix(schema.servers), key.0)
    ensures ActionFor(schema, key).api == TrimSpace(schema.title)
  {
  }

  lemma FixturePrefix()
    ensures ServerPrefix(FixtureSchema().servers) == "/api/invoicing/v1"
  {
    var servers := FixtureSchema().servers;
    var u, p := "https://api.holded.com/api/invoicing/v1", "/api/invoicing/v1";
    assert servers == [Server(u, Some(p))];
    assert u[0] == 'h' && u[|u| - 1] == '1';
    assert p[0] == '/' && p[|p| - 1] == '1';
    ServerPrefixOf(servers, p);
  }

  /** A first server with a trimmed URL and a trimmed parsed path gives that path. */
  lemma ServerPrefixOf(servers: seq<Server>, p: string)
    requires |servers| > 0 && servers[0].url != [] && Trimmed(servers[0].url)
    requires servers[0].parsedPath == Some(p) && p != [] && Trimmed(p)
    ensures ServerPrefix(servers) == p
  {
    var url := servers[0].url;
    TrimSpaceOfTrimmed(url);
    assert !Blank(url);
    TrimSpaceOfTrimmed(p);
    assert !Blank(p);
  }

  lemma FixtureTitle()
    ensures TrimSpace("Invoice API") == "Invoice API"
  {
    TrimSpaceOfTrimmed("Invoice API");
  }
}
