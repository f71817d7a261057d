/** The HTTP client of the Holded API (internal/holded/client.go): which API key is used,
    how a request is shaped before it is sent, and how a reply becomes an error. The
    transport is a parameter: `Do` receives the reply the server would give. */
module Client {
  import opened Wrappers
  import opened Text
  import opened Decimal
  import opened Whitespace
  import opened Seqs

  const DefaultBaseURL: string := "https://api.holded.com"
  const DefaultPingPath: string := "/api/invoicing/v1/contacts"
  const UserAgent: string := "holdedcli/0.3.5"

  // ---------------------------------------------------------------------------------
  // Credentials

  /** Where the API key came from. */
  datatype CredentialSource = Flag | Env | Config | NoCredential

  /** The sources in priority order, matching the arguments of `ResolveAPIKey`. */
  const Sources: seq<CredentialSource> := [Flag, Env, Config]

  /** `ResolveAPIKey`: the `--api-key` flag, then `HOLDED_API_KEY`, then the config file. */
  function ResolveAPIKey(flagValue: string, envValue: string, configValue: string): (r: (string, CredentialSource))
    ensures Trimmed(r.0)
  {
    var flag, env, config := TrimSpace(flagValue), TrimSpace(envValue), TrimSpace(configValue);
    if flag != [] then (flag, Flag)
    else if env != [] then (env, Env)
    else if config != [] then (config, Config)
    else ("", NoCredential)
  }

  /** A candidate that counts as a key. */
  predicate Present(value: string)
  {
    !Blank(value)
  }

  /** Priority: the key is the first present candidate, trimmed, tagged with its source;
      with none present there is no key. */
  lemma ResolveAPIKeyPriority(flagValue: string, envValue: string, configValue: string)
    ensures var candidates := [flagValue, envValue, configValue];
      var r := ResolveAPIKey(flagValue, envValue, configValue);
      match FirstWith(Present, candidates, 0)
      case None => r == ("", NoCredential)
      case Some(k) => r == (TrimSpace(candidates[k]), Sources[k])
  {
    var candidates := [flagValue, envValue, configValue];
    assert candidates[0] == flagValue && candidates[1] == envValue && candidates[2] == configValue;
  }

  /** The key is non-empty exactly when it has a source. */
  lemma ResolveAPIKeyAgreement(flagValue: string, envValue: string, configValue: string)
    ensures var r := ResolveAPIKey(flagValue, envValue, configValue);
      r.0 != [] <==> r.1 != NoCredential
  {
  }

  /** The four cases of the priority test. */
  lemma ResolveAPIKeyFixture()
    ensures ResolveAPIKey("flag-key", "env-key", "cfg-key") == ("flag-key", Flag)
    ensures ResolveAPIKey("", "env-key", "cfg-key") == ("env-key", Env)
    ensures ResolveAPIKey("", "", "cfg-key") == ("cfg-key", Config)
    ensures ResolveAPIKey("", "", "") == ("", NoCredential)
  {
    TrimSpaceOfTrimmed("flag-key");
    TrimSpaceOfTrimmed("env-key");
    TrimSpaceOfTrimmed("cfg-key");
  }

  // ---------------------------------------------------------------------------------
  // API errors

  /** A reply outside 2xx: its status and a cleaned excerpt of its body. */
  datatype APIError = APIError(statusCode: int, bodySnippet: string)

  const StatusText: string := "holded API returned status "

  /** `APIError.Error`. */
  function ErrorMessage(e: APIError): (r: string)
    ensures HasPrefix(r, StatusText + IntToString(e.statusCode))
  {
    if e.bodySnippet == [] then StatusText + IntToString(e.statusCode)
    else StatusText + IntToString(e.statusCode) + ": " + e.bodySnippet
  }

  /** The `: snippet` suffix is left out exactly when the snippet is empty. */
  lemma ErrorMessageSuffix(e: APIError)
    ensures ErrorMessage(e) == StatusText + IntToString(e.statusCode) <==> e.bodySnippet == []
    ensures e.bodySnippet != [] ==> HasSuffix(ErrorMessage(e), ": " + e.bodySnippet)
  {
  }

  /** A rendered status holds no ':'. */
  lemma IntToStringNoColon(i: int)
    ensures forall k :: 0 <= k < |IntToString(i)| ==> IntToString(i)[k] != ':'
  {
    if i < 0 {
      assert IntToString(i) == "-" + NatToString(-i);
    }
  }

  /** In `d + x`, with `d` colon-free and `x` empty or starting with ':', the first ':'
      (or the end) is at `|d|`. */
  lemma ColonAfterHead(d: string, x: string)
    requires forall k :: 0 <= k < |d| ==> d[k] != ':'
    requires x == [] || x[0] == ':'
    ensures forall k :: 0 <= k < |d| ==> (d + x)[k] != ':'
    ensures |d| < |d + x| ==> (d + x)[|d|] == ':'
  {
  }

  /** Two colon-free heads, each followed by nothing or by text starting with ':', split
      a string the same way. */
  lemma SplitAtColon(d1: string, x1: string, d2: string, x2: string)
    requires forall k :: 0 <= k < |d1| ==> d1[k] != ':'
    requires forall k :: 0 <= k < |d2| ==> d2[k] != ':'
    requires x1 == [] || x1[0] == ':'
    requires x2 == [] || x2[0] == ':'
    requires d1 + x1 == d2 + x2
    ensures d1 == d2 && x1 == x2
  {
    ColonAfterHead(d1, x1);
    ColonAfterHead(d2, x2);
    assert |d1| == |d2|;
    assert d1 == (d1 + x1)[..|d1|];
    assert d2 == (d2 + x2)[..|d2|];
    assert x1 == (d1 + x1)[|d1|..];
    assert x2 == (d2 + x2)[|d2|..];
  }

  /** The part of the message after the status. */
  function Tail(e: APIError): string
  {
    if e.bodySnippet == [] then [] else ": " + e.bodySnippet
  }

  /** The message determines the error: different errors never print the same. */
  lemma ErrorMessageInjective(a: APIError, b: APIError)
    requires ErrorMessage(a) == ErrorMessage(b)
    ensures a == b
  {
    var da, db := IntToString(a.statusCode), IntToString(b.statusCode);
    assert ErrorMessage(a) == StatusText + (da + Tail(a));
    assert ErrorMessage(b) == StatusText + (db + Tail(b));
    assert da + Tail(a) == ErrorMessage(a)[|StatusText|..];
    assert db + Tail(b) == ErrorMessage(b)[|StatusText|..];
    IntToStringNoColon(a.statusCode);
    IntToStringNoColon(b.statusCode);
    SplitAtColon(da, Tail(a), db, Tail(b));
    IntToStringInjective(a.statusCode, b.statusCode);
    if a.bodySnippet != [] {
      assert a.bodySnippet == Tail(a)[2..];
      assert b.bodySnippet == Tail(b)[2..];
    }
  }

  // ---------------------------------------------------------------------------------
  // Body snippets

  const SnippetLimit: nat := 200

  /** The trimmed body with newlines turned into spaces and every run of spaces collapsed
      to one. */
  function CollapsedBody(body: string): string
  {
    Collapse(ReplaceAll(TrimSpace(body), "\n", " "))
  }

  /** `cleanSnippet`: the collapsed body, cut to its first 200 characters. */
  function CleanSnippet(body: string): (r: string)
    ensures |r| <= SnippetLimit
  {
    var trimmed := TrimSpace(body);
    if trimmed == [] then []
    else
      var collapsed := Collapse(ReplaceAll(trimmed, "\n", " "));
      if |collapsed| <= SnippetLimit then collapsed else collapsed[..SnippetLimit]
  }

  /** Turning newlines into spaces keeps the non-space characters. */
  lemma {:induction false} NonSpaceOfReplaceNewlines(s: string)
    ensures NonSpace(ReplaceAll(s, "\n", " ")) == NonSpace(s)
    decreases |s|
  {
    if s != [] {
      var rest := ReplaceAll(s[1..], "\n", " ");
      NonSpaceOfReplaceNewlines(s[1..]);
      if s[0] == '\n' {
        assert HasPrefix(s, "\n");
        NonSpaceAppend(" ", rest);
      } else {
        assert !HasPrefix(s, "\n");
        NonSpaceAppend([s[0]], rest);
      }
    }
  }

  /** What the snippet is: the first characters of a text that keeps every non-space
      character of the body in order, with single spaces between words. */
  lemma CleanSnippetText(body: string)
    ensures var c := CollapsedBody(body);
      && NonSpace(c) == NonSpace(body)
      && SingleSpaced(c)
      && CleanSnippet(body) == c[..if |c| <= SnippetLimit then |c| else SnippetLimit]
  {
    var trimmed := TrimSpace(body);
    NonSpaceOfTrimmed(body);
    NonSpaceOfReplaceNewlines(trimmed);
    CollapseKeepsNonSpace(ReplaceAll(trimmed, "\n", " "));
    if trimmed == [] {
      assert ReplaceAll(trimmed, "\n", " ") == [];
      assert Fields([]) == [];
    }
  }

  /** The snippet holds no newline, starts with no space and never has two spaces in a
      row. */
  lemma CleanSnippetShape(body: string)
    ensures NoSpaceRuns(CleanSnippet(body))
  {
    CleanSnippetText(body);
    var c := CollapsedBody(body);
    NoSpaceRunsPrefix(c, if |c| <= SnippetLimit then |c| else SnippetLimit);
  }

  /** The snippet is empty exactly when the body is blank. */
  lemma CleanSnippetEmpty(body: string)
    ensures CleanSnippet(body) == [] <==> Blank(body)
  {
    var trimmed := TrimSpace(body);
    if trimmed != [] {
      CleanSnippetText(body);
      NonSpaceOfTrimmed(body);
      assert NonSpace(trimmed) == [trimmed[0]] + NonSpace(trimmed[1..]);
      assert NonSpace(CollapsedBody(body)) != [];
    }
  }

  /** A single word of at most 200 characters is its own snippet. */
  lemma CleanSnippetOfWord(w: string)
    requires IsWord(w) && |w| <= SnippetLimit
    ensures CleanSnippet(w) == w
  {
    TrimSpaceOfTrimmed(w);
    ReplaceAbsentNewline(w);
    FieldsOfWord(w);
    assert Join([w], " ") == w;
  }

  /** The body of the error test comes back unchanged. */
  lemma CleanSnippetFixture()
    ensures CleanSnippet("unauthorized") == "unauthorized"
  {
    UnauthorizedIsWord();
    CleanSnippetOfWord("unauthorized");
  }

  lemma UnauthorizedIsWord()
    ensures IsWord("unauthorized")
  {
    var w := "unauthorized";
    forall i | 0 <= i < |w| ensures !IsSpace(w[i]) {
      assert 'a' <= w[i] <= 'z';
    }
  }

  /** Without a newline there is nothing to replace. */
  lemma {:induction false} ReplaceAbsentNewline(s: string)
    requires forall i :: 0 <= i < |s| ==> s[i] != '\n'
    ensures ReplaceAll(s, "\n", " ") == s
    decreases |s|
  {
    if s != [] {
      assert s[..1][0] != "\n"[0];
      ReplaceAbsentNewline(s[1..]);
    }
  }

  // ---------------------------------------------------------------------------------
  // Requests

  /** The method `Do` sends: trimmed, upper-cased, `GET` when blank. */
  function RequestMethod(m: string): (r: string)
    ensures r != []
  {
    MethodOfTrimmed(TrimSpace(m))
  }

  /** `RequestMethod` once the method is trimmed. */
  function MethodOfTrimmed(t: string): (r: string)
    ensures r != []
  {
    var u := Upper(t);
    if u == [] then "GET" else u
  }

  lemma UpperTrimmed(t: string)
    requires Trimmed(t)
    ensures Trimmed(Upper(t))
  {
    if t != [] {
      CaseKeepsSpace(t[0]);
      CaseKeepsSpace(t[|t| - 1]);
    }
  }

  /** Upper-casing leaves no lower-case ASCII letter, so doing it twice is doing it once. */
  lemma UpperIdempotent(s: string)
    ensures Upper(Upper(s)) == Upper(s)
    ensures forall i :: 0 <= i < |s| ==> !('a' <= Upper(s)[i] <= 'z')
  {
  }

  /** The method sent is trimmed and has no lower-case ASCII letter; a blank method is
      sent as `GET`. */
  lemma RequestMethodNormal(m: string)
    ensures var r := RequestMethod(m);
      && Trimmed(r)
      && (forall i :: 0 <= i < |r| ==> !('a' <= r[i] <= 'z'))
      && (Blank(m) ==> r == "GET")
  {
    MethodOfTrimmedNormal(TrimSpace(m));
  }

  lemma MethodOfTrimmedNormal(t: string)
    requires Trimmed(t)
    ensures var r := MethodOfTrimmed(t);
      && Trimmed(r)
      && (forall i :: 0 <= i < |r| ==> !('a' <= r[i] <= 'z'))
      && (t == [] ==> r == "GET")
  {
    UpperTrimmed(t);
    UpperIdempotent(t);
    if Upper(t) == [] {
      assert "GET"[0] == 'G' && "GET"[2] == 'T';
    }
  }

  lemma RequestMethodGet()
    ensures RequestMethod("GET") == "GET"
  {
    TrimSpaceOfTrimmed("GET");
    assert Upper("GET") == "GET";
  }

  /** Normalising the method again changes nothing. */
  lemma RequestMethodIdempotent(m: string)
    ensures RequestMethod(RequestMethod(m)) == RequestMethod(m)
  {
    MethodOfTrimmedNormal(TrimSpace(m));
    RequestMethodOfNormal(RequestMethod(m));
  }

  /** A trimmed, non-empty method without lower-case letters is sent as it is. */
  lemma RequestMethodOfNormal(r: string)
    requires r != [] && Trimmed(r)
    requires forall i :: 0 <= i < |r| ==> !('a' <= r[i] <= 'z')
    ensures RequestMethod(r) == r
  {
    assert Upper(r) == r;
    MethodOfTrimmedOf(r);
  }

  lemma MethodOfTrimmedOf(r: string)
    requires Trimmed(r)
    ensures RequestMethod(r) == MethodOfTrimmed(r)
  {
    TrimSpaceOfTrimmed(r);
  }

  /** The path `Do` hands on: trimmed, `/` when blank. */
  function RequestPath(p: string): string
  {
    OrRoot(TrimSpace(p))
  }

  /** A blank trimmed path stands for `/`. */
  function OrRoot(t: string): (r: string)
    ensures r != [] && (Trimmed(t) ==> Trimmed(r))
  {
    if t == [] then "/" else t
  }

  /** A path given a leading `/` when it lacks one. */
  function Rooted(t: string): (r: string)
    ensures HasPrefix(r, "/")
  {
    if !HasPrefix(t, "/") then "/" + t else t
  }

  /** `resolvePath` up to the base URL: trimmed, `/` when blank, and given a leading `/`
      when it lacks one. */
  function ResolvePath(p: string): (r: string)
    ensures HasPrefix(r, "/")
  {
    Rooted(OrRoot(TrimSpace(p)))
  }

  /** A resolved path is the trimmed path, with `/` in front when it had none; a blank
      path resolves to `/`. */
  lemma ResolvePathShape(p: string)
    ensures var t := TrimSpace(p); var r := ResolvePath(p);
      && (t == [] ==> r == "/")
      && (HasPrefix(t, "/") ==> r == t)
      && (t != [] && !HasPrefix(t, "/") ==> r == "/" + t)
      && Trimmed(r)
  {
    RootedShape(TrimSpace(p));
  }

  /** `ResolvePathShape` for the trimmed path itself. */
  lemma RootedShape(t: string)
    requires Trimmed(t)
    ensures var r := Rooted(OrRoot(t));
      && (t == [] ==> r == "/")
      && (HasPrefix(t, "/") ==> r == t)
      && (t != [] && !HasPrefix(t, "/") ==> r == "/" + t)
      && Trimmed(r)
  {
    var d := OrRoot(t);
    if !HasPrefix(d, "/") {
      assert ("/" + d)[|"/" + d| - 1] == d[|d| - 1];
    }
  }

  /** Resolving twice is resolving once. */
  lemma ResolvePathIdempotent(p: string)
    ensures ResolvePath(ResolvePath(p)) == ResolvePath(p)
  {
    var r := ResolvePath(p);
    RootedShape(TrimSpace(p));
    RootedFixed(r);
  }

  /** A trimmed path that starts with `/` is its own resolution. */
  lemma RootedFixed(r: string)
    requires Trimmed(r) && HasPrefix(r, "/")
    ensures ResolvePath(r) == r
  {
    ResolvePathOfTrimmed(r);
    assert OrRoot(r) == r;
  }

  lemma ResolvePathOfTrimmed(t: string)
    requires Trimmed(t)
    ensures ResolvePath(t) == Rooted(OrRoot(t))
  {
    TrimSpaceOfTrimmed(t);
  }

  /** `Do`'s own path default before `resolvePath` changes nothing. */
  lemma ResolvePathOfRequestPath(p: string)
    ensures ResolvePath(RequestPath(p)) == ResolvePath(p)
  {
    var d := RequestPath(p);
    TrimSpaceOfTrimmed(d);
    assert OrRoot(d) == d;
  }

  /** A client after `NewClient`: the base URL as given (its parsed form is not modelled)
      and the key. */
  datatype Client = Client(baseURL: string, apiKey: string)

  /** `NewClient`: a blank base URL becomes the default; both values are trimmed. The
      trimmed base URL goes through `url.Parse`, which is the parameter `parse`: the reason
      it refuses a URL, or `None`; a refused URL is the error "invalid base URL: ...". */
  function NewClient(baseURL: string, apiKey: string, parse: string -> Option<string>): (r: Result<Client, string>)
    ensures var u := if Blank(baseURL) then DefaultBaseURL else TrimSpace(baseURL);
      && (r.Err? <==> parse(u).Some?)
      && (r.Err? ==> r.error == "invalid base URL: " + parse(u).value)
      && (r.Ok? ==> r.value.baseURL == u && r.value.apiKey == TrimSpace(apiKey))
    ensures r.Ok? ==> Trimmed(r.value.baseURL) && r.value.baseURL != [] && Trimmed(r.value.apiKey)
  {
    DefaultBaseURLTrimmed();
    var u := if Blank(baseURL) then DefaultBaseURL else TrimSpace(baseURL);
    match parse(u)
    case Some(reason) => Err("invalid base URL: " + reason)
    case None => Ok(Client(u, TrimSpace(apiKey)))
  }

  /** The default base URL has no surrounding spaces, so trimming it changes nothing. */
  lemma DefaultBaseURLTrimmed()
    ensures Trimmed(DefaultBaseURL) && DefaultBaseURL != []
  {
    assert DefaultBaseURL[0] == 'h' && DefaultBaseURL[|DefaultBaseURL| - 1] == 'm';
  }

  /** Request headers, one value per key. */
  type Header = map<string, string>

  /** `Header.Get`: the value under a key, "" when there is none. */
  function Get(h: Header, key: string): string
  {
    if key in h then h[key] else []
  }

  /** The headers `newRequest` sets. Keys go through `canon`, the header-key
      canonicalisation of the HTTP library. */
  function BaseHeader(canon: string -> string, apiKey: string): Header
  {
    map[canon("Accept") := "application/json"][canon("User-Agent") := UserAgent][canon("key") := apiKey]
  }

  /** The caller's header keys that `Do` sets: the non-blank ones. */
  ghost function Kept(headers: map<string, string>): set<string>
  {
    set u | u in headers && !Blank(u)
  }

  /** The canonical forms of the keys in `kept`. */
  ghost function UserKeys(kept: set<string>, canon: string -> string): set<string>
  {
    set u | u in kept :: canon(u)
  }

  /** `v` is the value of some key in `kept` that canonicalises to `k`. */
  ghost predicate SetFrom(headers: map<string, string>, kept: set<string>, canon: string -> string,
                          k: string, v: string)
  {
    exists u :: u in kept && u in headers && canon(u) == k && headers[u] == v
  }

  /** `h` is `h0` after `Set` of the caller's headers under the keys in `kept`, in some
      order: each such key replaces the value under its canonical key, and the rest of
      `h0` stays. */
  ghost predicate Applied(h0: Header, headers: map<string, string>, kept: set<string>,
                          canon: string -> string, h: Header)
  {
    && h.Keys == h0.Keys + UserKeys(kept, canon)
    && forall k :: k in h ==>
         if k in UserKeys(kept, canon) then SetFrom(headers, kept, canon, k, h[k]) else h[k] == h0[k]
  }

  /** `h` is `h0` after the header loop of `Do`. */
  ghost predicate HeadersApplied(h0: Header, headers: map<string, string>, canon: string -> string, h: Header)
  {
    Applied(h0, headers, Kept(headers), canon, h)
  }

  lemma AppliedNone(h0: Header, headers: map<string, string>, canon: string -> string)
    ensures Applied(h0, headers, {}, canon, h0)
  {
    assert UserKeys({}, canon) == {};
  }

  /** With no caller headers the loop changes nothing. */
  lemma AppliedNothing(h0: Header, canon: string -> string, h: Header)
    requires HeadersApplied(h0, map[], canon, h)
    ensures h == h0
  {
    assert Kept(map[]) == {};
    assert UserKeys({}, canon) == {};
  }

  /** One more `Set`. */
  lemma AppliedAdd(h0: Header, headers: map<string, string>, kept: set<string>, canon: string -> string,
                   h: Header, u: string)
    requires u in headers
    requires Applied(h0, headers, kept, canon, h)
    ensures Applied(h0, headers, kept + {u}, canon, h[canon(u) := headers[u]])
  {
    var kept', h' := kept + {u}, h[canon(u) := headers[u]];
    assert UserKeys(kept', canon) == UserKeys(kept, canon) + {canon(u)};
    forall k | k in h' && k in UserKeys(kept', canon)
      ensures SetFrom(headers, kept', canon, k, h'[k])
    {
      if k != canon(u) {
        var w :| w in kept && w in headers && canon(w) == k && headers[w] == h[k];
        assert w in kept';
      }
    }
  }

  lemma KeptAll(headers: map<string, string>, kept: set<string>)
    requires kept <= headers.Keys
    requires forall u :: u in headers ==> (u in kept <==> !Blank(u))
    ensures kept == Kept(headers)
  {
  }

  /** The header loop of `Do`: caller headers with a blank key are skipped; the others are
      `Set`, in the map's iteration order. */
  method ApplyHeaders(h0: Header, headers: map<string, string>, canon: string -> string) returns (h: Header)
    ensures HeadersApplied(h0, headers, canon, h)
  {
    h := h0;
    var todo := headers.Keys;
    ghost var kept: set<string> := {};
    AppliedNone(h0, headers, canon);
    while todo != {}
      invariant todo <= headers.Keys && kept <= headers.Keys
      invariant forall u :: u in headers && u !in todo ==> (u in kept <==> !Blank(u))
      invariant forall u :: u in kept ==> u !in todo
      invariant Applied(h0, headers, kept, canon, h)
      decreases |todo|
    {
      var u :| u in todo;
      if !Blank(u) {
        AppliedAdd(h0, headers, kept, canon, h, u);
        h := h[canon(u) := headers[u]];
        kept := kept + {u};
      }
      todo := todo - {u};
    }
    KeptAll(headers, kept);
  }

  /** The Content-Type default: `application/json` for a non-empty body when no
      Content-Type is set. */
  function WithContentType(h: Header, canon: string -> string, body: string): Header
  {
    var ct := canon("Content-Type");
    if |body| > 0 && Get(h, ct) == [] then h[ct := "application/json"] else h
  }

  /** The headers `Do` sends, for some iteration order over the caller's headers. */
  ghost predicate Shaped(h0: Header, headers: map<string, string>, canon: string -> string,
                         body: string, header: Header)
  {
    exists h :: HeadersApplied(h0, headers, canon, h) && header == WithContentType(h, canon, body)
  }

  /** The Content-Type rule: a non-empty body always goes out with a Content-Type; when
      neither the caller nor the base headers give one it is `application/json`, and a
      body-less request gets none; a non-empty Content-Type from the caller is kept. */
  lemma ContentTypeRule(h0: Header, headers: map<string, string>, canon: string -> string,
                        body: string, header: Header)
    requires Shaped(h0, headers, canon, body, header)
    ensures var ct := canon("Content-Type"); var callerKeys := UserKeys(Kept(headers), canon);
      && (|body| > 0 ==> Get(header, ct) != [])
      && (ct !in h0 && ct !in callerKeys ==>
            Get(header, ct) == if |body| > 0 then "application/json" else [])
      && (ct in callerKeys && (forall u :: u in headers && canon(u) == ct ==> headers[u] != []) ==>
            SetFrom(headers, Kept(headers), canon, ct, header[ct]))
  {
    var h :| HeadersApplied(h0, headers, canon, h) && header == WithContentType(h, canon, body);
    var ct := canon("Content-Type");
    if ct in UserKeys(Kept(headers), canon) && (forall u :: u in headers && canon(u) == ct ==> headers[u] != []) {
      var w :| w in Kept(headers) && w in headers && canon(w) == ct && headers[w] == h[ct];
      assert Get(h, ct) != [];
    }
  }

  /** A request as the commands build it (the query is not modelled). */
  datatype Request = Request(httpMethod: string, path: string, body: string, headers: map<string, string>)

  /** What goes to the transport: the method, the path before it is resolved against the
      base URL, the headers and the body. */
  datatype Outgoing = Outgoing(httpMethod: string, target: string, header: Header, body: string)

  /** What the transport gives back. */
  datatype Reply =
    | TransportFailed(reason: string)
    | ReadFailed(status: int, reason: string)
    | Received(status: int, body: string)

  datatype Response = Response(statusCode: int, body: string)

  datatype DoError =
    | Build(reason: string)
    | Transport(reason: string)
    | Read(reason: string)
    | Status(apiError: APIError)

  /** `Do`: the request is normalised and built; a request that cannot be built is an
      error and nothing is sent. Otherwise it is sent, and a reply outside 200-299 is
      returned together with an `APIError` holding its status and cleaned body.
      `newRequest`'s own checks (`url.Parse` of the rooted path and of the full URL, and the
      method check of `http.NewRequestWithContext`) are the parameter `build`: the reason
      it refuses a normalised method and rooted path, or `None`. */
  method Do(c: Client, request: Request, canon: string -> string,
            build: (string, string) -> Option<string>, reply: Reply)
    returns (sent: Option<Outgoing>, response: Response, err: Option<DoError>)
    ensures var m, t := RequestMethod(request.httpMethod), ResolvePath(request.path);
      && (sent.None? <==> build(m, t).Some?)
      && (build(m, t).Some? ==> response == Response(0, []) && err == Some(Build(build(m, t).value)))
    ensures sent.Some? ==>
      && sent.value.httpMethod == RequestMethod(request.httpMethod)
      && sent.value.target == ResolvePath(request.path)
      && sent.value.body == request.body
      && Shaped(BaseHeader(canon, c.apiKey), request.headers, canon, request.body, sent.value.header)
    ensures sent.Some? && reply.TransportFailed? ==> response == Response(0, []) && err == Some(Transport(reply.reason))
    ensures sent.Some? && reply.ReadFailed? ==> response == Response(reply.status, []) && err == Some(Read(reply.reason))
    ensures sent.Some? && reply.Received? ==> response == Response(reply.status, reply.body)
    ensures sent.Some? && reply.Received? ==> (err.None? <==> 200 <= reply.status <= 299)
    ensures sent.Some? && reply.Received? && err.Some? ==> err.value == Status(APIError(reply.status, CleanSnippet(reply.body)))
  {
    var httpMethod := RequestMethod(request.httpMethod);
    var path := RequestPath(request.path);
    ResolvePathOfRequestPath(request.path);
    var target := ResolvePath(path);
    var refused := build(httpMethod, target);
    if refused.Some? {
      sent, response, err := None, Response(0, []), Some(Build(refused.value));
      return;
    }
    var applied := ApplyHeaders(BaseHeader(canon, c.apiKey), request.headers, canon);
    var header := WithContentType(applied, canon, request.body);
    sent := Some(Outgoing(httpMethod, target, header, request.body));
    match reply {
      case TransportFailed(reason) =>
        response, err := Response(0, []), Some(Transport(reason));
      case ReadFailed(status, reason) =>
        response, err := Response(status, []), Some(Read(reason));
      case Received(status, body) =>
        response := Response(status, body);
        if status < 200 || status > 299 {
          err := Some(Status(APIError(status, CleanSnippet(body))));
        } else {
          err := None;
        }
    }
  }

  /** The status and error `Ping` reports for `path`: a refused request is status 0 with
      its reason, a transport failure status 0, a read failure the reply's status, and a
      received reply its status, with an `APIError` unless it is 2xx. */
  function PingResult(path: string, build: (string, string) -> Option<string>, reply: Reply): (r: (int, Option<DoError>))
    ensures r.1.None? <==> build("GET", ResolvePath(path)).None? && reply.Received? && 200 <= reply.status <= 299
    ensures r.1.Some? && r.1.value.Status? ==>
      && reply.Received? && r.1.value.apiError == APIError(reply.status, CleanSnippet(reply.body))
      && r.0 == reply.status
  {
    match build("GET", ResolvePath(path))
    case Some(reason) => (0, Some(Build(reason)))
    case None =>
      match reply
      case TransportFailed(reason) => (0, Some(Transport(reason)))
      case ReadFailed(status, reason) => (status, Some(Read(reason)))
      case Received(status, body) =>
        if 200 <= status <= 299 then (status, None)
        else (status, Some(Status(APIError(status, CleanSnippet(body)))))
  }

  /** `Ping`: a GET of `path` with no headers or body. It sends the base headers, the API
      key among them, and reports the reply's status; a request that cannot be built is
      not sent and reports status 0. */
  method Ping(c: Client, path: string, canon: string -> string,
              build: (string, string) -> Option<string>, reply: Reply)
    returns (sent: Option<Outgoing>, statusCode: int, err: Option<DoError>)
    ensures var refused := build("GET", ResolvePath(path));
      && (sent.None? <==> refused.Some?)
      && (refused.Some? ==> statusCode == 0 && err == Some(Build(refused.value)))
    ensures sent.Some? ==> sent.value.httpMethod == "GET" && sent.value.target == ResolvePath(path)
    ensures sent.Some? ==> sent.value.header == BaseHeader(canon, c.apiKey)
    ensures sent.Some? ==> Get(sent.value.header, canon("key")) == c.apiKey
    ensures sent.Some? ==> statusCode == (if reply.TransportFailed? then 0 else reply.status)
    ensures err.None? <==> sent.Some? && reply.Received? && 200 <= reply.status <= 299
    ensures (statusCode, err) == PingResult(path, build, reply)
  {
    var response;
    sent, response, err := Do(c, Request("GET", path, [], map[]), canon, build, reply);
    statusCode := response.statusCode;
    RequestMethodGet();
    if sent.Some? {
      ghost var h :| HeadersApplied(BaseHeader(canon, c.apiKey), map[], canon, h)
                     && sent.value.header == WithContentType(h, canon, []);
      AppliedNothing(BaseHeader(canon, c.apiKey), canon, h);
    }
  }
}
