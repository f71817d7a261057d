# holdedcli core, modelled in Dafny

`holdedcli` is a command-line client for the Holded API. This project models its core in three parts.

- **The action catalog** (`internal/actions/catalog.go`). It reads the API reference pages and turns each API description into `Action` records. An action has an id, an API name, an operation id, a method, a path, parameters and a request body. The catalog merges the actions of all pages, sorts them and makes repeated ids distinct. It also resolves a user's reference to one action (`Find`) and fills `{name}` placeholders in an action's path.
- **The HTTP client** (`internal/holded/client.go`). This part covers:
  - which API key is used, when it comes from the `--api-key` flag, the `HOLDED_API_KEY` variable or the config file;
  - how a request is normalised (method, path, headers, `Content-Type`);
  - how a reply outside 2xx becomes an `APIError` with a cleaned body snippet.
- **The command-line front end** (`internal/cli/app.go`). This part covers:
  - the global `--json` flag and the command name used in error reports;
  - `key=value` flag values;
  - how errors map to exit codes and error codes;
  - the exclusive body flags of `actions run`;
  - the filter and the sort of `actions list`.

One Dafny module per concern, one file each:

| file | module | models |
|---|---|---|
| wrappers.dfy | Wrappers | `Option` and `Result` |
| seqs.dfy | Seqs | map, filter and first-match over sequences |
| text.dfy | Text | the parts of Go's `strings` that the core uses: `TrimSpace`, `ToLower`/`ToUpper`, `Trim`, `TrimSuffix`, `Index`, `ReplaceAll`, `Join` |
| fields.dfy | Whitespace | `strings.Fields` and the single-space join built from it |
| decimal.dfy | Decimal | `%d` rendering, with its inverse |
| ordering.dfy, sorting.dfy | Ordering, Sorting | Go's string order, the comparator chains of the `sort.Slice` calls, sorting by them |
| slug.dfy | Slug | `normalizeToken` |
| paths.dfy | Paths | `joinPath` |
| extract.dfy | Extract | `extractSSRProps` |
| parameters.dfy | Parameters | `schemaType`, `decodeParameters`, `decodeParametersList`, `mergeParameters`, `decodeRequestBody` |
| actions.dfy | Actions | `buildActionsFromProps` |
| assembly.dfy | Assembly | the merge, sort and `ensureUniqueIDs` steps of `LoadCatalog` |
| lookup.dfy | Lookup | `Catalog.Find` |
| templates.dfy | Templates | `ResolvePathTemplate` |
| client.dfy | Client | `ResolveAPIKey`, `APIError.Error`, `cleanSnippet`, `NewClient`, `Do`, `Ping`, `resolvePath` |
| cli.dfy | Cli | `extractGlobalFlags`, `detectedCommand`, `splitKeyValue`, `kvValues`, `execute`, `Run`, `handleError`, `handlePing`, the body-flag checks, `actions list` |

Code that changes state step by step is written as methods with loops that are proved against specification functions:
- the loops of `buildActionsFromProps`, `decodeParametersList`, `mergeParameters`, `LoadCatalog` and `Find`;
- the in-place id rewrite of `ensureUniqueIDs`, which works on an `array`;
- the header loop of `Do`;
- `extractGlobalFlags`, `handleError` and the list filter;
- `kvValues`, a class whose `pairs` field `Set` appends to.

Expression-only code is written as functions and lemmas.

Go's map iteration order is not fixed. The model picks map entries with `:|` (any order). Each result is stated so that it holds for every order:
- as a set of keys, when the source keeps the map order;
- through a sort, when the source sorts afterwards.

The library calls that the core cannot see are parameters of the model:
- the HTTP header canonicalisation (`canon`);
- `url.PathEscape` (`escape`);
- the outcome of a request (`Reply`);
- the per-page outcome of fetching the docs;
- the results of `json.Unmarshal` and `url.Parse`, which are fields of the decoded records.

## Model

| member | source | states |
|---|---|---|
| Slug.NormalizeTokenIsSlug | internal/actions/catalog.go:326-331 | the token holds only `[a-z0-9]` and `-`, never two dashes in a row, and no dash at either end, whatever the input |
| Slug.NormalizeTokenIdempotent | internal/actions/catalog.go:326-331 | normalising a token again leaves it unchanged |
| Slug.NormalizeTokenOfSlug | internal/actions/catalog.go:326-331 | a string that already is a slug is its own token |
| Slug.NormalizeTokenIgnoresCase | internal/actions/catalog.go:326-327 | upper-casing or lower-casing the input does not change the token |
| Slug.NormalizeTokenOfTwoWords | internal/actions/catalog.go:326-331 | two `[a-z0-9]` words separated by any character outside the slug alphabet (space, `_`, `.`, `-`) become the words joined by one `-` |
| Slug.CollapseRunsDashSeparated | internal/actions/catalog.go:328 | the output of the `[^a-z0-9]+` replacement never has two dashes in a row |
| Slug.CollapseRunsHead | internal/actions/catalog.go:328 | the replaced string starts with `-` exactly when the input starts outside `[a-z0-9]` |
| Slug.CollapseRunsOfDashSeparated | internal/actions/catalog.go:328 | a string of slug characters and single dashes is left unchanged by the replacement |
| Slug.CollapseRunsOfTwoWords | internal/actions/catalog.go:328 | one separator between two words becomes one `-` |
| Slug.TrimDashesKeepsDashSeparated | internal/actions/catalog.go:329 | trimming the dashes of a dash-separated string gives a slug |
| Slug.TrimSpaceCommutesWithCase | internal/actions/catalog.go:327 | trimming and case mapping can be applied in either order |
| Paths.SideIsSegment | internal/actions/catalog.go:304-315 | each side becomes `/` followed by its segment: blank and surrounding slashes removed |
| Paths.JoinPathUnderRoot | internal/actions/catalog.go:303-319 | a blank or all-slash prefix leaves the path value as `/segment` |
| Paths.JoinPathOfRoot | internal/actions/catalog.go:303-322 | a blank or all-slash path value leaves the prefix as `/segment` |
| Paths.JoinPathOfSegments | internal/actions/catalog.go:303-324 | otherwise the two segments are joined by exactly one `/` behind a leading `/` |
| Paths.JoinPathShape | internal/actions/catalog.go:303-324 | the result starts with `/`, ends with `/` only when it is `/`, and is `/` exactly when both sides are roots |
| Paths.JoinPathOfCanonical | internal/actions/catalog.go:303-324 | two canonical paths are simply concatenated |
| Paths.JoinPathFixture | internal/actions/catalog_test.go:68 | `/api/invoicing/v1` joined with `/contacts` is `/api/invoicing/v1/contacts` |
| Extract.ExtractSSRProps | internal/actions/catalog.go:206-213 | the only error is `ssr props payload not found` |
| Extract.ExtractSSRPropsFramed | internal/actions/catalog.go:206-213 | an extracted payload holds no closing tag and sits between an opening and a closing tag of the page |
| Extract.ExtractSSRPropsMissing | internal/actions/catalog.go:206-210 | a page without the opening tag has no payload |
| Extract.ExtractSSRPropsUnclosed | internal/actions/catalog.go:206-210 | a page whose first opening tag has no closing tag after it has no payload |
| Extract.ExtractOfPage | internal/actions/catalog.go:27 | round trip: a payload without `</script>`, wrapped in the script element on a page with no earlier opening tag, is extracted back exactly |
| Extract.ExtractFixture | internal/actions/catalog_test.go:8-19 | the test page yields `{"document":{}}` |
| Parameters.SchemaType | internal/actions/catalog.go:484-500 | the type is empty exactly when there is no schema or its type is blank, and it is trimmed |
| Parameters.SchemaTypeOfArray | internal/actions/catalog.go:493-498 | an array whose items have a type is `array[T]` with T the items' type, read back by `ElementType`; otherwise it is plain `array` |
| Parameters.DecodeParameter | internal/actions/catalog.go:395-424 | an entry is kept exactly when it decodes, has a blank `$ref`, and has a non-blank name and location; the kept parameter has the trimmed name, the lower-cased trimmed location, is required exactly when the entry says so or the location is `path`, takes its type from `schemaType` of the schema and its description trimmed from the entry, and carries the schema's enum values (none without a schema) |
| Parameters.DecodeAllKeeps | internal/actions/catalog.go:394-427 | every entry that decodes is among the kept parameters |
| Parameters.DecodeAllSource | internal/actions/catalog.go:394-427 | every kept parameter comes from an entry of the list |
| Parameters.DecodeAllWellFormed | internal/actions/catalog.go:404-415 | every kept parameter is well formed |
| Parameters.DecodeParametersList | internal/actions/catalog.go:392-437 | the result is the kept parameters, sorted by (`in`, `name`), as a permutation |
| Parameters.DecodeParameters | internal/actions/catalog.go:379-390 | a missing or non-list `parameters` entry gives no parameters; a list is decoded as above |
| Parameters.MergeInto | internal/actions/catalog.go:444-450 | the merge map has exactly the old keys and the keys of the new parameters, and holds only old or new parameters |
| Parameters.MergeIntoLast | internal/actions/catalog.go:444-450 | the parameter stored under a key is the last one with that key |
| Parameters.MergeIntoUntouched | internal/actions/catalog.go:444-450 | a key that no new parameter has keeps its old entry |
| Parameters.KeyedValuesInjective | internal/actions/catalog.go:457-462 | distinct merged parameters differ in (`in`, `name`), so the sort has no ties |
| Parameters.MergeParameters | internal/actions/catalog.go:439-465 | the result is strictly sorted by (`in`, `name`) and holds only given parameters |
| Parameters.OperationParameterWins | internal/actions/catalog.go:448-450 | the last operation-level parameter with a given key survives the merge |
| Parameters.PathParameterKept | internal/actions/catalog.go:445-450 | a path-level parameter that no operation parameter overrides survives the merge |
| Parameters.MergedKeysUnique | internal/actions/catalog.go:444-455 | no two merged parameters share a lower-cased (`in`, `name`) key |
| Parameters.DecodeRequestBody | internal/actions/catalog.go:467-482 | no body stays no body; otherwise `required` is copied and the content types are exactly the media types, sorted and without repeats |
| Parameters.DecodeParameterWithoutLocation | internal/actions/catalog_test.go:41 | the path-level `contactId` entry of the build test, which has no `in`, is dropped |
| Actions.ServerPrefix | internal/actions/catalog.go:226-237 | the prefix is `/`, or the non-blank path that parsing the first non-blank server URL found |
| Actions.ApiShortIsSlug | internal/actions/catalog.go:247-250 | the API part of an id is never empty and is a slug |
| Actions.HoldedIsSlug | internal/actions/catalog.go:248-250 | the fallback `holded` is a slug |
| Actions.ActionsFromOfPath | internal/actions/catalog.go:253-255 | building the actions of one path with its joined path and path-level parameters is building each action on its own |
| Actions.BuildAction | internal/actions/catalog.go:258-284 | the action built for a qualifying method key is the specified one (id `apiShort.normalizeToken(opId or "METHOD path")`, trimmed fields, merged parameters, decoded body) |
| Actions.BuildMethodActions | internal/actions/catalog.go:257-285 | the inner loop builds one action per qualifying method key of the path item, with no key twice |
| Actions.BuildPathActions | internal/actions/catalog.go:253-285 | one turn of the outer loop builds the actions of one path |
| Actions.BuildPaths | internal/actions/catalog.go:252-288 | the listed keys are exactly the qualifying (path, method) pairs, with no repeats, and the actions are built from them in that order |
| Actions.BuildActionsFromProps | internal/actions/catalog.go:215-289 | undecodable props and a blank title are the two errors; otherwise there is one action per (path, method key) whose upper-cased key is GET, POST, PUT, DELETE or PATCH and whose value decodes, and the actions returned are exactly the actions of those pairs |
| Actions.ActionsOfQualifying | internal/actions/catalog.go:252-288 | when every qualifying pair is listed once, each qualifying pair's action is among those built and every action built is one of theirs |
| Actions.FixtureQualifies | internal/actions/catalog_test.go:30-42 | in the build test only the GET on `/contacts` and the DELETE on `/contacts/{contactId}` qualify; the `parameters` entry does not |
| Actions.BuildFixtureCount | internal/actions/catalog_test.go:59-61 | the build test yields two actions |
| Actions.BuildFixtureActions | internal/actions/catalog_test.go:63-74 | the two actions are a GET and a DELETE, under `/api/invoicing/v1`, with API `Invoice API` |
| Assembly.Overwrite | internal/actions/catalog.go:80-83 | the merge map holds only old actions or actions of the page |
| Assembly.OverwriteLast | internal/actions/catalog.go:80-83 | the action stored under a `METHOD path` key is the page's last one with that key |
| Assembly.OverwriteUntouched | internal/actions/catalog.go:80-83 | a key that no action of the page has keeps its old entry |
| Assembly.MergePagesKeyed | internal/actions/catalog.go:73-84 | every merged action is stored under its own `METHOD path` |
| Assembly.MergePagesLast | internal/actions/catalog.go:73-84 | later pages win: the last action with a key, over all pages in fetch order, is the one stored |
| Assembly.MergePagesSource | internal/actions/catalog.go:73-84 | every merged action comes from some page |
| Assembly.KeyedValuesInjective | internal/actions/catalog.go:91-102 | distinct merged actions differ in (API, Path, Method, OperationID), so the sort has no ties |
| Assembly.SortedCatalog | internal/actions/catalog.go:86-102 | the catalog is strictly sorted by (API, Path, Method, OperationID) |
| Assembly.SortedCatalogKeysUnique | internal/actions/catalog.go:86-102 | no two catalog entries share a `METHOD path` |
| Assembly.SortedCatalogSource | internal/actions/catalog.go:86-102 | every catalog entry was read from one of the pages |
| Assembly.LastActionInCatalog | internal/actions/catalog.go:73-102 | the last action with a given `METHOD path` over all pages is in the catalog |
| Assembly.FirstOccurrenceKept | internal/actions/catalog.go:291-301 | the first occurrence of an id keeps it |
| Assembly.RepeatSuffixed | internal/actions/catalog.go:295-299 | the k-th occurrence of an id (k at least 2) becomes `id-k` |
| Assembly.OccurrencesRenamedApart | internal/actions/catalog.go:291-301 | two occurrences of the same original id always end up with different ids |
| Assembly.SuffixedIdsMayCollide | internal/actions/catalog.go:291-301 | the ids `a, a, a-2` become `a, a-2, a-2`: ids are not unique afterwards |
| Assembly.EnsureUniqueIDs | internal/actions/catalog.go:291-301 | in place, every action keeps all its fields except the id, which becomes its suffixed id |
| Assembly.MergePage | internal/actions/catalog.go:80-83 | the inner loop stores the page's actions by key, later ones replacing earlier ones |
| Assembly.MergeFetched | internal/actions/catalog.go:73-84 | a failed page fails the load with a page's error; otherwise the map is the merge of all pages |
| Assembly.SortAndRename | internal/actions/catalog.go:86-104 | the collected map values in catalog order, then renamed by `ensureUniqueIDs`, whatever order the map was walked in |
| Assembly.LoadCatalog | internal/actions/catalog.go:68-111 | a failed page is the error; otherwise the catalog's source is the API-key page and its actions are the sorted merge, renamed |
| Lookup.ResolveToken | internal/actions/catalog.go:120-147 | a reference that is not blank fails only as not found or ambiguous, and the error names the reference as written |
| Lookup.ResolveTokenSound | internal/actions/catalog.go:114-148 | a found action is in the catalog and matches by id or by operation id; an error means no id matches, and not-found means no operation id matches either; ambiguity lists at least two ids, sorted |
| Lookup.ResolveTokenRef | internal/actions/catalog.go:137-146 | how the reference is written beyond its token changes only the error text |
| Lookup.ResolveMissing | internal/actions/catalog.go:115-118 | the missing-reference error is returned exactly for a blank reference |
| Lookup.ResolveTokenNeverMissing | internal/actions/catalog.go:120-147 | a normalised lookup never reports a missing reference |
| Lookup.ResolveOperation | internal/actions/catalog.go:128-147 | the operation-id fallback: one match is returned, none is not found, several are ambiguous with sorted ids |
| Lookup.ResolveById | internal/actions/catalog.go:122-126 | the first action in catalog order whose normalised id matches wins |
| Lookup.ResolveByOperation | internal/actions/catalog.go:128-139 | with no id match and exactly one operation-id match, that action is returned |
| Lookup.ResolveAmbiguous | internal/actions/catalog.go:140-146 | with no id match and two operation-id matches, the error is ambiguous and lists the ids of all matches |
| Lookup.ResolveNotFound | internal/actions/catalog.go:135-137 | with no match at all, the error is not found |
| Lookup.TokenIgnoresCase | internal/actions/catalog.go:115-120 | an upper-cased reference has the same token and is blank exactly when the original is |
| Lookup.ResolveIgnoresCase | internal/actions/catalog.go:113-148 | a reference resolves in upper case exactly when it resolves as written, to the same action |
| Lookup.BlankIgnoresCase | internal/actions/catalog.go:115-118 | a blank reference is missing in any case |
| Lookup.TokenIgnoresCaseResolve | internal/actions/catalog.go:113-148 | the same for a reference that is not blank |
| Lookup.Find | internal/actions/catalog.go:114-148 | `Find` returns what the resolution function specifies |
| Lookup.FindNormalized | internal/actions/catalog.go:120-147 | the two loops of `Find` compute the normalised resolution |
| Lookup.FirstIdIndex | internal/actions/catalog.go:122-126 | the first loop finds the first action whose id matches |
| Lookup.OperationMatchesIn | internal/actions/catalog.go:128-133 | the second loop collects the operation-id matches in catalog order |
| Lookup.CollectIds | internal/actions/catalog.go:141-144 | the options are the ids of the matches, one for each, in order |
| Templates.Placeholders | internal/actions/catalog.go:157 | each placeholder name found is non-empty and holds no `}` |
| Templates.PlaceholdersOccur | internal/actions/catalog.go:157 | every name found occurs in the template as `{name}` |
| Templates.Substitute | internal/actions/catalog.go:158-165 | a substitution fails only by naming one of the template's placeholders |
| Templates.ResolveTemplate | internal/actions/catalog.go:151-168 | the empty-path error is returned exactly for a blank template |
| Templates.SubstituteOk | internal/actions/catalog.go:158-167 | the substitution succeeds exactly when every placeholder has a non-blank value |
| Templates.SubstituteFirstMissing | internal/actions/catalog.go:158-163 | the error names the first placeholder, in template order, without a value |
| Templates.SubstituteHead | internal/actions/catalog.go:159-163 | a first placeholder without a value is the error |
| Templates.ResolveTemplateOk | internal/actions/catalog.go:151-167 | a template resolves exactly when it is not blank and every placeholder of the trimmed template has a non-blank value |
| Templates.PlaceholdersOfPlain | internal/actions/catalog.go:157 | a template without `{` has no placeholders |
| Templates.ResolvePlain | internal/actions/catalog.go:151-167 | a template without placeholders resolves to itself, trimmed |
| Templates.PlaceholdersOfOne | internal/actions/catalog.go:157 | a template with one `{name}` has that one placeholder |
| Templates.ReplaceOne | internal/actions/catalog.go:164 | replacing the only `{name}` puts the value in its place and changes nothing else |
| Templates.ReplaceAbsent | internal/actions/catalog.go:164 | replacing a pattern that does not occur changes nothing |
| Templates.ResolveOne | internal/actions/catalog.go:151-167 | a path ending in one placeholder with a value resolves to the path with the escaped value |
| Templates.ResolveSingle | internal/actions/catalog.go:151-167 | a trimmed template with one placeholder that has a value resolves to the template with that placeholder replaced |
| Templates.ResolveOneMissing | internal/actions/catalog.go:159-162 | without a value the error names the placeholder |
| Templates.TemplateFixture | internal/actions/catalog_test.go:80-88 | `/api/invoicing/v1/contacts/{contactId}` with `contactId=abc123` resolves to `/api/invoicing/v1/contacts/abc123` |
| Templates.TemplateMissingFixture | internal/actions/catalog_test.go:90-93 | `/contacts/{contactId}` without values fails, naming `contactId` |
| Templates.ResolvePathTemplate | internal/actions/catalog.go:151-168 | a blank template is the empty-path error; otherwise the placeholders of the trimmed template are substituted, and the result is the specified resolution |
| Templates.SubstituteAll | internal/actions/catalog.go:158-165 | the loop over the placeholders found up front computes the specified substitution, stopping at the first placeholder without a value |
| Whitespace.FieldsEmpty | internal/holded/client.go:205 | there are no fields exactly when every character is a space |
| Whitespace.FieldsOfJoin | internal/holded/client.go:205 | round trip: the fields of words joined by single spaces are those words |
| Whitespace.CollapseIdempotent | internal/holded/client.go:205 | collapsing twice is collapsing once, and the result is single-spaced |
| Whitespace.FieldsKeepNonSpace | internal/holded/client.go:205 | the fields hold exactly the non-space characters, in order |
| Whitespace.CollapseKeepsNonSpace | internal/holded/client.go:205 | collapsing keeps every non-space character in order and adds only single spaces between words |
| Whitespace.CollapseNonEmpty | internal/holded/client.go:205 | a string with a non-space character collapses to a non-empty string |
| Client.ResolveAPIKey | internal/holded/client.go:28-42 | the key returned is trimmed |
| Client.ResolveAPIKeyPriority | internal/holded/client.go:28-42 | the key is the first of flag, environment and config that is not blank, trimmed and tagged with its source; with none it is empty with source none |
| Client.ResolveAPIKeyAgreement | internal/holded/client.go:28-42 | the key is non-empty exactly when the source is not none |
| Client.ResolveAPIKeyFixture | internal/holded/client_test.go:11-64 | the four cases of the priority test |
| Client.ErrorMessage | internal/holded/client.go:55-60 | the message starts with `holded API returned status` and the decimal status |
| Client.ErrorMessageSuffix | internal/holded/client.go:55-60 | the `: snippet` suffix is absent exactly when the snippet is empty |
| Client.ErrorMessageInjective | internal/holded/client.go:55-60 | different errors give different messages |
| Client.CleanSnippet | internal/holded/client.go:198-211 | the snippet has at most 200 characters |
| Client.NonSpaceOfReplaceNewlines | internal/holded/client.go:204 | replacing newlines by spaces keeps the non-space characters |
| Client.CleanSnippetText | internal/holded/client.go:198-211 | the snippet is the first 200 characters of a text that keeps every non-space character of the body, in order, with single spaces between words |
| Client.CleanSnippetShape | internal/holded/client.go:198-211 | the snippet starts with no space and never has two spaces in a row |
| Client.CleanSnippetEmpty | internal/holded/client.go:198-202 | the snippet is empty exactly when the body is blank |
| Client.CleanSnippetOfWord | internal/holded/client.go:198-211 | a single short word is its own snippet |
| Client.CleanSnippetFixture | internal/holded/client_test.go:97-126 | `unauthorized` is returned unchanged |
| Client.RequestMethod | internal/holded/client.go:103-106 | a method is always sent |
| Client.RequestMethodNormal | internal/holded/client.go:103-106 | the method sent is trimmed, has no lower-case letter, and is `GET` for a blank method |
| Client.RequestMethodGet | internal/holded/client.go:103-106 | `GET` is sent as `GET` |
| Client.RequestMethodIdempotent | internal/holded/client.go:103-106 | normalising a normalised method changes nothing |
| Client.ResolvePath | internal/holded/client.go:180-188 | a resolved path starts with `/` |
| Client.ResolvePathShape | internal/holded/client.go:180-188 | a blank path resolves to `/`, a trimmed path with `/` in front to itself, and any other trimmed path gets `/` in front |
| Client.ResolvePathIdempotent | internal/holded/client.go:180-188 | resolving twice is resolving once |
| Client.ResolvePathOfRequestPath | internal/holded/client.go:108-111 | the default of `Do` for a blank path does not change the resolved path |
| Client.NewClient | internal/holded/client.go:76-95 | a blank base URL is the default, otherwise the base URL is the trimmed one; the client is refused with "invalid base URL: " and the parser's reason exactly when that URL does not parse; the key is trimmed |
| Client.AppliedNothing | internal/holded/client.go:118-123 | with no caller headers, the base headers are unchanged |
| Client.AppliedAdd | internal/holded/client.go:118-123 | setting one more caller header keeps the applied-headers invariant |
| Client.ApplyHeaders | internal/holded/client.go:118-123 | every header with a non-blank key is set under its canonical key, to a value the caller gave for that key; other keys keep the base value |
| Client.ContentTypeRule | internal/holded/client.go:125-127 | a non-empty body always has a `Content-Type`; when neither the caller nor the base headers give one it is `application/json`, and without a body there is none; a non-empty caller value is kept |
| Client.Do | internal/holded/client.go:102-178 | a request that cannot be built (for the normalised method and resolved path) is that error and nothing is sent; otherwise it is sent with the normalised method, the resolved path, the body and the header rule; a transport or read failure is its error; a reply outside 200-299 is returned together with an `APIError` holding its status and cleaned body |
| Client.Ping | internal/holded/client.go:97-100 | a GET of the path with the base headers, the API key among them; a request that cannot be built reports status 0 and its error; otherwise the status is reported and only a 2xx reply has no error |
| Client.PingResult | internal/holded/client.go:97-146 | `Ping` fails exactly when the request cannot be built or the reply is not a received 2xx; an API error carries the received status and the cleaned body |
| Cli.ExtractGlobalFlags | internal/cli/app.go:732-745 | every `--json` is removed, the other arguments keep their order, and the flag is set exactly when some argument was `--json` |
| Cli.ExtractedCount | internal/cli/app.go:732-745 | exactly as many arguments are removed as there were `--json` |
| Cli.ExtractIdempotent | internal/cli/app.go:732-745 | no `--json` remains, so extracting again changes nothing |
| Cli.DetectedCommand | internal/cli/app.go:747-757 | no arguments give `holded`; otherwise the command starts with the first argument |
| Cli.DetectedCommandWords | internal/cli/app.go:747-757 | the command is the first two arguments exactly for `auth` or `actions` followed by more; otherwise it is the first argument |
| Cli.SplitKeyValue | internal/cli/app.go:794-800 | the only error names the pair as given; a split key is non-empty and trimmed, and the value is trimmed |
| Cli.SplitKeyValueOfPair | internal/cli/app.go:794-800 | round trip: a trimmed key without `=` and a trimmed value, which may hold `=` or be empty, split back out of `key=value` |
| Cli.SplitKeyValueNoEquals | internal/cli/app.go:795-797 | a pair without `=` is refused |
| Cli.SplitKeyValueRefused | internal/cli/app.go:794-800 | a pair is refused exactly when its trimmed text has no `=` or the text before its first `=` is blank |
| Cli.MapFromFirstRefused | internal/cli/app.go:770-780 | the first malformed pair fails the whole conversion with its error; with none the conversion succeeds |
| Cli.MapFromLastWins | internal/cli/app.go:770-780 | the last pair for a key sets its value |
| Cli.MapFromUntouched | internal/cli/app.go:770-780 | a key that no pair sets keeps its value |
| Cli.ValuesFromFailsLikeMapFrom | internal/cli/app.go:770-792 | `Map` and `Values` refuse the same pair lists, with the same error |
| Cli.ValuesFromCollects | internal/cli/app.go:782-792 | `Values` keeps every value of a key, in pair order |
| Cli.ValuesFromKeys | internal/cli/app.go:782-792 | a key is present exactly when some pair gives it |
| Cli.GetAllAdd | internal/cli/app.go:789 | adding a value appends it to its key's values only |
| Cli.KvValues.constructor | internal/cli/app.go:759 | a new flag value holds no pairs |
| Cli.KvValues.Set | internal/cli/app.go:765-768 | `Set` appends the pair |
| Cli.KvValues.Map | internal/cli/app.go:770-780 | the loop computes the specified map conversion of the pairs |
| Cli.KvValues.Values | internal/cli/app.go:782-792 | the loop computes the specified multi-value conversion of the pairs |
| Cli.HandleError | internal/cli/app.go:689-724 | exit 2 exactly for a usage error, 1 otherwise; the code is `USAGE_ERROR`, a command error's own non-empty code, or `API_ERROR`, and never empty |
| Cli.Execute | internal/cli/app.go:176-194 | no command is a usage error, a help word succeeds, and an unknown command is the usage error `unknown command: <name>` |
| Cli.Run | internal/cli/app.go:163-174 | `--json` is taken out before dispatch; success exits 0; an error exits as `handleError` maps it and reports the detected command and error code |
| Cli.PingPrecheck | internal/cli/app.go:273-300 | `ping` is a usage error exactly when its flags do not parse or leave an argument over; when it passes, the key is the non-empty one `ResolveAPIKey` picks from the flag, the environment and the configuration |
| Cli.PingKeyMissing | internal/cli/app.go:294-300 | with the flags read and the configuration loaded, `MISSING_API_KEY` is reported exactly when the flag, the environment and the configuration are all blank |
| Cli.PingStatusMessage | internal/cli/app.go:314-318 | `ping failed with status N`, followed by the snippet exactly when there is one |
| Cli.PingFailure | internal/cli/app.go:311-321 | an API error becomes `API_ERROR` with its status message and anything else `NETWORK_ERROR` with `ping failed: ` and the error's text; both exit 1 |
| Cli.PingOutcomes | internal/cli/app.go:273-329 | `ping` succeeds exactly when its checks pass, the base URL parses, the request is built and the reply is 2xx; it exits 2 exactly when its flags are at fault |
| Cli.HandlePing | internal/cli/app.go:273-329 | the error is that of the checks, `INVALID_BASE_URL` with `NewClient`'s message, or `Ping`'s failure as `handlePing` maps it; a request that goes out is for the resolved path and carries the resolved key |
| Cli.ExitCodeFixture | internal/cli/app_test.go:44-85 | an unknown command exits 2, with or without `--json`; `ping` with a flag the flag package refuses exits 2; a bare `ping` with no key in the environment or the configuration fails with `MISSING_API_KEY` and exits 1 |
| Cli.BodyFlagsCheck | internal/cli/app.go:545-550 | every failure of the check is a usage error |
| Cli.BodyFlagsExclusive | internal/cli/app.go:545-550 | the check passes exactly when at most one of `--body`, `--body-file` and `--file` is given; both bodies give the body error, and `--file` with exactly one body gives the file error |
| Cli.FileAndBodyFixture | internal/cli/app_test.go:536-554 | `--file` with `--body` is the file error, which exits 2 |
| Cli.FilterActions | internal/cli/app.go:370-381 | the loop keeps exactly the listed actions, in order |
| Cli.ListActions | internal/cli/app.go:370-394 | the listed actions are the catalog's actions whose lower-cased haystack contains the needle, as a permutation of the filtered list, sorted by (API, Path, Method, ID) |
| Cli.BlankFilterKeepsAll | internal/cli/app.go:370-376 | a blank filter keeps every action |
| Cli.NeedleIgnoresCase | internal/cli/app.go:370 | the filter is matched in any letter case |
| Cli.NeedleIgnoresSpaces | internal/cli/app.go:370 | surrounding spaces of the filter do not matter |
| Sorting.SortBy | internal/actions/catalog.go:91-102 | `sort.Slice` with a comparator chain: the result is a sorted permutation |
| Sorting.StrictlySortedUnique | internal/actions/catalog.go:91-102 | two strictly sorted lists with the same members are equal, so an order without ties is unique |
| Sorting.SortSet | internal/actions/catalog.go:86-102 | collecting a map's values in any order and sorting them by a tie-free key gives one result |
| Ordering.KeyLessTotal | internal/actions/catalog.go:91-102 | the comparator chain is total |
| Ordering.KeyLessTransitive | internal/actions/catalog.go:91-102 | the comparator chain is transitive |
| Decimal.ParseIntToString | internal/actions/catalog.go:299 | the number rendered by `%d` reads back as itself |
| Decimal.IntToStringInjective | internal/holded/client.go:57 | different numbers render differently |

## Left out

- JSON decoding (`json.Unmarshal`) is not modelled. The decoded records are inputs. A value that fails to decode is `None`, or the `Undecodable` raw parameter.
- Enum values are not modelled: `fmt.Sprint` of each JSON value is an input string.
- The regular expression engine is not modelled. `ssrPropsPattern` is written out as "first opening tag, then the next closing tag". `slugCleaner` is written out as a run-collapsing function. The placeholder pattern `\{([^}]+)\}` is written out as a scan.
- `url.Parse` is an input: a server's parsed path, `None` when it does not parse.
- The checks that build a request are inputs. `url.Parse` of the base URL is the `parse` parameter of `NewClient`. `newRequest`'s `url.Parse` of the path and the method check of `http.NewRequestWithContext` are the `build` parameter of `Do` and `Ping`: the reason a request is refused, or `None`.
- `url.PathEscape` is the `escape` parameter.
- `ResolveReference` against the base URL is not modelled. The model stops at the resolved relative path.
- Query encoding in `newRequest` is not modelled, and neither are the response headers.
- The `Request` of the model has no query.
- HTTP header canonicalisation is the `canon` parameter.
- Client.CleanSnippet: cuts the collapsed body at 200 characters, not at 200 bytes. Strings are sequences of characters here, and the UTF-8 encoding is not modelled.
- Text.Lower and Text.Upper: map ASCII letters only, where Go's `ToLower`/`ToUpper` map all of Unicode.
- `TrimSpace` and `Fields` use `unicode.IsSpace`'s list of space characters.
- `sort.Slice` is not stable, and the model uses one admissible order: a stable insertion sort.
  - In the catalog, the parameter merge and the request-body media types, the keys have no ties. There the order is unique, so nothing is lost.
  - `actions list` sorts by (API, Path, Method, ID). On a catalog this key has no ties, because no two catalog entries share `METHOD path` (Assembly.SortedCatalogKeysUnique). Ties can arise only for a list that is not a catalog. The source leaves their order open, and the model fixes one.
- `decodeParametersList` sorts by (`in`, `name`), and two kept parameters may share both. The model keeps them in list order.
- Go map iteration order is an arbitrary choice (`:|`). `buildActionsFromProps` returns the actions in that order, so its contract is stated over the listed keys and not over one fixed order.
- `time.Now()` and the `GeneratedAt` field are not modelled.
- Fetching the docs pages (`loadActionsFromPage`, the HTTP status check and the body read) is not modelled. `LoadCatalog` takes the outcome of each page, an action list or an error, in seed order.
- `seedSlugs` is not modelled.
- The transport in `Do` is not modelled. It is the `Reply` parameter: a transport failure, a read failure, or a received status and body.
- The `http.Client` choice and its timeout are not modelled.
- Error wrapping is not modelled. `fmt.Errorf` texts with `%w`, `%v` and `%q` are kept only as far as the model's error values carry them.
- `errors.As` is replaced by the three-way `CliError` datatype.
- The subcommand handlers (`handleAuth`, `handlePing`, `handleActions`) are the `Handler` parameters of `Execute`. `handlePing` is modelled from its parsed flags to its error (`Cli.PingHandler`); of the others only the flag checks and the list filter and sort are modelled.
- The `flag` package is an input to `handlePing`: its error text or the flag values and the arguments left over.
- `readConfig` is an input to `handlePing`: its error text or the configured key.
- The timeout context of `handlePing` is not modelled.
- Flag parsing by the `flag` package is not modelled.
- The text and JSON output of commands and errors, and the usage text, are not modelled.
- `readBodyInput` and the multipart upload are not modelled. They do file I/O and encoding.
- `decodeResponseBody` and `prettyBody` are not modelled. They are JSON formatting.
- `internal/config` is not modelled: it is file I/O and YAML. Its trimmed key is the `configValue` argument of `ResolveAPIKey`.
- Global id uniqueness is not claimed. `ensureUniqueIDs` never compares a suffixed id with the ids already present. The model proves the per-occurrence suffix rule instead. Assembly.SuffixedIdsMayCollide shows that `a, a, a-2` becomes `a, a-2, a-2`.
