/** The command-line front end (internal/cli/app.go): the global `--json` flag, the command
    name used in error reports, `key=value` flag values, the mapping from errors to exit
    codes, the checks on the body flags of `actions run`, and `actions list`. */
module Cli {
  import opened Wrappers
  import opened Text
  import opened Seqs
  import opened Ordering
  import opened Sorting
  import opened Slug
  import opened Actions
  import opened Decimal
  import Client

  // ---------------------------------------------------------------------------------
  // Arguments

  const JsonFlag: string := "--json"

  predicate NotJsonFlag(arg: string)
  {
    arg != JsonFlag
  }

  /** `extractGlobalFlags`: drops every `--json`, keeping the other arguments in order, and
      reports whether there was one. */
  method ExtractGlobalFlags(args: seq<string>) returns (remaining: seq<string>, jsonOutput: bool)
    ensures remaining == Filter(NotJsonFlag, args)
    ensures jsonOutput <==> JsonFlag in args
  {
    remaining, jsonOutput := [], false;
    for i := 0 to |args|
      invariant remaining == Filter(NotJsonFlag, args[..i])
      invariant jsonOutput <==> JsonFlag in args[..i]
    {
      FilterPrefixStep(NotJsonFlag, args, i);
      assert args[..i + 1] == args[..i] + [args[i]];
      if args[i] == JsonFlag {
        jsonOutput := true;
        continue;
      }
      remaining := remaining + [args[i]];
    }
    assert args[..|args|] == args;
  }

  /** Exactly the `--json` arguments are dropped: the remaining ones number the others. */
  lemma {:induction false} ExtractedCount(args: seq<string>)
    ensures |Filter(NotJsonFlag, args)| == |args| - multiset(args)[JsonFlag]
    decreases |args|
  {
    if args != [] {
      var init, last := args[..|args| - 1], args[|args| - 1];
      assert args == init + [last];
      assert multiset(args) == multiset(init) + multiset{last};
      ExtractedCount(init);
      FilterSnoc(NotJsonFlag, init, last);
    }
  }

  /** Extracting again finds no `--json` and changes nothing. */
  lemma ExtractIdempotent(args: seq<string>)
    ensures JsonFlag !in Filter(NotJsonFlag, args)
    ensures Filter(NotJsonFlag, Filter(NotJsonFlag, args)) == Filter(NotJsonFlag, args)
  {
    FilterIdempotent(NotJsonFlag, args);
  }

  /** `detectedCommand`: the name an error report carries. */
  function DetectedCommand(args: seq<string>): (r: string)
    ensures args == [] ==> r == "holded"
    ensures args != [] ==> HasPrefix(r, args[0])
  {
    if args == [] then "holded"
    else if (args[0] == "auth" || args[0] == "actions") && |args| > 1 then args[0] + " " + args[1]
    else args[0]
  }

  /** The command names two words exactly for `auth` and `actions` with a subcommand;
      otherwise it is the first argument alone. */
  lemma DetectedCommandWords(args: seq<string>)
    requires args != []
    ensures var grouped := (args[0] == "auth" || args[0] == "actions") && |args| > 1;
      && (grouped <==> |args| > 1 && DetectedCommand(args) == args[0] + " " + args[1])
      && (!grouped <==> DetectedCommand(args) == args[0])
  {
    if |args| > 1 {
      assert |args[0] + " " + args[1]| > |args[0]|;
    }
  }

  // ---------------------------------------------------------------------------------
  // key=value flags

  /** A `--path`, `--query` or `--header` value that is not `key=value`. */
  datatype PairError = InvalidPair(pair: string)

  /** `splitKeyValue`: splits the trimmed pair at its first `=`; both sides are trimmed, and
      the key must not be blank. */
  function SplitKeyValue(pair: string): (r: Result<(string, string), PairError>)
    ensures r.Err? ==> r.error == InvalidPair(pair)
    ensures r.Ok? ==> r.value.0 != [] && Trimmed(r.value.0) && Trimmed(r.value.1)
  {
    SplitAtEquals(TrimSpace(pair), pair)
  }

  /** Splits `t`, the trimmed `pair`, at its first `=`. */
  function SplitAtEquals(t: string, pair: string): (r: Result<(string, string), PairError>)
    ensures r.Err? ==> r.error == InvalidPair(pair)
    ensures r.Ok? ==> r.value.0 != [] && Trimmed(r.value.0) && Trimmed(r.value.1)
  {
    var i := IndexFrom(t, "=", 0);
    if i < 0 then Err(InvalidPair(pair))
    else
      var key := TrimSpace(t[..i]);
      if key == [] then Err(InvalidPair(pair)) else Ok((key, TrimSpace(t[i + 1..])))
  }

  /** The pair is refused exactly when its trimmed text has no `=`, or the text before its
      first `=` is blank. */
  lemma {:induction false} SplitKeyValueRefused(pair: string)
    ensures var t := TrimSpace(pair);
      SplitKeyValue(pair).Err? <==>
        ('=' !in t || exists i :: 0 <= i < |t| && t[i] == '=' && '=' !in t[..i] && Blank(t[..i]))
  {
    SplitAtEqualsRefused(TrimSpace(pair), pair);
  }

  lemma {:induction false} SplitAtEqualsRefused(t: string, pair: string)
    ensures SplitAtEquals(t, pair).Err? <==>
      ('=' !in t || exists i :: 0 <= i < |t| && t[i] == '=' && '=' !in t[..i] && Blank(t[..i]))
  {
    var i := IndexFrom(t, "=", 0);
    forall j | 0 <= j < |t|
      ensures OccursAt(t, j, "=") <==> t[j] == '='
    {
      assert t[j..j + 1] == [t[j]];
    }
    if i >= 0 {
      assert t[i] == '=';
      assert '=' !in t[..i] by {
        forall j | 0 <= j < i ensures t[..i][j] != '=' {
          assert !OccursAt(t, j, "=");
        }
      }
      forall j | 0 <= j < |t| && t[j] == '=' && '=' !in t[..j]
        ensures j == i
      {
        assert OccursAt(t, j, "=");
      }
    } else {
      assert '=' !in t by {
        forall j | 0 <= j < |t| ensures t[j] != '=' {
          assert !OccursAt(t, j, "=");
        }
      }
    }
  }

  lemma IndexOfFirstEquals(k: string, v: string)
    requires forall j :: 0 <= j < |k| ==> k[j] != '='
    ensures IndexFrom(k + "=" + v, "=", 0) == |k|
  {
    var t := k + "=" + v;
    assert t[|k|..|k| + 1] == "=";
    assert OccursAt(t, |k|, "=");
    forall r | 0 <= r < |k| ensures !OccursAt(t, r, "=") {
      assert t[r..r + 1][0] == k[r];
    }
  }

  /** Round trip: a trimmed key without `=` and a trimmed value (which may hold `=` or be
      empty) split back out of `key=value`. */
  lemma SplitKeyValueOfPair(k: string, v: string)
    requires k != [] && Trimmed(k) && Trimmed(v)
    requires forall j :: 0 <= j < |k| ==> k[j] != '='
    ensures SplitKeyValue(k + "=" + v) == Ok((k, v))
  {
    PairTrimmed(k, v);
    IndexOfFirstEquals(k, v);
    PairSides(k, v);
    SplitAtEqualsAt(k + "=" + v, k + "=" + v, |k|, k, v);
    SplitKeyValueOfTrimmed(k + "=" + v);
  }

  lemma SplitKeyValueOfTrimmed(t: string)
    requires Trimmed(t)
    ensures SplitKeyValue(t) == SplitAtEquals(t, t)
  {
    TrimSpaceOfTrimmed(t);
  }

  lemma SplitAtEqualsAt(t: string, pair: string, i: nat, k: string, v: string)
    requires i < |t| && IndexFrom(t, "=", 0) == i
    requires t[..i] == k && t[i + 1..] == v
    requires k != [] && Trimmed(k) && Trimmed(v)
    ensures SplitAtEquals(t, pair) == Ok((k, v))
  {
    TrimSpaceOfTrimmed(k);
    TrimSpaceOfTrimmed(v);
  }

  lemma PairTrimmed(k: string, v: string)
    requires k != [] && Trimmed(k) && Trimmed(v)
    ensures Trimmed(k + "=" + v)
  {
    var t := k + "=" + v;
    assert t[0] == k[0];
    assert t[|t| - 1] == if v == [] then '=' else v[|v| - 1];
  }

  lemma PairSides(k: string, v: string)
    ensures (k + "=" + v)[..|k|] == k && (k + "=" + v)[|k| + 1..] == v
  {
  }

  /** A pair without `=` is refused. */
  lemma SplitKeyValueNoEquals(pair: string)
    requires forall j :: 0 <= j < |pair| ==> pair[j] != '='
    ensures SplitKeyValue(pair) == Err(InvalidPair(pair))
  {
    var l := TrimLeftSpace(pair);
    var t := TrimRightSpace(l);
    forall i | 0 <= i < |t| ensures !OccursAt(t, i, "=") {
      assert t[i] == l[i] == pair[|pair| - |l| + i];
      assert t[i..i + 1][0] == t[i];
    }
    assert IndexFrom(t, "=", 0) == -1;
  }

  /** A splitter from pairs to key and value; `SplitKeyValue` is the one the source uses. */
  type Splitter = string -> Result<(string, string), PairError>

  /** The loop of `kvValues.Map` from the map `acc` on: the first bad pair fails the whole
      conversion; otherwise each pair sets its key. */
  function MapFrom(split: Splitter, acc: map<string, string>, pairs: seq<string>): Result<map<string, string>, PairError>
    decreases |pairs|
  {
    if pairs == [] then Ok(acc)
    else match split(pairs[0])
      case Err(e) => Err(e)
      case Ok(kv) => MapFrom(split, acc[kv.0 := kv.1], pairs[1..])
  }

  /** `url.Values.Add`. */
  function Add(acc: map<string, seq<string>>, k: string, v: string): map<string, seq<string>>
  {
    acc[k := GetAll(acc, k) + [v]]
  }

  function GetAll(m: map<string, seq<string>>, k: string): seq<string>
  {
    if k in m then m[k] else []
  }

  /** The loop of `kvValues.Values` from `acc` on: like `MapFrom`, but every value is kept. */
  function ValuesFrom(split: Splitter, acc: map<string, seq<string>>, pairs: seq<string>): Result<map<string, seq<string>>, PairError>
    decreases |pairs|
  {
    if pairs == [] then Ok(acc)
    else match split(pairs[0])
      case Err(e) => Err(e)
      case Ok(kv) => ValuesFrom(split, Add(acc, kv.0, kv.1), pairs[1..])
  }

  /** Marks the pairs that `split` refuses. */
  function Refused(split: Splitter): string -> bool
  {
    pair => split(pair).Err?
  }

  /** The first refused pair decides: none refused gives a map, otherwise the error of the
      first refused one. */
  lemma {:induction false} MapFromFirstRefused(split: Splitter, acc: map<string, string>, pairs: seq<string>)
    ensures match FirstWith(Refused(split), pairs, 0)
      case None => MapFrom(split, acc, pairs).Ok?
      case Some(k) => MapFrom(split, acc, pairs) == Err(split(pairs[k]).error)
    decreases |pairs|
  {
    if pairs != [] && split(pairs[0]).Ok? {
      var kv := split(pairs[0]).value;
      MapFromFirstRefused(split, acc[kv.0 := kv.1], pairs[1..]);
      FirstWithShift(Refused(split), pairs, 1);
      var k := FirstWith(Refused(split), pairs[1..], 0);
      if k.Some? {
        assert pairs[1..][k.value] == pairs[k.value + 1];
      }
    }
  }

  /** `Map` and `Values` refuse the same pair lists, with the same error. */
  lemma {:induction false} ValuesFromFailsLikeMapFrom(split: Splitter, acc: map<string, string>,
                                                      accValues: map<string, seq<string>>, pairs: seq<string>)
    ensures ValuesFrom(split, accValues, pairs).Err? == MapFrom(split, acc, pairs).Err?
    ensures ValuesFrom(split, accValues, pairs).Err? ==>
              ValuesFrom(split, accValues, pairs).error == MapFrom(split, acc, pairs).error
    decreases |pairs|
  {
    if pairs != [] && split(pairs[0]).Ok? {
      var kv := split(pairs[0]).value;
      ValuesFromFailsLikeMapFrom(split, acc[kv.0 := kv.1], Add(accValues, kv.0, kv.1), pairs[1..]);
    }
  }

  /** A key that no pair sets keeps its value. */
  lemma {:induction false} MapFromUntouched(split: Splitter, acc: map<string, string>, pairs: seq<string>, k: string)
    requires MapFrom(split, acc, pairs).Ok? && k in acc
    requires forall j :: 0 <= j < |pairs| && split(pairs[j]).Ok? ==> split(pairs[j]).value.0 != k
    ensures k in MapFrom(split, acc, pairs).value && MapFrom(split, acc, pairs).value[k] == acc[k]
    decreases |pairs|
  {
    if pairs != [] {
      var kv := split(pairs[0]).value;
      MapFromUntouched(split, acc[kv.0 := kv.1], pairs[1..], k);
    }
  }

  /** The last pair for a key wins. */
  lemma {:induction false} MapFromLastWins(split: Splitter, acc: map<string, string>, pairs: seq<string>, i: nat)
    requires MapFrom(split, acc, pairs).Ok?
    requires i < |pairs| && split(pairs[i]).Ok?
    requires forall j :: i < j < |pairs| && split(pairs[j]).Ok? ==>
               split(pairs[j]).value.0 != split(pairs[i]).value.0
    ensures var kv := split(pairs[i]).value;
      kv.0 in MapFrom(split, acc, pairs).value && MapFrom(split, acc, pairs).value[kv.0] == kv.1
    decreases |pairs|
  {
    var kv := split(pairs[0]).value;
    if i == 0 {
      MapFromUntouched(split, acc[kv.0 := kv.1], pairs[1..], kv.0);
    } else {
      MapFromLastWins(split, acc[kv.0 := kv.1], pairs[1..], i - 1);
    }
  }

  /** The values of the pairs with key `k`, in order. */
  function ValuesFor(split: Splitter, pairs: seq<string>, k: string): seq<string>
    decreases |pairs|
  {
    if pairs == [] then []
    else
      var here := split(pairs[0]);
      (if here.Ok? && here.value.0 == k then [here.value.1] else []) + ValuesFor(split, pairs[1..], k)
  }

  /** `Values` keeps every pair: under each key, the values of its pairs in order. */
  lemma {:induction false} ValuesFromCollects(split: Splitter, acc: map<string, seq<string>>, pairs: seq<string>, k: string)
    requires ValuesFrom(split, acc, pairs).Ok?
    ensures GetAll(ValuesFrom(split, acc, pairs).value, k) == GetAll(acc, k) + ValuesFor(split, pairs, k)
    decreases |pairs|
  {
    if pairs == [] {
      assert GetAll(acc, k) + [] == GetAll(acc, k);
    } else {
      var kv := split(pairs[0]).value;
      var acc', rest := Add(acc, kv.0, kv.1), pairs[1..];
      ValuesFromCollects(split, acc', rest, k);
      CollectsStep(GetAll(acc, k), GetAll(acc', k), ValuesFor(split, rest, k), ValuesFor(split, pairs, k),
                   if kv.0 == k then [kv.1] else []);
    }
  }

  lemma CollectsStep(before: seq<string>, after: seq<string>, rest: seq<string>, all: seq<string>, here: seq<string>)
    requires after == before + here && all == here + rest
    ensures after + rest == before + all
  {
  }

  /** The keys of `Values` are those of `acc` and of the pairs. */
  lemma {:induction false} ValuesFromKeys(split: Splitter, acc: map<string, seq<string>>, pairs: seq<string>, k: string)
    requires ValuesFrom(split, acc, pairs).Ok?
    ensures k in ValuesFrom(split, acc, pairs).value <==> k in acc || ValuesFor(split, pairs, k) != []
    decreases |pairs|
  {
    if pairs != [] {
      var kv := split(pairs[0]).value;
      ValuesFromKeys(split, Add(acc, kv.0, kv.1), pairs[1..], k);
      GetAllAdd(acc, kv.0, kv.1, k);
    }
  }

  lemma GetAllAdd(acc: map<string, seq<string>>, key: string, v: string, k: string)
    ensures GetAll(Add(acc, key, v), k) == GetAll(acc, k) + (if key == k then [v] else [])
    ensures k in Add(acc, key, v) <==> k in acc || key == k
  {
    if key != k {
      assert GetAll(acc, k) + [] == GetAll(acc, k);
    }
  }

  /** `kvValues`: the raw values of a repeatable flag, in the order given. */
  class KvValues {
    var pairs: seq<string>

    constructor ()
      ensures pairs == []
    {
      pairs := [];
    }

    /** `Set`: one more occurrence of the flag. */
    method Set(value: string)
      modifies this
      ensures pairs == old(pairs) + [value]
    {
      pairs := pairs + [value];
    }

    /** `Map`: one value per key, the last pair for a key winning. */
    method Map() returns (r: Result<map<string, string>, PairError>)
      ensures r == MapFrom(SplitKeyValue, map[], pairs)
    {
      var result: map<string, string> := map[];
      for i := 0 to |pairs|
        invariant MapFrom(SplitKeyValue, result, pairs[i..]) == MapFrom(SplitKeyValue, map[], pairs)
      {
        assert pairs[i..][0] == pairs[i] && pairs[i..][1..] == pairs[i + 1..];
        var kv := SplitKeyValue(pairs[i]);
        if kv.Err? {
          return Err(kv.error);
        }
        result := result[kv.value.0 := kv.value.1];
      }
      return Ok(result);
    }

    /** `Values`: every value, grouped by key in order. */
    method Values() returns (r: Result<map<string, seq<string>>, PairError>)
      ensures r == ValuesFrom(SplitKeyValue, map[], pairs)
    {
      var result: map<string, seq<string>> := map[];
      for i := 0 to |pairs|
        invariant ValuesFrom(SplitKeyValue, result, pairs[i..]) == ValuesFrom(SplitKeyValue, map[], pairs)
      {
        assert pairs[i..][0] == pairs[i] && pairs[i..][1..] == pairs[i + 1..];
        var kv := SplitKeyValue(pairs[i]);
        if kv.Err? {
          return Err(kv.error);
        }
        result := Add(result, kv.value.0, kv.value.1);
      }
      return Ok(result);
    }
  }

  // ---------------------------------------------------------------------------------
  // Errors and exit codes

  /** The errors a command returns: `usageError`, `commandError` with its code, or any
      other error. */
  datatype CliError =
    | UsageError(message: string)
    | CommandError(code: string, message: string)
    | OtherError(message: string)

  function ExitCodeOf(e: CliError): int
  {
    if e.UsageError? then 2 else 1
  }

  function ErrorCodeOf(e: CliError): string
  {
    match e
    case UsageError(_) => "USAGE_ERROR"
    case CommandError(code, _) => if code == [] then "API_ERROR" else code
    case OtherError(_) => "API_ERROR"
  }

  /** `handleError`: exit code 2 with `USAGE_ERROR` for a usage error, otherwise exit
      code 1 with the command error's own code when it has one, else `API_ERROR`. */
  method HandleError(err: CliError) returns (exitCode: int, errorCode: string)
    ensures exitCode == ExitCodeOf(err) && errorCode == ErrorCodeOf(err)
    ensures exitCode == 2 <==> err.UsageError?
    ensures exitCode == 1 <==> !err.UsageError?
    ensures errorCode != []
  {
    exitCode := 1;
    errorCode := "API_ERROR";
    if err.UsageError? {
      exitCode := 2;
      errorCode := "USAGE_ERROR";
    }
    if err.CommandError? && err.code != [] {
      errorCode := err.code;
    }
  }

  /** What a failed run reports in its JSON envelope. */
  datatype ErrorReport = ErrorReport(command: string, errorCode: string)

  /** A command handler: the error it returns for its arguments, if any. */
  type Handler = seq<string> -> Option<CliError>

  const HelpWords: set<string> := {"help", "-h", "--help"}

  /** The commands that have a handler. */
  const Subcommands: set<string> := {"auth", "ping", "actions"}

  /** `execute`: dispatch on the first argument; the subcommand handlers are parameters. */
  function Execute(args: seq<string>, auth: Handler, ping: Handler, actions: Handler): (r: Option<CliError>)
    ensures args == [] ==> r == Some(UsageError("missing command"))
    ensures args != [] && args[0] in HelpWords ==> r.None?
    ensures args != [] && args[0] !in HelpWords + Subcommands ==> r == Some(UsageError("unknown command: " + args[0]))
  {
    if args == [] then Some(UsageError("missing command"))
    else if args[0] in HelpWords then None
    else if args[0] == "auth" then auth(args[1..])
    else if args[0] == "ping" then ping(args[1..])
    else if args[0] == "actions" then actions(args[1..])
    else Some(UsageError("unknown command: " + args[0]))
  }

  /** `App.Run`: `--json` is taken out before dispatch; no error exits 0, an error exits as
      `handleError` says and reports the detected command. */
  method Run(args: seq<string>, execute: Handler) returns (exitCode: int, jsonOutput: bool, report: Option<ErrorReport>)
    ensures jsonOutput <==> JsonFlag in args
    ensures var result := execute(Filter(NotJsonFlag, args));
      && (result.None? ==> exitCode == 0 && report.None?)
      && (result.Some? ==> exitCode == ExitCodeOf(result.value))
      && (result.Some? ==> report == Some(ErrorReport(DetectedCommand(Filter(NotJsonFlag, args)), ErrorCodeOf(result.value))))
  {
    var remaining;
    remaining, jsonOutput := ExtractGlobalFlags(args);
    var command := DetectedCommand(remaining);
    var err := execute(remaining);
    if err.None? {
      return 0, jsonOutput, None;
    }
    var errorCode;
    exitCode, errorCode := HandleError(err.value);
    report := Some(ErrorReport(command, errorCode));
  }

  // ---------------------------------------------------------------------------------
  // `ping`

  /** The values of `ping`'s flags as the `flag` package reads them, and the arguments left
      after them. */
  datatype PingFlags = PingFlags(apiKey: string, baseURL: string, path: string, rest: seq<string>)

  /** A bare `ping`: every flag at its default and nothing left over. */
  const BarePing: PingFlags := PingFlags("", Client.DefaultBaseURL, Client.DefaultPingPath, [])

  const MissingKey: string := "missing Holded API key; use --api-key, HOLDED_API_KEY, or `holded auth set --api-key ...`"

  /** The checks `handlePing` makes before it contacts the API, in order. `flags` is the flag
      package's outcome (its error text, or the values), `config` is `readConfig`'s outcome
      (its error text, or the configured key) and `env` is `HOLDED_API_KEY`. Gives the key
      and where it came from. */
  function PingPrecheck(flags: Result<PingFlags, string>, env: string, config: Result<string, string>)
    : (r: Result<(string, Client.CredentialSource), CliError>)
    ensures r.Ok? ==> flags.Ok? && flags.value.rest == [] && config.Ok?
    ensures r.Ok? ==> r.value == Client.ResolveAPIKey(flags.value.apiKey, env, config.value) && r.value.0 != []
    ensures r.Err? && r.error.UsageError? <==> flags.Err? || flags.value.rest != []
  {
    match flags
    case Err(message) => Err(UsageError(message))
    case Ok(f) =>
      if f.rest != [] then Err(UsageError("unexpected argument: " + f.rest[0]))
      else
        match config
        case Err(message) => Err(CommandError("CONFIG_ERROR", message))
        case Ok(configKey) =>
          var key := Client.ResolveAPIKey(f.apiKey, env, configKey);
          if key.0 == [] then Err(CommandError("MISSING_API_KEY", MissingKey)) else Ok(key)
  }

  /** With the flags read and the configuration loaded, the key is missing exactly when the
      flag, the environment and the configuration all leave it blank. */
  lemma PingKeyMissing(f: PingFlags, env: string, configKey: string)
    requires f.rest == []
    ensures PingPrecheck(Ok(f), env, Ok(configKey)) == Err(CommandError("MISSING_API_KEY", MissingKey))
        <==> Blank(f.apiKey) && Blank(env) && Blank(configKey)
  {
    Client.ResolveAPIKeyAgreement(f.apiKey, env, configKey);
  }

  /** `ping failed with status N`, followed by `: snippet` when there is one. */
  function PingStatusMessage(e: Client.APIError): (r: string)
    ensures HasPrefix(r, "ping failed with status " + IntToString(e.statusCode))
    ensures r == "ping failed with status " + IntToString(e.statusCode) <==> e.bodySnippet == []
  {
    var head := "ping failed with status " + IntToString(e.statusCode);
    if e.bodySnippet == [] then head
    else
      assert |head + ": " + e.bodySnippet| > |head|;
      head + ": " + e.bodySnippet
  }

  /** The text of an error `Do` returns. */
  function DoErrorText(e: Client.DoError): string
  {
    match e
    case Build(reason) => reason
    case Transport(reason) => reason
    case Read(reason) => "reading holded response: " + reason
    case Status(apiError) => Client.ErrorMessage(apiError)
  }

  /** The error `handlePing` reports for a failed `Ping`: an `APIError` becomes `API_ERROR`
      with its status and snippet, anything else `NETWORK_ERROR`. */
  function PingFailure(e: Client.DoError): (r: CliError)
    ensures r.CommandError? && ExitCodeOf(r) == 1
    ensures r.code == "API_ERROR" <==> e.Status?
    ensures r.code == "NETWORK_ERROR" <==> !e.Status?
    ensures e.Status? ==> r.message == PingStatusMessage(e.apiError)
    ensures !e.Status? ==> r.message == "ping failed: " + DoErrorText(e)
  {
    match e
    case Status(apiError) => CommandError("API_ERROR", PingStatusMessage(apiError))
    case _ => CommandError("NETWORK_ERROR", "ping failed: " + DoErrorText(e))
  }

  /** The error `handlePing` returns: a failed check, a base URL that does not parse
      (`INVALID_BASE_URL`), or the failure of `Ping`. `parse`, `build` and `reply` are the
      inputs of `NewClient` and `Ping`. */
  function PingError(flags: Result<PingFlags, string>, env: string, config: Result<string, string>,
                     parse: string -> Option<string>, build: (string, string) -> Option<string>,
                     reply: Client.Reply): Option<CliError>
  {
    match PingPrecheck(flags, env, config)
    case Err(e) => Some(e)
    case Ok(key) =>
      match Client.NewClient(flags.value.baseURL, key.0, parse)
      case Err(message) => Some(CommandError("INVALID_BASE_URL", message))
      case Ok(_) =>
        match Client.PingResult(flags.value.path, build, reply).1
        case None => None
        case Some(e) => Some(PingFailure(e))
  }

  /** `handlePing` as a handler: `parseFlags` is the flag package's reading of the
      arguments. */
  function PingHandler(parseFlags: seq<string> -> Result<PingFlags, string>, env: string,
                       config: Result<string, string>, parse: string -> Option<string>,
                       build: (string, string) -> Option<string>, reply: Client.Reply): Handler
  {
    args => PingError(parseFlags(args), env, config, parse, build, reply)
  }

  /** `ping` succeeds exactly when the checks pass, the base URL parses, the request is
      built and the reply is 2xx; it exits 2 exactly when its flags are at fault. */
  lemma PingOutcomes(flags: Result<PingFlags, string>, env: string, config: Result<string, string>,
                     parse: string -> Option<string>, build: (string, string) -> Option<string>,
                     reply: Client.Reply)
    ensures var pre := PingPrecheck(flags, env, config);
      var r := PingError(flags, env, config, parse, build, reply);
      && (r.None? <==>
            && pre.Ok?
            && Client.NewClient(flags.value.baseURL, pre.value.0, parse).Ok?
            && build("GET", Client.ResolvePath(flags.value.path)).None?
            && reply.Received? && 200 <= reply.status <= 299)
      && (r.Some? ==> (ExitCodeOf(r.value) == 2 <==> flags.Err? || flags.value.rest != []))
  {
  }

  /** `handlePing`: the checks, then `NewClient` and `Ping` with the resolved key. The
      success output is not modelled. */
  method HandlePing(flags: Result<PingFlags, string>, env: string, config: Result<string, string>,
                    parse: string -> Option<string>, canon: string -> string,
                    build: (string, string) -> Option<string>, reply: Client.Reply)
    returns (sent: Option<Client.Outgoing>, err: Option<CliError>)
    ensures err == PingError(flags, env, config, parse, build, reply)
    ensures sent.Some? ==> PingPrecheck(flags, env, config).Ok?
    ensures sent.Some? ==>
      && sent.value.target == Client.ResolvePath(flags.value.path)
      && Client.Get(sent.value.header, canon("key")) == PingPrecheck(flags, env, config).value.0
  {
    var key := PingPrecheck(flags, env, config);
    if key.Err? {
      return None, Some(key.error);
    }
    var client := Client.NewClient(flags.value.baseURL, key.value.0, parse);
    if client.Err? {
      return None, Some(CommandError("INVALID_BASE_URL", client.error));
    }
    var statusCode, pingErr;
    sent, statusCode, pingErr := Client.Ping(client.value, flags.value.path, canon, build, reply);
    if pingErr.Some? {
      err := Some(PingFailure(pingErr.value));
    } else {
      err := None;
    }
  }

  /** The exit-code test: an unknown command is a usage error (2) whatever the handlers do,
      with or without `--json`; `ping` with a flag the flag package refuses exits 2; a bare
      `ping` with no key in the environment or the configuration exits 1 with
      `MISSING_API_KEY`, whatever the client would have done. */
  lemma ExitCodeFixture(auth: Handler, actions: Handler, parseFlags: seq<string> -> Result<PingFlags, string>,
                        parse: string -> Option<string>, build: (string, string) -> Option<string>,
                        reply: Client.Reply)
    requires parseFlags([]) == Ok(BarePing) && parseFlags(["--nope"]).Err?
    ensures var ping := PingHandler(parseFlags, "", Ok(""), parse, build, reply);
      && Execute(["unknown"], auth, ping, actions).Some?
      && ExitCodeOf(Execute(["unknown"], auth, ping, actions).value) == 2
      && Execute(Filter(NotJsonFlag, ["unknown", JsonFlag]), auth, ping, actions) == Execute(["unknown"], auth, ping, actions)
      && Execute(["ping", "--nope"], auth, ping, actions).Some?
      && ExitCodeOf(Execute(["ping", "--nope"], auth, ping, actions).value) == 2
      && Execute(["ping"], auth, ping, actions) == Some(CommandError("MISSING_API_KEY", MissingKey))
      && ExitCodeOf(Execute(["ping"], auth, ping, actions).value) == 1
  {
    assert ["ping"][1..] == [];
    assert ["ping", "--nope"][1..] == ["--nope"];
    PingKeyMissing(BarePing, "", "");
    FilterSnoc(NotJsonFlag, ["unknown"], JsonFlag);
    FilterSnoc(NotJsonFlag, [], "unknown");
    assert [] + ["unknown"] == ["unknown"];
    assert ["unknown"] + [JsonFlag] == ["unknown", JsonFlag];
  }

  // ---------------------------------------------------------------------------------
  // Body flags of `actions run`

  const BothBodies: string := "use either --body or --body-file, not both"
  const FileAndBody: string := "use either --file or --body/--body-file, not both"

  /** The two exclusivity checks, in order. */
  function BodyFlagsCheck(body: string, bodyFile: string, file: string): (r: Option<CliError>)
    ensures r.Some? ==> r.value.UsageError?
  {
    if !Blank(body) && !Blank(bodyFile) then Some(UsageError(BothBodies))
    else if !Blank(file) && (!Blank(body) || !Blank(bodyFile)) then Some(UsageError(FileAndBody))
    else None
  }

  function Given(s: string): nat
  {
    if Blank(s) then 0 else 1
  }

  /** At most one of `--body`, `--body-file` and `--file` may be given; when both bodies
      are given that is the error reported, and the `--file` error is for `--file` with
      exactly one of them. */
  lemma BodyFlagsExclusive(body: string, bodyFile: string, file: string)
    ensures BodyFlagsCheck(body, bodyFile, file).None? <==> Given(body) + Given(bodyFile) + Given(file) <= 1
    ensures BodyFlagsCheck(body, bodyFile, file) == Some(UsageError(BothBodies)) <==> !Blank(body) && !Blank(bodyFile)
    ensures BodyFlagsCheck(body, bodyFile, file) == Some(UsageError(FileAndBody)) <==>
              !Blank(file) && Given(body) + Given(bodyFile) == 1
  {
    assert BothBodies != FileAndBody by {
      assert BothBodies[13] == 'b' && FileAndBody[13] == 'f';
    }
  }

  lemma NotBlank(s: string)
    requires s != [] && !IsSpace(s[0])
    ensures !Blank(s)
  {
    TrimSpaceEmpty(s);
  }

  /** The test that passes `--body` and `--file` together: a usage error with the `--file`
      message, so exit code 2. */
  lemma FileAndBodyFixture()
    ensures BodyFlagsCheck("{\"url\":\"./ticket.jpg\"}", "", "./ticket.jpg") == Some(UsageError(FileAndBody))
    ensures ExitCodeOf(UsageError(FileAndBody)) == 2
  {
    FileWithOneBody("{\"url\":\"./ticket.jpg\"}", "", "./ticket.jpg");
  }

  lemma FileWithOneBody(body: string, bodyFile: string, file: string)
    requires body != [] && !IsSpace(body[0]) && bodyFile == [] && file != [] && !IsSpace(file[0])
    ensures BodyFlagsCheck(body, bodyFile, file) == Some(UsageError(FileAndBody))
  {
    NotBlank(body);
    NotBlank(file);
  }

  // ---------------------------------------------------------------------------------
  // actions list

  /** The text the filter is looked for in. */
  function Haystack(a: Action): string
  {
    Lower(Join([a.id, a.operationId, a.httpMethod, a.path, a.api], " "))
  }

  /** The filter as it is compared: trimmed and lower-cased. */
  function Needle(filter: string): string
  {
    Lower(TrimSpace(filter))
  }

  predicate Listed(needle: string, a: Action)
  {
    needle == [] || Contains(Haystack(a), needle)
  }

  function ListedBy(needle: string): Action -> bool
  {
    a => Listed(needle, a)
  }

  /** The order of the list: API, path, method, id. */
  function ListKey(a: Action): seq<string>
  {
    [a.api, a.path, a.httpMethod, a.id]
  }

  /** The filter loop of `handleActionsList`. */
  method FilterActions(actions: seq<Action>, needle: string) returns (kept: seq<Action>)
    ensures kept == Filter(ListedBy(needle), actions)
  {
    kept := [];
    for i := 0 to |actions|
      invariant kept == Filter(ListedBy(needle), actions[..i])
    {
      FilterPrefixStep(ListedBy(needle), actions, i);
      if needle == [] {
        kept := kept + [actions[i]];
        continue;
      }
      var stack := Haystack(actions[i]);
      if Contains(stack, needle) {
        kept := kept + [actions[i]];
      }
    }
    assert actions[..|actions|] == actions;
  }

  /** `actions list`: the actions whose text contains the filter, case-insensitively, sorted
      by API, path, method and id. */
  method ListActions(actions: seq<Action>, filter: string) returns (listed: seq<Action>)
    ensures listed == SortBy(Filter(ListedBy(Needle(filter)), actions), ListKey)
    ensures forall a :: a in listed <==> a in actions && Listed(Needle(filter), a)
    ensures multiset(listed) == multiset(Filter(ListedBy(Needle(filter)), actions))
    ensures Sorted(listed, ListKey)
  {
    var needle := Lower(TrimSpace(filter));
    var kept := FilterActions(actions, needle);
    listed := SortBy(kept, ListKey);
    SortByMembers(kept, ListKey);
  }

  /** A blank filter keeps every action. */
  lemma BlankFilterKeepsAll(actions: seq<Action>, filter: string)
    requires Blank(filter)
    ensures Filter(ListedBy(Needle(filter)), actions) == actions
  {
    assert Needle(filter) == [];
    FilterAll(ListedBy(Needle(filter)), actions);
  }

  /** The filter ignores ASCII case. */
  lemma NeedleIgnoresCase(filter: string)
    ensures Needle(Upper(filter)) == Needle(filter)
    ensures Needle(Lower(filter)) == Needle(filter)
  {
    var t := TrimSpace(filter);
    TrimSpaceCommutesWithCase(filter);
    assert Needle(Upper(filter)) == Lower(Upper(t));
    assert Needle(Lower(filter)) == Lower(Lower(t));
    LowerOfCaseMapped(t);
  }

  /** The filter ignores surrounding spaces. */
  lemma NeedleIgnoresSpaces(filter: string)
    ensures Needle(TrimSpace(filter)) == Needle(filter)
  {
    TrimSpaceIdempotent(filter);
  }
}
