/** `ResolvePathTemplate` (internal/actions/catalog.go): filling the `{name}` placeholders
    of an action's path with the values given on the command line. */
module Templates {
  import opened Wrappers
  import opened Text
  import opened Seqs

  datatype TemplateError =
    | EmptyPath
    /** No value, or only a blank one, for the placeholder `name`. */
    | MissingPathParam(name: string)

  /** The index of the first `}` of `s`. */
  function CloseIndex(s: string): (k: nat)
    requires '}' in s
    ensures k < |s| && s[k] == '}'
    ensures forall j :: 0 <= j < k ==> s[j] != '}'
    decreases |s|
  {
    if s[0] == '}' then 0 else 1 + CloseIndex(s[1..])
  }

  /** The names matched by the pattern `\{([^}]+)\}`, leftmost first and without overlap:
      from a `{`, everything up to the first `}` after it, which must not follow at once. */
  function Placeholders(s: string): (r: seq<string>)
    ensures forall i :: 0 <= i < |r| ==> r[i] != [] && '}' !in r[i]
    decreases |s|
  {
    if s == [] then []
    else if s[0] == '{' && |s| >= 2 && s[1] != '}' && '}' in s[1..] then
      var k := 1 + CloseIndex(s[1..]);
      assert '}' !in s[1..k] by {
        forall j | 0 <= j < k - 1 ensures s[1..k][j] != '}' {
          assert s[1..k][j] == s[1..][j];
        }
      }
      [s[1..k]] + Placeholders(s[k + 1..])
    else Placeholders(s[1..])
  }

  /** Every name found is in the template as `{name}`. */
  lemma {:induction false} PlaceholdersOccur(s: string, n: nat)
    requires n < |Placeholders(s)|
    ensures Contains(s, "{" + Placeholders(s)[n] + "}")
    decreases |s|
  {
    if s[0] == '{' && |s| >= 2 && s[1] != '}' && '}' in s[1..] {
      var k := 1 + CloseIndex(s[1..]);
      var rest := s[k + 1..];
      assert Placeholders(s) == [s[1..k]] + Placeholders(rest);
      if n == 0 {
        assert s[0..k + 1] == "{" + s[1..k] + "}";
        assert OccursAt(s, 0, "{" + s[1..k] + "}");
      } else {
        assert Placeholders(s)[n] == Placeholders(rest)[n - 1];
        PlaceholdersOccur(rest, n - 1);
        ContainsInSuffix(s, k + 1, "{" + Placeholders(s)[n] + "}");
      }
    } else {
      assert Placeholders(s) == Placeholders(s[1..]);
      PlaceholdersOccur(s[1..], n);
      ContainsInSuffix(s, 1, "{" + Placeholders(s)[n] + "}");
    }
  }

  /** An occurrence in a suffix is an occurrence in the whole string. */
  lemma ContainsInSuffix(s: string, d: nat, p: string)
    requires d <= |s| && Contains(s[d..], p)
    ensures Contains(s, p)
  {
    var i :| 0 <= i <= |s[d..]| - |p| && OccursAt(s[d..], i, p);
    assert s[d + i..d + i + |p|] == s[d..][i..i + |p|];
    assert OccursAt(s, d + i, p);
  }

  /** `pathParams[name]`: Go's zero value `""` when the name is absent. */
  function ParamValue(params: map<string, string>, name: string): string
  {
    if name in params then params[name] else ""
  }

  /** The loop of `ResolvePathTemplate` over the placeholders found up front: each one
      needs a non-blank value, and every occurrence of `{name}` is replaced by the
      escaped, trimmed value. */
  function Substitute(resolved: string, names: seq<string>, params: map<string, string>,
                      escape: string -> string): (r: Result<string, TemplateError>)
    ensures r.Err? ==> r.error.MissingPathParam? && r.error.name in names
    decreases |names|
  {
    if names == [] then Ok(resolved)
    else
      var name := names[0];
      if !Given(params, name) then Err(MissingPathParam(name))
      else
        var value := TrimSpace(ParamValue(params, name));
        Substitute(ReplaceAll(resolved, "{" + name + "}", escape(value)), names[1..], params, escape)
  }

  /** What `ResolvePathTemplate` returns; `escape` stands for `url.PathEscape`. */
  function ResolveTemplate(pathTemplate: string, params: map<string, string>,
                           escape: string -> string): (r: Result<string, TemplateError>)
    ensures r == Err(EmptyPath) <==> Blank(pathTemplate)
  {
    ResolveTrimmed(TrimSpace(pathTemplate), params, escape)
  }

  /** `ResolveTemplate` once the template is trimmed. */
  function ResolveTrimmed(resolved: string, params: map<string, string>,
                          escape: string -> string): (r: Result<string, TemplateError>)
    ensures r == Err(EmptyPath) <==> resolved == []
  {
    if resolved == [] then Err(EmptyPath)
    else Substitute(resolved, Placeholders(resolved), params, escape)
  }

  /** The placeholder `name` has a non-blank value. */
  predicate Given(params: map<string, string>, name: string)
  {
    !Blank(ParamValue(params, name))
  }

  /** Every placeholder has a non-blank value. */
  predicate AllGiven(names: seq<string>, params: map<string, string>)
  {
    forall i :: 0 <= i < |names| ==> Given(params, names[i])
  }

  /** One step of the substitution. */
  lemma SubstituteStep(resolved: string, names: seq<string>, params: map<string, string>, escape: string -> string)
    requires names != [] && Given(params, names[0])
    ensures Substitute(resolved, names, params, escape)
         == Substitute(ReplaceAll(resolved, "{" + names[0] + "}", escape(TrimSpace(ParamValue(params, names[0])))),
                       names[1..], params, escape)
  {
  }

  /** The substitution succeeds exactly when every placeholder has a value. */
  lemma {:induction false} SubstituteOk(resolved: string, names: seq<string>, params: map<string, string>,
                                        escape: string -> string)
    ensures Substitute(resolved, names, params, escape).Ok? <==> AllGiven(names, params)
    decreases |names|
  {
    if names != [] {
      if Given(params, names[0]) {
        SubstituteStep(resolved, names, params, escape);
        var next := ReplaceAll(resolved, "{" + names[0] + "}", escape(TrimSpace(ParamValue(params, names[0]))));
        SubstituteOk(next, names[1..], params, escape);
        AllGivenCons(names, params);
      }
    }
  }

  lemma AllGivenCons(names: seq<string>, params: map<string, string>)
    requires names != []
    ensures AllGiven(names, params) <==> Given(params, names[0]) && AllGiven(names[1..], params)
  {
    if Given(params, names[0]) && AllGiven(names[1..], params) {
      forall i | 0 <= i < |names| ensures Given(params, names[i]) {
        if i > 0 {
          assert names[i] == names[1..][i - 1];
        }
      }
    }
  }

  function Missing(params: map<string, string>): string -> bool
  {
    name => !Given(params, name)
  }

  /** The substitution fails with the first placeholder, in template order, that has no
      value, and succeeds when there is none. */
  lemma {:induction false} SubstituteFirstMissing(resolved: string, names: seq<string>, params: map<string, string>,
                                                  escape: string -> string)
    ensures var k := FirstWith(Missing(params), names, 0);
      && (k.None? ==> Substitute(resolved, names, params, escape).Ok?)
      && (k.Some? ==> Substitute(resolved, names, params, escape) == Err(MissingPathParam(names[k.value])))
    decreases |names|
  {
    if names != [] {
      if Given(params, names[0]) {
        SubstituteStep(resolved, names, params, escape);
        var next := ReplaceAll(resolved, "{" + names[0] + "}", escape(TrimSpace(ParamValue(params, names[0]))));
        SubstituteFirstMissing(next, names[1..], params, escape);
        FirstWithShift(Missing(params), names, 1);
        var k := FirstWith(Missing(params), names[1..], 0);
        if k.Some? {
          assert names[1..][k.value] == names[k.value + 1];
        }
      } else {
        SubstituteHead(resolved, names, params, escape);
      }
    }
  }

  lemma SubstituteHead(resolved: string, names: seq<string>, params: map<string, string>, escape: string -> string)
    requires names != [] && !Given(params, names[0])
    ensures Substitute(resolved, names, params, escape) == Err(MissingPathParam(names[0]))
  {
  }

  /** A template resolves exactly when it is not blank and every placeholder in it has a
      non-blank value. */
  lemma ResolveTemplateOk(pathTemplate: string, params: map<string, string>, escape: string -> string)
    ensures ResolveTemplate(pathTemplate, params, escape).Ok?
        <==> !Blank(pathTemplate) && AllGiven(Placeholders(TrimSpace(pathTemplate)), params)
  {
    if !Blank(pathTemplate) {
      SubstituteOk(TrimSpace(pathTemplate), Placeholders(TrimSpace(pathTemplate)), params, escape);
    }
  }

  /** Text without `{` holds no placeholder. */
  lemma {:induction false} PlaceholdersOfPlain(s: string)
    requires '{' !in s
    ensures Placeholders(s) == []
    decreases |s|
  {
    if s != [] {
      assert '{' !in s[1..];
      PlaceholdersOfPlain(s[1..]);
    }
  }

  /** A template without placeholders resolves to itself, trimmed. */
  lemma ResolvePlain(pathTemplate: string, params: map<string, string>, escape: string -> string)
    requires !Blank(pathTemplate) && '{' !in pathTemplate
    ensures ResolveTemplate(pathTemplate, params, escape) == Ok(TrimSpace(pathTemplate))
  {
    var t := TrimSpace(pathTemplate);
    assert '{' !in t by {
      TrimmedInside(pathTemplate);
    }
    PlaceholdersOfPlain(t);
  }

  /** `TrimSpace(s)` is a slice of `s`. */
  lemma TrimmedInside(s: string)
    ensures forall c :: c in TrimSpace(s) ==> c in s
  {
    var l := TrimLeftSpace(s);
    forall c | c in TrimSpace(s) ensures c in s {
      var i :| 0 <= i < |TrimSpace(s)| && TrimSpace(s)[i] == c;
      assert TrimSpace(s)[i] == l[i];
      assert l[i] == s[|s| - |l| + i];
    }
  }

  /** One placeholder after plain text: its name is the only one found. */
  lemma PlaceholdersOfOne(pre: string, name: string, post: string)
    requires '{' !in pre && '{' !in post
    requires name != [] && '}' !in name && '{' !in name
    ensures Placeholders(pre + "{" + name + "}" + post) == [name]
    decreases |pre|
  {
    var s := pre + "{" + name + "}" + post;
    if pre == [] {
      assert s == "{" + (name + "}" + post);
      PlaceholdersOfLeading(name, post);
    } else {
      assert s[0] == pre[0] != '{';
      assert s[1..] == pre[1..] + "{" + name + "}" + post;
      PlaceholdersOfOne(pre[1..], name, post);
    }
  }

  lemma PlaceholdersOfLeading(name: string, post: string)
    requires '{' !in post
    requires name != [] && '}' !in name
    ensures Placeholders("{" + (name + "}" + post)) == [name]
  {
    var rest := name + "}" + post;
    var s := "{" + rest;
    assert s[1..] == rest;
    assert s[0] == '{' && |s| >= 2 && s[1] == name[0] != '}';
    CloseOfName(name, post);
    var k := 1 + |name|;
    PlaceholdersStep(s, k);
    LeadingParts(name, post);
    PlaceholdersOfPlain(post);
  }

  lemma LeadingParts(name: string, post: string)
    ensures ("{" + (name + "}" + post))[1..1 + |name|] == name
    ensures ("{" + (name + "}" + post))[2 + |name|..] == post
  {
    var s := "{" + (name + "}" + post);
    forall j | 0 <= j < |name| ensures s[1..1 + |name|][j] == name[j] {
      assert s[1 + j] == name[j];
    }
    forall j | 0 <= j < |post| ensures s[2 + |name|..][j] == post[j] {
      assert s[2 + |name| + j] == post[j];
    }
  }

  /** A placeholder at the head of `s` that closes at `k`. */
  lemma PlaceholdersStep(s: string, k: nat)
    requires |s| >= 2 && s[0] == '{' && s[1] != '}' && '}' in s[1..]
    requires k == 1 + CloseIndex(s[1..])
    ensures Placeholders(s) == [s[1..k]] + Placeholders(s[k + 1..])
  {
  }

  lemma CloseOfName(name: string, post: string)
    requires '}' !in name
    ensures '}' in name + "}" + post
    ensures CloseIndex(name + "}" + post) == |name|
  {
    var s := name + "}" + post;
    assert s[|name|] == '}';
  }

  /** Replacing the one occurrence of a placeholder in plain text. */
  lemma {:induction false} ReplaceOne(pre: string, pat: string, rep: string, post: string)
    requires pat != [] && pat[0] == '{'
    requires '{' !in pre && '{' !in post
    ensures ReplaceAll(pre + pat + post, pat, rep) == pre + rep + post
    decreases |pre|
  {
    var s := pre + pat + post;
    if pre == [] {
      assert s == pat + post && HasPrefix(s, pat);
      assert s[|pat|..] == post;
      ReplaceAbsent(post, pat, rep);
    } else {
      assert s[0] == pre[0] != pat[0];
      assert !HasPrefix(s, pat);
      assert s[1..] == pre[1..] + pat + post;
      ReplaceOne(pre[1..], pat, rep, post);
    }
  }

  lemma {:induction false} ReplaceAbsent(s: string, pat: string, rep: string)
    requires pat != [] && pat[0] !in s
    ensures ReplaceAll(s, pat, rep) == s
    decreases |s|
  {
    if s != [] {
      assert s[0] != pat[0];
      assert !HasPrefix(s, pat);
      assert pat[0] !in s[1..];
      ReplaceAbsent(s[1..], pat, rep);
    }
  }

  /** A path of plain text ending in one placeholder, with a value for it. */
  lemma ResolveOne(pre: string, name: string, params: map<string, string>, escape: string -> string)
    requires pre != [] && !IsSpace(pre[0]) && '{' !in pre
    requires name != [] && '}' !in name && '{' !in name
    requires Given(params, name)
    ensures ResolveTemplate(pre + "{" + name + "}", params, escape)
         == Ok(pre + escape(TrimSpace(ParamValue(params, name))))
  {
    OnePlaceholder(pre, name);
    var rep := escape(TrimSpace(ParamValue(params, name)));
    ResolveSingle(pre + "{" + name + "}", name, params, escape);
    ReplaceAtEnd(pre, name, rep);
  }

  lemma ReplaceAtEnd(pre: string, name: string, rep: string)
    requires '{' !in pre
    ensures ReplaceAll(pre + "{" + name + "}", "{" + name + "}", rep) == pre + rep
  {
    var pat := "{" + name + "}";
    assert pre + "{" + name + "}" == pre + pat + [];
    ReplaceOne(pre, pat, rep, []);
    assert pre + rep + [] == pre + rep;
  }

  /** A trimmed template with a single placeholder that has a value. */
  lemma ResolveSingle(t: string, name: string, params: map<string, string>, escape: string -> string)
    requires !Blank(t) && TrimSpace(t) == t && Placeholders(t) == [name]
    requires Given(params, name)
    ensures ResolveTemplate(t, params, escape)
         == Ok(ReplaceAll(t, "{" + name + "}", escape(TrimSpace(ParamValue(params, name)))))
  {
    assert ResolveTemplate(t, params, escape) == Substitute(t, [name], params, escape);
    SubstituteStep(t, [name], params, escape);
    assert [name][1..] == [];
  }

  /** Such a path is already trimmed and holds just that placeholder. */
  lemma OnePlaceholder(pre: string, name: string)
    requires pre != [] && !IsSpace(pre[0]) && '{' !in pre
    requires name != [] && '}' !in name && '{' !in name
    ensures !Blank(pre + "{" + name + "}")
    ensures TrimSpace(pre + "{" + name + "}") == pre + "{" + name + "}"
    ensures Placeholders(pre + "{" + name + "}") == [name]
  {
    var t := pre + "{" + name + "}";
    assert t == pre + "{" + name + "}" + [];
    assert t[0] == pre[0] && t[|t| - 1] == '}';
    TrimSpaceOfTrimmed(t);
    PlaceholdersOfOne(pre, name, []);
  }

  /** The same path with no value for the placeholder. */
  lemma ResolveOneMissing(pre: string, name: string, escape: string -> string)
    requires pre != [] && !IsSpace(pre[0]) && '{' !in pre
    requires name != [] && '}' !in name && '{' !in name
    ensures ResolveTemplate(pre + "{" + name + "}", map[], escape) == Err(MissingPathParam(name))
  {
    OnePlaceholder(pre, name);
    assert !Given(map[], name);
  }

  /** The path-template test: a value for `contactId` is substituted. */
  lemma TemplateFixture(escape: string -> string)
    requires escape("abc123") == "abc123"
    ensures ResolveTemplate("/api/invoicing/v1/contacts/" + "{contactId}", map["contactId" := "abc123"], escape)
         == Ok("/api/invoicing/v1/contacts/" + "abc123")
  {
    var pre, name := "/api/invoicing/v1/contacts/", "contactId";
    var params := map["contactId" := "abc123"];
    PlainFixtureParts(pre, name);
    AbcGiven(params);
    ResolveOne(pre, name, params, escape);
    var t := pre + "{" + name + "}";
    var out := pre + escape(TrimSpace(ParamValue(params, name)));
    assert ResolveTemplate(t, params, escape) == Ok(out);
    assert out == pre + "abc123";
  }

  lemma PlainFixtureParts(pre: string, name: string)
    requires pre == "/api/invoicing/v1/contacts/" || pre == "/contacts/"
    requires name == "contactId"
    ensures pre != [] && !IsSpace(pre[0]) && '{' !in pre
    ensures name != [] && '}' !in name && '{' !in name
    ensures pre + "{" + name + "}" == pre + "{contactId}"
  {
  }

  lemma AbcGiven(params: map<string, string>)
    requires params == map["contactId" := "abc123"]
    ensures Given(params, "contactId") && TrimSpace(ParamValue(params, "contactId")) == "abc123"
  {
    assert ParamValue(params, "contactId") == "abc123";
    TrimSpaceOfTrimmed("abc123");
  }

  /** The path-template test: without a value for `contactId` the template fails. */
  lemma TemplateMissingFixture(escape: string -> string)
    ensures ResolveTemplate("/contacts/" + "{contactId}", map[], escape) == Err(MissingPathParam("contactId"))
  {
    PlainFixtureParts("/contacts/", "contactId");
    ResolveOneMissing("/contacts/", "contactId", escape);
  }

  /** `ResolvePathTemplate`. */
  method ResolvePathTemplate(pathTemplate: string, pathParams: map<string, string>, escape: string -> string)
    returns (r: Result<string, TemplateError>)
    ensures r == ResolveTemplate(pathTemplate, pathParams, escape)
  {
    var resolved := TrimSpace(pathTemplate);
    if resolved == [] {
      return Err(EmptyPath);
    }
    var matches := Placeholders(resolved);
    ResolveTemplateUnfold(pathTemplate, pathParams, escape);
    r := SubstituteAll(resolved, matches, pathParams, escape);
  }

  /** The loop of `ResolvePathTemplate` over the placeholders it found. */
  method SubstituteAll(template: string, matches: seq<string>, pathParams: map<string, string>,
                       escape: string -> string)
    returns (r: Result<string, TemplateError>)
    ensures r == Substitute(template, matches, pathParams, escape)
  {
    var resolved := template;
    for i := 0 to |matches|
      invariant Substitute(resolved, matches[i..], pathParams, escape)
             == Substitute(template, matches, pathParams, escape)
    {
      var name := matches[i];
      var value := TrimSpace(ParamValue(pathParams, name));
      if value == [] {
        SubstituteMissing(resolved, matches[i..], pathParams, escape);
        return Err(MissingPathParam(name));
      }
      SubstituteAdvance(resolved, matches, i, pathParams, escape);
      resolved := ReplaceAll(resolved, "{" + name + "}", escape(value));
    }
    assert matches[|matches|..] == [];
    r := Ok(resolved);
  }

  /** The loop's step: placeholder `i` has a value, so the substitution goes on with the
      placeholders after it. */
  lemma SubstituteAdvance(resolved: string, names: seq<string>, i: nat, params: map<string, string>,
                          escape: string -> string)
    requires i < |names| && TrimSpace(ParamValue(params, names[i])) != []
    ensures var value := TrimSpace(ParamValue(params, names[i]));
      Substitute(resolved, names[i..], params, escape)
        == Substitute(ReplaceAll(resolved, "{" + names[i] + "}", escape(value)), names[i + 1..], params, escape)
  {
    SubstituteStep(resolved, names[i..], params, escape);
    assert names[i..][1..] == names[i + 1..];
  }

  /** A template that is not blank resolves through its placeholders. */
  lemma ResolveTemplateUnfold(pathTemplate: string, params: map<string, string>, escape: string -> string)
    requires TrimSpace(pathTemplate) != []
    ensures var t := TrimSpace(pathTemplate);
      ResolveTemplate(pathTemplate, params, escape) == Substitute(t, Placeholders(t), params, escape)
  {
  }

  /** The first placeholder has a blank value: the substitution fails on it. */
  lemma SubstituteMissing(resolved: string, names: seq<string>, params: map<string, string>,
                          escape: string -> string)
    requires names != [] && TrimSpace(ParamValue(params, names[0])) == []
    ensures Substitute(resolved, names, params, escape) == Err(MissingPathParam(names[0]))
  {
  }
}
