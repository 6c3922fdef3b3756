/** The request authorisation table of the backend
    (Back-end/.../security/config/SecurityConfig.java): an ordered rule list where the first
    rule matching the request decides, followed by the check of that rule's requirement. */
module Security {
  import opened Wrappers

  datatype HttpMethod = GET | HEAD | POST | PUT | PATCH | DELETE | OPTIONS | TRACE

  /** A path pattern of the table: a prefix followed by a slash and a double star, which
      matches the prefix itself and everything below it; `AnyPath` is that pattern at the
      root, matching every path. */
  datatype PathPattern = AnyPath | Under(prefix: string)

  /** `anyRequest()`, or `requestMatchers([method,] patterns...)`. */
  datatype Matcher = AnyRequest | Match(verb: Option<HttpMethod>, patterns: seq<PathPattern>)

  datatype Access = PermitAll | HasRole(role: string) | Authenticated

  datatype Rule = Rule(matcher: Matcher, access: Access)

  datatype Request = Request(verb: HttpMethod, path: string)

  predicate PathMatches(p: PathPattern, path: string) {
    match p
    case AnyPath => true
    case Under(prefix) =>
      path == prefix || (|path| > |prefix| && path[..|prefix| + 1] == prefix + "/")
  }

  predicate RuleMatches(r: Rule, req: Request) {
    match r.matcher
    case AnyRequest => true
    case Match(m, patterns) =>
      (m.None? || m.value == req.verb) && MatchesSome(patterns, req.path)
  }

  /** Some pattern of the list matches the path. */
  predicate MatchesSome(patterns: seq<PathPattern>, path: string) {
    |patterns| > 0 && (PathMatches(patterns[0], path) || MatchesSome(patterns[1..], path))
  }

  /** Rule `i` matches and no earlier one does. */
  ghost predicate FirstMatch(rules: seq<Rule>, req: Request, i: int) {
    && 0 <= i < |rules|
    && RuleMatches(rules[i], req)
    && forall j :: 0 <= j < i ==> !RuleMatches(rules[j], req)
  }

  /** The access requirement of the first matching rule, `None` when no rule matches. */
  function Decide(rules: seq<Rule>, req: Request): (a: Option<Access>)
    ensures a.Some? <==> exists i :: 0 <= i < |rules| && RuleMatches(rules[i], req)
    ensures a.Some? ==> exists i :: FirstMatch(rules, req, i) && a.value == rules[i].access
    decreases |rules|
  {
    if |rules| == 0 then None
    else if RuleMatches(rules[0], req) then
      assert FirstMatch(rules, req, 0);
      Some(rules[0].access)
    else
      var a := Decide(rules[1..], req);
      assert forall i :: 1 <= i < |rules| ==> rules[i] == rules[1..][i - 1];
      assert a.Some? ==> exists i :: FirstMatch(rules[1..], req, i) && a.value == rules[1..][i].access;
      assert a.Some? ==> exists i :: FirstMatch(rules, req, i) && a.value == rules[i].access by {
        if a.Some? {
          var i :| FirstMatch(rules[1..], req, i) && a.value == rules[1..][i].access;
          assert FirstMatch(rules, req, i + 1);
        }
      }
      a
  }

  lemma MatchesSomeOfOne(a: PathPattern, path: string)
    ensures MatchesSome([a], path) <==> PathMatches(a, path)
  {
    assert [a][1..] == [];
  }

  lemma MatchesCatalogue(path: string)
    ensures MatchesSome(ProductsAndCategories, path) <==> UnderCatalogue(path)
  {
    var ps := ProductsAndCategories;
    assert ps[1..] == [ps[1]];
    MatchesSomeOfOne(ps[1], path);
  }

  /** The table in declaration order. */
  const ProductsAndCategories := [Under("/api/products"), Under("/api/categories")]
  const SpaRules: seq<Rule> := [
    Rule(Match(Some(OPTIONS), [AnyPath]), PermitAll),
    Rule(Match(None, [Under("/api/auth")]), PermitAll),
    Rule(Match(Some(GET), ProductsAndCategories), PermitAll),
    Rule(Match(Some(POST), ProductsAndCategories), HasRole("ADMIN")),
    Rule(Match(Some(PUT), ProductsAndCategories), HasRole("ADMIN")),
    Rule(Match(Some(DELETE), ProductsAndCategories), HasRole("ADMIN")),
    Rule(AnyRequest, Authenticated)
  ]

  predicate UnderCatalogue(path: string) {
    PathMatches(Under("/api/products"), path) || PathMatches(Under("/api/categories"), path)
  }

  /** No path lies both under the catalogue prefixes and under `/api/auth`. */
  lemma CatalogueNotAuth(path: string)
    requires UnderCatalogue(path)
    ensures !PathMatches(Under("/api/auth"), path)
  {
    assert path[5] == 'p' || path[5] == 'c' by {
      if PathMatches(Under("/api/products"), path) {
        assert path == "/api/products" || path[..14] == "/api/products/";
        assert path[5] == "/api/products"[5];
      } else {
        assert path == "/api/categories" || path[..16] == "/api/categories/";
        assert path[5] == "/api/categories"[5];
      }
    }
  }

  /** Every request meets some rule: the last one matches everything. */
  lemma SpaRulesTotal(req: Request)
    ensures Decide(SpaRules, req).Some?
  {
    assert RuleMatches(SpaRules[6], req);
  }

  /** CORS preflights are never challenged. */
  lemma PreflightPermitted(path: string)
    ensures Decide(SpaRules, Request(OPTIONS, path)) == Some(PermitAll)
  {
    assert PathMatches(AnyPath, path);
    assert RuleMatches(SpaRules[0], Request(OPTIONS, path));
  }

  /** Everything under `/api/auth` is public, whatever the method. */
  lemma AuthEndpointsPermitted(m: HttpMethod, path: string)
    requires PathMatches(Under("/api/auth"), path)
    ensures Decide(SpaRules, Request(m, path)) == Some(PermitAll)
  {
    assert RuleMatches(SpaRules[1], Request(m, path));
  }

  /** Reading the catalogue is public. */
  lemma CatalogueReadsPermitted(path: string)
    requires UnderCatalogue(path)
    ensures Decide(SpaRules, Request(GET, path)) == Some(PermitAll)
  {
    var req := Request(GET, path);
    CatalogueNotAuth(path);
    MatchesSomeOfOne(Under("/api/auth"), path);
    MatchesCatalogue(path);
    assert !RuleMatches(SpaRules[1], req);
    assert RuleMatches(SpaRules[2], req);
  }

  /** Writing the catalogue with POST, PUT or DELETE needs the ADMIN role. */
  lemma CatalogueWritesNeedAdmin(m: HttpMethod, path: string)
    requires m == POST || m == PUT || m == DELETE
    requires UnderCatalogue(path)
    ensures Decide(SpaRules, Request(m, path)) == Some(HasRole("ADMIN"))
  {
    var req := Request(m, path);
    CatalogueNotAuth(path);
    MatchesSomeOfOne(Under("/api/auth"), path);
    MatchesCatalogue(path);
    assert !RuleMatches(SpaRules[1], req);
    if m == POST {
      assert RuleMatches(SpaRules[3], req);
    } else if m == PUT {
      assert RuleMatches(SpaRules[4], req);
    } else {
      assert RuleMatches(SpaRules[5], req);
    }
  }

  /** Any other request (not a preflight, not under `/api/auth`, not a catalogue request
      with GET, POST, PUT or DELETE) only needs an authenticated caller; a PATCH or HEAD on
      a product, for one, needs no ADMIN role. */
  lemma OthersNeedAuthentication(req: Request)
    requires req.verb != OPTIONS
    requires !PathMatches(Under("/api/auth"), req.path)
    requires !UnderCatalogue(req.path) || req.verb !in {GET, POST, PUT, DELETE}
    ensures Decide(SpaRules, req) == Some(Authenticated)
  {
    MatchesSomeOfOne(Under("/api/auth"), req.path);
    MatchesCatalogue(req.path);
    assert RuleMatches(SpaRules[6], req);
  }

  function Swap(rules: seq<Rule>, i: nat): (r: seq<Rule>)
    requires i + 1 < |rules|
    ensures |r| == |rules| && r[i] == rules[i + 1] && r[i + 1] == rules[i]
    ensures forall j :: 0 <= j < |rules| && j != i && j != i + 1 ==> r[j] == rules[j]
  {
    rules[..i] + [rules[i + 1], rules[i]] + rules[i + 2..]
  }

  /** First-match order only matters between rules that can match the same request:
      exchanging two neighbours that do not both match a request leaves its decision as it
      was. */
  lemma {:induction false} SwapNonOverlapping(rules: seq<Rule>, i: nat, req: Request)
    requires i + 1 < |rules|
    requires !(RuleMatches(rules[i], req) && RuleMatches(rules[i + 1], req))
    ensures Decide(Swap(rules, i), req) == Decide(rules, req)
    decreases i
  {
    var s := Swap(rules, i);
    if i == 0 {
      if !RuleMatches(rules[0], req) && !RuleMatches(rules[1], req) {
        assert s[1..][1..] == rules[2..];
        assert rules[1..][1..] == rules[2..];
      }
    } else if !RuleMatches(rules[0], req) {
      assert s[1..] == Swap(rules[1..], i - 1);
      SwapNonOverlapping(rules[1..], i - 1, req);
    }
  }

  /** Instance: the POST and PUT rules for the catalogue can be declared in either order. */
  lemma AdminRulesCommute(req: Request)
    ensures Decide(Swap(SpaRules, 3), req) == Decide(SpaRules, req)
  {
    SwapNonOverlapping(SpaRules, 3, req);
  }

  /** Who is asking: nobody (no valid token) or a user with these granted authorities. */
  datatype Principal = Anonymous | User(authorities: set<string>)

  datatype Verdict = Allow | NotAuthenticated | AccessDenied

  /** What the requirement means for a caller: `hasRole("ADMIN")` is the authority
      "ROLE_ADMIN"; an anonymous caller of a protected endpoint is rejected as not
      authenticated, an authenticated one lacking the authority is denied access. */
  function Authorize(a: Access, p: Principal): (v: Verdict)
    ensures v == Allow <==> a.PermitAll? || (p.User? && (a.HasRole? ==> "ROLE_" + a.role in p.authorities))
    ensures v == NotAuthenticated <==> !a.PermitAll? && p.Anonymous?
  {
    match a
    case PermitAll => Allow
    case Authenticated => if p.Anonymous? then NotAuthenticated else Allow
    case HasRole(role) =>
      if p.Anonymous? then NotAuthenticated
      else if "ROLE_" + role in p.authorities then Allow
      else AccessDenied
  }
}
