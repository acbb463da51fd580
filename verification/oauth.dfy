/**
 * The token store of the beacon's MCP authorisation server (crates/beacon/src/mcp.rs): authorisation codes, grants
 * and their token families, following section 4.1.2 and section 6 of RFC 6749, section 4.6 of RFC 7636 and
 * section 4.14.2 of RFC 9700. Each transaction is one step; time passes in between.
 */
module OAuth {
  import opened Common

  /** What the store keeps of a verifier: its hash, which tells verifiers apart. */
  datatype Challenge = S256(verifier: string)

  datatype Kind = Access | Refresh

  datatype Grant = Grant(account: nat, installation: nat, client: Option<nat>, scopes: set<string>, expires: nat)
  datatype Token = Token(grant: nat, kind: Kind, scopes: set<string>, used: bool, expires: nat)
  datatype Code = Code(
    account: nat, installation: nat, client: nat, redirect: string, challenge: Challenge, scopes: set<string>,
    expires: nat, grant: Option<nat>
  )

  /**
   * The tables. `seen` are all random values ever made; `consented` and `source` remember, for each grant ever
   * made, the scopes its owner agreed to and the code it came from.
   */
  datatype State = State(
    now: nat, owners: map<nat, nat>,
    grants: map<nat, Grant>, tokens: map<nat, Token>, codes: map<nat, Code>,
    seen: set<nat>, consented: map<nat, set<string>>, source: map<nat, nat>
  )

  const INITIAL := State(0, map[], map[], map[], map[], {}, map[], map[])

  const HOUR := 3_600
  const MONTH := 2_592_000
  const CODE_LIFE := 300

  /** The values of a token request; `scope` is `None` when the parameter is empty. */
  datatype Request =
    | CodeRequest(code: nat, client: nat, redirect: string, verifier: string, resource: bool)
    | RefreshRequest(token: nat, client: nat, resource: bool, scope: Option<set<string>>)

  datatype Response = Issued(grant: nat, scopes: set<string>) | InvalidGrant | InvalidScope

  datatype Action =
    | Claim(installation: nat, account: nat)
    | Detach(installation: nat)
    | Consent(installation: nat, client: nat, redirect: string, challenge: Challenge, scopes: set<string>, made: nat)
    | Personal(installation: nat, scopes: set<string>, grant: nat, token: nat)
    | Exchange(request: Request, grant: nat, access: nat, refresh: nat)
    | Revoke(grant: nat)
    | RevokeToken(token: nat, client: nat)
    | Cleanup
    | Tick(seconds: nat)

  // ----- Deleting -----

  /** Deleting grants takes their tokens and their code with them. */
  function Without(s: State, gone: set<nat>): State {
    s.(grants := map g | g in s.grants && g !in gone :: s.grants[g],
       tokens := map t | t in s.tokens && s.tokens[t].grant !in gone :: s.tokens[t],
       codes := map c | c in s.codes && !(s.codes[c].grant.Some? && s.codes[c].grant.value in gone) :: s.codes[c])
  }

  function WithoutStaleCodes(s: State): State {
    s.(codes := map c | c in s.codes && !(s.codes[c].grant.None? && s.codes[c].expires <= s.now) :: s.codes[c])
  }

  // ----- The token endpoint -----

  predicate Owned(s: State, installation: nat, account: nat) {
    installation in s.owners && s.owners[installation] == account
  }

  predicate VerifierOk(verifier: string) {
    43 <= |verifier| <= 128 && forall i :: 0 <= i < |verifier| ==> Unreserved(verifier[i])
  }

  predicate Unreserved(c: char) {
    'a' <= c <= 'z' || 'A' <= c <= 'Z' || '0' <= c <= '9' || c in "-._~"
  }

  predicate CodeMatches(c: Code, r: Request)
    requires r.CodeRequest?
  {
    r.client == c.client && r.redirect == c.redirect && VerifierOk(r.verifier) && S256(r.verifier) == c.challenge && r.resource
  }

  /** The code can be looked up: unspent and unexpired, or spent; its installation is still its owner's. */
  predicate CodeFound(s: State, code: nat) {
    && code in s.codes && Owned(s, s.codes[code].installation, s.codes[code].account)
    && (s.codes[code].grant.Some? || s.codes[code].expires > s.now)
  }

  predicate RefreshFound(s: State, token: nat) {
    && token in s.tokens && s.tokens[token].kind.Refresh? && s.tokens[token].expires > s.now
    && s.tokens[token].grant in s.grants && s.grants[s.tokens[token].grant].expires > s.now
    && Owned(s, s.grants[s.tokens[token].grant].installation, s.grants[s.tokens[token].grant].account)
  }

  /** The request presents a credential that was spent before, correctly in every other respect. */
  predicate Replay(s: State, r: Request) {
    match r
    case CodeRequest(code, _, _, _, _) => CodeFound(s, code) && CodeMatches(s.codes[code], r) && s.codes[code].grant.Some?
    case RefreshRequest(token, client, resource, _) =>
      RefreshFound(s, token) && s.grants[s.tokens[token].grant].client == Some(client) && resource && s.tokens[token].used
  }

  function ReplayedGrant(s: State, r: Request): nat
    requires Replay(s, r)
  {
    match r
    case CodeRequest(code, _, _, _, _) => s.codes[code].grant.value
    case RefreshRequest(token, _, _, _) => s.tokens[token].grant
  }

  function Respond(s: State, r: Request, made: nat): Response {
    if Replay(s, r) then InvalidGrant
    else if r.CodeRequest? then
      if CodeFound(s, r.code) && CodeMatches(s.codes[r.code], r) then Issued(made, s.codes[r.code].scopes) else InvalidGrant
    else if RefreshFound(s, r.token) && s.grants[s.tokens[r.token].grant].client == Some(r.client) && r.resource then
      var scopes := s.tokens[r.token].scopes;
      if r.scope.None? then Issued(s.tokens[r.token].grant, scopes)
      else if r.scope.value == {} || !(r.scope.value <= scopes) then InvalidScope
      else Issued(s.tokens[r.token].grant, r.scope.value)
    else InvalidGrant
  }

  /** The grant a successful request creates or renews. */
  function IssuedGrant(s: State, r: Request, scopes: set<string>): Grant
    requires if r.CodeRequest? then r.code in s.codes else r.token in s.tokens && s.tokens[r.token].grant in s.grants
  {
    if r.CodeRequest? then
      var c := s.codes[r.code];
      Grant(c.account, c.installation, Some(c.client), scopes, s.now + MONTH)
    else
      s.grants[s.tokens[r.token].grant].(scopes := scopes, expires := s.now + MONTH)
  }

  /** The credential presented is spent. */
  function Spend(s: State, r: Request, grant: nat): State
    requires if r.CodeRequest? then r.code in s.codes else r.token in s.tokens
  {
    if r.CodeRequest? then
      s.(codes := s.codes[r.code := s.codes[r.code].(grant := Some(grant))],
         consented := s.consented[grant := s.codes[r.code].scopes], source := s.source[grant := r.code])
    else
      s.(tokens := s.tokens[r.token := s.tokens[r.token].(used := true)])
  }

  function AddPair(s: State, grant: nat, scopes: set<string>, access: nat, refresh: nat): State {
    s.(tokens := s.tokens[access := Token(grant, Access, scopes, false, s.now + HOUR)]
                         [refresh := Token(grant, Refresh, scopes, false, s.now + MONTH)])
  }

  function ExchangeTokens(s: State, r: Request, made: nat, access: nat, refresh: nat): State {
    if Replay(s, r) then Without(s, {ReplayedGrant(s, r)})
    else
      match Respond(s, r, made)
      case Issued(grant, scopes) =>
        AddPair(Spend(s, r, grant).(grants := s.grants[grant := IssuedGrant(s, r, scopes)], seen := s.seen + {made, access, refresh}),
                grant, scopes, access, refresh)
      case _ => s
  }

  // ----- Steps -----

  predicate Enabled(s: State, a: Action) {
    match a
    case Claim(i, _) => i !in s.owners
    case Detach(i) => i in s.owners
    case Consent(i, _, _, _, scopes, made) => i in s.owners && made !in s.seen && scopes != {}
    case Personal(i, scopes, g, t) => i in s.owners && g !in s.seen && t !in s.seen && g != t && scopes != {}
    case Exchange(_, g, x, y) => g !in s.seen && x !in s.seen && y !in s.seen && g != x && g != y && x != y
    case _ => true
  }

  function Apply(s: State, a: Action): State
    requires Enabled(s, a)
  {
    match a
    case Claim(i, account) => s.(owners := s.owners[i := account])
    case Detach(i) =>
      var rest := Without(s, set g | g in s.grants && s.grants[g].installation == i);
      rest.(owners := s.owners - {i}, codes := map c | c in rest.codes && rest.codes[c].installation != i :: rest.codes[c])
    case Consent(i, client, redirect, challenge, scopes, made) =>
      var rest := WithoutStaleCodes(s);
      rest.(codes := rest.codes[made := Code(s.owners[i], i, client, redirect, challenge, scopes, s.now + CODE_LIFE, None)],
            seen := s.seen + {made})
    case Personal(i, scopes, g, t) =>
      s.(grants := s.grants[g := Grant(s.owners[i], i, None, scopes, s.now + MONTH)],
         tokens := s.tokens[t := Token(g, Access, scopes, false, s.now + MONTH)],
         seen := s.seen + {g, t}, consented := s.consented[g := scopes])
    case Exchange(r, g, x, y) => ExchangeTokens(s, r, g, x, y)
    case Revoke(g) => Without(s, {g})
    case RevokeToken(t, client) =>
      if t in s.tokens && s.tokens[t].grant in s.grants && s.grants[s.tokens[t].grant].client == Some(client)
      then Without(s, {s.tokens[t].grant}) else s
    case Cleanup =>
      var rest := Without(s, set g | g in s.grants && s.grants[g].expires <= s.now);
      WithoutStaleCodes(rest.(tokens := map t | t in rest.tokens && rest.tokens[t].expires > s.now :: rest.tokens[t]))
    case Tick(seconds) => s.(now := s.now + seconds)
  }

  /** `access`: the scopes a bearer may use, if any. */
  function Authorized(s: State, token: nat): Option<set<string>> {
    if && token in s.tokens && s.tokens[token].kind.Access? && !s.tokens[token].used && s.tokens[token].expires > s.now
       && s.tokens[token].grant in s.grants && s.grants[s.tokens[token].grant].expires > s.now
       && Owned(s, s.grants[s.tokens[token].grant].installation, s.grants[s.tokens[token].grant].account)
    then Some(s.tokens[token].scopes)
    else None
  }

  ghost predicate Runs(s: State, run: seq<Action>)
    decreases |run|
  {
    run == [] || (Enabled(s, run[0]) && Runs(Apply(s, run[0]), run[1..]))
  }

  ghost function End(s: State, run: seq<Action>): State
    requires Runs(s, run)
    decreases |run|
  {
    if run == [] then s else End(Apply(s, run[0]), run[1..])
  }

  ghost predicate Reachable(s: State) {
    exists run :: Runs(INITIAL, run) && End(INITIAL, run) == s
  }

  // ----- What every step keeps -----

  ghost predicate TokenOk(s: State, t: nat)
    requires t in s.tokens
  {
    var token := s.tokens[t];
    && t in s.seen && token.grant in s.grants && token.grant in s.consented && token.scopes <= s.consented[token.grant]
    && (token.kind.Refresh? && !token.used ==> token.scopes == s.grants[token.grant].scopes)
  }

  ghost predicate GrantOk(s: State, g: nat)
    requires g in s.grants
  {
    g in s.seen && g in s.consented && s.grants[g].scopes <= s.consented[g]
  }

  ghost predicate CodeOk(s: State, c: nat)
    requires c in s.codes
  {
    c in s.seen && (s.codes[c].grant.Some? ==> s.codes[c].grant.value in s.grants)
  }

  /** Live refresh tokens of one grant are one token. */
  ghost predicate OneLive(s: State) {
    forall t, u :: LiveFor(s, t, u) ==> t == u
  }

  ghost predicate LiveFor(s: State, t: nat, u: nat) {
    && t in s.tokens && u in s.tokens && Live(s.tokens[t]) && Live(s.tokens[u])
    && s.tokens[t].grant == s.tokens[u].grant
  }

  ghost predicate Live(t: Token) { t.kind.Refresh? && !t.used }

  /** The code a grant came from is spent on that grant, or gone. */
  ghost predicate SourceOk(s: State, g: nat)
    requires g in s.source
  {
    && g in s.seen && g in s.consented && s.source[g] in s.seen
    && (s.source[g] in s.codes ==> s.codes[s.source[g]].grant == Some(g))
  }

  ghost predicate SourcesDiffer(s: State) {
    forall g, h :: g in s.source && h in s.source && s.source[g] == s.source[h] ==> g == h
  }

  ghost predicate Inv(s: State) {
    && (forall t :: t in s.tokens ==> TokenOk(s, t))
    && (forall g :: g in s.grants ==> GrantOk(s, g))
    && (forall c :: c in s.codes ==> CodeOk(s, c))
    && (forall g :: g in s.source ==> SourceOk(s, g))
    && (forall g :: g in s.consented ==> g in s.seen)
    && OneLive(s) && SourcesDiffer(s)
  }

  /** Rows are only deleted, and never without the rows that refer to them. */
  ghost predicate Shrinks(s: State, s': State) {
    && s'.seen == s.seen && s'.consented == s.consented && s'.source == s.source
    && (forall g :: g in s'.grants ==> g in s.grants && s'.grants[g] == s.grants[g])
    && (forall t :: t in s'.tokens ==> t in s.tokens && s'.tokens[t] == s.tokens[t] && s'.tokens[t].grant in s'.grants)
    && (forall c :: c in s'.codes ==> c in s.codes && s'.codes[c] == s.codes[c]
                                      && (s'.codes[c].grant.Some? ==> s'.codes[c].grant.value in s'.grants))
  }

  lemma ShrinkingKeepsInv(s: State, s': State)
    requires Inv(s) && Shrinks(s, s')
    ensures Inv(s')
  {
    forall t | t in s'.tokens ensures TokenOk(s', t) { assert TokenOk(s, t); }
    forall g | g in s'.grants ensures GrantOk(s', g) { assert GrantOk(s, g); }
    forall g | g in s'.source ensures SourceOk(s', g) { assert SourceOk(s, g); }
    forall c | c in s'.codes ensures CodeOk(s', c) { assert CodeOk(s, c); }
    forall t, u | LiveFor(s', t, u) ensures t == u { assert LiveFor(s, t, u); }
  }

  lemma WithoutShrinks(s: State, gone: set<nat>)
    requires Inv(s)
    ensures Shrinks(s, Without(s, gone))
  {
    var s' := Without(s, gone);
    forall t | t in s'.tokens ensures s'.tokens[t].grant in s'.grants { assert TokenOk(s, t); }
    forall c | c in s'.codes && s'.codes[c].grant.Some? ensures s'.codes[c].grant.value in s'.grants { assert CodeOk(s, c); }
  }

  lemma DetachKeepsInv(s: State, i: nat)
    requires Inv(s) && Enabled(s, Detach(i))
    ensures Inv(Apply(s, Detach(i)))
  {
    WithoutShrinks(s, set g | g in s.grants && s.grants[g].installation == i);
    ShrinkingKeepsInv(s, Apply(s, Detach(i)));
  }

  lemma CleanupKeepsInv(s: State)
    requires Inv(s)
    ensures Inv(Apply(s, Cleanup))
  {
    WithoutShrinks(s, set g | g in s.grants && s.grants[g].expires <= s.now);
    ShrinkingKeepsInv(s, Apply(s, Cleanup));
  }

  lemma RevocationsKeepInv(s: State, a: Action)
    requires Inv(s) && Enabled(s, a) && (a.Revoke? || a.RevokeToken?)
    ensures Inv(Apply(s, a))
  {
    if a.Revoke? {
      WithoutShrinks(s, {a.grant});
      ShrinkingKeepsInv(s, Without(s, {a.grant}));
    } else if a.token in s.tokens {
      WithoutShrinks(s, {s.tokens[a.token].grant});
      ShrinkingKeepsInv(s, Without(s, {s.tokens[a.token].grant}));
    }
  }

  lemma AdditionsKeepInv(s: State, a: Action)
    requires Inv(s) && Enabled(s, a) && (a.Claim? || a.Consent? || a.Personal? || a.Tick?)
    ensures Inv(Apply(s, a))
  {
    var s' := Apply(s, a);
    forall t | t in s'.tokens ensures TokenOk(s', t) { assert t in s.tokens ==> TokenOk(s, t); }
    forall g | g in s'.grants ensures GrantOk(s', g) { assert g in s.grants ==> GrantOk(s, g); }
    forall g | g in s'.source ensures SourceOk(s', g) { assert SourceOk(s, g); }
    forall c | c in s'.codes ensures CodeOk(s', c) { assert c in s.codes ==> CodeOk(s, c); }
    forall t, u | LiveFor(s', t, u) ensures t == u { assert LiveFor(s, t, u); }
  }

  // A successful exchange, table by table.

  /** The request succeeds with these results. */
  ghost predicate Succeeds(s: State, a: Action, grant: nat, scopes: set<string>) {
    && Enabled(s, a) && a.Exchange? && Respond(s, a.request, a.grant) == Issued(grant, scopes)
  }

  lemma SuccessIs(s: State, a: Action, grant: nat, scopes: set<string>)
    requires Inv(s) && Succeeds(s, a, grant, scopes)
    ensures var s' := Apply(s, a);
            && s'.grants == s.grants[grant := IssuedGrant(s, a.request, scopes)]
            && s'.tokens == AddPair(Spend(s, a.request, grant), grant, scopes, a.access, a.refresh).tokens
            && s'.codes == Spend(s, a.request, grant).codes
            && s'.consented == Spend(s, a.request, grant).consented && s'.source == Spend(s, a.request, grant).source
            && s'.seen == s.seen + {a.grant, a.access, a.refresh}
  {
  }

  lemma SuccessTokens(s: State, a: Action, grant: nat, scopes: set<string>, s': State, t: nat)
    requires Inv(s) && Succeeds(s, a, grant, scopes) && s' == Apply(s, a) && t in s'.tokens
    ensures TokenOk(s', t)
  {
    SuccessIs(s, a, grant, scopes);
    if a.request.RefreshRequest? {
      var spent := a.request.token;
      assert TokenOk(s, spent);
      if t in s.tokens && t != spent {
        assert TokenOk(s, t);
        assert !LiveFor(s, t, spent);
      }
    } else {
      assert CodeOk(s, a.request.code);
      assert t in s.tokens ==> TokenOk(s, t);
    }
  }

  lemma SuccessOneLive(s: State, a: Action, grant: nat, scopes: set<string>, s': State, t: nat, u: nat)
    requires Inv(s) && Succeeds(s, a, grant, scopes) && s' == Apply(s, a) && LiveFor(s', t, u)
    ensures t == u
  {
    SuccessIs(s, a, grant, scopes);
    assert t in s.tokens ==> TokenOk(s, t);
    assert u in s.tokens ==> TokenOk(s, u);
    if t in s.tokens && u in s.tokens {
      assert LiveFor(s, t, u);
    } else if a.request.RefreshRequest? {
      var spent := a.request.token;
      assert t in s.tokens && s.tokens[t].grant == grant && Live(s.tokens[t]) ==> LiveFor(s, t, spent);
      assert u in s.tokens && s.tokens[u].grant == grant && Live(s.tokens[u]) ==> LiveFor(s, u, spent);
    }
  }

  lemma SuccessGrants(s: State, a: Action, grant: nat, scopes: set<string>, s': State)
    requires Inv(s) && Succeeds(s, a, grant, scopes) && s' == Apply(s, a)
    ensures forall g :: g in s'.grants ==> GrantOk(s', g)
    ensures forall c :: c in s'.codes ==> CodeOk(s', c)
    ensures forall g :: g in s'.consented ==> g in s'.seen
  {
    SuccessIs(s, a, grant, scopes);
    if a.request.RefreshRequest? { assert TokenOk(s, a.request.token); }
    forall g | g in s'.grants ensures GrantOk(s', g) { assert g in s.grants ==> GrantOk(s, g); }
    forall c | c in s'.codes ensures CodeOk(s', c) { assert CodeOk(s, c); }
  }

  lemma SuccessSource(s: State, a: Action, grant: nat, scopes: set<string>, s': State, g: nat)
    requires Inv(s) && Succeeds(s, a, grant, scopes) && s' == Apply(s, a) && g in s'.source
    ensures SourceOk(s', g)
    ensures a.request.CodeRequest? && g in s.source ==> s.source[g] != a.request.code
  {
    SuccessIs(s, a, grant, scopes);
    if a.request.CodeRequest? { assert CodeOk(s, a.request.code); }
    if g in s.source { assert SourceOk(s, g); }
  }

  lemma SuccessSources(s: State, a: Action, grant: nat, scopes: set<string>, s': State)
    requires Inv(s) && Succeeds(s, a, grant, scopes) && s' == Apply(s, a)
    ensures (forall g :: g in s'.source ==> SourceOk(s', g)) && SourcesDiffer(s')
  {
    forall g | g in s'.source
      ensures SourceOk(s', g) && (a.request.CodeRequest? && g in s.source ==> s.source[g] != a.request.code)
    {
      SuccessSource(s, a, grant, scopes, s', g);
    }
    assert s'.source == Spend(s, a.request, grant).source by { SuccessIs(s, a, grant, scopes); }
  }

  lemma ExchangeKeepsInv(s: State, a: Action)
    requires Inv(s) && Enabled(s, a) && a.Exchange?
    ensures Inv(Apply(s, a))
  {
    var s' := Apply(s, a);
    var response := Respond(s, a.request, a.grant);
    if Replay(s, a.request) {
      WithoutShrinks(s, {ReplayedGrant(s, a.request)});
      ShrinkingKeepsInv(s, s');
    } else if response.Issued? {
      var grant, scopes := response.grant, response.scopes;
      forall t | t in s'.tokens ensures TokenOk(s', t) { SuccessTokens(s, a, grant, scopes, s', t); }
      forall t, u | LiveFor(s', t, u) ensures t == u { SuccessOneLive(s, a, grant, scopes, s', t, u); }
      SuccessGrants(s, a, grant, scopes, s');
      SuccessSources(s, a, grant, scopes, s');
    }
  }

  lemma KeepsInv(s: State, a: Action)
    requires Inv(s) && Enabled(s, a)
    ensures Inv(Apply(s, a))
  {
    if a.Exchange? {
      ExchangeKeepsInv(s, a);
    } else if a.Claim? || a.Consent? || a.Personal? || a.Tick? {
      AdditionsKeepInv(s, a);
    } else if a.Detach? {
      DetachKeepsInv(s, a.installation);
    } else if a.Cleanup? {
      CleanupKeepsInv(s);
    } else {
      RevocationsKeepInv(s, a);
    }
  }

  // ----- Main results -----

  /** A grant has at most one refresh token that still works, and it carries the grant's scopes. */
  lemma OneLiveRefresh(s: State, t: nat, u: nat)
    requires Reachable(s) && LiveFor(s, t, u)
    ensures t == u && s.tokens[t].grant in s.grants && s.tokens[t].scopes == s.grants[s.tokens[t].grant].scopes
  {
    ReachableInv(s);
    assert TokenOk(s, t);
  }

  /** A code has made at most one grant, ever. */
  lemma OneGrantPerCode(s: State, g: nat, h: nat)
    requires Reachable(s) && g in s.source && h in s.source && s.source[g] == s.source[h]
    ensures g == h
  {
    ReachableInv(s);
  }

  /** What a bearer may do is never more than the owner consented to. */
  lemma NeverMoreThanConsented(s: State, token: nat)
    requires Reachable(s) && Authorized(s, token).Some?
    ensures s.tokens[token].grant in s.consented
    ensures Authorized(s, token).value <= s.consented[s.tokens[token].grant]
  {
    ReachableInv(s);
    assert TokenOk(s, token);
  }

  /** One step neither widens a grant nor brings back a grant or a code. */
  ghost predicate Onward(s: State, s': State) {
    && s.seen <= s'.seen
    && (forall g :: g in s.grants && g in s'.grants ==> s'.grants[g].scopes <= s.grants[g].scopes)
    && (forall g :: g in s.seen && g in s'.grants ==> g in s.grants)
    && (forall c :: c in s.seen && c in s'.codes ==> c in s.codes)
  }

  lemma StepsGoOnward(s: State, a: Action)
    requires Inv(s) && Enabled(s, a)
    ensures Onward(s, Apply(s, a))
  {
    if a.Exchange? && !Replay(s, a.request) && Respond(s, a.request, a.grant).Issued? {
      var response := Respond(s, a.request, a.grant);
      SuccessIs(s, a, response.grant, response.scopes);
      if a.request.RefreshRequest? { assert TokenOk(s, a.request.token); }
    }
  }

  /** Over any run, grants only narrow, and deleted grants and codes stay deleted. */
  lemma {:induction false} RunsGoOnward(s: State, run: seq<Action>)
    requires Inv(s) && Runs(s, run)
    ensures Onward(s, End(s, run)) && Inv(End(s, run))
    decreases |run|
  {
    if run != [] {
      var s' := Apply(s, run[0]);
      StepsGoOnward(s, run[0]);
      KeepsInv(s, run[0]);
      RunsGoOnward(s', run[1..]);
      var end := End(s', run[1..]);
      forall g | g in s.grants && g in end.grants ensures end.grants[g].scopes <= s.grants[g].scopes {
        assert GrantOk(s, g);
        assert g in s'.grants;
      }
    }
  }

  lemma ReachableInv(s: State)
    requires Reachable(s)
    ensures Inv(s)
  {
    var run :| Runs(INITIAL, run) && End(INITIAL, run) == s;
    RunsGoOnward(INITIAL, run);
  }

  /** No token, spent or not, and no code is left of a grant. */
  ghost predicate FamilyGone(s: State, g: nat) {
    && g !in s.grants
    && (forall t :: t in s.tokens ==> s.tokens[t].grant != g)
    && (forall c :: c in s.codes ==> s.codes[c].grant != Some(g))
  }

  lemma GoneForGood(s: State, g: nat, run: seq<Action>)
    requires Inv(s) && g in s.seen && g !in s.grants && Runs(s, run)
    ensures FamilyGone(End(s, run), g)
  {
    RunsGoOnward(s, run);
    var end := End(s, run);
    forall t | t in end.tokens ensures end.tokens[t].grant != g { assert TokenOk(end, t); }
    forall c | c in end.codes ensures end.codes[c].grant != Some(g) { assert CodeOk(end, c); }
  }

  /** Replaying a spent code or refresh token ends its whole family, for good. */
  lemma ReplayEndsTheFamily(s: State, a: Action, run: seq<Action>)
    requires Reachable(s) && a.Exchange? && Enabled(s, a) && Replay(s, a.request) && Runs(Apply(s, a), run)
    ensures Respond(s, a.request, a.grant) == InvalidGrant
    ensures FamilyGone(End(Apply(s, a), run), ReplayedGrant(s, a.request))
  {
    ReachableInv(s);
    KeepsInv(s, a);
    var g := ReplayedGrant(s, a.request);
    if a.request.CodeRequest? { assert CodeOk(s, a.request.code); }
    assert GrantOk(s, g);
    GoneForGood(Apply(s, a), g, run);
  }

  /** No grant, token or code of an installation survives its detach, whoever claims it again. */
  lemma DetachLeavesNothing(s: State, i: nat, run: seq<Action>)
    requires Reachable(s) && Enabled(s, Detach(i)) && Runs(Apply(s, Detach(i)), run)
    ensures var end := End(Apply(s, Detach(i)), run);
            && (forall g :: g in s.grants && s.grants[g].installation == i ==> FamilyGone(end, g))
            && (forall c :: c in s.codes && s.codes[c].installation == i ==> c !in end.codes)
  {
    ReachableInv(s);
    KeepsInv(s, Detach(i));
    var s' := Apply(s, Detach(i));
    var end := End(s', run);
    forall g | g in s.grants && s.grants[g].installation == i ensures FamilyGone(end, g) {
      assert GrantOk(s, g);
      GoneForGood(s', g, run);
    }
    forall c | c in s.codes && s.codes[c].installation == i ensures c !in end.codes {
      assert CodeOk(s, c);
      RunsGoOnward(s', run);
    }
  }

  /** A later grant of a family is never wider than an earlier one. */
  lemma ScopesOnlyShrink(s: State, g: nat, run: seq<Action>)
    requires Reachable(s) && Runs(s, run) && g in s.grants && g in End(s, run).grants
    ensures End(s, run).grants[g].scopes <= s.grants[g].scopes
  {
    ReachableInv(s);
    RunsGoOnward(s, run);
  }

  /** A refresh issues tokens within the scopes of the token presented, which stops working. */
  lemma RefreshNarrows(s: State, a: Action)
    requires Reachable(s) && a.Exchange? && a.request.RefreshRequest? && Enabled(s, a)
    requires Respond(s, a.request, a.grant).Issued?
    ensures var s' := Apply(s, a);
            var spent := a.request.token;
            && spent in s.tokens && spent in s'.tokens && s'.tokens[spent].used && a.refresh in s'.tokens
            && s'.tokens[a.refresh].scopes <= s.tokens[spent].scopes && s'.tokens[a.refresh].grant == s.tokens[spent].grant
            && Authorized(s', a.access) == Some(s'.tokens[a.refresh].scopes)
  {
    ReachableInv(s);
    var response := Respond(s, a.request, a.grant);
    SuccessIs(s, a, response.grant, response.scopes);
    assert TokenOk(s, a.request.token);
  }
}
