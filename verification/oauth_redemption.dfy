/**
 * Who gets tokens from the beacon's token endpoint (crates/beacon/src/mcp.rs), said of the whole history: which consent
 * or exchange a credential came from, and exactly which requests and bearers it serves.
 */
module OAuthRedemption {
  import opened Common
  import opened OAuth

  /** The states a run goes through. */
  ghost predicate Trace(states: seq<State>, run: seq<Action>) {
    && |states| == |run| + 1 && states[0] == INITIAL
    && forall i :: 0 <= i < |run| ==> Enabled(states[i], run[i]) && states[i + 1] == Apply(states[i], run[i])
  }

  lemma {:induction false} EveryRunHasATrace(s: State, run: seq<Action>) returns (states: seq<State>)
    requires Runs(s, run)
    ensures |states| == |run| + 1 && states[0] == s && states[|run|] == End(s, run)
    ensures forall i :: 0 <= i < |run| ==> Enabled(states[i], run[i]) && states[i + 1] == Apply(states[i], run[i])
    decreases |run|
  {
    if run == [] {
      states := [s];
    } else {
      var rest := EveryRunHasATrace(Apply(s, run[0]), run[1..]);
      states := [s] + rest;
    }
  }

  lemma {:induction false} TraceInv(states: seq<State>, run: seq<Action>, n: nat)
    requires Trace(states, run) && n <= |run|
    ensures Inv(states[n])
  {
    if n > 0 {
      var m := n - 1;
      TraceInv(states, run, m);
      KeepsInv(states[m], run[m]);
      assert m + 1 == n;
    }
  }

  // ----- Owners -----

  ghost predicate OwnsGrant(s: State, grant: Grant) {
    grant.installation in s.owners && s.owners[grant.installation] == grant.account
  }

  ghost predicate OwnsCode(s: State, code: Code) {
    code.installation in s.owners && s.owners[code.installation] == code.account
  }

  /** Every grant and every code belongs to an installation's present owner. */
  ghost predicate OwnersOk(s: State) {
    && (forall g :: g in s.grants ==> OwnsGrant(s, s.grants[g]))
    && (forall c :: c in s.codes ==> OwnsCode(s, s.codes[c]))
  }

  lemma GrantStaysOwned(s: State, a: Action, g: nat)
    requires OwnersOk(s) && Enabled(s, a) && g in Apply(s, a).grants
    ensures OwnsGrant(Apply(s, a), Apply(s, a).grants[g])
  {
  }

  lemma CodeStaysOwned(s: State, a: Action, c: nat)
    requires OwnersOk(s) && Enabled(s, a) && c in Apply(s, a).codes
    ensures OwnsCode(Apply(s, a), Apply(s, a).codes[c])
  {
  }

  lemma OwnersStayOk(s: State, a: Action)
    requires OwnersOk(s) && Enabled(s, a)
    ensures OwnersOk(Apply(s, a))
  {
    var s' := Apply(s, a);
    forall g | g in s'.grants ensures OwnsGrant(s', s'.grants[g]) { GrantStaysOwned(s, a, g); }
    forall c | c in s'.codes ensures OwnsCode(s', s'.codes[c]) { CodeStaysOwned(s, a, c); }
  }

  lemma {:induction false} TraceOwners(states: seq<State>, run: seq<Action>, n: nat)
    requires Trace(states, run) && n <= |run|
    ensures OwnersOk(states[n])
  {
    if n > 0 {
      var m := n - 1;
      TraceOwners(states, run, m);
      OwnersStayOk(states[m], run[m]);
      assert m + 1 == n;
    }
  }

  // ----- Codes -----

  /** The verifier's form: 43 to 128 letters, digits and `-._~`. */
  ghost predicate WellFormed(verifier: string) {
    43 <= |verifier| <= 128 &&
    forall i :: 0 <= i < |verifier| ==>
      'a' <= verifier[i] <= 'z' || 'A' <= verifier[i] <= 'Z' || '0' <= verifier[i] <= '9'
      || verifier[i] == '-' || verifier[i] == '.' || verifier[i] == '_' || verifier[i] == '~'
  }

  /** Step i is the consent that made the code. */
  ghost predicate Consented(states: seq<State>, run: seq<Action>, i: nat, code: nat)
    requires Trace(states, run)
  {
    i < |run| && run[i].Consent? && run[i].made == code && run[i].installation in states[i].owners
  }

  /** The installation has not been detached between the two steps. */
  ghost predicate Attached(run: seq<Action>, i: nat, n: nat, installation: nat)
    requires n <= |run|
  {
    forall m :: i <= m < n ==> run[m] != Detach(installation)
  }

  /** The row of a code says what its consent said. */
  ghost predicate CodeIs(states: seq<State>, run: seq<Action>, i: nat, n: nat, code: nat)
    requires Trace(states, run) && i < n <= |run| && code in states[n].codes && Consented(states, run, i, code)
  {
    var c := states[n].codes[code];
    && c.account == states[i].owners[run[i].installation] && c.installation == run[i].installation
    && c.client == run[i].client && c.redirect == run[i].redirect && c.challenge == run[i].challenge
    && c.scopes == run[i].scopes && c.expires == states[i].now + 300
    && Attached(run, i, n, run[i].installation)
  }

  /** A code is only changed by being spent. */
  lemma CodeKeeps(s: State, a: Action, code: nat)
    requires Inv(s) && Enabled(s, a) && code in Apply(s, a).codes && code in s.codes
    ensures Apply(s, a).codes[code] == s.codes[code].(grant := Apply(s, a).codes[code].grant)
    ensures a.Detach? ==> a.installation != s.codes[code].installation
  {
    assert CodeOk(s, code);
  }

  lemma NewCodesAreConsented(s: State, a: Action, code: nat)
    requires Enabled(s, a) && code in Apply(s, a).codes && code !in s.codes
    ensures a.Consent? && a.made == code
  {
  }

  /** Every code came from a consent, and its row still says what was consented to. */
  lemma {:induction false} CodeCameFromConsent(states: seq<State>, run: seq<Action>, n: nat, code: nat) returns (i: nat)
    requires Trace(states, run) && n <= |run| && code in states[n].codes
    ensures i < n && Consented(states, run, i, code) && CodeIs(states, run, i, n, code)
  {
    var m := n - 1;
    assert n > 0 && states[m + 1] == Apply(states[m], run[m]);
    TraceInv(states, run, m);
    if code in states[m].codes {
      i := CodeCameFromConsent(states, run, m, code);
      CodeKeeps(states[m], run[m], code);
    } else {
      NewCodesAreConsented(states[m], run[m], code);
      i := m;
    }
  }

  lemma {:induction false} TimeGoesOn(states: seq<State>, run: seq<Action>, m: nat, n: nat)
    requires Trace(states, run) && m <= n <= |run|
    ensures states[m].now <= states[n].now
    decreases n
  {
    if m < n {
      TimeGoesOn(states, run, m, n - 1);
      assert states[n - 1 + 1] == Apply(states[n - 1], run[n - 1]);
    }
  }

  /** What a grant came from is never forgotten or rewritten. */
  lemma SourceKeeps(s: State, a: Action, g: nat)
    requires Inv(s) && Enabled(s, a) && g in s.source
    ensures g in Apply(s, a).source && Apply(s, a).source[g] == s.source[g]
  {
    assert SourceOk(s, g);
  }

  /** The code has made no grant. */
  ghost predicate Unredeemed(s: State, code: nat) {
    forall g :: g in s.source ==> s.source[g] != code
  }

  lemma RedeemingIsRemembered(s: State, a: Action)
    requires Enabled(s, a) && a.Exchange? && a.request.CodeRequest? && Respond(s, a.request, a.grant).Issued?
    ensures a.grant in Apply(s, a).source && Apply(s, a).source[a.grant] == a.request.code
  {
  }

  /** A code that has made no grant is there until it expires or its installation is detached. */
  lemma UnspentStays(s: State, a: Action, code: nat)
    requires Inv(s) && Enabled(s, a) && code in s.codes && s.codes[code].grant.None?
    requires Unredeemed(Apply(s, a), code) && Apply(s, a).now < s.codes[code].expires
    requires a != Detach(s.codes[code].installation)
    ensures code in Apply(s, a).codes && Apply(s, a).codes[code].grant.None?
  {
    assert CodeOk(s, code);
    if a.Exchange? && a.request.CodeRequest? && Respond(s, a.request, a.grant).Issued? { RedeemingIsRemembered(s, a); }
  }

  lemma {:induction false} CodeStays(states: seq<State>, run: seq<Action>, i: nat, n: nat, code: nat)
    requires Trace(states, run) && i < n <= |run| && Consented(states, run, i, code)
    requires Attached(run, i, n, run[i].installation) && Unredeemed(states[n], code)
    requires states[n].now < states[i].now + 300
    ensures code in states[n].codes && states[n].codes[code].grant.None? && CodeIs(states, run, i, n, code)
    decreases n
  {
    var m := n - 1;
    assert states[m + 1] == Apply(states[m], run[m]);
    TraceInv(states, run, m);
    if i < m {
      TimeGoesOn(states, run, m, n);
      forall g | g in states[m].source ensures states[m].source[g] != code { SourceKeeps(states[m], run[m], g); }
      CodeStays(states, run, i, m, code);
      UnspentStays(states[m], run[m], code);
      CodeKeeps(states[m], run[m], code);
    }
  }

  /** A spent code is the source of the grant it was spent on. */
  ghost predicate SpentOk(s: State) {
    forall c :: c in s.codes && s.codes[c].grant.Some? ==>
      s.codes[c].grant.value in s.source && s.source[s.codes[c].grant.value] == c
  }

  lemma OldCodeStaysSpent(s: State, a: Action, c: nat)
    requires Inv(s) && SpentOk(s) && Enabled(s, a) && c in s.codes && s.codes[c].grant.Some? && c in Apply(s, a).codes
    ensures Apply(s, a).codes[c].grant == s.codes[c].grant
    ensures s.codes[c].grant.value in Apply(s, a).source && Apply(s, a).source[s.codes[c].grant.value] == c
  {
    CodeKeeps(s, a, c);
    SourceKeeps(s, a, s.codes[c].grant.value);
  }

  /** A code is spent only by being redeemed. */
  lemma NewlySpent(s: State, a: Action, c: nat)
    requires Inv(s) && Enabled(s, a) && c in Apply(s, a).codes && Apply(s, a).codes[c].grant.Some?
    requires c in s.codes ==> s.codes[c].grant.None?
    ensures a.Exchange? && a.request.CodeRequest? && a.request.code == c && Respond(s, a.request, a.grant).Issued?
    ensures Apply(s, a).codes[c].grant == Some(a.grant)
  {
  }

  lemma SpentStaysOk(s: State, a: Action)
    requires Inv(s) && SpentOk(s) && Enabled(s, a)
    ensures SpentOk(Apply(s, a))
  {
    var s' := Apply(s, a);
    forall c | c in s'.codes && s'.codes[c].grant.Some?
      ensures s'.codes[c].grant.value in s'.source && s'.source[s'.codes[c].grant.value] == c
    {
      if c in s.codes && s.codes[c].grant.Some? {
        OldCodeStaysSpent(s, a, c);
      } else {
        NewlySpent(s, a, c);
        RedeemingIsRemembered(s, a);
      }
    }
  }

  lemma {:induction false} TraceSpent(states: seq<State>, run: seq<Action>, n: nat)
    requires Trace(states, run) && n <= |run|
    ensures SpentOk(states[n])
  {
    if n > 0 {
      var m := n - 1;
      TraceSpent(states, run, m);
      TraceInv(states, run, m);
      SpentStaysOk(states[m], run[m]);
      assert m + 1 == n;
    }
  }

  /** The request says of the code what the consent at step i said, and knows the secret behind its challenge. */
  ghost predicate Proves(run: seq<Action>, i: nat, r: Request)
    requires i < |run| && run[i].Consent? && r.CodeRequest?
  {
    && r.code == run[i].made && r.client == run[i].client && r.redirect == run[i].redirect
    && WellFormed(r.verifier) && run[i].challenge == S256(r.verifier) && r.resource
  }

  /** The code of the consent at step i may be redeemed by the request: in time, once, and while still attached. */
  ghost predicate Redeemable(states: seq<State>, run: seq<Action>, i: nat, n: nat, r: Request)
    requires Trace(states, run) && n <= |run| && r.CodeRequest?
  {
    && i < n && Consented(states, run, i, r.code) && Proves(run, i, r) && Attached(run, i, n, run[i].installation)
    && Unredeemed(states[n], r.code) && states[n].now < states[i].now + 300
  }

  lemma VerifierIff(verifier: string)
    ensures VerifierOk(verifier) <==> WellFormed(verifier)
  {
    forall i | 0 <= i < |verifier|
      ensures Unreserved(verifier[i]) <==>
              'a' <= verifier[i] <= 'z' || 'A' <= verifier[i] <= 'Z' || '0' <= verifier[i] <= '9'
              || verifier[i] == '-' || verifier[i] == '.' || verifier[i] == '_' || verifier[i] == '~'
    {
    }
  }

  /** The tables' side of it. */
  lemma AnsweredIff(s: State, r: Request, made: nat)
    requires r.CodeRequest?
    ensures Respond(s, r, made).Issued? <==>
              && r.code in s.codes && s.codes[r.code].grant.None? && s.now < s.codes[r.code].expires
              && s.codes[r.code].installation in s.owners
              && s.owners[s.codes[r.code].installation] == s.codes[r.code].account
              && r.client == s.codes[r.code].client && r.redirect == s.codes[r.code].redirect
              && WellFormed(r.verifier) && s.codes[r.code].challenge == S256(r.verifier) && r.resource
    ensures Respond(s, r, made).Issued? ==> Respond(s, r, made) == Issued(made, s.codes[r.code].scopes)
  {
    VerifierIff(r.verifier);
  }

  /**
   * Over every run: a code is answered with tokens exactly if some consent made it less than 300 seconds ago, its
   * installation has not been detached since, it has made no grant, and the request has the consent's client and
   * redirect, the right resource, and a verifier of 43 to 128 unreserved characters whose hash is the consent's
   * challenge. The tokens then have exactly the scopes consented to.
   */
  lemma CodeIsRedeemedIff(states: seq<State>, run: seq<Action>, n: nat, r: Request, made: nat)
    requires Trace(states, run) && n <= |run| && r.CodeRequest?
    ensures Respond(states[n], r, made).Issued? <==> exists i: nat :: Redeemable(states, run, i, n, r)
    ensures forall i: nat :: Redeemable(states, run, i, n, r) ==>
              Respond(states[n], r, made) == Issued(made, run[i].scopes)
  {
    var s := states[n];
    AnsweredIff(s, r, made);
    TraceOwners(states, run, n);
    TraceInv(states, run, n);
    if Respond(s, r, made).Issued? {
      var i := CodeCameFromConsent(states, run, n, r.code);
      UnspentIsUnredeemed(states, run, n, r.code);
      assert Redeemable(states, run, i, n, r);
    }
    forall i: nat | Redeemable(states, run, i, n, r) ensures Respond(s, r, made) == Issued(made, run[i].scopes) {
      CodeStays(states, run, i, n, r.code);
    }
  }

  lemma UnspentIsUnredeemed(states: seq<State>, run: seq<Action>, n: nat, code: nat)
    requires Trace(states, run) && n <= |run| && code in states[n].codes && states[n].codes[code].grant.None?
    ensures Unredeemed(states[n], code)
  {
    TraceInv(states, run, n);
    forall g | g in states[n].source ensures states[n].source[g] != code { assert SourceOk(states[n], g); }
  }

  /** Step j redeems the code for this grant. */
  ghost predicate Redeems(states: seq<State>, run: seq<Action>, j: nat, g: nat, code: nat)
    requires Trace(states, run)
  {
    && j < |run| && run[j].Exchange? && run[j].request.CodeRequest? && run[j].grant == g && run[j].request.code == code
    && Respond(states[j], run[j].request, g).Issued?
  }

  lemma NewSourcesAreRedeemed(s: State, a: Action, g: nat)
    requires Inv(s) && Enabled(s, a) && g in Apply(s, a).source && g !in s.source
    ensures a.Exchange? && a.request.CodeRequest? && a.grant == g && a.request.code == Apply(s, a).source[g]
    ensures Respond(s, a.request, g).Issued?
  {
  }

  /** Every grant made from a code was made by a request that could redeem it, after the consent. */
  lemma {:induction false} GrantsCameFromConsent(states: seq<State>, run: seq<Action>, n: nat, g: nat)
    returns (i: nat, j: nat)
    requires Trace(states, run) && n <= |run| && g in states[n].source
    ensures i < j < n && Redeems(states, run, j, g, states[n].source[g])
    ensures Redeemable(states, run, i, j, run[j].request)
  {
    var m := n - 1;
    assert n > 0 && states[m + 1] == Apply(states[m], run[m]);
    TraceInv(states, run, m);
    if g in states[m].source {
      i, j := GrantsCameFromConsent(states, run, m, g);
      SourceKeeps(states[m], run[m], g);
    } else {
      NewSourcesAreRedeemed(states[m], run[m], g);
      CodeIsRedeemedIff(states, run, m, run[m].request, g);
      i :| Redeemable(states, run, i, m, run[m].request);
      j := m;
    }
  }

  // ----- Grants -----

  /** What ends a grant. */
  ghost predicate Ends(s: State, a: Action, g: nat)
    requires Enabled(s, a) && g in s.grants
  {
    match a
    case Revoke(grant) => grant == g
    case RevokeToken(t, client) => t in s.tokens && s.tokens[t].grant == g && s.grants[g].client == Some(client)
    case Detach(i) => s.grants[g].installation == i
    case Cleanup => s.grants[g].expires <= s.now
    case Exchange(r, _, _, _) => Replay(s, r) && ReplayedGrant(s, r) == g
    case _ => false
  }

  /** Exactly those steps end it; no other grant goes with it. */
  lemma GrantEndsIff(s: State, a: Action, g: nat)
    requires Inv(s) && Enabled(s, a) && g in s.grants
    ensures g !in Apply(s, a).grants <==> Ends(s, a, g)
  {
  }

  /** While it lasts a grant keeps its owner, its installation and its client, and only its expiry moves on. */
  lemma GrantKeeps(s: State, a: Action, g: nat)
    requires Inv(s) && Enabled(s, a) && g in s.grants && g in Apply(s, a).grants && s.grants[g].expires <= s.now + MONTH
    ensures var before, after := s.grants[g], Apply(s, a).grants[g];
            && after.account == before.account && after.installation == before.installation
            && after.client == before.client
            && before.expires <= after.expires <= Apply(s, a).now + MONTH
  {
    assert GrantOk(s, g);
  }

  /** A grant never lasts longer than a month from now. */
  ghost predicate ExpiryOk(s: State) {
    forall g :: g in s.grants ==> s.grants[g].expires <= s.now + MONTH
  }

  lemma ExpiryStaysOk(s: State, a: Action)
    requires Inv(s) && ExpiryOk(s) && Enabled(s, a)
    ensures ExpiryOk(Apply(s, a))
  {
  }

  lemma {:induction false} TraceExpiry(states: seq<State>, run: seq<Action>, n: nat)
    requires Trace(states, run) && n <= |run|
    ensures ExpiryOk(states[n])
  {
    if n > 0 {
      var m := n - 1;
      TraceExpiry(states, run, m);
      TraceInv(states, run, m);
      ExpiryStaysOk(states[m], run[m]);
      assert m + 1 == n;
    }
  }

  // ----- Tokens -----

  /** Step j makes this token: an access or refresh token of an exchange, or a personal one. */
  ghost predicate Makes(states: seq<State>, run: seq<Action>, j: nat, t: nat, token: Token)
    requires Trace(states, run)
  {
    j < |run| &&
    match run[j]
    case Exchange(r, made, access, refresh) =>
      (match Respond(states[j], r, made)
       case Issued(grant, scopes) =>
         || (t == access && token == Token(grant, Access, scopes, false, states[j].now + 3_600))
         || (t == refresh && token == Token(grant, Refresh, scopes, false, states[j].now + 2_592_000))
       case _ => false)
    case Personal(_, scopes, grant, made) =>
      t == made && token == Token(grant, Access, scopes, false, states[j].now + 2_592_000)
    case _ => false
  }

  /** Step m spends the refresh token. */
  ghost predicate Spends(states: seq<State>, run: seq<Action>, m: nat, t: nat)
    requires Trace(states, run) && m < |run|
  {
    && run[m].Exchange? && run[m].request.RefreshRequest? && run[m].request.token == t
    && Respond(states[m], run[m].request, run[m].grant).Issued?
  }

  ghost predicate SpentBetween(states: seq<State>, run: seq<Action>, j: nat, n: nat, t: nat)
    requires Trace(states, run) && n <= |run|
  {
    exists m :: j < m < n && Spends(states, run, m, t)
  }

  lemma NewTokenIsMade(states: seq<State>, run: seq<Action>, m: nat, t: nat, token: Token)
    requires Trace(states, run) && m < |run| && Inv(states[m])
    ensures t !in states[m].tokens && t in states[m + 1].tokens && states[m + 1].tokens[t] == token ==>
              Makes(states, run, m, t, token)
    ensures Makes(states, run, m, t, token) ==>
              t !in states[m].tokens && t in states[m + 1].tokens && states[m + 1].tokens[t] == token
  {
    assert states[m + 1] == Apply(states[m], run[m]);
    assert t in states[m].tokens ==> TokenOk(states[m], t);
  }

  /** A token goes only with its grant, or when it has expired; it changes only by being spent. */
  lemma TokenKeeps(states: seq<State>, run: seq<Action>, m: nat, t: nat)
    requires Trace(states, run) && m < |run| && Inv(states[m]) && t in states[m].tokens
    ensures states[m].tokens[t].grant in states[m + 1].grants && states[m].tokens[t].expires > states[m + 1].now ==>
              t in states[m + 1].tokens
    ensures t in states[m + 1].tokens ==>
              && states[m].tokens[t].grant in states[m + 1].grants
              && states[m + 1].tokens[t]
                 == states[m].tokens[t].(used := states[m].tokens[t].used || Spends(states, run, m, t))
  {
    assert states[m + 1] == Apply(states[m], run[m]);
    assert TokenOk(states[m], t);
    KeepsInv(states[m], run[m]);
    assert t in states[m + 1].tokens ==> TokenOk(states[m + 1], t);
  }

  lemma SpentNext(states: seq<State>, run: seq<Action>, j: nat, m: nat, n: nat, t: nat)
    requires Trace(states, run) && j <= m < |run| && n == m + 1
    ensures SpentBetween(states, run, j, n, t) <==>
            SpentBetween(states, run, j, m, t) || (j < m && Spends(states, run, m, t))
  {
  }

  /** Every token was made by some step, and is used exactly if a refresh has spent it since. */
  lemma {:induction false} TokenCameFrom(states: seq<State>, run: seq<Action>, n: nat, t: nat) returns (j: nat)
    requires Trace(states, run) && n <= |run| && t in states[n].tokens
    ensures j < n && Makes(states, run, j, t, states[n].tokens[t].(used := false))
    ensures states[n].tokens[t].used <==> SpentBetween(states, run, j, n, t)
  {
    assert n > 0;
    var m := n - 1;
    assert m + 1 == n;
    TraceInv(states, run, m);
    if t in states[m].tokens {
      j := TokenCameFrom(states, run, m, t);
      TokenKeeps(states, run, m, t);
      SpentNext(states, run, j, m, n, t);
    } else {
      j := m;
      NewTokenIsMade(states, run, m, t, states[n].tokens[t]);
    }
  }

  /** A grant that is there now was there ever since it was made. */
  lemma {:induction false} GrantWasThere(states: seq<State>, run: seq<Action>, m: nat, n: nat, g: nat)
    requires Trace(states, run) && m <= n <= |run| && g in states[m].seen && g in states[n].grants
    ensures g in states[m].grants
    decreases n - m
  {
    if m < n {
      TraceInv(states, run, m);
      StepsGoOnward(states[m], run[m]);
      assert states[m + 1] == Apply(states[m], run[m]);
      GrantWasThere(states, run, m + 1, n, g);
    }
  }

  lemma MadeTokenIsThere(states: seq<State>, run: seq<Action>, j: nat, t: nat, token: Token)
    requires Trace(states, run) && Makes(states, run, j, t, token)
    ensures t in states[j + 1].tokens && states[j + 1].tokens[t] == token
    ensures token.grant in states[j + 1].grants && token.grant in states[j + 1].seen
    ensures token.expires <= states[j + 1].grants[token.grant].expires
  {
    TraceInv(states, run, j);
    TraceInv(states, run, j + 1);
    NewTokenIsMade(states, run, j, t, token);
    assert states[j + 1] == Apply(states[j], run[j]);
    assert TokenOk(states[j + 1], t) && GrantOk(states[j + 1], token.grant);
  }

  /** A token is there until it expires, as long as its grant is. */
  lemma {:induction false} TokenStays(states: seq<State>, run: seq<Action>, j: nat, n: nat, t: nat, token: Token)
    requires Trace(states, run) && j < n <= |run| && Makes(states, run, j, t, token)
    requires token.grant in states[n].grants && states[n].now < token.expires
    ensures t in states[n].tokens && states[n].tokens[t] == token.(used := SpentBetween(states, run, j, n, t))
    ensures token.expires <= states[n].grants[token.grant].expires
    decreases n
  {
    var m := n - 1;
    assert m + 1 == n;
    MadeTokenIsThere(states, run, j, t, token);
    if j < m {
      TraceInv(states, run, m);
      RemainsSeen(states, run, j + 1, m, token.grant);
      GrantWasThere(states, run, m, n, token.grant);
      TimeGoesOn(states, run, m, n);
      TokenStays(states, run, j, m, t, token);
      TokenKeeps(states, run, m, t);
      SpentNext(states, run, j, m, n, t);
      TraceExpiry(states, run, m);
      GrantKeeps(states[m], run[m], token.grant);
    }
  }

  lemma {:induction false} RemainsSeen(states: seq<State>, run: seq<Action>, m: nat, n: nat, g: nat)
    requires Trace(states, run) && m <= n <= |run| && g in states[m].seen
    ensures g in states[n].seen
    decreases n
  {
    if m < n {
      RemainsSeen(states, run, m, n - 1, g);
      TraceInv(states, run, n - 1);
      StepsGoOnward(states[n - 1], run[n - 1]);
      assert states[n - 1 + 1] == Apply(states[n - 1], run[n - 1]);
    }
  }

  /** The grant of an exchanged token stays with the client that exchanged it. */
  lemma {:induction false} GrantStaysWithItsClient(states: seq<State>, run: seq<Action>, j: nat, n: nat, g: nat)
    requires Trace(states, run) && j < n <= |run| && run[j].Exchange? && g in states[n].grants
    requires Respond(states[j], run[j].request, run[j].grant).Issued?
    requires Respond(states[j], run[j].request, run[j].grant).grant == g
    ensures states[n].grants[g].client == Some(run[j].request.client)
    decreases n
  {
    var m := n - 1;
    assert states[m + 1] == Apply(states[m], run[m]);
    TraceInv(states, run, m);
    if j < m {
      TraceInv(states, run, j + 1);
      assert states[j + 1] == Apply(states[j], run[j]) && GrantOk(states[j + 1], g);
      RemainsSeen(states, run, j + 1, m, g);
      GrantWasThere(states, run, m, n, g);
      GrantStaysWithItsClient(states, run, j, m, g);
      TraceExpiry(states, run, m);
      GrantKeeps(states[m], run[m], g);
    }
  }

  // ----- What tokens are good for -----

  /** A live token: made at step j, its grant still there, and its time not up. */
  ghost predicate AliveSince(states: seq<State>, run: seq<Action>, j: nat, n: nat, t: nat, token: Token)
    requires Trace(states, run) && n <= |run|
  {
    j < n && Makes(states, run, j, t, token) && token.grant in states[n].grants && states[n].now < token.expires
  }

  /**
   * Over every run: a bearer token is good for some scopes exactly if it was issued as an access token with these
   * scopes, less than an hour ago (a personal one less than 30 days ago), and its grant still stands.
   */
  lemma BearerIsAuthorizedIff(states: seq<State>, run: seq<Action>, n: nat, t: nat, scopes: set<string>)
    requires Trace(states, run) && n <= |run|
    ensures Authorized(states[n], t) == Some(scopes) <==>
              exists j: nat, token ::
                AliveSince(states, run, j, n, t, token) && token.kind == Access && token.scopes == scopes
  {
    var s := states[n];
    TraceInv(states, run, n);
    TraceOwners(states, run, n);
    if Authorized(s, t) == Some(scopes) {
      var j := TokenCameFrom(states, run, n, t);
      assert AliveSince(states, run, j, n, t, s.tokens[t]);
    }
    if j: nat, token :| AliveSince(states, run, j, n, t, token) && token.kind == Access && token.scopes == scopes {
      TokenStays(states, run, j, n, t, token);
      AccessIsNeverSpent(states, run, j, n, t, token);
    }
  }

  lemma AccessIsNeverSpent(states: seq<State>, run: seq<Action>, j: nat, n: nat, t: nat, token: Token)
    requires Trace(states, run) && n <= |run| && AliveSince(states, run, j, n, t, token) && token.kind == Access
    ensures !SpentBetween(states, run, j, n, t)
  {
    if m :| j < m < n && Spends(states, run, m, t) {
      MadeTokenIsThere(states, run, j, t, token);
      RemainsSeen(states, run, j + 1, m, token.grant);
      GrantWasThere(states, run, m, n, token.grant);
      TimeGoesOn(states, run, m, n);
      TokenStays(states, run, j, m, t, token);
    }
  }

  /** The scopes asked for, if any, are some of those offered. */
  ghost predicate Narrows(asked: Option<set<string>>, offered: set<string>) {
    asked.Some? ==> asked.value != {} && forall scope :: scope in asked.value ==> scope in offered
  }

  /**
   * The refresh token made at step j may be refreshed: by the client it was issued to, for the right resource and no
   * more than its scopes, while it lives, and once.
   */
  ghost predicate Refreshable(states: seq<State>, run: seq<Action>, j: nat, n: nat, r: Request, token: Token)
    requires Trace(states, run) && n <= |run| && r.RefreshRequest?
  {
    && AliveSince(states, run, j, n, r.token, token) && token.kind == Refresh && run[j].Exchange?
    && r.client == run[j].request.client && r.resource && Narrows(r.scope, token.scopes)
    && !SpentBetween(states, run, j, n, r.token)
  }

  /** The tables' side of it. */
  lemma RefreshAnsweredIff(s: State, r: Request, made: nat)
    requires r.RefreshRequest?
    ensures Respond(s, r, made).Issued? <==>
              && r.token in s.tokens && s.tokens[r.token].kind == Refresh && s.now < s.tokens[r.token].expires
              && !s.tokens[r.token].used && s.tokens[r.token].grant in s.grants
              && var grant := s.grants[s.tokens[r.token].grant];
                 && s.now < grant.expires && grant.installation in s.owners
                 && s.owners[grant.installation] == grant.account
                 && grant.client == Some(r.client) && r.resource && Narrows(r.scope, s.tokens[r.token].scopes)
    ensures Respond(s, r, made).Issued? ==>
              Respond(s, r, made) == Issued(s.tokens[r.token].grant,
                                            if r.scope.Some? then r.scope.value else s.tokens[r.token].scopes)
  {
  }

  /**
   * Over every run: a refresh is answered with tokens exactly if its token was issued as a refresh token less than 30
   * days ago to the same client, its grant still stands, nothing has spent it, and the scopes asked for are some of its
   * own.
   */
  lemma TokenIsRefreshedIff(states: seq<State>, run: seq<Action>, n: nat, r: Request, made: nat)
    requires Trace(states, run) && n <= |run| && r.RefreshRequest?
    ensures Respond(states[n], r, made).Issued? <==>
              exists j: nat, token :: Refreshable(states, run, j, n, r, token)
    ensures forall j: nat, token :: Refreshable(states, run, j, n, r, token) ==>
              Respond(states[n], r, made)
              == Issued(token.grant, if r.scope.Some? then r.scope.value else token.scopes)
  {
    var s := states[n];
    RefreshAnsweredIff(s, r, made);
    TraceInv(states, run, n);
    TraceOwners(states, run, n);
    if Respond(s, r, made).Issued? {
      var j := TokenCameFrom(states, run, n, r.token);
      var token := s.tokens[r.token];
      GrantStaysWithItsClient(states, run, j, n, token.grant);
      assert Refreshable(states, run, j, n, r, token);
    }
    forall j: nat, token | Refreshable(states, run, j, n, r, token)
      ensures Respond(s, r, made) == Issued(token.grant, if r.scope.Some? then r.scope.value else token.scopes)
    {
      TokenStays(states, run, j, n, r.token, token);
      GrantStaysWithItsClient(states, run, j, n, token.grant);
    }
  }

  // ----- Replays -----

  /** The code of a grant that stands is there, and of the same installation. */
  ghost predicate SourcesLive(s: State) {
    forall g :: g in s.source && g in s.grants ==> SourceLives(s, g)
  }

  ghost predicate SourceLives(s: State, g: nat)
    requires g in s.source && g in s.grants
  {
    s.source[g] in s.codes && s.codes[s.source[g]].installation == s.grants[g].installation
  }

  lemma OldSourceLives(s: State, a: Action, g: nat)
    requires Inv(s) && Enabled(s, a) && g in s.source && g in s.grants && SourceLives(s, g) && g in Apply(s, a).grants
    ensures g in Apply(s, a).source && SourceLives(Apply(s, a), g)
  {
    assert SourceOk(s, g);
    SourceKeeps(s, a, g);
  }

  lemma NewSourceLives(s: State, a: Action, g: nat)
    requires Inv(s) && Enabled(s, a) && g !in s.source && g in Apply(s, a).source && g in Apply(s, a).grants
    ensures SourceLives(Apply(s, a), g)
  {
    NewSourcesAreRedeemed(s, a, g);
  }

  lemma SourcesStayLive(s: State, a: Action)
    requires Inv(s) && SourcesLive(s) && Enabled(s, a)
    ensures SourcesLive(Apply(s, a))
  {
    var s' := Apply(s, a);
    forall g | g in s'.source && g in s'.grants ensures SourceLives(s', g) {
      if g in s.source {
        assert SourceOk(s, g);
        StepsGoOnward(s, a);
        OldSourceLives(s, a, g);
      } else {
        NewSourceLives(s, a, g);
      }
    }
  }

  lemma {:induction false} TraceSources(states: seq<State>, run: seq<Action>, n: nat)
    requires Trace(states, run) && n <= |run|
    ensures SourcesLive(states[n])
  {
    if n > 0 {
      var m := n - 1;
      TraceSources(states, run, m);
      TraceInv(states, run, m);
      SourcesStayLive(states[m], run[m]);
      assert m + 1 == n;
    }
  }

  /** A second, otherwise correct, use of the code of the consent at step i, whose grant still stands. */
  ghost predicate CodeReplayed(states: seq<State>, run: seq<Action>, i: nat, n: nat, r: Request, g: nat)
    requires Trace(states, run) && n <= |run| && r.CodeRequest?
  {
    && i < n && Consented(states, run, i, r.code) && Proves(run, i, r)
    && g in states[n].source && states[n].source[g] == r.code && g in states[n].grants
  }

  /** A second, otherwise correct, use of the refresh token made at step j, whose grant still stands. */
  ghost predicate RefreshReplayed(states: seq<State>, run: seq<Action>, j: nat, n: nat, r: Request, token: Token)
    requires Trace(states, run) && n <= |run| && r.RefreshRequest?
  {
    && AliveSince(states, run, j, n, r.token, token) && token.kind == Refresh && run[j].Exchange?
    && r.client == run[j].request.client && r.resource && SpentBetween(states, run, j, n, r.token)
  }

  lemma CodesAreConsentedOnce(states: seq<State>, run: seq<Action>, i: nat, k: nat, code: nat)
    requires Trace(states, run) && i <= k && Consented(states, run, i, code) && Consented(states, run, k, code)
    ensures i == k
  {
    if i < k {
      assert states[i + 1] == Apply(states[i], run[i]);
      RemainsSeen(states, run, i + 1, k, code);
    }
  }

  /** Exactly those uses of a code count as replays, and end the grant the code made. */
  lemma CodeIsReplayedIff(states: seq<State>, run: seq<Action>, n: nat, r: Request)
    requires Trace(states, run) && n <= |run| && r.CodeRequest?
    ensures Replay(states[n], r) <==> exists i: nat, g: nat :: CodeReplayed(states, run, i, n, r, g)
    ensures forall i: nat, g: nat :: CodeReplayed(states, run, i, n, r, g) ==>
              Replay(states[n], r) && ReplayedGrant(states[n], r) == g
  {
    var s := states[n];
    VerifierIff(r.verifier);
    TraceInv(states, run, n);
    TraceOwners(states, run, n);
    TraceSpent(states, run, n);
    TraceSources(states, run, n);
    if Replay(s, r) {
      var i := CodeCameFromConsent(states, run, n, r.code);
      assert CodeOk(s, r.code);
      assert CodeReplayed(states, run, i, n, r, s.codes[r.code].grant.value);
    }
    forall i: nat, g: nat | CodeReplayed(states, run, i, n, r, g) ensures Replay(s, r) && ReplayedGrant(s, r) == g {
      assert SourceOk(s, g);
      var k := CodeCameFromConsent(states, run, n, r.code);
      CodesAreConsentedOnce(states, run, if i < k then i else k, if i < k then k else i, r.code);
    }
  }

  /** Exactly those uses of a refresh token count as replays, and end its grant. */
  lemma RefreshIsReplayedIff(states: seq<State>, run: seq<Action>, n: nat, r: Request)
    requires Trace(states, run) && n <= |run| && r.RefreshRequest?
    ensures Replay(states[n], r) <==> exists j: nat, token :: RefreshReplayed(states, run, j, n, r, token)
    ensures forall j: nat, token :: RefreshReplayed(states, run, j, n, r, token) ==>
              Replay(states[n], r) && ReplayedGrant(states[n], r) == token.grant
  {
    var s := states[n];
    TraceInv(states, run, n);
    TraceOwners(states, run, n);
    if Replay(s, r) {
      var j := TokenCameFrom(states, run, n, r.token);
      var token := s.tokens[r.token].(used := false);
      GrantStaysWithItsClient(states, run, j, n, token.grant);
      assert RefreshReplayed(states, run, j, n, r, token);
    }
    forall j: nat, token | RefreshReplayed(states, run, j, n, r, token)
      ensures Replay(s, r) && ReplayedGrant(s, r) == token.grant
    {
      TokenStays(states, run, j, n, r.token, token);
      GrantStaysWithItsClient(states, run, j, n, token.grant);
    }
  }
}
