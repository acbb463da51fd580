/** The token endpoint as it updates its tables, one statement after the other inside a transaction. */
module OAuthStore {
  import opened Common
  import Spec = OAuth

  class Store {
    var now: nat
    var owners: map<nat, nat>
    var grants: map<nat, Spec.Grant>
    var tokens: map<nat, Spec.Token>
    var codes: map<nat, Spec.Code>
    ghost var seen: set<nat>
    ghost var consented: map<nat, set<string>>
    ghost var source: map<nat, nat>

    ghost function State(): Spec.State
      reads this
    {
      Spec.State(now, owners, grants, tokens, codes, seen, consented, source)
    }

    constructor ()
      ensures State() == Spec.INITIAL
    {
      now, owners, grants, tokens, codes := 0, map[], map[], map[], map[];
      seen, consented, source := {}, map[], map[];
    }

    /** Deletes a grant; its tokens and its code go with it. */
    method DeleteGrant(grant: nat)
      modifies this
      ensures State() == Spec.Without(old(State()), {grant})
    {
      grants := map g | g in grants && g !in {grant} :: grants[g];
      tokens := map t | t in tokens && tokens[t].grant !in {grant} :: tokens[t];
      codes := map c | c in codes && !(codes[c].grant.Some? && codes[c].grant.value in {grant}) :: codes[c];
    }

    method Owns(installation: nat, account: nat) returns (owned: bool)
      ensures owned == Spec.Owned(State(), installation, account)
    {
      owned := installation in owners && owners[installation] == account;
    }

    method InsertPair(grant: nat, scopes: set<string>, access: nat, refresh: nat)
      modifies this`tokens
      ensures State() == Spec.AddPair(old(State()), grant, scopes, access, refresh)
    {
      tokens := tokens[access := Spec.Token(grant, Spec.Access, scopes, false, now + Spec.HOUR)];
      tokens := tokens[refresh := Spec.Token(grant, Spec.Refresh, scopes, false, now + Spec.MONTH)];
    }

    /** Redeems an authorisation code, or ends the family of one that was redeemed before. */
    method ExchangeCode(r: Spec.Request, grant: nat, access: nat, refresh: nat) returns (response: Spec.Response)
      requires r.CodeRequest?
      modifies this
      ensures response == Spec.Respond(old(State()), r, grant)
      ensures State() == Spec.ExchangeTokens(old(State()), r, grant, access, refresh)
    {
      if r.code !in codes { return Spec.InvalidGrant; }
      var code := codes[r.code];
      var owned := Owns(code.installation, code.account);
      if !owned || (code.grant.None? && code.expires <= now) { return Spec.InvalidGrant; }
      if r.client != code.client || r.redirect != code.redirect || !Spec.VerifierOk(r.verifier)
         || Spec.S256(r.verifier) != code.challenge || !r.resource
      {
        return Spec.InvalidGrant;
      }
      if code.grant.Some? {
        DeleteGrant(code.grant.value);
        return Spec.InvalidGrant;
      }
      grants := grants[grant := Spec.Grant(code.account, code.installation, Some(code.client), code.scopes, now + Spec.MONTH)];
      codes := codes[r.code := code.(grant := Some(grant))];
      seen := seen + {grant, access, refresh};
      consented, source := consented[grant := code.scopes], source[grant := r.code];
      InsertPair(grant, code.scopes, access, refresh);
      response := Spec.Issued(grant, code.scopes);
    }

    /** Rotates a refresh token, or ends the family of one that was used before. */
    method ExchangeRefresh(r: Spec.Request, made: nat, access: nat, refresh: nat) returns (response: Spec.Response)
      requires r.RefreshRequest?
      modifies this
      ensures response == Spec.Respond(old(State()), r, made)
      ensures State() == Spec.ExchangeTokens(old(State()), r, made, access, refresh)
    {
      if r.token !in tokens { return Spec.InvalidGrant; }
      var token := tokens[r.token];
      if !token.kind.Refresh? || token.expires <= now || token.grant !in grants { return Spec.InvalidGrant; }
      var grant := grants[token.grant];
      var owned := Owns(grant.installation, grant.account);
      if grant.expires <= now || !owned || grant.client != Some(r.client) || !r.resource { return Spec.InvalidGrant; }
      if token.used {
        DeleteGrant(token.grant);
        return Spec.InvalidGrant;
      }
      var scopes := token.scopes;
      if r.scope.Some? {
        if r.scope.value == {} || !(r.scope.value <= scopes) { return Spec.InvalidScope; }
        scopes := r.scope.value;
      }
      tokens := tokens[r.token := token.(used := true)];
      grants := grants[token.grant := grant.(scopes := scopes, expires := now + Spec.MONTH)];
      seen := seen + {made, access, refresh};
      InsertPair(token.grant, scopes, access, refresh);
      response := Spec.Issued(token.grant, scopes);
    }
  }
}
