/**
 * Exactly which requests to the authorization server are granted, what each grant contains, what each refusal leaves
 * behind, and that a grant which is presented as it should be, in time, is not lost.
 */
module OAuthEffects {
  import opened Prelude
  import opened OAuthStore
  import opened OAuthGrants
  import opened OAuthChains
  import opened Text

  // ---- the authorize form ----

  /** What a form has to say to get past the login page. */
  ghost predicate GoodForm(cfg: Config, m: Mem, req: Request, f: AuthorizeForm) {
    && f.responseType == "code"
    && f.clientId != "" && f.clientId in m.clients
    && f.redirectURI != "" && f.redirectURI in m.clients[f.clientId].redirectURIs
    && f.challenge != "" && (f.challengeMethod == "" || f.challengeMethod == "plain" || f.challengeMethod == "S256")
    && (f.resource == "" || SameResource(f.resource, ResourceURL(cfg, req)))
  }

  /** A form is accepted if and only if it is a good one, and an error names the first thing that is wrong. */
  lemma FormExactly(cfg: Config, m: Mem, req: Request, f: AuthorizeForm)
    ensures var e := Validate(cfg, m, req, f);
            && (e.None? <==> GoodForm(cfg, m, req, f))
            && (e == Some(WrongResponseType) <==> f.responseType != "code")
            && (e == Some(ClientRequired) <==> f.responseType == "code" && f.clientId == "")
            && (e == Some(UnknownClient) <==>
                  f.responseType == "code" && f.clientId != "" && f.clientId !in m.clients)
            && (f.responseType == "code" && f.clientId != "" && f.clientId in m.clients ==>
                  && (e == Some(RedirectRequired) <==> f.redirectURI == "")
                  && (e == Some(RedirectNotRegistered) <==>
                        f.redirectURI != "" && f.redirectURI !in m.clients[f.clientId].redirectURIs)
                  && (f.redirectURI != "" && f.redirectURI in m.clients[f.clientId].redirectURIs ==>
                        && (e == Some(ChallengeRequired) <==> f.challenge == "")
                        && (e == Some(UnsupportedMethod) <==>
                              f.challenge != "" && f.challengeMethod !in ["", "plain", "S256"])))
  {
    hide SameResource, ResourceURL;
  }

  /**
   * A login through a good form earns a code that holds for ten minutes and carries what the form said: client,
   * redirect, challenge, scope or the default scope, resource or this server's own. Live codes and tokens stay, expired
   * ones go, and anything else saves no code.
   */
  lemma LoginEarnsCode(cfg: Config, m: Mem, req: Request, f: AuthorizeForm, login: Option<string>,
                       code: Option<string>, at: int, t: int)
    ensures var (m', r) := Authorize(cfg, m, req, f, login, code, at, t);
            && (r.Some? <==> GoodForm(cfg, m, req, f) && login.Some? && code.Some?)
            && (r.None? ==> m' == m)
            && (r.Some? ==>
                  var c := r.value;
                  && c.code == code.value && c.userId == login.value && c.clientId == f.clientId
                  && c.redirectURI == f.redirectURI && c.challenge == f.challenge
                  && c.challengeMethod == (if f.challengeMethod == "" then "plain" else f.challengeMethod)
                  && c.scope == (if TrimSpace(f.scope) == "" then "mcp" else TrimSpace(f.scope))
                  && c.resource == (if TrimSpace(f.resource) == "" then ResourceURL(cfg, req)
                                    else TrimSpace(f.resource))
                  && c.expiresAt == at + 600
                  && m'.clients == m.clients
                  && c.code in m'.codes && m'.codes[c.code] == c
                  && (forall k | k in m.codes && k != c.code && t <= m.codes[k].expiresAt ::
                        k in m'.codes && m'.codes[k] == m.codes[k])
                  && (forall k | k in m.refresh && t <= m.refresh[k].expiresAt ::
                        k in m'.refresh && m'.refresh[k] == m.refresh[k])
                  && Swept(m'.(codes := m'.codes - {c.code}), t))
  {
    hide SameResource, ResourceURL, TrimSpace, Validate;
    FormExactly(cfg, m, req, f);
  }

  // ---- the code grant ----

  /** The proof of RFC 7636, for the methods the server knows. */
  ghost predicate GoodVerifier(cfg: Config, c: AuthCode, verifier: string) {
    || (c.challengeMethod == "S256" && cfg.s256(verifier) == c.challenge)
    || ((c.challengeMethod == "plain" || c.challengeMethod == "") && verifier == c.challenge)
  }

  /** A code request that leaves nothing out. */
  predicate Complete(f: TokenForm) {
    f.code != "" && f.redirectURI != "" && f.clientId != "" && f.verifier != ""
  }

  /** No expired code or refresh token is kept. */
  ghost predicate Swept(m: Mem, t: int) {
    && (forall k | k in m.codes :: t <= m.codes[k].expiresAt)
    && (forall k | k in m.refresh :: t <= m.refresh[k].expiresAt)
  }

  /** A stored code that has not expired by either reading of the clock. */
  predicate LiveCode(m: Mem, code: string, t1: int, t2: int) {
    code in m.codes && t1 <= m.codes[code].expiresAt && t2 <= m.codes[code].expiresAt
  }

  /** A public client, or one that presents its own secret, which is not empty. */
  predicate GoodClient(m: Mem, id: string, secret: string) {
    && id in m.clients
    && (m.clients[id].authMethod == "" || m.clients[id].authMethod == "none"
        || (secret != "" && secret == m.clients[id].secret))
  }

  /**
   * A code is exchanged if and only if nothing is missing from the request, the client authenticates, the code is live
   * and was made for this client and redirect, the verifier proves its challenge and the user still exists. The grant
   * is for the user, the scope and the resource of the code.
   */
  lemma CodeGrantExactly(cfg: Config, m: Mem, req: Request, f: TokenForm, known: bool, t1: int, t2: int)
    ensures var (m', out) := TakeForCode(cfg, m, req, f, known, t1, t2);
            var complete := Complete(f);
            var client := GoodClient(m, f.clientId, f.secret);
            var live := LiveCode(m, f.code, t1, t2);
            && (out.Refused? && out.error == InvalidRequest <==> !complete)
            && (out.Refused? && out.error == InvalidClient <==> complete && !client)
            && (out.Proceed? <==>
                  && complete && client && live && known
                  && m.codes[f.code].clientId == f.clientId && m.codes[f.code].redirectURI == f.redirectURI
                  && GoodVerifier(cfg, m.codes[f.code], f.verifier))
            && (out.Refused? ==> out.error in {InvalidRequest, InvalidClient, InvalidGrant})
            && (out.Refused? ==> (out.taken <==> complete && client && live))
            && (out.Proceed? ==>
                  var c := m.codes[f.code];
                  out.grant == Grant(req, c.userId, f.clientId, c.scope, c.resource))
  {
    hide Purge;
    PurgedCode(m, f.code, t1);
  }

  lemma PurgedCode(m: Mem, code: string, t: int)
    ensures Purge(m, t).clients == m.clients
    ensures code in Purge(m, t).codes <==> code in m.codes && t <= m.codes[code].expiresAt
    ensures code in Purge(m, t).codes ==> Purge(m, t).codes[code] == m.codes[code]
    ensures code in Purge(m, t).refresh <==> code in m.refresh && t <= m.refresh[code].expiresAt
    ensures code in Purge(m, t).refresh ==> Purge(m, t).refresh[code] == m.refresh[code]
  {
  }

  /** An incomplete or unauthenticated request leaves the store alone; any other uses up its code and expired grants. */
  lemma CodeGrantUses(cfg: Config, m: Mem, req: Request, f: TokenForm, known: bool, t1: int, t2: int)
    ensures var m' := TakeForCode(cfg, m, req, f, known, t1, t2).0;
            if Complete(f) && GoodClient(m, f.clientId, f.secret)
            then
              && m'.clients == m.clients && f.code !in m'.codes
              && (forall k | k in m.codes && k != f.code && t1 <= m.codes[k].expiresAt ::
                    k in m'.codes && m'.codes[k] == m.codes[k])
              && (forall k | k in m.refresh && t1 <= m.refresh[k].expiresAt ::
                    k in m'.refresh && m'.refresh[k] == m.refresh[k])
              && Swept(m', t1)
            else m' == m
  {
    hide VerifyPKCE, Purge;
    forall k ensures k in Purge(m, t1).codes <==> k in m.codes && t1 <= m.codes[k].expiresAt
             ensures k in Purge(m, t1).codes ==> Purge(m, t1).codes[k] == m.codes[k]
             ensures k in Purge(m, t1).refresh <==> k in m.refresh && t1 <= m.refresh[k].expiresAt
             ensures k in Purge(m, t1).refresh ==> Purge(m, t1).refresh[k] == m.refresh[k] {
      PurgedCode(m, k, t1);
    }
    PurgedCode(m, f.code, t1);
  }

  // ---- the refresh grant ----

  predicate LiveToken(m: Mem, token: string, t1: int, t2: int) {
    token in m.refresh && t1 <= m.refresh[token].expiresAt && t2 <= m.refresh[token].expiresAt
  }

  /**
   * A refresh token is exchanged if and only if it is live, belongs to the client named, if one is named, that client
   * authenticates and the user still exists. The scope asked for, if any, replaces the token's.
   */
  lemma RefreshGrantExactly(m: Mem, req: Request, f: TokenForm, known: bool, t1: int, t2: int)
    ensures var (m', out) := TakeForRefresh(m, req, f, known, t1, t2);
            var live := LiveToken(m, f.refresh, t1, t2);
            && (out.Refused? && out.error == InvalidRequest <==> f.refresh == "")
            && (out.Proceed? <==>
                  && f.refresh != "" && live && known
                  && (f.clientId == "" || f.clientId == m.refresh[f.refresh].clientId)
                  && GoodClient(m, m.refresh[f.refresh].clientId, f.secret))
            && (out.Refused? && out.error == InvalidClient <==>
                  && f.refresh != "" && live
                  && (f.clientId == "" || f.clientId == m.refresh[f.refresh].clientId)
                  && !GoodClient(m, m.refresh[f.refresh].clientId, f.secret))
            && (out.Refused? ==> out.error in {InvalidRequest, InvalidClient, InvalidGrant})
            && (out.Refused? ==> (out.taken <==> f.refresh != "" && live))
            && (out.Proceed? ==>
                  var t := m.refresh[f.refresh];
                  out.grant == Grant(req, t.userId, t.clientId,
                                     if TrimSpace(f.scope) != "" then TrimSpace(f.scope) else t.scope, t.resource))
  {
    hide TrimSpace, Purge;
    PurgedCode(m, f.refresh, t1);
  }

  /** Every request with a refresh token uses it up, and expired grants, but no other live one. */
  lemma RefreshGrantUses(m: Mem, req: Request, f: TokenForm, known: bool, t1: int, t2: int)
    ensures var m' := TakeForRefresh(m, req, f, known, t1, t2).0;
            if f.refresh == "" then m' == m
            else
              && m'.clients == m.clients && f.refresh !in m'.refresh
              && (forall k | k in m.refresh && k != f.refresh && t1 <= m.refresh[k].expiresAt ::
                    k in m'.refresh && m'.refresh[k] == m.refresh[k])
              && (forall k | k in m.codes && t1 <= m.codes[k].expiresAt :: k in m'.codes && m'.codes[k] == m.codes[k])
              && Swept(m', t1)
  {
    hide TrimSpace, Purge, CheckedToken;
    forall k ensures k in Purge(m, t1).codes <==> k in m.codes && t1 <= m.codes[k].expiresAt
             ensures k in Purge(m, t1).codes ==> Purge(m, t1).codes[k] == m.codes[k]
             ensures k in Purge(m, t1).refresh <==> k in m.refresh && t1 <= m.refresh[k].expiresAt
             ensures k in Purge(m, t1).refresh ==> Purge(m, t1).refresh[k] == m.refresh[k] {
      PurgedCode(m, k, t1);
    }
    PurgedCode(m, f.refresh, t1);
  }

  // ---- issuing ----

  /** A pair is issued unless signing or the random source fails; its refresh token repeats the grant and is stored. */
  lemma IssuedPair(cfg: Config, m: Mem, g: Grant, signed: bool, token: Option<string>, now: int)
    ensures var (m', reply) := Issue(cfg, m, g, signed, token, now);
            var resource := if g.resource == "" then ResourceURL(cfg, g.req) else g.resource;
            var scope := if g.scope == "" then "mcp" else g.scope;
            && (reply.Denied? <==> !signed || token.None?) && (reply.Denied? ==> m' == m && reply.error == ServerError)
            && (reply.Issued? ==>
                  && reply == Issued(g.userId, [resource], token.value, scope)
                  && m' == m.(refresh := m'.refresh) && m'.refresh - {token.value} == m.refresh - {token.value}
                  && token.value in m'.refresh
                  && m'.refresh[token.value] ==
                     RefreshToken(token.value, g.clientId, g.userId, scope, resource, now + cfg.refreshTTL))
  {
    hide ResourceURL;
  }

  // ---- a grant is not lost ----

  /**
   * No complete request of an authenticated client presents the code, and none that looks at the store reads the clock
   * after the code has expired.
   */
  predicate SparesCode(g: Grants, e: Event, code: string, expiresAt: int) {
    match e
    case Login(_, _, _, _, _, t) => t <= expiresAt
    case BeginCode(_, _, f, _, t1, _) =>
      Complete(f) && GoodClient(g.mem, f.clientId, f.secret) ==> f.code != code && t1 <= expiresAt
    case BeginRefresh(_, _, f, _, t1, _) => f.refresh != "" ==> t1 <= expiresAt
    case _ => true
  }

  lemma CodeStays(cfg: Config, g: Grants, e: Event, code: string)
    requires OAuthChains.Inv(cfg, g) && Enabled(g, e) && code in g.mem.codes
    requires SparesCode(g, e, code, g.mem.codes[code].expiresAt)
    ensures code in Step(cfg, g, e).mem.codes && Step(cfg, g, e).mem.codes[code] == g.mem.codes[code]
  {
    hide OAuthChains.Inv, TakeForCode, TakeForRefresh, Authorize, ResourceURL;
    match e
    case Login(req, form, user, c, at, t) =>
      LoginStores(cfg, g, e);
      LoginEarnsCode(cfg, g.mem, req, form, user, c, at, t);
      StoredCodeIsKnown(cfg, g, code);
    case BeginCode(_, req, f, known, t1, t2) => CodeGrantUses(cfg, g.mem, req, f, known, t1, t2);
    case BeginRefresh(_, req, f, known, t1, t2) => RefreshGrantUses(g.mem, req, f, known, t1, t2);
    case _ =>
  }

  lemma LoginStores(cfg: Config, g: Grants, e: Event)
    requires e.Login? && Enabled(g, e)
    ensures Step(cfg, g, e).mem == Authorize(cfg, g.mem, e.req, e.form, e.user, e.code, e.issuedAt, e.t).0
  {
    hide Validate, NewCode, SavedCode;
  }

  lemma StoredCodeIsKnown(cfg: Config, g: Grants, code: string)
    requires OAuthChains.Inv(cfg, g) && code in g.mem.codes
    ensures code in g.origins
  {
    hide OriginsOk, TokensOk, HeldOk, OnePlace, SpentOnce, ExchangesOk, PairsOk;
  }

  ghost predicate AllSpare(cfg: Config, g: Grants, events: seq<Event>, code: string, expiresAt: int)
    decreases |events|
  {
    events != [] ==>
      && Enabled(g, events[0]) && SparesCode(g, events[0], code, expiresAt)
      && AllSpare(cfg, Step(cfg, g, events[0]), events[1..], code, expiresAt)
  }

  /** Over every run a code waits in the store until it is presented or the clock has passed its end. */
  lemma {:induction false} CodeWaits(cfg: Config, g: Grants, events: seq<Event>, end: Grants, code: string)
    requires OAuthChains.Inv(cfg, g) && Run(cfg, g, events, end) && code in g.mem.codes
    requires AllSpare(cfg, g, events, code, g.mem.codes[code].expiresAt)
    ensures code in end.mem.codes && end.mem.codes[code] == g.mem.codes[code]
    ensures end.mem.clients.Keys >= g.mem.clients.Keys
    ensures forall id | id in g.mem.clients :: end.mem.clients[id] == g.mem.clients[id]
    decreases |events|
  {
    hide OAuthChains.Inv, Step, Enabled, SparesCode;
    if events != [] {
      StepKeepsInv(cfg, g, events[0]);
      CodeStays(cfg, g, events[0], code);
      ClientsStay(cfg, g, events[0]);
      CodeWaits(cfg, Step(cfg, g, events[0]), events[1..], end, code);
    }
  }

  lemma ClientsStay(cfg: Config, g: Grants, e: Event)
    requires Enabled(g, e)
    ensures Step(cfg, g, e).mem.clients.Keys >= g.mem.clients.Keys
    ensures forall id | id in g.mem.clients :: Step(cfg, g, e).mem.clients[id] == g.mem.clients[id]
  {
    hide TakeForCode, TakeForRefresh, Authorize, ResourceURL;
    match e
    case Login(req, form, user, c, at, t) =>
      LoginStores(cfg, g, e);
      LoginEarnsCode(cfg, g.mem, req, form, user, c, at, t);
    case BeginCode(_, req, f, known, t1, t2) => CodeGrantUses(cfg, g.mem, req, f, known, t1, t2);
    case BeginRefresh(_, req, f, known, t1, t2) => RefreshGrantUses(g.mem, req, f, known, t1, t2);
    case _ =>
  }

  /**
   * From login to tokens: whatever other requests come in between, a client that presents the code of its login within
   * ten minutes with its secret, the redirect and the verifier gets a grant for the user who logged in, with the scope
   * and resource of the login.
   */
  lemma LoginLeadsToGrant(cfg: Config, g: Grants, login: Event, events: seq<Event>, end: Grants, req: Request,
                          f: TokenForm, t1: int, t2: int)
    requires OAuthChains.Inv(cfg, g) && login.Login? && Enabled(g, login)
    requires GoodForm(cfg, g.mem, login.req, login.form) && login.user.Some? && login.code.Some?
    requires var g1 := Step(cfg, g, login);
             Run(cfg, g1, events, end) && AllSpare(cfg, g1, events, login.code.value, login.issuedAt + 600)
    requires f.code == login.code.value && f.code != "" && f.verifier != ""
    requires f.clientId == login.form.clientId && f.redirectURI == login.form.redirectURI
    requires GoodClient(g.mem, f.clientId, f.secret)
    requires if login.form.challengeMethod == "S256" then cfg.s256(f.verifier) == login.form.challenge
             else f.verifier == login.form.challenge
    requires t1 <= login.issuedAt + 600 && t2 <= login.issuedAt + 600
    ensures var out := TakeForCode(cfg, end.mem, req, f, true, t1, t2).1;
            var (scope, resource) := (TrimSpace(login.form.scope), TrimSpace(login.form.resource));
            out == Proceed(Grant(req, login.user.value, f.clientId, if scope == "" then "mcp" else scope,
                                 if resource == "" then ResourceURL(cfg, login.req) else resource))
  {
    hide OAuthChains.Inv, TakeForCode, Authorize, ResourceURL, TrimSpace, SameResource, Run, AllSpare;
    LoginEarnsCode(cfg, g.mem, login.req, login.form, login.user, login.code, login.issuedAt, login.t);
    StepKeepsInv(cfg, g, login);
    var g1 := Step(cfg, g, login);
    LoginStores(cfg, g, login);
    CodeWaits(cfg, g1, events, end, f.code);
    CodeGrantExactly(cfg, end.mem, req, f, true, t1, t2);
  }

  /** The refresh token of a pair earns the next grant, for the same client, user, scope and resource. */
  lemma PairRefreshes(cfg: Config, m: Mem, g: Grant, token: string, now: int, req: Request, f: TokenForm,
                      t1: int, t2: int)
    requires f.refresh == token != "" && f.clientId in {"", g.clientId} && TrimSpace(f.scope) == ""
    requires GoodClient(m, g.clientId, f.secret) && t1 <= now + cfg.refreshTTL && t2 <= now + cfg.refreshTTL
    ensures var m' := Issue(cfg, m, g, true, Some(token), now).0;
            var resource := if g.resource == "" then ResourceURL(cfg, g.req) else g.resource;
            TakeForRefresh(m', req, f, true, t1, t2).1 ==
            Proceed(Grant(req, g.userId, g.clientId, if g.scope == "" then "mcp" else g.scope, resource))
  {
    hide Issue, TakeForRefresh, ResourceURL, TrimSpace;
    IssuedPair(cfg, m, g, true, Some(token), now);
    RefreshGrantExactly(Issue(cfg, m, g, true, Some(token), now).0, req, f, true, t1, t2);
  }

  /** A registered client is known under its id from then on, and nothing else changes. */
  lemma RegistrationKnown(cfg: Config, g: Grants, c: Client)
    requires Enabled(g, Register(c))
    ensures var g' := Step(cfg, g, Register(c));
            && c.id in g'.mem.clients && g'.mem.clients[c.id] == c
            && g'.mem.clients - {c.id} == g.mem.clients && g' == g.(mem := g.mem.(clients := g'.mem.clients))
  {
  }

  // ---- the audience check ----

  /**
   * A token without an audience passes, and so does any token where no address is expected; otherwise some audience has
   * to be the expected address up to surrounding spaces and closing slashes.
   */
  lemma BearerCases(audience: seq<string>, expected: string)
    ensures BearerAccepted([], expected) && BearerAccepted(audience, "")
    ensures audience != [] && expected != "" ==>
      (BearerAccepted(audience, expected) <==>
       exists i :: 0 <= i < |audience| && TrimSlashes(TrimSpace(audience[i])) == TrimSlashes(TrimSpace(expected)))
  {
    hide TrimSlashes, TrimSpace;
    if audience != [] && expected != "" && BearerAccepted(audience, expected) {
      var a :| a in audience && SameResource(a, expected);
      var i :| 0 <= i < |audience| && audience[i] == a;
    }
    if i :| 0 <= i < |audience| && TrimSlashes(TrimSpace(audience[i])) == TrimSlashes(TrimSpace(expected)) {
      assert audience[i] in audience && SameResource(audience[i], expected);
    }
  }

  // ---- the server's own address ----

  /** A fixed address loses surrounding spaces and closing slashes; an inferred one is made of scheme and host. */
  lemma BaseAddress(cfg: Config, req: Request)
    ensures TrimSpace(cfg.publicBaseURL) != "" ==> BaseURL(cfg, req) == TrimSlashes(TrimSpace(cfg.publicBaseURL))
    ensures TrimSpace(cfg.publicBaseURL) == "" && req.forwardedProto == "" && req.host != "" ==>
      BaseURL(cfg, req) == (if req.tls then "https://" else "http://") + req.host
    ensures TrimSpace(cfg.publicBaseURL) == "" && req.forwardedProto != "" && req.host != "" ==>
      forall first | first <= req.forwardedProto && ',' !in first
                     && (first == req.forwardedProto || req.forwardedProto[|first|] == ',') ::
        BaseURL(cfg, req) == TrimSpace(first) + "://" + req.host
    ensures TrimSpace(cfg.publicBaseURL) == "" && req.host == "" ==>
      BaseURL(cfg, req) == BaseURL(cfg, req.(host := "127.0.0.1:8090"))
  {
    hide TrimSpace, TrimSlashes;
    forall first | first <= req.forwardedProto && ',' !in first
                   && (first == req.forwardedProto || req.forwardedProto[|first|] == ',')
      ensures first == UpToComma(req.forwardedProto)
    {
      FirstPart(req.forwardedProto, first, UpToComma(req.forwardedProto));
    }
  }

  /** There is one way to cut a text at its first comma. */
  lemma FirstPart(s: string, a: string, b: string)
    requires a <= s && ',' !in a && (a == s || s[|a|] == ',')
    requires b <= s && ',' !in b && (b == s || s[|b|] == ',')
    ensures a == b
  {
    NotBeyond(s, a, b);
    NotBeyond(s, b, a);
  }

  lemma NotBeyond(s: string, a: string, b: string)
    requires a <= s && (a == s || s[|a|] == ',') && b <= s && ',' !in b
    ensures |b| <= |a|
  {
    assert forall i | 0 <= i < |b| :: s[i] == b[i] != ',';
  }
}
