/**
 * What one request to the authorization server does: the checks of the authorize form, the two grant types of the
 * token endpoint, and the resource addresses the tokens are made for.
 * The hash of RFC 7636 is a parameter, and so are the outcome of the login, of signing and of the random source.
 */
module OAuthGrants {
  import opened Prelude
  import opened OAuthStore
  import opened Text

  const DEFAULT_SCOPE := "mcp"
  const CODE_TTL := 600
  const FALLBACK_HOST := "127.0.0.1:8090"

  datatype Config = Config(publicBaseURL: string, refreshTTL: int, s256: string -> string)

  /** The parts of an HTTP request from which the server's own address is inferred. */
  datatype Request = Request(tls: bool, forwardedProto: string, host: string)

  datatype AuthorizeForm = AuthorizeForm(responseType: string, clientId: string, redirectURI: string, scope: string,
                                         challenge: string, challengeMethod: string, resource: string)

  datatype TokenForm = TokenForm(code: string, redirectURI: string, clientId: string, verifier: string,
                                 refresh: string, secret: string, scope: string)

  datatype AuthorizeError =
    | WrongResponseType | ClientRequired | UnknownClient | RedirectRequired | RedirectNotRegistered
    | ChallengeRequired | UnsupportedMethod | ResourceMismatch

  datatype TokenError = InvalidRequest | InvalidClient | InvalidGrant | ServerError

  /** Everything a token pair is made from. */
  datatype Grant = Grant(req: Request, userId: string, clientId: string, scope: string, resource: string)

  /** `taken` says whether a refused request has already used up its code or refresh token. */
  datatype Outcome = Refused(error: TokenError, taken: bool) | Proceed(grant: Grant)

  datatype TokenReply =
    | Denied(error: TokenError)
    | Issued(userId: string, audience: seq<string>, refresh: string, scope: string)

  // ---- resource addresses ----

  function UpToComma(s: string): (t: string)
    ensures t <= s && ',' !in t
    ensures t == s || s[|t|] == ','
  {
    if s == "" || s[0] == ',' then "" else [s[0]] + UpToComma(s[1..])
  }

  function BaseURL(cfg: Config, req: Request): string {
    var fixed := TrimSpace(cfg.publicBaseURL);
    if fixed != "" then TrimSlashes(fixed)
    else
      var scheme := if req.forwardedProto != "" then TrimSpace(UpToComma(req.forwardedProto))
                    else if req.tls then "https" else "http";
      scheme + "://" + (if req.host == "" then FALLBACK_HOST else req.host)
  }

  function ResourceURL(cfg: Config, req: Request): (u: string)
    ensures u != ""
  {
    TrimSlashes(BaseURL(cfg, req)) + "/mcp"
  }

  predicate SameResource(a: string, b: string) {
    TrimSlashes(TrimSpace(a)) == TrimSlashes(TrimSpace(b))
  }

  /** The audience check of the resource server. Tokens without an audience are let through. */
  ghost predicate BearerAccepted(audience: seq<string>, expected: string) {
    expected == "" || audience == [] || exists a :: a in audience && SameResource(a, expected)
  }

  // ---- proof keys ----

  function NormalizeChallengeMethod(m: string): string {
    if m == "" then "plain" else m
  }

  predicate VerifyPKCE(cfg: Config, verifier: string, challenge: string, challengeMethod: string) {
    match NormalizeChallengeMethod(challengeMethod)
    case "S256" => cfg.s256(verifier) == challenge
    case "plain" => verifier == challenge
    case _ => false
  }

  // ---- the authorize form ----

  function Validate(cfg: Config, m: Mem, req: Request, f: AuthorizeForm): Option<AuthorizeError> {
    if f.responseType != "code" then Some(WrongResponseType)
    else if f.clientId == "" then Some(ClientRequired)
    else if f.clientId !in m.clients then Some(UnknownClient)
    else if f.redirectURI == "" then Some(RedirectRequired)
    else if f.redirectURI !in m.clients[f.clientId].redirectURIs then Some(RedirectNotRegistered)
    else if f.challenge == "" then Some(ChallengeRequired)
    else if NormalizeChallengeMethod(f.challengeMethod) !in ["S256", "plain"] then Some(UnsupportedMethod)
    else if f.resource != "" && !SameResource(f.resource, ResourceURL(cfg, req)) then Some(ResourceMismatch)
    else None
  }

  /** The code a login earns. `issuedAt` is the clock reading the lifetime counts from. */
  function NewCode(cfg: Config, req: Request, f: AuthorizeForm, userId: string, code: string, issuedAt: int): AuthCode {
    var scope, resource := TrimSpace(f.scope), TrimSpace(f.resource);
    AuthCode(code, f.clientId, userId, f.redirectURI,
             if scope == "" then DEFAULT_SCOPE else scope,
             if resource == "" then ResourceURL(cfg, req) else resource,
             f.challenge, NormalizeChallengeMethod(f.challengeMethod), issuedAt + CODE_TTL)
  }

  /** `login` is the user whose password matched and who has MCP enabled; `code` is the random source's answer. */
  function Authorize(cfg: Config, m: Mem, req: Request, f: AuthorizeForm, login: Option<string>,
                     code: Option<string>, issuedAt: int, t: int): (Mem, Option<AuthCode>)
  {
    if Validate(cfg, m, req, f).Some? || login.None? || code.None? then (m, None)
    else var c := NewCode(cfg, req, f, login.value, code.value, issuedAt); (SavedCode(m, c, t), Some(c))
  }

  // ---- the token endpoint ----

  predicate Authenticates(c: Client, secret: string) {
    c.authMethod == "" || c.authMethod == "none" || (secret != "" && secret == c.secret)
  }

  /** The checks made on a code once it has been taken. */
  function CheckedCode(cfg: Config, req: Request, f: TokenForm, c: AuthCode, userKnown: bool): Outcome {
    if c.clientId != f.clientId || c.redirectURI != f.redirectURI then Refused(InvalidGrant, true)
    else if !VerifyPKCE(cfg, f.verifier, c.challenge, c.challengeMethod) then Refused(InvalidGrant, true)
    else if !userKnown then Refused(InvalidGrant, true)
    else Proceed(Grant(req, c.userId, f.clientId, c.scope, c.resource))
  }

  function TakeForCode(cfg: Config, m: Mem, req: Request, f: TokenForm, userKnown: bool, t1: int, t2: int)
    : (Mem, Outcome)
  {
    if f.code == "" || f.redirectURI == "" || f.clientId == "" || f.verifier == "" then
      (m, Refused(InvalidRequest, false))
    else if f.clientId !in m.clients || !Authenticates(m.clients[f.clientId], f.secret) then
      (m, Refused(InvalidClient, false))
    else
      var (m', r) := TakenCode(m, f.code, t1, t2);
      (m', if r.None? then Refused(InvalidGrant, false) else CheckedCode(cfg, req, f, r.value, userKnown))
  }

  /** The checks made on a refresh token once it has been taken. */
  function CheckedToken(m: Mem, req: Request, f: TokenForm, t: RefreshToken, userKnown: bool): Outcome {
    var clientId := if f.clientId == "" then t.clientId else f.clientId;
    if t.clientId != clientId then Refused(InvalidGrant, true)
    else if clientId !in m.clients || !Authenticates(m.clients[clientId], f.secret) then Refused(InvalidClient, true)
    else if !userKnown then Refused(InvalidGrant, true)
    else
      var scope := TrimSpace(f.scope);
      Proceed(Grant(req, t.userId, clientId, if scope != "" then scope else t.scope, t.resource))
  }

  function TakeForRefresh(m: Mem, req: Request, f: TokenForm, userKnown: bool, t1: int, t2: int): (Mem, Outcome) {
    if f.refresh == "" then (m, Refused(InvalidRequest, false))
    else
      var (m', r) := TakenRefresh(m, f.refresh, t1, t2);
      (m', if r.None? then Refused(InvalidGrant, false) else CheckedToken(m', req, f, r.value, userKnown))
  }

  /** Sign an access token and store a new refresh token. */
  function Issue(cfg: Config, m: Mem, g: Grant, signed: bool, token: Option<string>, now: int): (Mem, TokenReply) {
    var resource := if g.resource == "" then ResourceURL(cfg, g.req) else g.resource;
    var scope := if g.scope == "" then DEFAULT_SCOPE else g.scope;
    if !signed || token.None? then (m, Denied(ServerError))
    else (PutRefresh(m, RefreshToken(token.value, g.clientId, g.userId, scope, resource, now + cfg.refreshTTL)),
          Issued(g.userId, [resource], token.value, scope))
  }

  // ---- what the checks amount to ----

  /** A new code names a resource that is this server's own address, whatever spaces and slashes the client sent. */
  lemma NewCodeResource(cfg: Config, m: Mem, req: Request, f: AuthorizeForm, userId: string, code: string, at: int)
    requires Validate(cfg, m, req, f).None?
    ensures var c := NewCode(cfg, req, f, userId, code, at);
      c.resource != "" && SameResource(c.resource, ResourceURL(cfg, req))
  {
    hide TrimSpace, TrimSlashes, ResourceURL;
    TrimNothing();
    TrimSpaceTwice(f.resource);
  }

  /** With a fixed public address the resource does not depend on the request. */
  lemma FixedBase(cfg: Config, r1: Request, r2: Request)
    requires TrimSpace(cfg.publicBaseURL) != ""
    ensures ResourceURL(cfg, r1) == ResourceURL(cfg, r2)
  {
  }

  lemma TrimsKeep(u: string)
    requires u != "" && !IsSpace(u[0]) && !IsSpace(u[|u| - 1]) && u[|u| - 1] != '/'
    ensures TrimSlashes(TrimSpace(u)) == u
  {
    assert TrimLeft(u) == u && TrimEnd(u) == u;
  }

  /** Trimming slashes stops before the last character that is none. */
  lemma {:induction false} SlashesStop(s: string, i: nat)
    requires i < |s| && s[i] != '/'
    ensures i < |TrimSlashes(s)|
    decreases |s|
  {
    if s[|s| - 1] == '/' {
      SlashesStop(s[..|s| - 1], i);
    }
  }

  lemma SchemeStarts(s: string)
    ensures TrimSpace(s) != "" ==> !IsSpace(TrimSpace(s)[0])
  {
  }

  /** An inferred address begins with something that neither trim removes. */
  lemma InferredBase(cfg: Config, req: Request)
    requires TrimSpace(cfg.publicBaseURL) == ""
    ensures var t := TrimSlashes(BaseURL(cfg, req)); t != "" && !IsSpace(t[0])
  {
    hide TrimSpace, TrimSlashes, UpToComma;
    SchemeStarts(UpToComma(req.forwardedProto));
    var scheme := if req.forwardedProto != "" then TrimSpace(UpToComma(req.forwardedProto))
                  else if req.tls then "https" else "http";
    var base := BaseURL(cfg, req);
    assert base == scheme + "://" + (if req.host == "" then FALLBACK_HOST else req.host);
    assert base[|scheme|] == ':';
    SlashesStop(base, |scheme|);
    assert TrimSlashes(base)[0] == base[0];
  }

  lemma InferredResource(cfg: Config, req: Request)
    requires TrimSpace(cfg.publicBaseURL) == ""
    ensures TrimSlashes(TrimSpace(ResourceURL(cfg, req))) == TrimSlashes(BaseURL(cfg, req)) + "/mcp"
  {
    hide TrimSpace, TrimSlashes, BaseURL;
    InferredBase(cfg, req);
    TrimsKeep(ResourceURL(cfg, req));
  }

  lemma AcceptedAlone(a: string, expected: string)
    requires expected != ""
    ensures BearerAccepted([a], expected) <==> SameResource(a, expected)
  {
    hide SameResource;
    assert a in [a];
  }

  /**
   * Without a fixed address, a token obtained by one request is accepted by another exactly when both infer the same
   * address up to closing slashes.
   */
  lemma InferredBaseExactly(cfg: Config, r1: Request, r2: Request)
    requires TrimSpace(cfg.publicBaseURL) == ""
    ensures BearerAccepted([ResourceURL(cfg, r1)], ResourceURL(cfg, r2))
            <==> TrimSlashes(BaseURL(cfg, r1)) == TrimSlashes(BaseURL(cfg, r2))
  {
    hide TrimSlashes, TrimSpace, BearerAccepted, ResourceURL, BaseURL;
    InferredResource(cfg, r1);
    InferredResource(cfg, r2);
    AcceptedAlone(ResourceURL(cfg, r1), ResourceURL(cfg, r2));
    var t1, t2 := TrimSlashes(BaseURL(cfg, r1)), TrimSlashes(BaseURL(cfg, r2));
    assert (t1 + "/mcp")[..|t1 + "/mcp"| - 4] == t1 && (t2 + "/mcp")[..|t2 + "/mcp"| - 4] == t2;
  }

  /** In particular, over plain connections, under another host name that does not end in a slash it is turned away. */
  lemma OtherHostTurnedAway(cfg: Config, h1: string, h2: string)
    requires TrimSpace(cfg.publicBaseURL) == "" && h1 != "" && h2 != "" && h1 != h2
    requires h1[|h1| - 1] != '/' && h2[|h2| - 1] != '/'
    ensures !BearerAccepted([ResourceURL(cfg, Request(false, "", h1))], ResourceURL(cfg, Request(false, "", h2)))
  {
    hide TrimSpace, TrimSlashes, BearerAccepted, ResourceURL, BaseURL;
    InferredBaseExactly(cfg, Request(false, "", h1), Request(false, "", h2));
    PlainBase(cfg, h1);
    PlainBase(cfg, h2);
    assert ("http://" + h1)[7..] == h1 && ("http://" + h2)[7..] == h2;
  }

  lemma PlainBase(cfg: Config, h: string)
    requires TrimSpace(cfg.publicBaseURL) == "" && h != "" && h[|h| - 1] != '/'
    ensures TrimSlashes(BaseURL(cfg, Request(false, "", h))) == "http://" + h
  {
    hide TrimSpace, UpToComma;
    var base := "http://" + h;
    assert base[|base| - 1] == h[|h| - 1];
  }
}
