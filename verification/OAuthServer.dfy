/** The authorization server's handlers as they are written, over the store of codes and tokens. */
module OAuthServer {
  import opened Prelude
  import opened OAuthStore
  import opened OAuthGrants
  import opened Text

  /** The loop of the audience check, on the claims of one token. */
  method AudienceContains(audience: seq<string>, want: string) returns (found: bool)
    ensures found <==> exists a :: a in audience && SameResource(a, want)
  {
    hide TrimSlashes, TrimSpace;
    var trimmed := TrimSlashes(TrimSpace(want));
    for i := 0 to |audience|
      invariant forall a | a in audience[..i] :: !SameResource(a, want)
    {
      if TrimSlashes(TrimSpace(audience[i])) == trimmed {
        assert SameResource(audience[i], want);
        return true;
      }
    }
    return false;
  }

  method AcceptBearer(audience: seq<string>, expected: string) returns (ok: bool)
    ensures ok <==> BearerAccepted(audience, expected)
  {
    hide SameResource;
    if expected != "" && |audience| > 0 {
      var found := AudienceContains(audience, expected);
      if !found {
        return false;
      }
    }
    return true;
  }

  class Server {
    const cfg: Config
    const mem: MemoryStore

    constructor (cfg: Config)
      ensures fresh(mem) && this.cfg == cfg && mem.View() == Mem(map[], map[], map[])
    {
      this.cfg := cfg;
      mem := new MemoryStore();
    }

    method InferBaseURL(req: Request) returns (u: string)
      ensures u == BaseURL(cfg, req)
    {
      hide TrimSlashes, TrimSpace, UpToComma;
      var fixed := TrimSpace(cfg.publicBaseURL);
      if fixed != "" {
        return TrimSlashes(fixed);
      }
      var scheme := "http";
      if req.tls {
        scheme := "https";
      }
      if req.forwardedProto != "" {
        scheme := TrimSpace(UpToComma(req.forwardedProto));
      }
      var host := req.host;
      if host == "" {
        host := FALLBACK_HOST;
      }
      return scheme + "://" + host;
    }

    method ValidateAuthorizeParams(req: Request, f: AuthorizeForm) returns (e: Option<AuthorizeError>)
      ensures e == Validate(cfg, mem.View(), req, f)
    {
      hide SameResource, ResourceURL;
      if f.responseType != "code" {
        return Some(WrongResponseType);
      }
      if f.clientId == "" {
        return Some(ClientRequired);
      }
      if f.clientId !in mem.clients {
        return Some(UnknownClient);
      }
      if f.redirectURI == "" {
        return Some(RedirectRequired);
      }
      var allowed := mem.ClientAllowsRedirect(f.clientId, f.redirectURI);
      if !allowed {
        return Some(RedirectNotRegistered);
      }
      if f.challenge == "" {
        return Some(ChallengeRequired);
      }
      var challengeMethod := NormalizeChallengeMethod(f.challengeMethod);
      if challengeMethod != "S256" && challengeMethod != "plain" {
        return Some(UnsupportedMethod);
      }
      if f.resource != "" && !SameResource(f.resource, ResourceURL(cfg, req)) {
        return Some(ResourceMismatch);
      }
      return None;
    }

    method HandleAuthorizePost(req: Request, f: AuthorizeForm, login: Option<string>, code: Option<string>,
                               issuedAt: int, t: int)
      returns (issued: Option<AuthCode>)
      modifies mem`codes, mem`refresh
      ensures (mem.View(), issued) == Authorize(cfg, old(mem.View()), req, f, login, code, issuedAt, t)
    {
      hide Validate, ResourceURL, SavedCode, TrimSpace;
      var invalid := ValidateAuthorizeParams(req, f);
      if invalid.Some? || login.None? || code.None? {
        return None;
      }
      var scope := TrimSpace(f.scope);
      if scope == "" {
        scope := DEFAULT_SCOPE;
      }
      var resource := TrimSpace(f.resource);
      if resource == "" {
        resource := ResourceURL(cfg, req);
      }
      var c := AuthCode(code.value, f.clientId, login.value, f.redirectURI, scope, resource, f.challenge,
                        NormalizeChallengeMethod(f.challengeMethod), issuedAt + CODE_TTL);
      mem.SaveCode(c, t);
      return Some(c);
    }

    method IssueTokenResponse(g: Grant, signed: bool, token: Option<string>, now: int) returns (reply: TokenReply)
      modifies mem`refresh
      ensures (mem.View(), reply) == Issue(cfg, old(mem.View()), g, signed, token, now)
    {
      hide ResourceURL;
      var resource, scope := g.resource, g.scope;
      if resource == "" {
        resource := ResourceURL(cfg, g.req);
      }
      if scope == "" {
        scope := DEFAULT_SCOPE;
      }
      if !signed {
        return Denied(ServerError);
      }
      if token.None? {
        return Denied(ServerError);
      }
      mem.SaveRefresh(RefreshToken(token.value, g.clientId, g.userId, scope, resource, now + cfg.refreshTTL));
      return Issued(g.userId, [resource], token.value, scope);
    }

    /** The first half of the code grant, up to the last check. */
    method TakeCodeGrant(req: Request, f: TokenForm, userKnown: bool, t1: int, t2: int) returns (out: Outcome)
      modifies mem`codes, mem`refresh
      ensures (mem.View(), out) == TakeForCode(cfg, old(mem.View()), req, f, userKnown, t1, t2)
    {
      hide VerifyPKCE, TakenCode;
      if f.code == "" || f.redirectURI == "" || f.clientId == "" || f.verifier == "" {
        return Refused(InvalidRequest, false);
      }
      if f.clientId !in mem.clients {
        return Refused(InvalidClient, false);
      }
      if !Authenticates(mem.clients[f.clientId], f.secret) {
        return Refused(InvalidClient, false);
      }
      var taken := mem.TakeCode(f.code, t1, t2);
      if taken.None? {
        return Refused(InvalidGrant, false);
      }
      var ac := taken.value;
      if ac.clientId != f.clientId || ac.redirectURI != f.redirectURI {
        return Refused(InvalidGrant, true);
      }
      if !VerifyPKCE(cfg, f.verifier, ac.challenge, ac.challengeMethod) {
        return Refused(InvalidGrant, true);
      }
      if !userKnown {
        return Refused(InvalidGrant, true);
      }
      return Proceed(Grant(req, ac.userId, f.clientId, ac.scope, ac.resource));
    }

    /** The first half of the refresh grant: the token is taken before the client is looked at. */
    method TakeRefreshGrant(req: Request, f: TokenForm, userKnown: bool, t1: int, t2: int) returns (out: Outcome)
      modifies mem`codes, mem`refresh
      ensures (mem.View(), out) == TakeForRefresh(old(mem.View()), req, f, userKnown, t1, t2)
    {
      hide TakenRefresh, TrimSpace;
      if f.refresh == "" {
        return Refused(InvalidRequest, false);
      }
      var taken := mem.TakeRefresh(f.refresh, t1, t2);
      if taken.None? {
        return Refused(InvalidGrant, false);
      }
      var rt := taken.value;
      var clientId := f.clientId;
      if clientId == "" {
        clientId := rt.clientId;
      }
      if rt.clientId != clientId {
        return Refused(InvalidGrant, true);
      }
      if clientId !in mem.clients || !Authenticates(mem.clients[clientId], f.secret) {
        return Refused(InvalidClient, true);
      }
      if !userKnown {
        return Refused(InvalidGrant, true);
      }
      var scope := rt.scope;
      var wanted := TrimSpace(f.scope);
      if wanted != "" {
        scope := wanted;
      }
      return Proceed(Grant(req, rt.userId, clientId, scope, rt.resource));
    }

    method TokenFromCode(req: Request, f: TokenForm, userKnown: bool, t1: int, t2: int, signed: bool,
                         token: Option<string>, now: int)
      returns (reply: TokenReply)
      modifies mem`codes, mem`refresh
      ensures var (m, out) := TakeForCode(cfg, old(mem.View()), req, f, userKnown, t1, t2);
        match out
        case Refused(e, _) => mem.View() == m && reply == Denied(e)
        case Proceed(g) => (mem.View(), reply) == Issue(cfg, m, g, signed, token, now)
    {
      hide TakeForCode, Issue;
      var out := TakeCodeGrant(req, f, userKnown, t1, t2);
      if out.Refused? {
        return Denied(out.error);
      }
      reply := IssueTokenResponse(out.grant, signed, token, now);
    }

    method TokenFromRefresh(req: Request, f: TokenForm, userKnown: bool, t1: int, t2: int, signed: bool,
                            token: Option<string>, now: int)
      returns (reply: TokenReply)
      modifies mem`codes, mem`refresh
      ensures var (m, out) := TakeForRefresh(old(mem.View()), req, f, userKnown, t1, t2);
        match out
        case Refused(e, _) => mem.View() == m && reply == Denied(e)
        case Proceed(g) => (mem.View(), reply) == Issue(cfg, m, g, signed, token, now)
    {
      hide TakeForRefresh, Issue;
      var out := TakeRefreshGrant(req, f, userKnown, t1, t2);
      if out.Refused? {
        return Denied(out.error);
      }
      reply := IssueTokenResponse(out.grant, signed, token, now);
    }
  }
}
