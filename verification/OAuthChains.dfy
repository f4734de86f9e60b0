/**
 * All runs of the authorization server. A token request is two critical sections with the handler's own checks
 * between them: it takes its code or token, and later stores the token that replaces it. Any number of requests are
 * in between at once, in any order. The random source never repeats a value; everything else is arbitrary.
 */
module OAuthChains {
  import opened Prelude
  import opened OAuthStore
  import opened OAuthGrants
  import Text

  /** The authorize step a chain started with. */
  datatype Origin = Origin(auth: AuthCode, req: Request)

  /** What a held grant was exchanged for: a code with its proof, or a refresh token of some code's chain. */
  datatype Source = FromCode(code: string, redirectURI: string, verifier: string) | FromToken(code: string)

  /** A request under way, and the secret it presented. */
  datatype Held = Held(source: Source, grant: Grant, secret: string)

  datatype Exchange = Exchange(code: string, clientId: string, redirectURI: string, verifier: string, secret: string)

  /** A token pair that was handed out, the code its chain began with, and the secret of the request that earned it. */
  datatype Pair = Pair(code: string, clientId: string, userId: string, audience: seq<string>, refresh: string,
                       secret: string)

  /** The store, the requests that are under way, and the history. `lineage` maps every refresh token to its code. */
  datatype Grants = Grants(mem: Mem, held: map<nat, Held>, origins: map<string, Origin>,
                           spentCodes: seq<string>, spentTokens: seq<string>,
                           lineage: map<string, string>, exchanges: seq<Exchange>, pairs: seq<Pair>)

  datatype Event =
    | Register(c: Client)
    | Login(req: Request, form: AuthorizeForm, user: Option<string>, code: Option<string>, issuedAt: int, t: int)
    | BeginCode(id: nat, req: Request, f: TokenForm, userKnown: bool, t1: int, t2: int)
    | BeginRefresh(id: nat, req: Request, f: TokenForm, userKnown: bool, t1: int, t2: int)
    | Finish(id: nat, signed: bool, token: Option<string>, now: int)

  predicate Enabled(g: Grants, e: Event) {
    match e
    case Register(c) => c.id !in g.mem.clients
    case Login(_, _, _, code, _, _) => code.Some? ==> code.value !in g.origins
    case BeginCode(id, _, _, _, _, _) => id !in g.held
    case BeginRefresh(id, _, _, _, _, _) => id !in g.held
    case Finish(id, _, token, _) => id in g.held && (token.Some? ==> token.value !in g.lineage)
  }

  function Registered(g: Grants, c: Client): Grants {
    g.(mem := g.mem.(clients := g.mem.clients[c.id := c]))
  }

  function LoggedIn(cfg: Config, g: Grants, e: Event): Grants
    requires e.Login?
  {
    var (m, c) := Authorize(cfg, g.mem, e.req, e.form, e.user, e.code, e.issuedAt, e.t);
    if c.None? then g else g.(mem := m, origins := g.origins[c.value.code := Origin(c.value, e.req)])
  }

  function BegunCode(cfg: Config, g: Grants, e: Event): Grants
    requires e.BeginCode?
  {
    var (m, out) := TakeForCode(cfg, g.mem, e.req, e.f, e.userKnown, e.t1, e.t2);
    match out
    case Refused(_, taken) => g.(mem := m, spentCodes := if taken then g.spentCodes + [e.f.code] else g.spentCodes)
    case Proceed(grant) =>
      g.(mem := m, spentCodes := g.spentCodes + [e.f.code],
         held := g.held[e.id := Held(FromCode(e.f.code, e.f.redirectURI, e.f.verifier), grant, e.f.secret)])
  }

  function CodeOf(lineage: map<string, string>, token: string): string {
    if token in lineage then lineage[token] else ""
  }

  function BegunRefresh(g: Grants, e: Event): Grants
    requires e.BeginRefresh?
  {
    var (m, out) := TakeForRefresh(g.mem, e.req, e.f, e.userKnown, e.t1, e.t2);
    match out
    case Refused(_, taken) =>
      g.(mem := m, spentTokens := if taken then g.spentTokens + [e.f.refresh] else g.spentTokens)
    case Proceed(grant) =>
      g.(mem := m, spentTokens := g.spentTokens + [e.f.refresh],
         held := g.held[e.id := Held(FromToken(CodeOf(g.lineage, e.f.refresh)), grant, e.f.secret)])
  }

  function ExchangeOf(h: Held): Exchange
    requires h.source.FromCode?
  {
    Exchange(h.source.code, h.grant.clientId, h.source.redirectURI, h.source.verifier, h.secret)
  }

  function Finished(cfg: Config, g: Grants, e: Event): Grants
    requires e.Finish? && e.id in g.held
  {
    var h := g.held[e.id];
    var (m, reply) := Issue(cfg, g.mem, h.grant, e.signed, e.token, e.now);
    match reply
    case Denied(_) => g.(held := g.held - {e.id})
    case Issued(userId, audience, refresh, _) =>
      g.(mem := m, held := g.held - {e.id}, lineage := g.lineage[refresh := h.source.code],
         exchanges := if h.source.FromCode? then g.exchanges + [ExchangeOf(h)] else g.exchanges,
         pairs := g.pairs + [Pair(h.source.code, h.grant.clientId, userId, audience, refresh, h.secret)])
  }

  function Step(cfg: Config, g: Grants, e: Event): Grants
    requires Enabled(g, e)
  {
    match e
    case Register(c) => Registered(g, c)
    case Login(_, _, _, _, _, _) => LoggedIn(cfg, g, e)
    case BeginCode(_, _, _, _, _, _) => BegunCode(cfg, g, e)
    case BeginRefresh(_, _, _, _, _, _) => BegunRefresh(g, e)
    case Finish(_, _, _, _) => Finished(cfg, g, e)
  }

  function Start(clients: map<string, Client>): Grants {
    Grants(Mem(clients, map[], map[]), map[], map[], [], [], map[], [], [])
  }

  ghost predicate Run(cfg: Config, g: Grants, events: seq<Event>, end: Grants)
    decreases |events|
  {
    if events == [] then g == end
    else Enabled(g, events[0]) && Run(cfg, Step(cfg, g, events[0]), events[1..], end)
  }

  // ---- the invariant ----

  predicate Matches(cfg: Config, o: Origin, redirectURI: string, verifier: string) {
    o.auth.redirectURI == redirectURI && VerifyPKCE(cfg, verifier, o.auth.challenge, o.auth.challengeMethod)
  }

  ghost predicate Redeemed(exchanges: seq<Exchange>, code: string) {
    exists x :: x in exchanges && x.code == code
  }

  /** What the login page checked: the redirect belongs to the client, the method is known, the resource is ours. */
  ghost predicate OriginOk(cfg: Config, clients: map<string, Client>, c: string, o: Origin) {
    && o.auth.code == c
    && o.auth.clientId in clients && o.auth.redirectURI in clients[o.auth.clientId].redirectURIs
    && o.auth.challenge != "" && o.auth.challengeMethod in ["S256", "plain"]
    && o.auth.resource != "" && SameResource(o.auth.resource, ResourceURL(cfg, o.req))
  }

  ghost predicate OriginsOk(cfg: Config, clients: map<string, Client>, origins: map<string, Origin>) {
    forall c | c in origins :: OriginOk(cfg, clients, c, origins[c])
  }

  ghost predicate CodesOk(codes: map<string, AuthCode>, origins: map<string, Origin>, spent: seq<string>) {
    forall c | c in codes :: c in origins && codes[c] == origins[c].auth && c !in spent
  }

  ghost predicate TokensOk(refresh: map<string, RefreshToken>, lineage: map<string, string>,
                           origins: map<string, Origin>, spent: seq<string>, exchanges: seq<Exchange>)
  {
    forall t | t in refresh ::
      && t in lineage && t !in spent
      && Redeemed(exchanges, lineage[t])
      && lineage[t] in origins && Carries(refresh[t], origins[lineage[t]].auth)
  }

  predicate Carries(t: RefreshToken, a: AuthCode) {
    t.clientId == a.clientId && t.userId == a.userId && t.resource == a.resource
  }

  predicate GrantFrom(g: Grant, a: AuthCode) {
    g.clientId == a.clientId && g.userId == a.userId && g.resource == a.resource
  }

  ghost predicate OneHeldOk(cfg: Config, h: Held, origins: map<string, Origin>, spent: seq<string>,
                            exchanges: seq<Exchange>)
  {
    var c := h.source.code;
    && c in origins && c in spent
    && GrantFrom(h.grant, origins[c].auth)
    && match h.source
       case FromCode(_, redirectURI, verifier) =>
         !Redeemed(exchanges, c) && Matches(cfg, origins[c], redirectURI, verifier)
       case FromToken(_) => Redeemed(exchanges, c)
  }

  ghost predicate HeldOk(cfg: Config, held: map<nat, Held>, origins: map<string, Origin>, spent: seq<string>,
                         exchanges: seq<Exchange>)
  {
    forall i | i in held :: OneHeldOk(cfg, held[i], origins, spent, exchanges)
  }

  /** A chain is in one place at a time: in one live refresh token, or in one request under way. */
  ghost predicate OnePlace(tokens: set<string>, lineage: map<string, string>, held: map<nat, Held>) {
    && (forall t, u | t in tokens && u in tokens && t != u :: CodeOf(lineage, t) != CodeOf(lineage, u))
    && (forall t, i | t in tokens && i in held :: CodeOf(lineage, t) != held[i].source.code)
    && (forall i, j | i in held && j in held && i != j :: held[i].source.code != held[j].source.code)
  }

  ghost predicate SpentOnce(spent: seq<string>, known: set<string>) {
    NoDup(spent) && forall x | x in spent :: x in known
  }

  ghost predicate ExchangesOk(cfg: Config, exchanges: seq<Exchange>, spent: seq<string>, origins: map<string, Origin>) {
    && (forall i, j | 0 <= i < j < |exchanges| :: exchanges[i].code != exchanges[j].code)
    && (forall x | x in exchanges ::
          && x.code in spent && x.code in origins && x.clientId == origins[x.code].auth.clientId
          && Matches(cfg, origins[x.code], x.redirectURI, x.verifier))
  }

  /** A pair carries the client, the user and the resource of the login its chain began with. */
  ghost predicate PairsOk(pairs: seq<Pair>, origins: map<string, Origin>, exchanges: seq<Exchange>) {
    forall p | p in pairs ::
      && p.code in origins && Redeemed(exchanges, p.code)
      && p.clientId == origins[p.code].auth.clientId
      && p.userId == origins[p.code].auth.userId
      && p.audience == [origins[p.code].auth.resource]
  }

  ghost predicate Inv(cfg: Config, g: Grants) {
    && OriginsOk(cfg, g.mem.clients, g.origins)
    && CodesOk(g.mem.codes, g.origins, g.spentCodes)
    && TokensOk(g.mem.refresh, g.lineage, g.origins, g.spentTokens, g.exchanges)
    && HeldOk(cfg, g.held, g.origins, g.spentCodes, g.exchanges)
    && OnePlace(g.mem.refresh.Keys, g.lineage, g.held)
    && SpentOnce(g.spentCodes, g.origins.Keys)
    && SpentOnce(g.spentTokens, g.lineage.Keys)
    && ExchangesOk(cfg, g.exchanges, g.spentCodes, g.origins)
    && PairsOk(g.pairs, g.origins, g.exchanges)
    && (forall t | t in g.lineage :: g.lineage[t] in g.origins)
  }

  // ---- what each kind of change keeps ----

  ghost predicate Shrinks(m: Mem, m': Mem) {
    && m'.clients == m.clients
    && (forall k | k in m'.codes :: k in m.codes && m'.codes[k] == m.codes[k])
    && (forall k | k in m'.refresh :: k in m.refresh && m'.refresh[k] == m.refresh[k])
  }

  lemma TakenCodeEffect(m: Mem, code: string, t1: int, t2: int)
    ensures var (m', r) := TakenCode(m, code, t1, t2);
      Shrinks(m, m') && (r.Some? ==> code in m.codes && r.value == m.codes[code] && code !in m'.codes)
  {
  }

  lemma TakenRefreshEffect(m: Mem, token: string, t1: int, t2: int)
    ensures var (m', r) := TakenRefresh(m, token, t1, t2);
      Shrinks(m, m') && (r.Some? ==> token in m.refresh && r.value == m.refresh[token] && token !in m'.refresh)
  {
  }

  lemma ShrinkInv(cfg: Config, g: Grants, m': Mem)
    requires Inv(cfg, g) && Shrinks(g.mem, m')
    ensures Inv(cfg, g.(mem := m'))
  {
    hide Redeemed, Carries, OriginsOk, HeldOk, SpentOnce, ExchangesOk, PairsOk;
  }

  lemma SpendPush(spent: seq<string>, known: set<string>, x: string)
    requires SpentOnce(spent, known) && x !in spent && x in known
    ensures SpentOnce(spent + [x], known)
  {
  }

  lemma SpendCodeInv(cfg: Config, g: Grants, c: string)
    requires Inv(cfg, g) && c in g.origins && c !in g.spentCodes && c !in g.mem.codes
    ensures Inv(cfg, g.(spentCodes := g.spentCodes + [c]))
  {
    hide Redeemed, Matches, GrantFrom, OriginsOk, TokensOk, OnePlace, PairsOk, SpentOnce;
    SpendPush(g.spentCodes, g.origins.Keys, c);
  }

  lemma SpendTokenInv(cfg: Config, g: Grants, t: string)
    requires Inv(cfg, g) && t in g.lineage && t !in g.spentTokens && t !in g.mem.refresh
    ensures Inv(cfg, g.(spentTokens := g.spentTokens + [t]))
  {
    hide Redeemed, Carries, OriginsOk, CodesOk, HeldOk, OnePlace, ExchangesOk, PairsOk, SpentOnce;
    SpendPush(g.spentTokens, g.lineage.Keys, t);
  }

  /** No live token and no request under way belongs to the chain of `c`. */
  ghost predicate Nowhere(g: Grants, c: string) {
    && (forall t | t in g.mem.refresh :: CodeOf(g.lineage, t) != c)
    && (forall i | i in g.held :: g.held[i].source.code != c)
  }

  lemma HoldInv(cfg: Config, g: Grants, id: nat, h: Held)
    requires Inv(cfg, g) && id !in g.held && OneHeldOk(cfg, h, g.origins, g.spentCodes, g.exchanges)
    requires Nowhere(g, h.source.code)
    ensures Inv(cfg, g.(held := g.held[id := h]))
  {
    hide OneHeldOk, CodeOf, OriginsOk, CodesOk, TokensOk, SpentOnce, ExchangesOk, PairsOk;
  }

  lemma LetGoInv(cfg: Config, g: Grants, id: nat)
    requires Inv(cfg, g) && id in g.held
    ensures Inv(cfg, g.(held := g.held - {id}))
    ensures Nowhere(g.(held := g.held - {id}), g.held[id].source.code)
  {
    hide OneHeldOk, CodeOf, OriginsOk, CodesOk, TokensOk, SpentOnce, ExchangesOk, PairsOk;
  }

  lemma RedeemedPush(exchanges: seq<Exchange>, x: Exchange, c: string)
    ensures Redeemed(exchanges + [x], c) <==> Redeemed(exchanges, c) || x.code == c
  {
    var xs := exchanges + [x];
    if Redeemed(exchanges, c) {
      var y :| y in exchanges && y.code == c;
      assert y in xs;
    }
    assert x in xs;
  }

  lemma ExchangesPush(cfg: Config, g: Grants, x: Exchange)
    requires ExchangesOk(cfg, g.exchanges, g.spentCodes, g.origins) && !Redeemed(g.exchanges, x.code)
    requires x.code in g.spentCodes && x.code in g.origins && x.clientId == g.origins[x.code].auth.clientId
    requires Matches(cfg, g.origins[x.code], x.redirectURI, x.verifier)
    ensures ExchangesOk(cfg, g.exchanges + [x], g.spentCodes, g.origins)
  {
    hide Matches;
    forall i | 0 <= i < |g.exchanges| ensures g.exchanges[i].code != x.code {
      assert g.exchanges[i] in g.exchanges;
    }
  }

  lemma HeldWiden(cfg: Config, g: Grants, x: Exchange)
    requires HeldOk(cfg, g.held, g.origins, g.spentCodes, g.exchanges) && Nowhere(g, x.code)
    ensures HeldOk(cfg, g.held, g.origins, g.spentCodes, g.exchanges + [x])
  {
    hide Redeemed, Matches, GrantFrom, CodeOf;
    forall i | i in g.held ensures OneHeldOk(cfg, g.held[i], g.origins, g.spentCodes, g.exchanges + [x]) {
      RedeemedPush(g.exchanges, x, g.held[i].source.code);
      assert OneHeldOk(cfg, g.held[i], g.origins, g.spentCodes, g.exchanges);
    }
  }

  lemma ExchangeInv(cfg: Config, g: Grants, x: Exchange)
    requires Inv(cfg, g) && !Redeemed(g.exchanges, x.code) && Nowhere(g, x.code)
    requires x.code in g.spentCodes && x.code in g.origins && x.clientId == g.origins[x.code].auth.clientId
    requires Matches(cfg, g.origins[x.code], x.redirectURI, x.verifier)
    ensures Inv(cfg, g.(exchanges := g.exchanges + [x]))
    ensures Redeemed(g.exchanges + [x], x.code)
  {
    hide Redeemed, Matches, Carries, Nowhere, OneHeldOk, OriginsOk, CodesOk, HeldOk, OnePlace, SpentOnce, ExchangesOk;
    HeldWiden(cfg, g, x);
    ExchangesPush(cfg, g, x);
    forall c ensures Redeemed(g.exchanges + [x], c) <==> Redeemed(g.exchanges, c) || x.code == c {
      RedeemedPush(g.exchanges, x, c);
    }
  }

  lemma OnePlacePush(g: Grants, t: string, c: string)
    requires OnePlace(g.mem.refresh.Keys, g.lineage, g.held) && Nowhere(g, c)
    requires t !in g.lineage && forall u | u in g.mem.refresh :: u in g.lineage
    ensures OnePlace(g.mem.refresh.Keys + {t}, g.lineage[t := c], g.held)
  {
  }

  /** Storing the token that a let-go request was for. */
  lemma TokenInv(cfg: Config, g: Grants, t: RefreshToken, c: string)
    requires Inv(cfg, g) && Nowhere(g, c) && t.token !in g.lineage
    requires c in g.origins && Redeemed(g.exchanges, c) && Carries(t, g.origins[c].auth)
    ensures Inv(cfg, g.(mem := PutRefresh(g.mem, t), lineage := g.lineage[t.token := c]))
  {
    hide Redeemed, Carries, Nowhere, CodeOf, OriginsOk, CodesOk, HeldOk, OnePlace, ExchangesOk, PairsOk, NoDup;
    OnePlacePush(g, t.token, c);
    assert PutRefresh(g.mem, t).refresh.Keys == g.mem.refresh.Keys + {t.token};
  }

  lemma PairInv(cfg: Config, g: Grants, p: Pair)
    requires Inv(cfg, g) && p.code in g.origins && Redeemed(g.exchanges, p.code)
    requires p.clientId == g.origins[p.code].auth.clientId && p.userId == g.origins[p.code].auth.userId
    requires p.audience == [g.origins[p.code].auth.resource]
    ensures Inv(cfg, g.(pairs := g.pairs + [p]))
  {
    hide Redeemed, OriginsOk, CodesOk, TokensOk, HeldOk, OnePlace, SpentOnce, ExchangesOk;
  }

  lemma OriginInv(cfg: Config, g: Grants, o: Origin)
    requires Inv(cfg, g) && o.auth.code !in g.origins && OriginOk(cfg, g.mem.clients, o.auth.code, o)
    ensures Inv(cfg, g.(mem := PutCode(g.mem, o.auth), origins := g.origins[o.auth.code := o]))
  {
    hide Redeemed, Matches, Carries, GrantFrom, OnePlace, NoDup, OriginOk;
  }

  // ---- the steps ----

  lemma RegisterInv(cfg: Config, g: Grants, c: Client)
    requires Inv(cfg, g) && c.id !in g.mem.clients
    ensures Inv(cfg, Registered(g, c))
  {
    hide SameResource, ResourceURL, CodesOk, TokensOk, HeldOk, OnePlace, SpentOnce, ExchangesOk, PairsOk;
  }

  lemma LoginInv(cfg: Config, g: Grants, e: Event)
    requires Inv(cfg, g) && e.Login? && Enabled(g, e)
    ensures Inv(cfg, LoggedIn(cfg, g, e))
  {
    hide Inv, SameResource, ResourceURL, NewCode;
    if Authorize(cfg, g.mem, e.req, e.form, e.user, e.code, e.issuedAt, e.t).1.Some? {
      var c := NewCode(cfg, e.req, e.form, e.user.value, e.code.value, e.issuedAt);
      var m := Purge(g.mem, e.t);
      ShrinkInv(cfg, g, m);
      LoginOrigin(cfg, g.mem, e);
      OriginInv(cfg, g.(mem := m), Origin(c, e.req));
    }
  }

  /** The login page saves only codes whose every field it has checked. */
  lemma LoginOrigin(cfg: Config, m: Mem, e: Event)
    requires e.Login? && e.user.Some? && e.code.Some? && Validate(cfg, m, e.req, e.form).None?
    ensures var c := NewCode(cfg, e.req, e.form, e.user.value, e.code.value, e.issuedAt);
      OriginOk(cfg, m.clients, e.code.value, Origin(c, e.req)) && c.code == e.code.value
  {
    hide ResourceURL, SameResource;
    NewCodeResource(cfg, m, e.req, e.form, e.user.value, e.code.value, e.issuedAt);
  }

  /** A code that can still be taken belongs to a chain that is nowhere yet. */
  lemma FreshChain(cfg: Config, g: Grants, c: string)
    requires Inv(cfg, g) && c in g.mem.codes
    ensures c in g.origins && g.mem.codes[c] == g.origins[c].auth
    ensures c !in g.spentCodes && !Redeemed(g.exchanges, c) && Nowhere(g, c)
  {
    hide Matches, Carries, GrantFrom, OriginsOk, OnePlace, NoDup, PairsOk;
  }

  lemma CheckedCodeMatches(cfg: Config, req: Request, f: TokenForm, c: AuthCode, userKnown: bool)
    ensures var out := CheckedCode(cfg, req, f, c, userKnown);
      match out
      case Refused(_, taken) => taken
      case Proceed(grant) =>
        && GrantFrom(grant, c) && c.redirectURI == f.redirectURI
        && VerifyPKCE(cfg, f.verifier, c.challenge, c.challengeMethod)
  {
    hide VerifyPKCE;
  }

  lemma BeginCodeInv(cfg: Config, g: Grants, e: Event)
    requires Inv(cfg, g) && e.BeginCode? && Enabled(g, e)
    ensures Inv(cfg, BegunCode(cfg, g, e))
  {
    hide Inv, Redeemed, GrantFrom, VerifyPKCE, CheckedCode, TakenCode, Nowhere, Shrinks;
    var (m, out) := TakeForCode(cfg, g.mem, e.req, e.f, e.userKnown, e.t1, e.t2);
    var c := e.f.code;
    TakenCodeEffect(g.mem, c, e.t1, e.t2);
    var taken := TakenCode(g.mem, c, e.t1, e.t2);
    ShrinkUnlessSame(cfg, g, m, taken.0);
    if out.Proceed? || out.taken {
      FreshChain(cfg, g, c);
      CheckedCodeMatches(cfg, e.req, e.f, taken.1.value, e.userKnown);
      SpendCodeInv(cfg, g.(mem := m), c);
      if out.Proceed? {
        var g1 := g.(mem := m, spentCodes := g.spentCodes + [c]);
        NowhereShrinks(g, m, c);
        NowhereSame(g.(mem := m), g1, c);
        HoldInv(cfg, g1, e.id, Held(FromCode(c, e.f.redirectURI, e.f.verifier), out.grant, e.f.secret));
      }
    }
  }

  lemma ShrinkUnlessSame(cfg: Config, g: Grants, m: Mem, m': Mem)
    requires Inv(cfg, g) && Shrinks(g.mem, m') && (m == g.mem || m == m')
    ensures Inv(cfg, g.(mem := m))
  {
    hide Inv;
    if m == m' {
      ShrinkInv(cfg, g, m');
    } else {
      assert g.(mem := m) == g;
    }
  }

  lemma NowhereShrinks(g: Grants, m: Mem, c: string)
    requires Nowhere(g, c) && Shrinks(g.mem, m)
    ensures Nowhere(g.(mem := m), c)
  {
    hide CodeOf;
  }

  lemma CheckedTokenCarries(m: Mem, req: Request, f: TokenForm, t: RefreshToken, userKnown: bool)
    ensures var out := CheckedToken(m, req, f, t, userKnown);
      match out
      case Refused(_, taken) => taken
      case Proceed(grant) => grant.clientId == t.clientId && grant.userId == t.userId && grant.resource == t.resource
  {
  }

  /** A token that can be taken is its chain's only place, and taking it leaves the chain nowhere. */
  lemma TakenChain(cfg: Config, g: Grants, m: Mem, t: string)
    requires Inv(cfg, g) && t in g.mem.refresh && Shrinks(g.mem, m) && t !in m.refresh
    ensures t in g.lineage && t !in g.spentTokens
    ensures var c := g.lineage[t];
      && c in g.origins && c in g.spentCodes && Redeemed(g.exchanges, c)
      && Carries(g.mem.refresh[t], g.origins[c].auth) && Nowhere(g.(mem := m), c)
  {
    hide Matches, Carries, OriginsOk, CodesOk, OneHeldOk, SpentOnce, PairsOk;
    var c := g.lineage[t];
    assert Redeemed(g.exchanges, c);
    assert CodeOf(g.lineage, t) == c;
  }

  lemma BeginRefreshInv(cfg: Config, g: Grants, e: Event)
    requires Inv(cfg, g) && e.BeginRefresh? && Enabled(g, e)
    ensures Inv(cfg, BegunRefresh(g, e))
  {
    hide Inv, Redeemed, CheckedToken, TakenRefresh, Nowhere, Shrinks;
    var (m, out) := TakeForRefresh(g.mem, e.req, e.f, e.userKnown, e.t1, e.t2);
    var t := e.f.refresh;
    TakenRefreshEffect(g.mem, t, e.t1, e.t2);
    var taken := TakenRefresh(g.mem, t, e.t1, e.t2);
    ShrinkUnlessSame(cfg, g, m, taken.0);
    if out.Proceed? || out.taken {
      TakenChain(cfg, g, m, t);
      CheckedTokenCarries(m, e.req, e.f, taken.1.value, e.userKnown);
      SpendTokenInv(cfg, g.(mem := m), t);
      if out.Proceed? {
        var g1 := g.(mem := m, spentTokens := g.spentTokens + [t]);
        NowhereSame(g.(mem := m), g1, g.lineage[t]);
        HoldInv(cfg, g1, e.id, Held(FromToken(g.lineage[t]), out.grant, e.f.secret));
      }
    }
  }

  lemma NowhereSame(g: Grants, g': Grants, c: string)
    requires Nowhere(g, c) && g'.mem == g.mem && g'.held == g.held && g'.lineage == g.lineage
    ensures Nowhere(g', c)
  {
    hide CodeOf;
  }

  /** The default resource of the token endpoint is never used: every grant under way names one. */
  lemma HeldResource(cfg: Config, g: Grants, id: nat)
    requires Inv(cfg, g) && id in g.held
    ensures var h := g.held[id];
      && h.grant.resource != "" && h.source.code in g.origins && h.source.code in g.spentCodes
      && GrantFrom(h.grant, g.origins[h.source.code].auth)
      && (h.source.FromCode? ==>
            !Redeemed(g.exchanges, h.source.code)
            && Matches(cfg, g.origins[h.source.code], h.source.redirectURI, h.source.verifier))
      && (h.source.FromToken? ==> Redeemed(g.exchanges, h.source.code))
  {
    hide Matches, SameResource, ResourceURL, Redeemed, CodesOk, TokensOk, OnePlace, SpentOnce, ExchangesOk, PairsOk;
    var h := g.held[id];
    assert OneHeldOk(cfg, h, g.origins, g.spentCodes, g.exchanges);
    assert OriginOk(cfg, g.mem.clients, h.source.code, g.origins[h.source.code]);
  }

  lemma FinishInv(cfg: Config, g: Grants, e: Event)
    requires Inv(cfg, g) && e.Finish? && Enabled(g, e)
    ensures Inv(cfg, Finished(cfg, g, e))
  {
    hide Inv, Redeemed, Matches, Nowhere, ResourceURL;
    var h := g.held[e.id];
    var c := h.source.code;
    HeldResource(cfg, g, e.id);
    LetGoInv(cfg, g, e.id);
    if e.signed && e.token.Some? {
      var g1 := g.(held := g.held - {e.id});
      var g2 := if h.source.FromCode? then g1.(exchanges := g1.exchanges + [ExchangeOf(h)]) else g1;
      if h.source.FromCode? {
        ExchangeInv(cfg, g1, ExchangeOf(h));
      }
      NowhereSame(g1, g2, c);
      var scope := if h.grant.scope == "" then DEFAULT_SCOPE else h.grant.scope;
      var t := RefreshToken(e.token.value, h.grant.clientId, h.grant.userId, scope, h.grant.resource,
          e.now + cfg.refreshTTL);
      TokenInv(cfg, g2, t, c);
      var g3 := g2.(mem := PutRefresh(g2.mem, t), lineage := g2.lineage[t.token := c]);
      PairInv(cfg, g3, Pair(c, h.grant.clientId, h.grant.userId, [h.grant.resource], t.token, h.secret));
    }
  }

  lemma StepKeepsInv(cfg: Config, g: Grants, e: Event)
    requires Inv(cfg, g) && Enabled(g, e)
    ensures Inv(cfg, Step(cfg, g, e))
  {
    hide Inv, Registered, LoggedIn, BegunCode, BegunRefresh, Finished;
    match e
    case Register(c) => RegisterInv(cfg, g, c);
    case Login(_, _, _, _, _, _) => LoginInv(cfg, g, e);
    case BeginCode(_, _, _, _, _, _) => BeginCodeInv(cfg, g, e);
    case BeginRefresh(_, _, _, _, _, _) => BeginRefreshInv(cfg, g, e);
    case Finish(_, _, _, _) => FinishInv(cfg, g, e);
  }

  lemma {:induction false} RunKeepsInv(cfg: Config, g: Grants, events: seq<Event>, end: Grants)
    requires Inv(cfg, g) && Run(cfg, g, events, end)
    ensures Inv(cfg, end)
    decreases |events|
  {
    hide Inv, Step, Enabled;
    if events != [] {
      StepKeepsInv(cfg, g, events[0]);
      RunKeepsInv(cfg, Step(cfg, g, events[0]), events[1..], end);
    }
  }

  // ---- who the clients proved to be ----

  /** A public client needs no secret; any other has to present its own, which is not empty. */
  predicate KnowsSecret(c: Client, secret: string) {
    c.authMethod in ["", "none"] || (secret == c.secret && secret != "")
  }

  predicate ProvenClient(clients: map<string, Client>, id: string, secret: string) {
    id in clients && KnowsSecret(clients[id], secret)
  }

  /** Every request under way, every exchange and every pair belongs to a client that authenticated for it. */
  ghost predicate SecretsOk(g: Grants) {
    && (forall i | i in g.held :: ProvenClient(g.mem.clients, g.held[i].grant.clientId, g.held[i].secret))
    && (forall x | x in g.exchanges :: ProvenClient(g.mem.clients, x.clientId, x.secret))
    && (forall p | p in g.pairs :: ProvenClient(g.mem.clients, p.clientId, p.secret))
  }

  /** No request gets past its checks without client authentication. */
  lemma ProceedsAuthenticated(cfg: Config, m: Mem, req: Request, f: TokenForm, userKnown: bool, t1: int, t2: int)
    ensures var (m', out) := TakeForCode(cfg, m, req, f, userKnown, t1, t2);
            m'.clients == m.clients && (out.Proceed? ==> ProvenClient(m.clients, out.grant.clientId, f.secret))
    ensures var (m', out) := TakeForRefresh(m, req, f, userKnown, t1, t2);
            m'.clients == m.clients && (out.Proceed? ==> ProvenClient(m.clients, out.grant.clientId, f.secret))
  {
    hide VerifyPKCE, Text.TrimSpace;
  }

  lemma HoldKeepsSecrets(g: Grants, g': Grants, id: nat)
    requires SecretsOk(g) && id !in g.held
    requires g'.mem.clients == g.mem.clients && g'.exchanges == g.exchanges && g'.pairs == g.pairs
    requires g'.held - {id} == g.held
    requires id in g'.held ==> ProvenClient(g.mem.clients, g'.held[id].grant.clientId, g'.held[id].secret)
    ensures SecretsOk(g')
  {
    hide ProvenClient;
    forall i | i in g'.held && i != id ensures i in g.held && g'.held[i] == g.held[i] {
      assert i in g'.held - {id} && (g'.held - {id})[i] == g'.held[i];
    }
  }

  lemma BeginKeepsSecrets(cfg: Config, g: Grants, e: Event)
    requires SecretsOk(g) && Enabled(g, e) && (e.BeginCode? || e.BeginRefresh?)
    ensures SecretsOk(Step(cfg, g, e))
  {
    hide TakeForCode, TakeForRefresh, ProvenClient, SecretsOk;
    ProceedsAuthenticated(cfg, g.mem, e.req, e.f, e.userKnown, e.t1, e.t2);
    var g' := Step(cfg, g, e);
    if e.id in g'.held {
      var out := if e.BeginCode? then TakeForCode(cfg, g.mem, e.req, e.f, e.userKnown, e.t1, e.t2).1
                 else TakeForRefresh(g.mem, e.req, e.f, e.userKnown, e.t1, e.t2).1;
      assert out.Proceed? && g'.held[e.id].grant == out.grant && g'.held[e.id].secret == e.f.secret;
      assert ProvenClient(g.mem.clients, out.grant.clientId, e.f.secret);
    }
    HoldKeepsSecrets(g, g', e.id);
  }

  lemma StepKeepsSecrets(cfg: Config, g: Grants, e: Event)
    requires SecretsOk(g) && Enabled(g, e)
    ensures SecretsOk(Step(cfg, g, e))
  {
    hide Validate, NewCode, ResourceURL, KnowsSecret, Purge, BegunCode, BegunRefresh;
    match e
    case BeginCode(_, _, _, _, _, _) => BeginKeepsSecrets(cfg, g, e);
    case BeginRefresh(_, _, _, _, _, _) => BeginKeepsSecrets(cfg, g, e);
    case Login(_, _, _, _, _, t) => PurgeKeepsClients(g.mem, t);
    case _ =>
  }

  lemma PurgeKeepsClients(m: Mem, t: int)
    ensures Purge(m, t).clients == m.clients
  {
  }

  lemma {:induction false} RunKeepsSecrets(cfg: Config, g: Grants, events: seq<Event>, end: Grants)
    requires SecretsOk(g) && Run(cfg, g, events, end)
    ensures SecretsOk(end)
    decreases |events|
  {
    hide SecretsOk, Step, Enabled;
    if events != [] {
      StepKeepsSecrets(cfg, g, events[0]);
      RunKeepsSecrets(cfg, Step(cfg, g, events[0]), events[1..], end);
    }
  }

  // ---- main results, over every run from a fresh server ----

  lemma ReachableInv(cfg: Config, clients: map<string, Client>, events: seq<Event>, end: Grants)
    requires Run(cfg, Start(clients), events, end)
    ensures Inv(cfg, end)
  {
    hide Run;
    RunKeepsInv(cfg, Start(clients), events, end);
  }

  /** A code is accepted at most once, whether or not the exchange succeeded; so is a refresh token. */
  lemma GrantsUsedOnce(cfg: Config, clients: map<string, Client>, events: seq<Event>, end: Grants)
    requires Run(cfg, Start(clients), events, end)
    ensures NoDup(end.spentCodes) && NoDup(end.spentTokens)
    ensures forall i, j | 0 <= i < j < |end.exchanges| :: end.exchanges[i].code != end.exchanges[j].code
    ensures forall c | c in end.mem.codes :: c !in end.spentCodes
    ensures forall t | t in end.mem.refresh :: t !in end.spentTokens
  {
    hide Run;
    ReachableInv(cfg, clients, events, end);
  }

  function ChainCodes(exchanges: seq<Exchange>): set<string> {
    set x | x in exchanges :: x.code
  }

  lemma ChainCodesBound(exchanges: seq<Exchange>)
    ensures |ChainCodes(exchanges)| <= |exchanges|
  {
    if exchanges != [] {
      var rest, x := exchanges[..|exchanges| - 1], exchanges[|exchanges| - 1];
      ChainCodesBound(rest);
      assert exchanges == rest + [x];
      assert ChainCodes(exchanges) == ChainCodes(rest) + {x.code};
    }
  }

  /** An injective image is at most as large as what holds it. */
  lemma Injected(tokens: set<string>, lineage: map<string, string>, codes: set<string>)
    requires forall t | t in tokens :: t in lineage && lineage[t] in codes
    requires forall t, u | t in tokens && u in tokens && t != u :: lineage[t] != lineage[u]
    ensures |tokens| <= |codes|
  {
    if tokens != {} {
      var t :| t in tokens;
      Injected(tokens - {t}, lineage, codes - {lineage[t]});
    }
  }

  /** Every chain has at most one live refresh token, so live tokens never outnumber successful code exchanges. */
  lemma OneLiveTokenPerChain(cfg: Config, clients: map<string, Client>, events: seq<Event>, end: Grants)
    requires Run(cfg, Start(clients), events, end)
    ensures forall t | t in end.mem.refresh :: t in end.lineage && Redeemed(end.exchanges, end.lineage[t])
    ensures forall t, u | t in end.mem.refresh && u in end.mem.refresh && t != u :: end.lineage[t] != end.lineage[u]
    ensures |end.mem.refresh| <= |end.exchanges|
  {
    hide Run, OriginsOk, CodesOk, HeldOk, SpentOnce, ExchangesOk, PairsOk, Carries;
    ReachableInv(cfg, clients, events, end);
    forall t, u | t in end.mem.refresh && u in end.mem.refresh && t != u
      ensures end.lineage[t] != end.lineage[u]
    {
      assert CodeOf(end.lineage, t) != CodeOf(end.lineage, u);
    }
    Injected(end.mem.refresh.Keys, end.lineage, ChainCodes(end.exchanges));
    ChainCodesBound(end.exchanges);
  }

  /**
   * The proof a client gave when it exchanged a code: its own secret, unless it is public, the redirect of the login,
   * and the verifier of its challenge.
   */
  ghost predicate Proved(cfg: Config, clients: map<string, Client>, o: Origin, x: Exchange) {
    && x.code == o.auth.code && x.clientId == o.auth.clientId
    && x.clientId in clients
    && (clients[x.clientId].authMethod == "" || clients[x.clientId].authMethod == "none"
        || (x.secret != "" && x.secret == clients[x.clientId].secret))
    && x.redirectURI == o.auth.redirectURI && o.auth.challenge != ""
    && (if o.auth.challengeMethod == "S256" then cfg.s256(x.verifier) == o.auth.challenge
        else o.auth.challengeMethod == "plain" && x.verifier == o.auth.challenge)
  }

  /**
   * Every pair ever handed out, by an exchange or by any number of refreshes after it, carries the client, the user
   * and the resource of one login, whose redirect is registered and was proved with its challenge at the exchange; and
   * the client presented its own secret, unless it is public, at the exchange and at the request for this very pair.
   */
  lemma PairsComeFromLogins(cfg: Config, clients: map<string, Client>, events: seq<Event>, end: Grants, p: Pair)
    requires Run(cfg, Start(clients), events, end) && p in end.pairs
    ensures p.code in end.origins
    ensures var o := end.origins[p.code];
      && p.clientId == o.auth.clientId && p.userId == o.auth.userId && p.audience == [o.auth.resource]
      && p.clientId in end.mem.clients && o.auth.redirectURI in end.mem.clients[p.clientId].redirectURIs
      && SameResource(o.auth.resource, ResourceURL(cfg, o.req))
      && (exists x :: x in end.exchanges && Proved(cfg, end.mem.clients, o, x))
      && var c := end.mem.clients[p.clientId];
         c.authMethod == "" || c.authMethod == "none" || (p.secret != "" && p.secret == c.secret)
  {
    hide Run, SameResource, ResourceURL, CodesOk, TokensOk, HeldOk, OnePlace, SpentOnce;
    ReachableInv(cfg, clients, events, end);
    RunKeepsSecrets(cfg, Start(clients), events, end);
    var o := end.origins[p.code];
    assert OriginOk(cfg, end.mem.clients, p.code, o);
    assert Redeemed(end.exchanges, p.code);
    var x :| x in end.exchanges && x.code == p.code;
    assert Matches(cfg, o, x.redirectURI, x.verifier);
    assert ProvenClient(end.mem.clients, x.clientId, x.secret);
    assert Proved(cfg, end.mem.clients, o, x);
  }

  /** A pair passes the audience check of a request exactly when the server has one address for it and for the login. */
  lemma PairAccepted(cfg: Config, clients: map<string, Client>, events: seq<Event>, end: Grants, p: Pair, r: Request)
    requires Run(cfg, Start(clients), events, end) && p in end.pairs
    ensures p.code in end.origins
    ensures BearerAccepted(p.audience, ResourceURL(cfg, r))
            <==> SameResource(ResourceURL(cfg, end.origins[p.code].req), ResourceURL(cfg, r))
  {
    hide Run, ResourceURL, BearerAccepted;
    PairsComeFromLogins(cfg, clients, events, end, p);
    AcceptedAlone(p.audience[0], ResourceURL(cfg, r));
  }

  /** With a fixed public address every pair passes, under every host name. */
  lemma FixedBaseAccepts(cfg: Config, clients: map<string, Client>, events: seq<Event>, end: Grants, p: Pair,
      r: Request)
    requires Run(cfg, Start(clients), events, end) && p in end.pairs && Text.TrimSpace(cfg.publicBaseURL) != ""
    ensures BearerAccepted(p.audience, ResourceURL(cfg, r))
  {
    hide Run, ResourceURL, BearerAccepted;
    PairAccepted(cfg, clients, events, end, p, r);
    FixedBase(cfg, end.origins[p.code].req, r);
  }
}
