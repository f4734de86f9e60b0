/**
 * The in-memory store of authorization codes and refresh tokens, and why its lazy purging cannot be
 * observed. Times are clock readings; an entry has expired once the clock is past `expiresAt`.
 */
module OAuthStore {
  import opened Prelude

  datatype Client = Client(id: string, secret: string, redirectURIs: seq<string>, authMethod: string)

  datatype AuthCode = AuthCode(code: string, clientId: string, userId: string, redirectURI: string, scope: string,
                               resource: string, challenge: string, challengeMethod: string, expiresAt: int)

  datatype RefreshToken = RefreshToken(token: string, clientId: string, userId: string, scope: string,
                                       resource: string, expiresAt: int)

  datatype Mem = Mem(clients: map<string, Client>, codes: map<string, AuthCode>, refresh: map<string, RefreshToken>)

  function Purge(m: Mem, now: int): Mem {
    m.(codes := map k | k in m.codes && now <= m.codes[k].expiresAt :: m.codes[k],
       refresh := map k | k in m.refresh && now <= m.refresh[k].expiresAt :: m.refresh[k])
  }

  function PutCode(m: Mem, c: AuthCode): Mem {
    m.(codes := m.codes[c.code := c])
  }

  function PutRefresh(m: Mem, t: RefreshToken): Mem {
    m.(refresh := m.refresh[t.token := t])
  }

  /** Remove a code and hand it out unless it has expired. */
  function DropCode(m: Mem, code: string, now: int): (Mem, Option<AuthCode>) {
    if code !in m.codes then (m, None)
    else (m.(codes := m.codes - {code}), if now > m.codes[code].expiresAt then None else Some(m.codes[code]))
  }

  function DropRefresh(m: Mem, token: string, now: int): (Mem, Option<RefreshToken>) {
    if token !in m.refresh then (m, None)
    else (m.(refresh := m.refresh - {token}), if now > m.refresh[token].expiresAt then None else Some(m.refresh[token]))
  }

  // ---- the store as it is: every save of a code and every take purges first ----

  function SavedCode(m: Mem, c: AuthCode, t: int): Mem {
    PutCode(Purge(m, t), c)
  }

  /** The clock is read once for the purge and once for the entry itself. */
  function TakenCode(m: Mem, code: string, t1: int, t2: int): (Mem, Option<AuthCode>) {
    DropCode(Purge(m, t1), code, t2)
  }

  function TakenRefresh(m: Mem, token: string, t1: int, t2: int): (Mem, Option<RefreshToken>) {
    DropRefresh(Purge(m, t1), token, t2)
  }

  // ---- runs with and without purging ----

  datatype MemOp =
    | OpSaveCode(c: AuthCode, t: int)
    | OpTakeCode(code: string, t1: int, t2: int)
    | OpSaveRefresh(r: RefreshToken)
    | OpTakeRefresh(token: string, t1: int, t2: int)

  datatype Taken = NoResult | CodeResult(c: Option<AuthCode>) | RefreshResult(r: Option<RefreshToken>)

  /** `purging` says whether the store purges, or only looks at the entry that is taken. */
  function Apply(m: Mem, op: MemOp, purging: bool): (Mem, Taken) {
    match op
    case OpSaveCode(c, t) => (if purging then SavedCode(m, c, t) else PutCode(m, c), NoResult)
    case OpTakeCode(code, t1, t2) =>
      var (m', r) := if purging then TakenCode(m, code, t1, t2) else DropCode(m, code, t2);
      (m', CodeResult(r))
    case OpSaveRefresh(r) => (PutRefresh(m, r), NoResult)
    case OpTakeRefresh(token, t1, t2) =>
      var (m', r) := if purging then TakenRefresh(m, token, t1, t2) else DropRefresh(m, token, t2);
      (m', RefreshResult(r))
  }

  function Results(m: Mem, ops: seq<MemOp>, purging: bool): seq<Taken>
    decreases |ops|
  {
    if ops == [] then []
    else var (m', r) := Apply(m, ops[0], purging); [r] + Results(m', ops[1..], purging)
  }

  /** Clock readings never go back. */
  predicate Clocked(clock: int, ops: seq<MemOp>)
    decreases |ops|
  {
    ops != [] ==>
      match ops[0]
      case OpSaveCode(_, t) => clock <= t && Clocked(t, ops[1..])
      case OpTakeCode(_, t1, t2) => clock <= t1 <= t2 && Clocked(t2, ops[1..])
      case OpSaveRefresh(_) => Clocked(clock, ops[1..])
      case OpTakeRefresh(_, t1, t2) => clock <= t1 <= t2 && Clocked(t2, ops[1..])
  }

  function ClockAfter(clock: int, op: MemOp): int {
    match op
    case OpSaveCode(_, t) => t
    case OpTakeCode(_, _, t2) => t2
    case OpSaveRefresh(_) => clock
    case OpTakeRefresh(_, _, t2) => t2
  }

  /** A purging store holds what the other store holds, except for entries that have expired. */
  ghost predicate Simulates(m: Mem, full: Mem, clock: int) {
    && (forall k | k in m.codes :: k in full.codes && full.codes[k] == m.codes[k])
    && (forall k | k in full.codes && k !in m.codes :: full.codes[k].expiresAt < clock)
    && (forall k | k in m.refresh :: k in full.refresh && full.refresh[k] == m.refresh[k])
    && (forall k | k in full.refresh && k !in m.refresh :: full.refresh[k].expiresAt < clock)
  }

  lemma PurgeSimulates(m: Mem, full: Mem, clock: int, now: int)
    requires Simulates(m, full, clock) && clock <= now
    ensures Simulates(Purge(m, now), full, now)
  {
  }

  lemma LaterSimulates(m: Mem, full: Mem, clock: int, now: int)
    requires Simulates(m, full, clock) && clock <= now
    ensures Simulates(m, full, now)
  {
  }

  lemma DropCodeSimulates(m: Mem, full: Mem, k: string, clock: int)
    requires Simulates(m, full, clock)
    ensures DropCode(m, k, clock).1 == DropCode(full, k, clock).1
    ensures Simulates(DropCode(m, k, clock).0, DropCode(full, k, clock).0, clock)
  {
  }

  lemma DropRefreshSimulates(m: Mem, full: Mem, k: string, clock: int)
    requires Simulates(m, full, clock)
    ensures DropRefresh(m, k, clock).1 == DropRefresh(full, k, clock).1
    ensures Simulates(DropRefresh(m, k, clock).0, DropRefresh(full, k, clock).0, clock)
  {
  }

  lemma StepSimulates(m: Mem, full: Mem, clock: int, op: MemOp)
    requires Simulates(m, full, clock) && Clocked(clock, [op])
    ensures Apply(m, op, true).1 == Apply(full, op, false).1
    ensures Simulates(Apply(m, op, true).0, Apply(full, op, false).0, ClockAfter(clock, op))
  {
    hide Purge, DropCode, DropRefresh;
    match op
    case OpSaveCode(c, t) => PurgeSimulates(m, full, clock, t);
    case OpTakeCode(code, t1, t2) =>
      PurgeSimulates(m, full, clock, t1);
      LaterSimulates(Purge(m, t1), full, t1, t2);
      DropCodeSimulates(Purge(m, t1), full, code, t2);
    case OpSaveRefresh(_) =>
    case OpTakeRefresh(token, t1, t2) =>
      PurgeSimulates(m, full, clock, t1);
      LaterSimulates(Purge(m, t1), full, t1, t2);
      DropRefreshSimulates(Purge(m, t1), full, token, t2);
  }

  lemma {:induction false} ResultsAgree(m: Mem, full: Mem, clock: int, ops: seq<MemOp>)
    requires Simulates(m, full, clock) && Clocked(clock, ops)
    ensures Results(m, ops, true) == Results(full, ops, false)
    decreases |ops|
  {
    hide Apply, Simulates;
    if ops != [] {
      assert Clocked(clock, [ops[0]]);
      StepSimulates(m, full, clock, ops[0]);
      ResultsAgree(Apply(m, ops[0], true).0, Apply(full, ops[0], false).0, ClockAfter(clock, ops[0]), ops[1..]);
    }
  }

  /** Purging is invisible: with a clock that never goes back, every take answers the same without it. */
  lemma PurgeInvisible(m: Mem, clock: int, ops: seq<MemOp>)
    requires Clocked(clock, ops)
    ensures Results(m, ops, true) == Results(m, ops, false)
  {
    ResultsAgree(m, m, clock, ops);
  }

  /** The store as it is written, one critical section per method. */
  class MemoryStore {
    var clients: map<string, Client>
    var codes: map<string, AuthCode>
    var refresh: map<string, RefreshToken>

    constructor ()
      ensures View() == Mem(map[], map[], map[])
    {
      clients, codes, refresh := map[], map[], map[];
    }

    function View(): Mem
      reads this
    {
      Mem(clients, codes, refresh)
    }

    method PutClient(c: Client)
      modifies `clients
      ensures clients == old(clients)[c.id := c]
    {
      clients := clients[c.id := c];
    }

    method ClientAllowsRedirect(id: string, uri: string) returns (allowed: bool)
      ensures allowed <==> id in clients && uri in clients[id].redirectURIs
    {
      if id !in clients {
        return false;
      }
      var uris := clients[id].redirectURIs;
      for i := 0 to |uris|
        invariant uri !in uris[..i]
      {
        if uris[i] == uri {
          return true;
        }
      }
      return false;
    }

    method PurgeLocked(now: int)
      modifies `codes, `refresh
      ensures View() == Purge(old(View()), now)
    {
      var left := codes.Keys;
      while left != {}
        invariant refresh == old(refresh)
        invariant left <= codes.Keys <= old(codes).Keys
        invariant forall k | k in codes :: codes[k] == old(codes)[k]
        invariant forall k | k in old(codes) :: k in codes <==> k in left || now <= old(codes)[k].expiresAt
        decreases left
      {
        var k :| k in left;
        if now > codes[k].expiresAt {
          codes := codes - {k};
        }
        left := left - {k};
      }
      assert codes == Purge(old(View()), now).codes;
      left := refresh.Keys;
      while left != {}
        invariant codes == Purge(old(View()), now).codes
        invariant left <= refresh.Keys <= old(refresh).Keys
        invariant forall k | k in refresh :: refresh[k] == old(refresh)[k]
        invariant forall k | k in old(refresh) :: k in refresh <==> k in left || now <= old(refresh)[k].expiresAt
        decreases left
      {
        var k :| k in left;
        if now > refresh[k].expiresAt {
          refresh := refresh - {k};
        }
        left := left - {k};
      }
    }

    method SaveCode(c: AuthCode, t: int)
      modifies `codes, `refresh
      ensures View() == SavedCode(old(View()), c, t)
    {
      PurgeLocked(t);
      codes := codes[c.code := c];
    }

    method TakeCode(code: string, t1: int, t2: int) returns (r: Option<AuthCode>)
      modifies `codes, `refresh
      ensures (View(), r) == TakenCode(old(View()), code, t1, t2)
    {
      PurgeLocked(t1);
      if code !in codes {
        return None;
      }
      var c := codes[code];
      codes := codes - {code};
      if t2 > c.expiresAt {
        return None;
      }
      return Some(c);
    }

    method SaveRefresh(t: RefreshToken)
      modifies `refresh
      ensures View() == PutRefresh(old(View()), t)
    {
      refresh := refresh[t.token := t];
    }

    /** Rotation: a refresh token is void once it has been used. */
    method TakeRefresh(token: string, t1: int, t2: int) returns (r: Option<RefreshToken>)
      modifies `codes, `refresh
      ensures (View(), r) == TakenRefresh(old(View()), token, t1, t2)
    {
      PurgeLocked(t1);
      if token !in refresh {
        return None;
      }
      var t := refresh[token];
      refresh := refresh - {token};
      if t2 > t.expiresAt {
        return None;
      }
      return Some(t);
    }
  }
}
