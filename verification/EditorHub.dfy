/** The hub's tables, channels and connections as they are updated in place, one critical section per method. */
module EditorHub {
  import opened Prelude
  import opened EditorRpc

  /** A channel with room for one reply, made for one call. */
  class Channel {
    const call: nat
    var buffer: Option<Reply>

    constructor (call: nat)
      ensures this.call == call && buffer == None
    {
      this.call, buffer := call, None;
    }

    /** A send that does not block. */
    method TrySend(reply: Reply) returns (ok: bool)
      modifies this
      ensures ok == old(buffer).None?
      ensures buffer == if ok then Some(reply) else old(buffer)
    {
      ok := buffer.None?;
      if ok {
        buffer := Some(reply);
      }
    }
  }

  /** An editor's connection: messages wait in a queue of limited length. */
  class Connection {
    const userId: Option<string>
    const capacity: nat
    var queue: seq<string>

    constructor (userId: Option<string>, capacity: nat)
      ensures this.userId == userId && this.capacity == capacity && queue == []
    {
      this.userId, this.capacity, queue := userId, capacity, [];
    }

    predicate Listens(user: string)
      reads this
    {
      userId == Some(user) && |queue| < capacity
    }

    method TryQueue(user: string, event: string) returns (sent: bool)
      modifies this
      ensures sent == old(Listens(user))
      ensures queue == if sent then old(queue) + [event] else old(queue)
    {
      sent := Listens(user);
      if sent {
        queue := queue + [event];
      }
    }
  }

  ghost function Listeners(clients: set<Connection>, user: string): (all: set<Connection>)
    reads clients
    ensures all <= clients && forall c | c in clients :: c in all <==> c.Listens(user)
  {
    set c | c in clients && c.Listens(user)
  }

  /** Queue an event on every connection of the user that has room, and count them. */
  method SendToAll(clients: set<Connection>, user: string, event: string) returns (n: nat)
    modifies clients
    ensures n == |old(Listeners(clients, user))|
    ensures forall c | c in clients ::
      c.queue == if c in old(Listeners(clients, user)) then old(c.queue) + [event] else old(c.queue)
  {
    n := 0;
    var left := clients;
    ghost var served: set<Connection> := {};
    while left != {}
      invariant left <= clients && served <= clients - left && n == |served|
      invariant forall c | c in clients - left :: c in served <==> c in old(Listeners(clients, user))
      invariant forall c | c in clients :: c.queue == if c in served then old(c.queue) + [event] else old(c.queue)
      decreases |left|
    {
      var c :| c in left;
      left := left - {c};
      var sent := c.TryQueue(user, event);
      if sent {
        served := served + {c};
        n := n + 1;
      }
    }
    assert served == old(Listeners(clients, user));
  }

  class Hub {
    var clients: set<Connection>
    var pending: map<string, Channel>
    var pendingPatch: map<string, Channel>

    constructor ()
      ensures clients == {} && Pending() == map[]
    {
      clients, pending, pendingPatch := {}, map[], map[];
    }

    ghost function Keys(): set<Key>
      reads this
      ensures forall key :: key in Keys() <==> key.id in Table(key.kind)
    {
      (set id | id in pending :: Key(Query, id)) + (set id | id in pendingPatch :: Key(Patch, id))
    }

    /** Both tables as one, with channels named by their calls. */
    ghost function Pending(): map<Key, nat>
      reads this
    {
      map key | key in Keys() :: ChannelAt(key).call
    }

    function Table(kind: Kind): map<string, Channel>
      reads this
    {
      if kind == Query then pending else pendingPatch
    }

    function ChannelAt(key: Key): Channel
      reads this
      requires key.id in Table(key.kind)
    {
      Table(key.kind)[key.id]
    }

    method Register(key: Key, ch: Channel)
      modifies `pending, `pendingPatch
      ensures Pending() == old(Pending())[key := ch.call]
      ensures key.id in Table(key.kind) && ChannelAt(key) == ch
    {
      hide Keys;
      if key.kind == Query {
        pending := pending[key.id := ch];
      } else {
        pendingPatch := pendingPatch[key.id := ch];
      }
    }

    /** The deferred clean-up of a call. */
    method Unregister(key: Key)
      modifies `pending, `pendingPatch
      ensures Pending() == old(Pending()) - {key}
    {
      hide Keys;
      if key.kind == Query {
        pending := pending - {key.id};
      } else {
        pendingPatch := pendingPatch - {key.id};
      }
    }

    method ClaimChannel(reply: Reply) returns (ch: Option<Channel>)
      modifies `pending, `pendingPatch
      ensures var (left, claimed) := Claim(old(Pending()), reply);
        && Pending() == left
        && (ch.None? <==> claimed.None?) && (ch.Some? ==> ch.value.call == claimed.value)
      ensures ch.Some? ==> reply.id in old(Table(reply.kind)) && ch.value == old(Table(reply.kind))[reply.id]
    {
      if reply.id == "" {
        return None;
      }
      var table := Table(reply.kind);
      if reply.id !in table {
        return None;
      }
      Unregister(Key(reply.kind, reply.id));
      return Some(table[reply.id]);
    }

    /** A reply that finds its call's channel empty, as every reply does, fills it; any other reply changes nothing. */
    method Complete(reply: Reply)
      modifies `pending, `pendingPatch, pending.Values, pendingPatch.Values
      ensures Pending() == Claim(old(Pending()), reply).0
      ensures forall ch | ch in old(pending.Values + pendingPatch.Values) ::
        ch.buffer == if reply.id != "" && reply.id in old(Table(reply.kind)) && ch == old(Table(reply.kind))[reply.id]
                        && old(ch.buffer).None?
                     then Some(reply) else old(ch.buffer)
    {
      var ch := ClaimChannel(reply);
      if ch.Some? {
        var sent := ch.value.TrySend(reply);
      }
    }

    /** An event for nobody is not sent. */
    method SendToUser(user: string, event: string) returns (n: nat)
      modifies clients
      ensures user == "" ==> n == 0 && forall c | c in clients :: c.queue == old(c.queue)
      ensures user != "" ==> n == |old(Listeners(clients, user))|
      ensures user != "" ==> forall c | c in clients ::
        c.queue == if c in old(Listeners(clients, user)) then old(c.queue) + [event] else old(c.queue)
    {
      if user == "" {
        return 0;
      }
      n := SendToAll(clients, user, event);
    }
  }
}
