/**
 * The connection registry of app/database.js (`connectionManager`): a table
 * from the key host:port:database:username to the client stored under it and
 * the time it was last handed out.
 *
 * The pure functions Close, CloseAll, Cleanup and Acquire say what each
 * operation does to the whole state; the class ConnectionManager performs the
 * operations step by step, as the source does, and is proved to agree with
 * them.
 */
module Registry {
  import opened Wrappers
  import opened ConnectionString
  import opened Driver

  /** A stored connection: its client and the `Date.now()` of its last use, in milliseconds. */
  datatype Entry = Entry(client: Client, lastUsed: int)

  /**
   * The registry's state: the table, the id the next new client gets, and
   * every client on which close() has been called.
   */
  datatype Pool = Pool(connections: map<string, Entry>, nextId: nat, closed: set<Client>)

  /** The default idle limit of cleanupIdleConnections, five minutes in milliseconds. */
  const DefaultMaxIdleTime: int := 300000

  /**
   * Every stored client has been created and not closed, every closed client
   * has been created, and no client is stored under two keys.
   */
  predicate PoolInvariant(p: Pool)
  {
    && (forall k | k in p.connections :: p.connections[k].client.id < p.nextId && p.connections[k].client !in p.closed)
    && (forall c | c in p.closed :: c.id < p.nextId)
    && (forall k1, k2 | k1 in p.connections && k2 in p.connections && k1 != k2 ::
          p.connections[k1].client != p.connections[k2].client)
  }

  /** The empty registry the module starts with. */
  const EmptyPool: Pool := Pool(map[], 0, {})

  lemma EmptyPoolInvariant()
    ensures PoolInvariant(EmptyPool)
  {
  }

  /** The clients stored under the keys of `keys`. */
  function ClientsOf(m: map<string, Entry>, keys: set<string>): set<Client>
  {
    set k | k in keys && k in m :: m[k].client
  }

  lemma ClientsOfAdd(m: map<string, Entry>, keys: set<string>, k: string)
    requires k in m
    ensures ClientsOf(m, keys + {k}) == ClientsOf(m, keys) + {m[k].client}
  {
    assert m[k].client in ClientsOf(m, keys + {k});
  }

  // ---------------------------------------------------------------- closeConnection

  /** closeConnection(key): close the stored client and delete the key; nothing happens for an absent key. */
  function Close(p: Pool, key: string): Pool
  {
    if key in p.connections then
      Pool(p.connections - {key}, p.nextId, p.closed + {p.connections[key].client})
    else p
  }

  /** closeConnection removes `key` and only `key`, closes only that key's client, and is a no-op on an absent key. */
  lemma CloseRemovesOnlyKey(p: Pool, key: string)
    ensures Close(p, key).connections.Keys == p.connections.Keys - {key}
    ensures forall k | k in Close(p, key).connections :: Close(p, key).connections[k] == p.connections[k]
    ensures Close(p, key).closed == p.closed + ClientsOf(p.connections, {key})
    ensures key !in p.connections ==> Close(p, key) == p
  {
    if key in p.connections {
      assert ClientsOf(p.connections, {key}) == {p.connections[key].client};
    } else {
      assert ClientsOf(p.connections, {key}) == {};
    }
  }

  lemma CloseKeepsInvariant(p: Pool, key: string)
    requires PoolInvariant(p)
    ensures PoolInvariant(Close(p, key))
  {
  }

  // ---------------------------------------------------------------- closeAllConnections

  /** closeConnection on every key of `keys`, in any order: those entries deleted and their clients closed. */
  function CloseKeys(p: Pool, keys: set<string>): Pool
  {
    Pool(p.connections - keys, p.nextId, p.closed + ClientsOf(p.connections, keys))
  }

  /** Closing one more stored key extends the set of keys closed so far. */
  lemma CloseKeysStep(p: Pool, keys: set<string>, key: string)
    requires key in p.connections && key !in keys
    ensures Close(CloseKeys(p, keys), key) == CloseKeys(p, keys + {key})
  {
    ClientsOfAdd(p.connections, keys, key);
    assert (p.connections - keys) - {key} == p.connections - (keys + {key});
  }

  /** closeAllConnections: closeConnection on every key of a snapshot of the table. */
  function CloseAll(p: Pool): Pool
  {
    CloseKeys(p, p.connections.Keys)
  }

  /** After closeAllConnections the table is empty, every client that was stored has been closed, and no other. */
  lemma CloseAllEmpties(p: Pool)
    ensures CloseAll(p).connections == map[]
    ensures forall k | k in p.connections :: p.connections[k].client in CloseAll(p).closed
    ensures CloseAll(p).closed - p.closed <= (set k | k in p.connections :: p.connections[k].client)
    ensures CloseAll(p).nextId == p.nextId
  {
    assert CloseAll(p).connections.Keys == {};
  }

  lemma CloseAllKeepsInvariant(p: Pool)
    requires PoolInvariant(p)
    ensures PoolInvariant(CloseAll(p))
  {
  }

  // ---------------------------------------------------------------- cleanupIdleConnections

  /** An entry is idle when more than `maxIdleTime` milliseconds have passed since its last use. */
  predicate Idle(e: Entry, now: int, maxIdleTime: int)
  {
    now - e.lastUsed > maxIdleTime
  }

  function IdleKeys(m: map<string, Entry>, now: int, maxIdleTime: int): set<string>
  {
    set k | k in m && Idle(m[k], now, maxIdleTime)
  }

  /** cleanupIdleConnections: close and delete every idle entry; the count is the number deleted. */
  function Cleanup(p: Pool, now: int, maxIdleTime: int): (Pool, nat)
  {
    var idle := IdleKeys(p.connections, now, maxIdleTime);
    (CloseKeys(p, idle), |idle|)
  }

  /** Deleting a subset of a map's keys shrinks it by the size of that subset. */
  lemma {:induction false} RemoveSubsetCard(m: map<string, Entry>, s: set<string>)
    requires s <= m.Keys
    ensures |(m - s).Keys| == |m.Keys| - |s|
    decreases |s|
  {
    if s != {} {
      var k :| k in s;
      RemoveSubsetCard(m, s - {k});
      assert (m - (s - {k})).Keys == m.Keys - (s - {k});
      assert (m - s).Keys == (m - (s - {k})).Keys - {k};
    } else {
      assert (m - s).Keys == m.Keys;
    }
  }

  /**
   * cleanupIdleConnections deletes exactly the entries with now - lastUsed >
   * maxIdleTime, leaves every other entry as it was, closes exactly the
   * deleted clients, and returns how many entries it deleted.
   */
  lemma CleanupRemovesExactlyIdle(p: Pool, now: int, maxIdleTime: int)
    ensures var (q, n) := Cleanup(p, now, maxIdleTime);
            && (forall k :: k in q.connections <==> k in p.connections && now - p.connections[k].lastUsed <= maxIdleTime)
            && (forall k | k in q.connections :: q.connections[k] == p.connections[k])
            && q.closed == p.closed + (set k | k in p.connections && now - p.connections[k].lastUsed > maxIdleTime :: p.connections[k].client)
            && q.nextId == p.nextId
            && n == |p.connections| - |q.connections|
  {
    var idle := IdleKeys(p.connections, now, maxIdleTime);
    RemoveSubsetCard(p.connections, idle);
  }

  /** The comparison is strict: an entry idle for exactly maxIdleTime milliseconds is kept. */
  lemma CleanupKeepsEntryAtLimit(p: Pool, now: int, maxIdleTime: int, key: string)
    requires key in p.connections && now - p.connections[key].lastUsed == maxIdleTime
    ensures key in Cleanup(p, now, maxIdleTime).0.connections
    ensures Cleanup(p, now, maxIdleTime).0.connections[key] == p.connections[key]
  {
  }

  /** With no idle entry, cleanupIdleConnections changes nothing and returns 0. */
  lemma CleanupWithoutIdleIsNoop(p: Pool, now: int, maxIdleTime: int)
    requires forall k | k in p.connections :: now - p.connections[k].lastUsed <= maxIdleTime
    ensures Cleanup(p, now, maxIdleTime) == (p, 0)
  {
    var idle := IdleKeys(p.connections, now, maxIdleTime);
    assert idle == {};
    assert p.connections - idle == p.connections;
    assert ClientsOf(p.connections, idle) == {};
  }

  /** A second cleanup at the same instant finds nothing more to delete. */
  lemma CleanupIdempotent(p: Pool, now: int, maxIdleTime: int)
    ensures Cleanup(Cleanup(p, now, maxIdleTime).0, now, maxIdleTime).1 == 0
  {
    var q := Cleanup(p, now, maxIdleTime).0;
    assert IdleKeys(q.connections, now, maxIdleTime) == {};
  }

  /** A key not yet closed still holds its original entry. */
  lemma CloseKeysLookup(p: Pool, keys: set<string>, key: string)
    requires key in p.connections && key !in keys
    ensures key in CloseKeys(p, keys).connections && CloseKeys(p, keys).connections[key] == p.connections[key]
  {
  }

  /**
   * One turn of cleanupIdleConnections' loop: visiting `key` moves it out of
   * the keys left to visit, and into the keys deleted exactly when it is idle.
   */
  lemma IdleStep(m: map<string, Entry>, now: int, maxIdleTime: int, reaped: set<string>, keys: set<string>, key: string)
    requires key in keys && keys <= m.Keys
    requires reaped == IdleKeys(m, now, maxIdleTime) - keys
    ensures key !in reaped
    ensures Idle(m[key], now, maxIdleTime) ==> reaped + {key} == IdleKeys(m, now, maxIdleTime) - (keys - {key})
    ensures !Idle(m[key], now, maxIdleTime) ==> reaped == IdleKeys(m, now, maxIdleTime) - (keys - {key})
  {
  }

  lemma CleanupKeepsInvariant(p: Pool, now: int, maxIdleTime: int)
    requires PoolInvariant(p)
    ensures PoolInvariant(Cleanup(p, now, maxIdleTime).0)
  {
  }

  // ---------------------------------------------------------------- getConnection

  /** The creation path of getConnection: build options and URI, open a client, store it on success. */
  function Create(p: Pool, c: Credentials, now: int, d: Driver): (Pool, Result<CollectionRef, DriverError>)
  {
    var key := ConnectionKey(c);
    var client := Client(p.nextId);
    match d.open(Dial(ConnectionUri(c), ConnectionOptions(c)))
    case Rejected(e) => (p, Err(e))
    case ConnectFailed(e) => (p.(nextId := p.nextId + 1, closed := p.closed + {client}), Err(e))
    case PingFailed(e) => (p.(nextId := p.nextId + 1, closed := p.closed + {client}), Err(e))
    case Connected =>
      (p.(nextId := p.nextId + 1, connections := p.connections[key := Entry(client, now)]),
       Ok(CollectionRef(client, c.database, c.collection)))
  }

  /**
   * getConnection: reuse the stored client when its ping succeeds, otherwise
   * close and delete it and create a new one.
   */
  function Acquire(p: Pool, c: Credentials, now: int, d: Driver): (Pool, Result<CollectionRef, DriverError>)
  {
    var key := ConnectionKey(c);
    if key in p.connections && d.probe(p.connections[key].client) then
      var client := p.connections[key].client;
      (p.(connections := p.connections[key := Entry(client, now)]), Ok(CollectionRef(client, c.database, c.collection)))
    else
      Create(Close(p, key), c, now, d)
  }

  /** Hit path: the stored client answers the ping, so it is returned for the requested collection and only its lastUsed changes. */
  lemma AcquireReusesLiveClient(p: Pool, c: Credentials, now: int, d: Driver)
    requires ConnectionKey(c) in p.connections
    requires d.probe(p.connections[ConnectionKey(c)].client)
    ensures var (q, r) := Acquire(p, c, now, d);
            var client := p.connections[ConnectionKey(c)].client;
            && r == Ok(CollectionRef(client, c.database, c.collection))
            && q.connections == p.connections[ConnectionKey(c) := Entry(client, now)]
            && q.closed == p.closed && q.nextId == p.nextId
  {
  }

  /**
   * A failed ping closes and deletes the stale entry before anything else:
   * the outcome is that of the creation path run on the registry without it.
   */
  lemma AcquireReplacesDeadClient(p: Pool, c: Credentials, now: int, d: Driver)
    requires PoolInvariant(p)
    requires ConnectionKey(c) in p.connections
    requires !d.probe(p.connections[ConnectionKey(c)].client)
    ensures Acquire(p, c, now, d) == Create(Close(p, ConnectionKey(c)), c, now, d)
    ensures p.connections[ConnectionKey(c)].client in Acquire(p, c, now, d).0.closed
    ensures var q := Acquire(p, c, now, d).0;
            ConnectionKey(c) in q.connections ==> q.connections[ConnectionKey(c)].client != p.connections[ConnectionKey(c)].client
  {
  }

  /**
   * Creation path, success: the table gains exactly key -> {new client, now}
   * and the other keys are untouched. Failure: the error is the driver's,
   * the key has no entry, and the new client (if the constructor made one)
   * is closed.
   */
  lemma CreateOutcome(p: Pool, c: Credentials, now: int, d: Driver)
    requires PoolInvariant(p)
    requires ConnectionKey(c) !in p.connections
    ensures var (q, r) := Create(p, c, now, d);
            var o := d.open(Dial(ConnectionUri(c), ConnectionOptions(c)));
            && (o.Connected? ==>
                  && r.Ok? && r.value.client !in ClientsOf(p.connections, p.connections.Keys)
                  && r.value.client !in p.closed
                  && q.connections == p.connections[ConnectionKey(c) := Entry(r.value.client, now)]
                  && q.closed == p.closed)
            && (!o.Connected? ==>
                  && r == Err(o.error)
                  && q.connections == p.connections
                  && (o.Rejected? ==> q == p)
                  && (!o.Rejected? ==> q.closed == p.closed + {Client(p.nextId)}))
  {
  }

  /** Whatever the path, getConnection changes no entry other than its own key's. */
  lemma AcquireTouchesOnlyItsKey(p: Pool, c: Credentials, now: int, d: Driver, k: string)
    requires k != ConnectionKey(c)
    ensures var q := Acquire(p, c, now, d).0;
            && (k in q.connections <==> k in p.connections)
            && (k in q.connections ==> q.connections[k] == p.connections[k])
  {
  }

  /** After a failed getConnection the key has no entry, whichever path failed. */
  lemma AcquireFailureLeavesNoEntry(p: Pool, c: Credentials, now: int, d: Driver)
    requires Acquire(p, c, now, d).1.Err?
    ensures ConnectionKey(c) !in Acquire(p, c, now, d).0.connections
  {
  }

  /** After a successful getConnection the returned client is stored under the key and was used at `now`. */
  lemma AcquireSuccessStoresClient(p: Pool, c: Credentials, now: int, d: Driver)
    requires Acquire(p, c, now, d).1.Ok?
    ensures var (q, r) := Acquire(p, c, now, d);
            && ConnectionKey(c) in q.connections
            && q.connections[ConnectionKey(c)] == Entry(r.value.client, now)
            && r.value.database == c.database && r.value.collection == c.collection
  {
  }

  lemma CreateKeepsInvariant(p: Pool, c: Credentials, now: int, d: Driver)
    requires PoolInvariant(p)
    ensures PoolInvariant(Create(p, c, now, d).0)
  {
    var key := ConnectionKey(c);
    var client := Client(p.nextId);
    var q := Create(p, c, now, d).0;
    assert client !in p.closed;
    if d.open(Dial(ConnectionUri(c), ConnectionOptions(c))).Connected? {
      assert q.connections == p.connections[key := Entry(client, now)];
      forall k | k in q.connections && k != key
        ensures q.connections[k].client != client
      {
      }
    }
  }

  lemma AcquireKeepsInvariant(p: Pool, c: Credentials, now: int, d: Driver)
    requires PoolInvariant(p)
    ensures PoolInvariant(Acquire(p, c, now, d).0)
  {
    var key := ConnectionKey(c);
    if !(key in p.connections && d.probe(p.connections[key].client)) {
      CloseKeepsInvariant(p, key);
      CreateKeepsInvariant(Close(p, key), c, now, d);
    }
  }

  /**
   * Two descriptors that agree on host, port, database and user name share
   * one entry: once the first has connected, the second gets the same client
   * back as long as it answers the ping, whatever password, collection or
   * authentication settings the second carries.
   */
  lemma SameTargetSharesClient(p: Pool, c1: Credentials, c2: Credentials, t1: int, t2: int, d1: Driver, d2: Driver)
    requires c1.host == c2.host && c1.port == c2.port && c1.database == c2.database && c1.username == c2.username
    requires Acquire(p, c1, t1, d1).1.Ok?
    requires d2.probe(Acquire(p, c1, t1, d1).1.value.client)
    ensures var (q, r1) := Acquire(p, c1, t1, d1);
            var (q', r2) := Acquire(q, c2, t2, d2);
            && r2 == Ok(CollectionRef(r1.value.client, c2.database, c2.collection))
            && q'.connections == q.connections[ConnectionKey(c1) := Entry(r1.value.client, t2)]
            && q'.nextId == q.nextId
  {
    SameTargetSameKey(c1, c2);
    AcquireSuccessStoresClient(p, c1, t1, d1);
  }

  /**
   * Two descriptors that differ only in the user name are independent: the
   * second getConnection leaves the first user's entry as it was.
   */
  lemma OtherUserEntryUntouched(p: Pool, c1: Credentials, c2: Credentials, now: int, d: Driver)
    requires c1.host == c2.host && c1.port == c2.port && c1.database == c2.database
    requires c1.username != c2.username
    requires ConnectionKey(c1) in p.connections
    ensures var q := Acquire(p, c2, now, d).0;
            ConnectionKey(c1) in q.connections && q.connections[ConnectionKey(c1)] == p.connections[ConnectionKey(c1)]
  {
    UsernameSeparatesKeys(c1, c2);
    AcquireTouchesOnlyItsKey(p, c2, now, d, ConnectionKey(c1));
  }

  // ---------------------------------------------------------------- the object

  /** `connectionManager`: the table and the operations that change it in place. */
  class ConnectionManager {
    var connections: map<string, Entry>
    var nextId: nat
    var closed: set<Client>

    function State(): Pool
      reads this
    {
      Pool(connections, nextId, closed)
    }

    ghost predicate Valid()
      reads this
    {
      PoolInvariant(State())
    }

    constructor ()
      ensures State() == EmptyPool && Valid()
    {
      connections := map[];
      nextId := 0;
      closed := {};
    }

    /** closeConnection(connectionKey): close the client, whatever close() answers, then delete the key. */
    method CloseConnection(key: string)
      modifies this
      ensures old(Valid()) ==> Valid()
      ensures State() == Close(old(State()), key)
    {
      if Valid() {
        CloseKeepsInvariant(State(), key);
      }
      if key in connections {
        closed := closed + {connections[key].client};
        connections := connections - {key};
      }
    }

    /** closeAllConnections: closeConnection on each key of a snapshot of the table's keys. */
    method CloseAllConnections()
      modifies this
      ensures old(Valid()) ==> Valid()
      ensures State() == CloseAll(old(State()))
    {
      ghost var start := State();
      ghost var done: set<string> := {};
      var keys := connections.Keys;
      while keys != {}
        invariant keys <= start.connections.Keys
        invariant done == start.connections.Keys - keys
        invariant State() == CloseKeys(start, done)
        decreases keys
      {
        var key :| key in keys;
        CloseKeysStep(start, done, key);
        CloseConnection(key);
        done := done + {key};
        keys := keys - {key};
      }
      if PoolInvariant(start) {
        CloseAllKeepsInvariant(start);
      }
    }

    /**
     * cleanupIdleConnections(maxIdleTime): walk a snapshot of the keys and
     * close every entry unused for more than maxIdleTime milliseconds, five
     * minutes when the caller gives none; `now` is the `Date.now()` read
     * once at the start.
     */
    method CleanupIdleConnections(now: int, maxIdleTime: int := DefaultMaxIdleTime) returns (closedCount: nat)
      modifies this
      ensures old(Valid()) ==> Valid()
      ensures (State(), closedCount) == Cleanup(old(State()), now, maxIdleTime)
    {
      ghost var start := State();
      ghost var idle := IdleKeys(start.connections, now, maxIdleTime);
      ghost var reaped: set<string> := {};
      var keys := connections.Keys;
      closedCount := 0;
      while keys != {}
        invariant keys <= start.connections.Keys
        invariant reaped == idle - keys
        invariant State() == CloseKeys(start, reaped)
        invariant closedCount == |reaped|
        decreases keys
      {
        var key :| key in keys;
        IdleStep(start.connections, now, maxIdleTime, reaped, keys, key);
        CloseKeysLookup(start, reaped, key);
        var connection := connections[key];
        if now - connection.lastUsed > maxIdleTime {
          CloseKeysStep(start, reaped, key);
          CloseConnection(key);
          closedCount := closedCount + 1;
          reaped := reaped + {key};
        }
        keys := keys - {key};
      }
      if PoolInvariant(start) {
        CleanupKeepsInvariant(start, now, maxIdleTime);
      }
    }

    /**
     * getConnection(credentials), hit path: probe the stored client and
     * either refresh it or close it, then fall through to creation.
     */
    method GetConnection(c: Credentials, now: int, d: Driver) returns (r: Result<CollectionRef, DriverError>)
      modifies this
      ensures old(Valid()) ==> Valid()
      ensures (State(), r) == Acquire(old(State()), c, now, d)
    {
      var key := ConnectionKey(c);
      if key in connections {
        var stored := connections[key];
        if d.probe(stored.client) {
          if Valid() {
            AcquireKeepsInvariant(State(), c, now, d);
          }
          connections := connections[key := Entry(stored.client, now)];
          r := Ok(CollectionRef(stored.client, c.database, c.collection));
          return;
        }
        CloseConnection(key);
      }
      r := CreateConnection(c, now, d);
    }

    /**
     * getConnection(credentials), creation path: build the options and the
     * URI, construct a client, connect and ping it, and store it only when
     * both succeed; on failure close the new client and rethrow.
     */
    method CreateConnection(c: Credentials, now: int, d: Driver) returns (r: Result<CollectionRef, DriverError>)
      modifies this
      ensures old(Valid()) ==> Valid()
      ensures (State(), r) == Create(old(State()), c, now, d)
    {
      if Valid() {
        CreateKeepsInvariant(State(), c, now, d);
      }
      var key := ConnectionKey(c);
      var options := ConnectionOptions(c);
      var uri := ConnectionUri(c);
      var outcome := d.open(Dial(uri, options));
      if outcome.Rejected? {
        r := Err(outcome.error);
        return;
      }
      var client := Client(nextId);
      nextId := nextId + 1;
      if outcome.ConnectFailed? || outcome.PingFailed? {
        closed := closed + {client};
        r := Err(outcome.error);
        return;
      }
      connections := connections[key := Entry(client, now)];
      r := Ok(CollectionRef(client, c.database, c.collection));
    }
  }
}
