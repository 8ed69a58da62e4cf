/** The connection pool of sql_lib/sl_connection_pool.cpp: a map from connection key to a FIFO queue.
    `Apply` says what one critical section (or the opening or closing of one connection) does; the
    class carries it out in place. */
module ConnectionPool {
  import opened Common

  datatype Params = Params(host: string, port: nat, database: string, login: string, passwordHash: string,
                           options: string)

  /** One connection object; the serial number stands for its address. */
  datatype Connection = Connection(serial: nat, params: Params)

  /** What never changes in a pool: its capacity per key, and createKey with its salt.  Nothing is
      assumed about the key function, two kinds of connections may well share a key. */
  datatype Config = Config(capacity: nat, keyOf: Params -> string)

  type Queues = map<string, seq<Connection>>

  /** The map of the pool, and who has the other connections: lent to a user, or deleted. */
  datatype State = State(queues: Queues, created: set<Connection>, lent: set<Connection>, deleted: set<Connection>)

  datatype Event =
    | TakePooled(params: Params)               // the locked part of getConnection
    | Open(c: Connection)                      // createConnection succeeded, outside of the lock
    | Release(c: Connection, isOpen: bool, isShutdown: bool)  // the last user let go
    | Clear

  /** An event the outside world can cause: a new connection is new, a released one was lent. */
  predicate Possible(s: State, e: Event) {
    match e
    case Open(c) => c !in s.created
    case Release(c, _, _) => c in s.lent
    case _ => true
  }

  /** `getConnection` looks at the front of an empty queue. */
  predicate FrontOfEmpty(cfg: Config, s: State, params: Params) {
    var k := cfg.keyOf(params);
    k in s.queues && s.queues[k] == []
  }

  /** The connection that the locked part of getConnection takes, if the key is in the map. */
  function Taken(cfg: Config, s: State, params: Params): Option<Connection>
    requires !FrontOfEmpty(cfg, s, params)
  {
    var k := cfg.keyOf(params);
    if k in s.queues then Some(s.queues[k][0]) else None
  }

  function TakeFrom(cfg: Config, s: State, params: Params): State
    requires !FrontOfEmpty(cfg, s, params)
  {
    var k := cfg.keyOf(params);
    if k !in s.queues then s
    else
      var q := s.queues[k];
      s.(queues := if |q| == 1 then s.queues - {k} else s.queues[k := q[1..]], lent := s.lent + {q[0]})
  }

  /** The queue accepts a connection: a missing queue always does, an existing one below capacity. */
  predicate Accepts(cfg: Config, queues: Queues, k: string) {
    k !in queues || |queues[k]| < cfg.capacity
  }

  function Push(queues: Queues, k: string, c: Connection): Queues {
    queues[k := if k in queues then queues[k] + [c] else [c]]
  }

  function GiveBack(cfg: Config, s: State, c: Connection, isOpen: bool, isShutdown: bool): State {
    var k := cfg.keyOf(c.params);
    var rest := s.(lent := s.lent - {c});
    if !isShutdown && isOpen && Accepts(cfg, s.queues, k) then rest.(queues := Push(s.queues, k, c))
    else rest.(deleted := s.deleted + {c})
  }

  function Pooled(s: State): set<Connection> { set k, c | k in s.queues && c in s.queues[k] :: c }

  /** All connections of all queues are deleted; the keys stay, with empty queues. */
  function Cleared(s: State): State {
    s.(queues := map k | k in s.queues :: [], deleted := s.deleted + Pooled(s))
  }

  function Apply(cfg: Config, s: State, e: Event): State
    requires e.TakePooled? ==> !FrontOfEmpty(cfg, s, e.params)
  {
    match e
    case TakePooled(params) => TakeFrom(cfg, s, params)
    case Open(c) => s.(created := s.created + {c}, lent := s.lent + {c})
    case Release(c, isOpen, isShutdown) => GiveBack(cfg, s, c, isOpen, isShutdown)
    case Clear => Cleared(s)
  }

  // ----- the pool itself -----

  datatype Outcome = Got(connection: Connection) | Failed | Undefined

  class Pool {
    const cfg: Config
    var queues: Queues
    ghost var created: set<Connection>
    ghost var lent: set<Connection>
    ghost var deleted: set<Connection>

    ghost function View(): State
      reads this
    {
      State(queues, created, lent, deleted)
    }

    constructor (capacity: nat, keyOf: Params -> string)
      ensures cfg == Config(capacity, keyOf)
      ensures View() == State(map[], {}, {}, {})
    {
      cfg := Config(capacity, keyOf);
      queues := map[];
      created, lent, deleted := {}, {}, {};
    }

    /** Take a pooled connection, or the one that createConnection opened, if it opened one. */
    method GetConnection(params: Params, newOne: Option<Connection>) returns (r: Outcome)
      requires newOne.Some? ==> newOne.value.params == params && newOne.value !in created
      modifies this
      ensures r.Undefined? <==> cfg.keyOf(params) in old(queues) && old(queues)[cfg.keyOf(params)] == []
      ensures r.Undefined? ==> View() == old(View())
      ensures !r.Undefined? ==>
                var before := old(View());
                var taken := Taken(cfg, before, params);
                if taken.Some? then r == Got(taken.value) && View() == Apply(cfg, before, TakePooled(params))
                else if newOne.Some? then r == Got(newOne.value) && View() == Apply(cfg, before, Open(newOne.value))
                else r == Failed && View() == before
      ensures r.Got? ==>
                var k := cfg.keyOf(params);
                && lent == old(lent) + {r.connection}
                && if k in old(queues) then r.connection == old(queues)[k][0] else newOne == Some(r.connection)
    {
      var key := cfg.keyOf(params);
      if key in queues {
        if queues[key] == [] {
          return Undefined;
        }
        var connection := queues[key][0];
        queues := queues[key := queues[key][1..]];
        if |queues[key]| == 0 {
          queues := queues - {key};
        }
        lent := lent + {connection};
        r := Got(connection);
      } else if newOne.Some? {
        created, lent := created + {newOne.value}, lent + {newOne.value};
        r := Got(newOne.value);
      } else {
        r := Failed;
      }
    }

    /** What happens when the last user of a connection lets go of it. */
    method ReleaseConnection(c: Connection, isOpen: bool, isShutdown: bool)
      requires c in lent
      modifies this
      ensures View() == Apply(cfg, old(View()), Release(c, isOpen, isShutdown))
      ensures var k := cfg.keyOf(c.params);
              var full := k in old(queues) && |old(queues)[k]| >= cfg.capacity;
              if !isOpen || isShutdown || full then queues == old(queues) && deleted == old(deleted) + {c}
              else deleted == old(deleted)
                   && queues == old(queues)[k := (if k in old(queues) then old(queues)[k] else []) + [c]]
    {
      lent := lent - {c};
      if isShutdown || !isOpen {
        deleted := deleted + {c};
        return;
      }
      var key := cfg.keyOf(c.params);
      if key in queues {
        if |queues[key]| < cfg.capacity {
          queues := queues[key := queues[key] + [c]];
        } else {
          deleted := deleted + {c};
        }
      } else {
        var none: seq<Connection> := [];
        assert none + [c] == [c];
        queues := queues[key := [c]];
      }
    }

    /** Delete every pooled connection; the result is their number. */
    method ClearAll() returns (count: nat)
      requires NoRepeats(queues)
      modifies this
      ensures View() == Apply(cfg, old(View()), Clear)
      ensures count == |Pooled(old(View()))|
    {
      hide ConnectionsOf, Members, NoRepeats, Pooled, Apply;
      count := 0;
      ghost var before := queues;
      ghost var cleared: set<string> := {};
      NoConnections(before);
      var todo := queues.Keys;
      while todo != {}
        invariant todo <= before.Keys && cleared == before.Keys - todo && queues.Keys == before.Keys
        invariant forall k :: k in todo ==> queues[k] == before[k]
        invariant forall k :: k in cleared ==> queues[k] == []
        invariant count == |ConnectionsOf(before, cleared)|
        invariant deleted == old(deleted) + ConnectionsOf(before, cleared)
        invariant lent == old(lent) && created == old(created)
        decreases todo
      {
        var k :| k in todo;
        var n := DrainQueue(k);
        OneMoreQueue(before, cleared, k);
        todo, cleared := todo - {k}, cleared + {k};
        count := count + n;
      }
      assert cleared == before.Keys;
      AllConnections(old(View()));
      ClearedIs(cfg, old(View()), View());
    }

    /** The inner loop of clear: delete from the front until the queue is empty. */
    method DrainQueue(k: string) returns (n: nat)
      requires k in queues
      modifies this
      ensures queues == old(queues)[k := []] && n == |old(queues)[k]|
      ensures deleted == old(deleted) + Members(old(queues)[k])
      ensures lent == old(lent) && created == old(created)
    {
      n := 0;
      ghost var q := queues[k];
      while |queues[k]| > 0
        invariant n <= |q| && queues == old(queues)[k := q[n..]]
        invariant deleted == old(deleted) + Members(q[..n])
        invariant lent == old(lent) && created == old(created)
        decreases |queues[k]|
      {
        assert q[..n + 1] == q[..n] + [q[n]];
        deleted := deleted + {queues[k][0]};
        queues := queues[k := queues[k][1..]];
        n := n + 1;
      }
      assert q[..n] == q;
    }
  }

  function Members(q: seq<Connection>): set<Connection> { set c | c in q }

  function ConnectionsOf(queues: Queues, keys: set<string>): set<Connection> {
    set k, c | k in keys && k in queues && c in queues[k] :: c
  }

  lemma NoConnections(queues: Queues)
    ensures ConnectionsOf(queues, {}) == {}
  {
  }

  lemma AllConnections(s: State)
    ensures ConnectionsOf(s.queues, s.queues.Keys) == Pooled(s)
  {
  }

  lemma ClearedIs(cfg: Config, s: State, s': State)
    requires s'.queues.Keys == s.queues.Keys && forall k :: k in s'.queues ==> s'.queues[k] == []
    requires s'.deleted == s.deleted + Pooled(s) && s'.lent == s.lent && s'.created == s.created
    ensures s' == Apply(cfg, s, Clear)
  {
  }

  /** No connection is in two places of the queues. */
  ghost predicate NoRepeats(queues: Queues) {
    && (forall k, i, j :: k in queues && 0 <= i < j < |queues[k]| ==> queues[k][i] != queues[k][j])
    && (forall k, k', c :: k in queues && k' in queues && c in queues[k] && c in queues[k'] ==> k == k')
  }

  lemma {:induction false} MembersCount(q: seq<Connection>)
    requires forall i, j :: 0 <= i < j < |q| ==> q[i] != q[j]
    ensures |Members(q)| == |q|
  {
    if q != [] {
      MembersCount(q[1..]);
      assert q == [q[0]] + q[1..];
      assert Members(q) == {q[0]} + Members(q[1..]);
    }
  }

  /** The connections of one more queue are as many as that queue is long, and none was counted yet. */
  lemma OneMoreQueue(queues: Queues, keys: set<string>, k: string)
    requires NoRepeats(queues) && k in queues && k !in keys
    ensures ConnectionsOf(queues, keys + {k}) == ConnectionsOf(queues, keys) + Members(queues[k])
    ensures |ConnectionsOf(queues, keys + {k})| == |ConnectionsOf(queues, keys)| + |queues[k]|
  {
    MembersCount(queues[k]);
    assert ConnectionsOf(queues, keys) !! Members(queues[k]);
  }
}
