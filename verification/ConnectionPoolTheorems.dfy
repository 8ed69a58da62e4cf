/** What every interleaving of the critical sections of the pool keeps. */
module ConnectionPoolTheorems {
  import opened ConnectionPool

  /** Every connection ever created is in exactly one place: one position of one queue, lent, or deleted. */
  ghost predicate OnePlaceEach(s: State) {
    && NoRepeats(s.queues)
    && s.created == Pooled(s) + s.lent + s.deleted
    && Pooled(s) !! s.lent && Pooled(s) !! s.deleted && s.lent !! s.deleted
  }

  /** Queues hold connections of their own key only, and no more than the capacity (or one). */
  ghost predicate WellShaped(cfg: Config, s: State) {
    && (forall k, c :: k in s.queues && c in s.queues[k] ==> cfg.keyOf(c.params) == k)
    && (forall k :: k in s.queues ==> |s.queues[k]| <= if cfg.capacity == 0 then 1 else cfg.capacity)
  }

  ghost predicate NoEmptyQueue(s: State) {
    forall k :: k in s.queues ==> s.queues[k] != []
  }

  predicate Legal(cfg: Config, s: State, e: Event) {
    Possible(s, e) && (e.TakePooled? ==> !FrontOfEmpty(cfg, s, e.params))
  }

  predicate LegalRun(cfg: Config, s: State, events: seq<Event>)
    decreases |events|
  {
    events == [] || (Legal(cfg, s, events[0]) && LegalRun(cfg, Apply(cfg, s, events[0]), events[1..]))
  }

  function Run(cfg: Config, s: State, events: seq<Event>): State
    requires LegalRun(cfg, s, events)
    decreases |events|
  {
    if events == [] then s else Run(cfg, Apply(cfg, s, events[0]), events[1..])
  }

  // ----- one event -----

  lemma TakeKeeps(cfg: Config, s: State, params: Params)
    requires OnePlaceEach(s) && !FrontOfEmpty(cfg, s, params)
    ensures OnePlaceEach(TakeFrom(cfg, s, params))
  {
    var s' := TakeFrom(cfg, s, params);
    var k := cfg.keyOf(params);
    if k in s.queues {
      var q := s.queues[k];
      assert q[0] in q;
      assert forall c :: c in q <==> c == q[0] || c in q[1..];
      PooledExcept(s, s', k, q[0]);
      assert NoRepeats(s'.queues);
    }
  }

  lemma PooledExcept(s: State, s': State, k: string, c: Connection)
    requires NoRepeats(s.queues) && k in s.queues && s.queues[k] != [] && c == s.queues[k][0]
    requires s'.queues == if |s.queues[k]| == 1 then s.queues - {k} else s.queues[k := s.queues[k][1..]]
    ensures Pooled(s') == Pooled(s) - {c}
  {
    var q := s.queues[k];
    assert q == [c] + q[1..];
    assert c !in q[1..];
    forall x ensures x in Pooled(s') <==> x in Pooled(s) && x != c {
      if x in Pooled(s') {
        var j :| j in s'.queues && x in s'.queues[j];
        assert x in s.queues[j];
      }
      if x in Pooled(s) && x != c {
        var j :| j in s.queues && x in s.queues[j];
        if j == k { assert x in q[1..]; }
        assert j in s'.queues && x in s'.queues[j];
      }
    }
  }

  lemma GiveBackKeeps(cfg: Config, s: State, c: Connection, isOpen: bool, isShutdown: bool)
    requires OnePlaceEach(s) && c in s.lent
    ensures OnePlaceEach(GiveBack(cfg, s, c, isOpen, isShutdown))
  {
    var s' := GiveBack(cfg, s, c, isOpen, isShutdown);
    var k := cfg.keyOf(c.params);
    if s'.queues != s.queues {
      assert forall j, x :: j in s.queues && x in s.queues[j] ==> x in Pooled(s);
      assert forall x :: x in s'.queues[k] <==> x == c || (k in s.queues && x in s.queues[k]);
      forall x ensures x in Pooled(s') <==> x in Pooled(s) || x == c {
        if x in Pooled(s') {
          var j :| j in s'.queues && x in s'.queues[j];
        }
        if x in Pooled(s) {
          var j :| j in s.queues && x in s.queues[j];
          assert j in s'.queues && x in s'.queues[j];
        }
        assert k in s'.queues && c in s'.queues[k];
      }
    }
  }

  lemma ClearKeeps(s: State)
    requires OnePlaceEach(s)
    ensures OnePlaceEach(Cleared(s)) && Pooled(Cleared(s)) == {}
  {
  }

  lemma EventKeeps(cfg: Config, s: State, e: Event)
    requires Legal(cfg, s, e) && OnePlaceEach(s) && WellShaped(cfg, s)
    ensures OnePlaceEach(Apply(cfg, s, e)) && WellShaped(cfg, Apply(cfg, s, e))
  {
    match e {
      case TakePooled(params) => TakeKeeps(cfg, s, params);
      case Release(c, isOpen, isShutdown) => GiveBackKeeps(cfg, s, c, isOpen, isShutdown);
      case Clear => ClearKeeps(s);
      case Open(_) =>
    }
  }

  /** A connection that is given back is deleted exactly if it is closed, the pool shuts down, or the
      queue of its key is full; otherwise it is the last one of that queue. */
  lemma GivenBackIsDeletedIff(cfg: Config, s: State, c: Connection, isOpen: bool, isShutdown: bool)
    requires OnePlaceEach(s) && c in s.lent
    ensures var s' := Apply(cfg, s, Release(c, isOpen, isShutdown));
            var k := cfg.keyOf(c.params);
            && (c in s'.deleted <==> !isOpen || isShutdown || (k in s.queues && |s.queues[k]| >= cfg.capacity))
            && (c !in s'.deleted ==> k in s'.queues && s'.queues[k] != [] && s'.queues[k][|s'.queues[k]| - 1] == c)
  {
  }

  // ----- whole runs -----

  /** In every run each connection stays in exactly one place, and the queues stay in shape. */
  lemma {:induction false} RunKeeps(cfg: Config, s: State, events: seq<Event>)
    requires LegalRun(cfg, s, events) && OnePlaceEach(s) && WellShaped(cfg, s)
    ensures OnePlaceEach(Run(cfg, s, events)) && WellShaped(cfg, Run(cfg, s, events))
    decreases |events|
  {
    if events != [] {
      EventKeeps(cfg, s, events[0]);
      RunKeeps(cfg, Apply(cfg, s, events[0]), events[1..]);
    }
  }

  /** From an empty pool: created = pooled + lent + deleted, whatever the interleaving. */
  lemma ConnectionsConserved(cfg: Config, events: seq<Event>)
    requires LegalRun(cfg, State(map[], {}, {}, {}), events)
    ensures var s := Run(cfg, State(map[], {}, {}, {}), events);
            |s.created| == |Pooled(s)| + |s.lent| + |s.deleted|
  {
    var empty := State(map[], {}, {}, {});
    assert Pooled(empty) == {};
    RunKeeps(cfg, empty, events);
    var s := Run(cfg, empty, events);
    assert |Pooled(s) + s.lent| == |Pooled(s)| + |s.lent|;
    assert |Pooled(s) + s.lent + s.deleted| == |Pooled(s) + s.lent| + |s.deleted|;
  }

  // ----- first in, first out -----

  function Queue(s: State, k: string): seq<Connection> {
    if k in s.queues then s.queues[k] else []
  }

  function Added(cfg: Config, s: State, e: Event, k: string): seq<Connection> {
    if e.Release? && !e.isShutdown && e.isOpen && cfg.keyOf(e.c.params) == k && Accepts(cfg, s.queues, k) then [e.c]
    else []
  }

  /** What an event takes out of the queue, in order: the front for a taker, everything for a clear. */
  function Removed(cfg: Config, s: State, e: Event, k: string): seq<Connection>
    requires Legal(cfg, s, e)
  {
    match e
    case TakePooled(params) =>
      var c := Taken(cfg, s, params);
      if cfg.keyOf(params) == k && c.Some? then [c.value] else []
    case Clear => Queue(s, k)
    case _ => []
  }

  function AllAdded(cfg: Config, s: State, events: seq<Event>, k: string): seq<Connection>
    requires LegalRun(cfg, s, events)
    decreases |events|
  {
    if events == [] then []
    else Added(cfg, s, events[0], k) + AllAdded(cfg, Apply(cfg, s, events[0]), events[1..], k)
  }

  function AllRemoved(cfg: Config, s: State, events: seq<Event>, k: string): seq<Connection>
    requires LegalRun(cfg, s, events)
    decreases |events|
  {
    if events == [] then []
    else Removed(cfg, s, events[0], k) + AllRemoved(cfg, Apply(cfg, s, events[0]), events[1..], k)
  }

  lemma EventIsFifo(cfg: Config, s: State, e: Event, k: string)
    requires Legal(cfg, s, e)
    ensures Queue(s, k) + Added(cfg, s, e, k) == Removed(cfg, s, e, k) + Queue(Apply(cfg, s, e), k)
  {
  }

  /** Over any run a queue gives out connections in the order in which it got them, and loses none. */
  lemma {:induction false} RunIsFifo(cfg: Config, s: State, events: seq<Event>, k: string)
    requires LegalRun(cfg, s, events)
    ensures Queue(s, k) + AllAdded(cfg, s, events, k)
         == AllRemoved(cfg, s, events, k) + Queue(Run(cfg, s, events), k)
    decreases |events|
  {
    hide Apply, Queue, Added, Removed, FrontOfEmpty;
    if events != [] {
      var s' := Apply(cfg, s, events[0]);
      EventIsFifo(cfg, s, events[0], k);
      RunIsFifo(cfg, s', events[1..], k);
      var a, r := Added(cfg, s, events[0], k), Removed(cfg, s, events[0], k);
      var aRest, rRest := AllAdded(cfg, s', events[1..], k), AllRemoved(cfg, s', events[1..], k);
      var end := Queue(Run(cfg, s', events[1..]), k);
      assert Queue(s, k) + (a + aRest) == (Queue(s, k) + a) + aRest;
      assert (r + Queue(s', k)) + aRest == r + (Queue(s', k) + aRest);
      assert r + (rRest + end) == (r + rRest) + end;
    }
  }

  // ----- when the front of a queue exists -----

  /** Taking, opening and releasing keep every queue non-empty.  Clearing does so only on an empty map:
      otherwise it leaves every key of the map with an empty queue. */
  lemma NoEmptyQueueIff(cfg: Config, s: State, e: Event)
    requires Legal(cfg, s, e) && NoEmptyQueue(s)
    ensures NoEmptyQueue(Apply(cfg, s, e)) <==> (e.Clear? ==> s.queues == map[])
  {
    if e.Clear? && s.queues != map[] {
      var k :| k in s.queues;
      assert Cleared(s).queues[k] == [];
    }
  }

  /** The key has an empty queue after these events: a clear found the key in the map, and nothing has
      been added to its queue since.  `was` says so of the state before the events. */
  predicate Starved(cfg: Config, s: State, events: seq<Event>, k: string, was: bool)
    requires LegalRun(cfg, s, events)
    decreases |events|
  {
    if events == [] then was
    else
      var now := if events[0].Clear? then k in s.queues else was && Added(cfg, s, events[0], k) == [];
      Starved(cfg, Apply(cfg, s, events[0]), events[1..], k, now)
  }

  /** Over every run, a request then meets an empty queue if and only if its key is starved. */
  lemma {:induction false} FrontOfEmptyIff(cfg: Config, s: State, events: seq<Event>, params: Params)
    requires LegalRun(cfg, s, events)
    ensures FrontOfEmpty(cfg, Run(cfg, s, events), params)
       <==> Starved(cfg, s, events, cfg.keyOf(params), FrontOfEmpty(cfg, s, params))
    decreases |events|
  {
    if events != [] {
      FrontOfEmptyIff(cfg, Apply(cfg, s, events[0]), events[1..], params);
    }
  }

  predicate NoClear(events: seq<Event>) {
    forall i :: 0 <= i < |events| ==> !events[i].Clear?
  }

  /** Without a clear, a key stays starved until the first connection is added to its queue. */
  lemma {:induction false} StarvedUntilAdded(cfg: Config, s: State, events: seq<Event>, k: string, was: bool)
    requires LegalRun(cfg, s, events) && NoClear(events)
    ensures Starved(cfg, s, events, k, was) <==> was && AllAdded(cfg, s, events, k) == []
    decreases |events|
  {
    hide Apply, Added;
    if events != [] {
      assert forall i :: 0 <= i < |events[1..]| ==> events[1..][i] == events[i + 1];
      StarvedUntilAdded(cfg, Apply(cfg, s, events[0]), events[1..], k, was && Added(cfg, s, events[0], k) == []);
    }
  }

  /** The event gives an open connection back to this key, outside of a shutdown. */
  predicate GivesBack(cfg: Config, e: Event, k: string) {
    e.Release? && e.isOpen && !e.isShutdown && cfg.keyOf(e.c.params) == k
  }

  /** An empty queue gets nothing, until the next clear, exactly if its capacity is 0 or nobody gives an
      open connection back. */
  lemma {:induction false} NothingAddedIff(cfg: Config, s: State, events: seq<Event>, k: string)
    requires LegalRun(cfg, s, events) && NoClear(events) && k in s.queues && s.queues[k] == []
    ensures AllAdded(cfg, s, events, k) == []
       <==> cfg.capacity == 0 || forall i :: 0 <= i < |events| ==> !GivesBack(cfg, events[i], k)
    decreases |events|
  {
    if events != [] {
      var e, rest := events[0], events[1..];
      assert forall i :: 0 <= i < |rest| ==> rest[i] == events[i + 1];
      assert GivesBack(cfg, e, k) && cfg.capacity > 0 <==> Added(cfg, s, e, k) != [];
      if Added(cfg, s, e, k) == [] {
        NothingAddedIff(cfg, Apply(cfg, s, e), rest, k);
        assert forall i :: 0 < i < |events| ==> events[i] == rest[i - 1];
      }
    }
  }

  /** After a clear, however much later, a request fails on an empty queue exactly if its key was in
      the map when it was cleared and its queue has got no connection since: because nobody has given an
      open one back, or because a pool of capacity 0 never takes one into an existing queue. */
  lemma FrontAfterClearIff(cfg: Config, s: State, more: seq<Event>, params: Params)
    requires LegalRun(cfg, Cleared(s), more) && NoClear(more)
    ensures FrontOfEmpty(cfg, Run(cfg, Cleared(s), more), params)
       <==> cfg.keyOf(params) in s.queues && AllAdded(cfg, Cleared(s), more, cfg.keyOf(params)) == []
    ensures FrontOfEmpty(cfg, Run(cfg, Cleared(s), more), params)
       <==> && cfg.keyOf(params) in s.queues
            && (cfg.capacity == 0 || forall i :: 0 <= i < |more| ==> !GivesBack(cfg, more[i], cfg.keyOf(params)))
  {
    var k := cfg.keyOf(params);
    FrontOfEmptyIff(cfg, Cleared(s), more, params);
    StarvedUntilAdded(cfg, Cleared(s), more, k, FrontOfEmpty(cfg, Cleared(s), params));
    if k in s.queues {
      NothingAddedIff(cfg, Cleared(s), more, k);
    }
  }

  /** No clear finds this key in the map. */
  predicate ClearsWithout(cfg: Config, s: State, events: seq<Event>, k: string)
    requires LegalRun(cfg, s, events)
    decreases |events|
  {
    events == [] || ((events[0].Clear? ==> k !in s.queues)
                     && ClearsWithout(cfg, Apply(cfg, s, events[0]), events[1..], k))
  }

  lemma {:induction false} NeverStarved(cfg: Config, s: State, events: seq<Event>, k: string)
    requires LegalRun(cfg, s, events) && ClearsWithout(cfg, s, events, k)
    ensures !Starved(cfg, s, events, k, false)
    decreases |events|
  {
    if events != [] {
      NeverStarved(cfg, Apply(cfg, s, events[0]), events[1..], k);
    }
  }

  /** A key that no clear finds in the map never gets an empty queue, whatever happens to other keys. */
  lemma FrontAlwaysThere(cfg: Config, s: State, events: seq<Event>, params: Params)
    requires LegalRun(cfg, s, events) && !FrontOfEmpty(cfg, s, params)
    requires ClearsWithout(cfg, s, events, cfg.keyOf(params))
    ensures !FrontOfEmpty(cfg, Run(cfg, s, events), params)
  {
    FrontOfEmptyIff(cfg, s, events, params);
    NeverStarved(cfg, s, events, cfg.keyOf(params));
  }

  /** setConnectionOptions called twice with the same parameters, its test connection open: the second
      call clears the queue of the first and then looks at its front. */
  lemma SameOptionsTwice(cfg: Config, c: Connection)
    ensures var s := State(map[], {}, {}, {});
            var call := [Clear, TakePooled(c.params), Open(c), Release(c, true, false)];
            && LegalRun(cfg, s, call) && LegalRun(cfg, Run(cfg, s, call), [Clear])
            && FrontOfEmpty(cfg, Run(cfg, Run(cfg, s, call), [Clear]), c.params)
  {
    var s0 := State(map[], {}, {}, {});
    var call := [Clear, TakePooled(c.params), Open(c), Release(c, true, false)];
    var s1 := Apply(cfg, s0, call[0]);
    var s2 := Apply(cfg, s1, call[1]);
    var s3 := Apply(cfg, s2, call[2]);
    var s4 := Apply(cfg, s3, call[3]);
    LegalStep(cfg, s3, call[3..]);
    LegalStep(cfg, s2, call[2..]);
    LegalStep(cfg, s1, call[1..]);
    LegalStep(cfg, s0, call);
    LegalStep(cfg, s4, [Clear]);
    FrontAfterClearIff(cfg, s4, [], c.params);
  }

  lemma LegalStep(cfg: Config, s: State, events: seq<Event>)
    requires events != [] && Legal(cfg, s, events[0]) && LegalRun(cfg, Apply(cfg, s, events[0]), events[1..])
    ensures LegalRun(cfg, s, events)
    ensures Run(cfg, s, events) == Run(cfg, Apply(cfg, s, events[0]), events[1..])
  {
  }
}
