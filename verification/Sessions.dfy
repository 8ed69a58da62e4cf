/** The session manager of server_lib/sl_session_manager.cpp.  Clock readings are passed in, in
    milliseconds; a check reads the clock twice, once to test and once to stamp. */
module Sessions {
  /** duration_cast to whole seconds: truncation toward zero. */
  function Seconds(ms: int): int {
    if ms >= 0 then ms / 1000 else -(-ms / 1000)
  }

  datatype Reading = Reading(read: int, stamp: int)

  type SessionId = string

  predicate Expired(stamp: int, now: int, expire: int) { Seconds(now - stamp) > expire }

  /** Expired means that one second more than the expiry has passed. */
  lemma ExpiredIff(stamp: int, now: int, expire: int)
    requires expire >= 0
    ensures Expired(stamp, now, expire) <==> now - stamp >= 1000 * (expire + 1)
  {
  }

  /** One check of one session, as it leaves the stamps. */
  function Checked(sessions: map<SessionId, int>, id: SessionId, r: Reading, expire: int): map<SessionId, int> {
    if id in sessions && !Expired(sessions[id], r.read, expire) then sessions[id := r.stamp] else sessions
  }

  /** A pass over all sessions checks each of them, and so refreshes those that have not expired. */
  function CheckedAll(sessions: map<SessionId, int>, clock: SessionId -> Reading, expire: int): map<SessionId, int> {
    map id | id in sessions ::
      if Expired(sessions[id], clock(id).read, expire) then sessions[id] else clock(id).stamp
  }

  class SessionManager {
    var sessions: map<SessionId, int>    // the stamp of each session
    var logins: map<string, SessionId>
    var expireSec: int

    /** No method ever stores a login, so this holds of every session manager. */
    predicate NoLogins()
      reads this
    {
      logins == map[]
    }

    constructor ()
      ensures sessions == map[] && NoLogins() && expireSec == 120
    {
      sessions := map[];
      logins := map[];
      expireSec := 120;
    }

    method SetExpire(seconds: int)
      modifies `expireSec
      ensures expireSec == seconds
    {
      expireSec := seconds;
    }

    /** A session for a login, under a newly generated id. */
    method CreateNewSession(login: string, id: SessionId, now: int)
      modifies `sessions, `logins
      ensures var kept := if login in old(logins) then old(sessions) - {old(logins)[login]} else old(sessions);
              sessions == kept[id := now]
      ensures logins == old(logins) - {login}
      ensures old(NoLogins()) ==> NoLogins() && sessions == Apply(old(sessions), Create(id, now), expireSec)
    {
      var _ := RemoveSessionByLogin(login);
      sessions := sessions[id := now];
    }

    method CheckSession(id: SessionId, r: Reading) returns (ok: bool)
      modifies `sessions, `logins
      ensures sessions == Checked(old(sessions), id, r, expireSec)
      ensures ok <==> id in old(sessions) && !Expired(old(sessions)[id], r.read, expireSec)
      ensures expireSec >= 0 ==> (ok <==> id in old(sessions) && r.read - old(sessions)[id] < 1000 * (expireSec + 1))
      ensures sessions == if ok then old(sessions)[id := r.stamp] else old(sessions)
      ensures old(NoLogins()) ==> NoLogins() && sessions == Apply(old(sessions), Check(id, r), expireSec)
    {
      if id !in sessions {
        return false;
      }
      if expireSec >= 0 {
        ExpiredIff(sessions[id], r.read, expireSec);
      }
      var diff := Seconds(r.read - sessions[id]);
      if diff > expireSec {
        var _ := RemoveSessionById(id);
        return false;
      }
      sessions := sessions[id := r.stamp];
      return true;
    }

    /** Removing by id forgets the login of the session, the session itself stays. */
    method RemoveSessionById(id: SessionId) returns (found: bool)
      modifies `logins
      ensures found <==> id in sessions
      ensures !found || (forall l :: l in old(logins) ==> old(logins)[l] != id) ==> logins == old(logins)
      ensures found && (exists l :: l in old(logins) && old(logins)[l] == id) ==>
                exists l :: l in old(logins) && old(logins)[l] == id && logins == old(logins) - {l}
      ensures old(NoLogins()) ==> NoLogins() && sessions == Apply(old(sessions), Event.RemoveById(id), expireSec)
    {
      if id !in sessions {
        return false;
      }
      found := true;
      var todo := logins.Keys;
      while todo != {}
        invariant todo <= logins.Keys && logins == old(logins)
        invariant forall l :: l in logins && l !in todo ==> logins[l] != id
        decreases todo
      {
        var l :| l in todo;
        todo := todo - {l};
        if logins[l] != id {
          continue;
        }
        logins := logins - {l};
        break;
      }
    }

    method RemoveSessionByLogin(login: string) returns (found: bool)
      modifies `sessions, `logins
      ensures found <==> login in old(logins)
      ensures !found ==> sessions == old(sessions) && logins == old(logins)
      ensures found ==> sessions == old(sessions) - {old(logins)[login]} && logins == old(logins) - {login}
      ensures old(NoLogins()) ==> NoLogins() && sessions == Apply(old(sessions), Event.RemoveByLogin(login), expireSec)
    {
      if login !in logins {
        return false;
      }
      sessions := sessions - {logins[login]};
      logins := logins - {login};
      return true;
    }

    /** Check every session once. */
    method ClearExpired(clock: SessionId -> Reading)
      modifies `sessions, `logins
      ensures sessions == CheckedAll(old(sessions), clock, expireSec)
      ensures sessions.Keys == old(sessions).Keys
      ensures expireSec >= 0 ==> forall id :: id in sessions ==>
                sessions[id] == if clock(id).read - old(sessions)[id] < 1000 * (expireSec + 1) then clock(id).stamp
                                else old(sessions)[id]
      ensures old(NoLogins()) ==> NoLogins() && sessions == Apply(old(sessions), Sweep(clock), expireSec)
    {
      var toCheck := sessions.Keys;
      while toCheck != {}
        invariant toCheck <= sessions.Keys == old(sessions).Keys
        invariant forall id :: id in sessions ==>
                    sessions[id] == if id in toCheck then old(sessions)[id]
                                    else CheckedAll(old(sessions), clock, expireSec)[id]
        invariant old(NoLogins()) ==> NoLogins()
        decreases toCheck
      {
        var id :| id in toCheck;
        toCheck := toCheck - {id};
        var _ := CheckSession(id, clock(id));
      }
    }
  }

  // ----- runs -----

  datatype Event =
    | Create(id: SessionId, now: int)
    | Check(id: SessionId, reading: Reading)
    | Sweep(clock: SessionId -> Reading)
    | RemoveById(id: SessionId)
    | RemoveByLogin(login: string)

  /** The stamps after an event.  Removing by id does not touch them, and removing by login does not
      either while no login is stored, which is always. */
  function Apply(sessions: map<SessionId, int>, e: Event, expire: int): map<SessionId, int> {
    match e
    case Create(id, now) => sessions[id := now]
    case Check(id, reading) => Checked(sessions, id, reading, expire)
    case Sweep(clock) => CheckedAll(sessions, clock, expire)
    case RemoveById(_) => sessions
    case RemoveByLogin(_) => sessions
  }

  function Run(events: seq<Event>, expire: int): map<SessionId, int> {
    if events == [] then map[]
    else Apply(Run(events[..|events| - 1], expire), events[|events| - 1], expire)
  }

  /** The touches of an id since it was last created: its creation, then every check and every sweep,
      whether they succeeded or not.  Empty if the id was never created. */
  function Touches(events: seq<Event>, id: SessionId): seq<Reading> {
    if events == [] then []
    else
      var before := Touches(events[..|events| - 1], id);
      match events[|events| - 1]
      case Create(x, now) => if x == id then [Reading(now, now)] else before
      case Check(x, reading) => if x == id && before != [] then before + [reading] else before
      case Sweep(clock) => if before != [] then before + [clock(id)] else before
      case RemoveById(_) => before
      case RemoveByLogin(_) => before
  }

  /** The clock did not run backwards from touch to touch. */
  predicate Forward(h: seq<Reading>) {
    && (forall i :: 0 <= i < |h| ==> h[i].read <= h[i].stamp)
    && (forall i :: 0 < i < |h| ==> InOrder(h, i))
  }

  predicate InOrder(h: seq<Reading>, i: nat)
    requires 0 < i < |h|
  {
    h[i - 1].stamp <= h[i].read
  }

  /** Every gap from one touch to the next is at most the expiry, in whole seconds. */
  predicate GapsWithin(h: seq<Reading>, expire: int) {
    forall i :: 0 < i < |h| ==> GapWithin(h, i, expire)
  }

  predicate GapWithin(h: seq<Reading>, i: nat, expire: int)
    requires 0 < i < |h|
  {
    Seconds(h[i].read - h[i - 1].stamp) <= expire
  }

  /** A session whose gaps were all within the expiry carries the stamp of its last touch; any other
      was already expired at its last touch. */
  predicate Tells(sessions: map<SessionId, int>, h: seq<Reading>, id: SessionId, expire: int) {
    && (id in sessions <==> h != [])
    && (h != [] ==>
          var last := h[|h| - 1];
          if GapsWithin(h, expire) then sessions[id] == last.stamp else Expired(sessions[id], last.read, expire))
  }

  lemma {:induction false} StampTellsHistory(events: seq<Event>, id: SessionId, expire: int)
    requires Forward(Touches(events, id))
    ensures Tells(Run(events, expire), Touches(events, id), id, expire)
    decreases |events|
  {
    if events != [] {
      var n := |events| - 1;
      var before := Touches(events[..n], id);
      var sessions := Run(events[..n], expire);
      hide Tells, Forward;
      match events[n] {
        case Create(x, now) =>
          if x == id {
            CreationTells(sessions, id, now, expire);
          } else {
            StampTellsHistory(events[..n], id, expire);
            OtherIdTells(sessions, Run(events, expire), before, id, expire);
          }
        case Check(x, r) =>
          if x == id && before != [] {
            ForwardPrefix(before, r);
            StampTellsHistory(events[..n], id, expire);
            TouchTells(sessions, Run(events, expire), before, id, r, expire);
          } else {
            StampTellsHistory(events[..n], id, expire);
            NeverCreated(sessions, before, id, expire);
            OtherIdTells(sessions, Run(events, expire), before, id, expire);
          }
        case Sweep(clock) =>
          if before != [] {
            ForwardPrefix(before, clock(id));
            StampTellsHistory(events[..n], id, expire);
            TouchTells(sessions, Run(events, expire), before, id, clock(id), expire);
          } else {
            StampTellsHistory(events[..n], id, expire);
            NeverCreated(sessions, before, id, expire);
            OtherIdTells(sessions, Run(events, expire), before, id, expire);
          }
        case _ => StampTellsHistory(events[..n], id, expire);
      }
    }
  }

  lemma NeverCreated(sessions: map<SessionId, int>, h: seq<Reading>, id: SessionId, expire: int)
    requires Tells(sessions, h, id, expire)
    ensures h == [] ==> id !in sessions
  {
  }

  lemma CreationTells(sessions: map<SessionId, int>, id: SessionId, now: int, expire: int)
    ensures Tells(sessions[id := now], [Reading(now, now)], id, expire)
  {
  }

  lemma OtherIdTells(sessions: map<SessionId, int>, sessions': map<SessionId, int>, h: seq<Reading>,
                     id: SessionId, expire: int)
    requires Tells(sessions, h, id, expire)
    requires id in sessions' <==> id in sessions
    requires id in sessions ==> sessions'[id] == sessions[id]
    ensures Tells(sessions', h, id, expire)
  {
  }

  lemma TouchTells(sessions: map<SessionId, int>, sessions': map<SessionId, int>, h: seq<Reading>, id: SessionId,
                   r: Reading, expire: int)
    requires Tells(sessions, h, id, expire) && h != [] && Forward(h + [r])
    requires id in sessions ==>
               && id in sessions'
               && sessions'[id] == if Expired(sessions[id], r.read, expire) then sessions[id] else r.stamp
    ensures Tells(sessions', h + [r], id, expire)
  {
    var last := h[|h| - 1];
    assert (h + [r])[|h| - 1] == last && (h + [r])[|h|] == r;
    OneMoreTouch(h, r, expire);
    ForwardPrefix(h, r);
    SecondsMonotone(last.read - sessions[id], r.read - sessions[id]);
  }

  lemma ForwardPrefix(h: seq<Reading>, r: Reading)
    requires Forward(h + [r])
    ensures Forward(h)
    ensures h != [] ==> h[|h| - 1].read <= h[|h| - 1].stamp <= r.read <= r.stamp
  {
    var g := h + [r];
    assert g[|h|] == r;
    assert h != [] ==> InOrder(g, |h|) && g[|h| - 1] == h[|h| - 1];
    forall i | 0 <= i < |h| ensures h[i].read <= h[i].stamp {
      assert g[i] == h[i];
    }
    forall i | 0 < i < |h| ensures InOrder(h, i) {
      assert InOrder(g, i);
    }
  }

  lemma OneMoreTouch(h: seq<Reading>, r: Reading, expire: int)
    requires h != []
    ensures GapsWithin(h + [r], expire) <==>
            GapsWithin(h, expire) && Seconds(r.read - h[|h| - 1].stamp) <= expire
  {
    var g := h + [r];
    assert GapWithin(g, |h|, expire) <==> Seconds(r.read - h[|h| - 1].stamp) <= expire;
    forall i | 0 < i < |h| ensures GapWithin(g, i, expire) == GapWithin(h, i, expire) {
    }
    if GapsWithin(g, expire) {
      forall i | 0 < i < |h| ensures GapWithin(h, i, expire) {
        assert GapWithin(g, i, expire);
      }
    }
  }

  lemma SecondsMonotone(a: int, b: int)
    requires a <= b
    ensures Seconds(a) <= Seconds(b)
  {
  }

  predicate Accepted(events: seq<Event>, id: SessionId, now: int, expire: int) {
    var sessions := Run(events, expire);
    id in sessions && !Expired(sessions[id], now, expire)
  }

  /** A check succeeds exactly if the id was created and every gap between consecutive touches of it,
      the gap up to this check included, is at most the expiry in whole seconds. */
  lemma CheckTellsHistory(events: seq<Event>, id: SessionId, r: Reading, expire: int)
    requires Forward(Touches(events, id) + [r])
    ensures Accepted(events, id, r.read, expire)
       <==> Touches(events, id) != [] && GapsWithin(Touches(events, id) + [r], expire)
  {
    var h := Touches(events, id);
    var g := h + [r];
    ForwardPrefix(h, r);
    StampTellsHistory(events, id, expire);
    if h != [] {
      var last := h[|h| - 1];
      assert g[|h| - 1] == last && g[|h|] == r;
      OneMoreTouch(h, r, expire);
      if !GapsWithin(h, expire) {
        SecondsMonotone(last.read - Run(events, expire)[id], r.read - Run(events, expire)[id]);
      }
    }
  }

  predicate NotCreated(events: seq<Event>, id: SessionId) {
    forall i :: 0 <= i < |events| ==> !(events[i].Create? && events[i].id == id)
  }

  lemma {:induction false} TouchesExtend(events: seq<Event>, more: seq<Event>, id: SessionId)
    requires NotCreated(more, id)
    ensures Touches(events, id) <= Touches(events + more, id)
    decreases |more|
  {
    if more == [] {
      assert events + more == events;
    } else {
      var n := |more| - 1;
      TouchesExtend(events, more[..n], id);
      assert (events + more)[..|events| + n] == events + more[..n];
      assert (events + more)[|events| + n] == more[n];
    }
  }

  lemma PrefixKeeps(h: seq<Reading>, g: seq<Reading>, expire: int)
    requires h <= g
    ensures Forward(g) ==> Forward(h)
    ensures GapsWithin(g, expire) ==> GapsWithin(h, expire)
  {
    forall i | 0 <= i < |h| ensures h[i] == g[i] {
    }
    if Forward(g) {
      forall i | 0 < i < |h| ensures InOrder(h, i) {
        assert InOrder(g, i);
      }
    }
    if GapsWithin(g, expire) {
      forall i | 0 < i < |h| ensures GapWithin(h, i, expire) {
        assert GapWithin(g, i, expire);
      }
    }
  }

  /** Once a check has failed, the id is never accepted again, whatever follows, unless it is created anew. */
  lemma ExpiredForever(events: seq<Event>, failed: Reading, more: seq<Event>, id: SessionId, r: Reading, expire: int)
    requires NotCreated(more, id) && Touches(events, id) != []
    requires Forward(Touches(events + [Check(id, failed)] + more, id) + [r])
    requires !Accepted(events, id, failed.read, expire)
    ensures !Accepted(events + [Check(id, failed)] + more, id, r.read, expire)
  {
    hide Accepted, Forward, GapsWithin;
    var checked := events + [Check(id, failed)];
    var h := Touches(events, id) + [failed];
    assert checked[..|checked| - 1] == events;
    assert Touches(checked, id) == h;
    TouchesExtend(checked, more, id);
    hide Touches;
    var all := Touches(checked + more, id) + [r];
    PrefixKeeps(h, all, expire);
    CheckTellsHistory(events, id, failed, expire);
    CheckTellsHistory(checked + more, id, r, expire);
  }

  // ----- what removing and sweeping do not do -----

  /** Removals, by id or by login, change nothing about any session. */
  lemma RemovalChangesNothing(events: seq<Event>, e: Event, id: SessionId, now: int, expire: int)
    requires e.RemoveById? || e.RemoveByLogin?
    ensures Accepted(events + [e], id, now, expire) == Accepted(events, id, now, expire)
  {
    assert (events + [e])[..|events|] == events;
  }

  /** A session that was removed is accepted up to its expiry. */
  lemma RemovedIsAccepted(id: SessionId)
    ensures Accepted([Create(id, 0), RemoveById(id)], id, 120_000, 120)
  {
    var created := [Create(id, 0)];
    assert created[..0] == [];
    assert Run(created, 120) == map[id := 0];
    RemovalChangesNothing(created, RemoveById(id), id, 120_000, 120);
    assert created + [RemoveById(id)] == [Create(id, 0), RemoveById(id)];
  }

  /** A session that nobody has used for 200 seconds is accepted, with an expiry of 120 seconds, if a
      sweep has passed in between; without the sweep it is not. */
  lemma SweptIsAccepted(id: SessionId)
    ensures Accepted([Create(id, 0), Sweep(_ => Reading(100_000, 100_000))], id, 200_000, 120)
    ensures !Accepted([Create(id, 0)], id, 200_000, 120)
  {
    var created, sweep := [Create(id, 0)], Sweep(_ => Reading(100_000, 100_000));
    assert created[..0] == [];
    assert Run(created, 120) == map[id := 0];
    assert (created + [sweep])[..1] == created;
    assert Run(created + [sweep], 120) == map[id := 100_000];
    assert created + [sweep] == [Create(id, 0), sweep];
  }

  /** A check that succeeds starts the expiry anew, one that fails does not. */
  lemma CheckedIsAccepted(id: SessionId)
    ensures Accepted([Create(id, 0), Check(id, Reading(100_000, 100_001))], id, 220_001, 120)
    ensures !Accepted([Create(id, 0), Check(id, Reading(130_000, 130_001))], id, 140_000, 120)
  {
    var created := [Create(id, 0)];
    var intime, late := Check(id, Reading(100_000, 100_001)), Check(id, Reading(130_000, 130_001));
    assert created[..0] == [];
    assert Run(created, 120) == map[id := 0];
    assert (created + [intime])[..1] == created && (created + [late])[..1] == created;
    assert Run(created + [intime], 120) == map[id := 100_001];
    assert Run(created + [late], 120) == map[id := 0];
    assert created + [intime] == [Create(id, 0), intime] && created + [late] == [Create(id, 0), late];
  }
}
