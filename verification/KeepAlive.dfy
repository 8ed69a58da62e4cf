/** The client's keep-alive loop (hrs_server/client_lib/hrs_keep_alive.cpp) against the server's
    session check.  All times are clock readings in milliseconds on one clock. */
module KeepAlive {
  import opened Common
  import opened Sessions

  /** What the connection does to a keep-alive: both ways fine, or one of them lost. */
  datatype Transport = Fine | RequestLost | ReplyLost

  /** One pass of the loop: the reading it tests, and, if it fires, the reading the timer is set to,
      the two readings of the server's check, and what becomes of the request and the reply. */
  datatype Poll = Poll(test: int, set_: int, check: Reading, transport: Transport)

  /** The interval that a client derives from the server's expiry of k seconds. */
  function Interval(k: int): int
    requires k >= 1
  {
    Max(k / 2, k - 20)
  }

  /** What a cycle may take on top of its interval: half the expiry, rounded up, but at most 20 s. */
  function Slack(k: int): int
    requires k >= 1
  {
    Min((k + 1) / 2, 20)
  }

  predicate Fires(timer: int, p: Poll, interval: int) { Seconds(p.test - timer) > interval }

  /** The polls that fire, if the loop is not stopped. */
  function Firings(timer: int, polls: seq<Poll>, interval: int): seq<Poll>
    decreases |polls|
  {
    if polls == [] then []
    else if Fires(timer, polls[0], interval) then [polls[0]] + Firings(polls[0].set_, polls[1..], interval)
    else Firings(timer, polls[1..], interval)
  }

  /** The reading the timer was last set to before the i-th firing. */
  function TimerBefore(timer: int, fired: seq<Poll>, i: nat): int
    requires i <= |fired|
  {
    if i == 0 then timer else fired[i - 1].set_
  }

  /** No keep-alive is sent before the interval and one more second have passed since the timer was set. */
  lemma {:induction false} FiringsWait(timer: int, polls: seq<Poll>, interval: int, i: nat)
    requires interval >= 0 && i < |Firings(timer, polls, interval)|
    ensures var f := Firings(timer, polls, interval);
            f[i].test - TimerBefore(timer, f, i) >= 1000 * (interval + 1)
    decreases |polls|
  {
    if Fires(timer, polls[0], interval) {
      if i > 0 {
        FiringsWait(polls[0].set_, polls[1..], interval, i - 1);
      }
    } else {
      FiringsWait(timer, polls[1..], interval, i);
    }
  }

  /** Nothing is sent exactly if no poll comes that late. */
  lemma {:induction false} NothingSentIff(timer: int, polls: seq<Poll>, interval: int)
    requires interval >= 0
    ensures Firings(timer, polls, interval) == []
       <==> forall i :: 0 <= i < |polls| ==> polls[i].test - timer < 1000 * (interval + 1)
    decreases |polls|
  {
    if polls != [] {
      NothingSentIff(timer, polls[1..], interval);
      assert forall i :: 0 < i < |polls| ==> polls[i] == polls[1..][i - 1];
      assert forall i :: 0 <= i < |polls| - 1 ==> polls[1..][i] == polls[i + 1];
    }
  }

  /** The first poll that comes that late sends, and the timer starts again there. */
  lemma {:induction false} FirstLatePollSends(timer: int, polls: seq<Poll>, interval: int, i: nat)
    requires interval >= 0 && i < |polls| && polls[i].test - timer >= 1000 * (interval + 1)
    requires forall j :: 0 <= j < i ==> polls[j].test - timer < 1000 * (interval + 1)
    ensures Firings(timer, polls, interval) == [polls[i]] + Firings(polls[i].set_, polls[i + 1..], interval)
    decreases |polls|
  {
    if i > 0 {
      assert polls[0].test - timer < 1000 * (interval + 1);
      FirstLatePollSends(timer, polls[1..], interval, i - 1);
      assert polls[1..][i..] == polls[i + 1..];
    }
  }

  /** The interval and the slack, with the server's expiry written out. */
  lemma IntervalSpelledOut(k: int)
    requires k >= 1
    ensures k >= 40 ==> Interval(k) == k - 20 && Slack(k) == 20
    ensures k <= 40 ==> k - 1 <= 2 * Interval(k) <= k && Interval(k) + Slack(k) == k
  {
  }

  /** Time does not run backwards from `from` on: within a poll, and from one poll to the next. */
  predicate Forward(from: int, polls: seq<Poll>)
    decreases |polls|
  {
    polls == [] ||
    (from <= polls[0].test <= polls[0].set_ <= polls[0].check.read <= polls[0].check.stamp
     && Forward(polls[0].check.stamp, polls[1..]))
  }

  /** The delay of a cycle, from the server's stamp to its next check, on top of the interval and the
      second that the client's rounding adds to it. */
  function Extra(stamp: int, read: int, interval: int): int { read - stamp - 1000 * (interval + 1) }

  predicate WithinSlack(stamp: int, read: int, k: int)
    requires k >= 1
  {
    Extra(stamp, read, Interval(k)) < 1000 * Slack(k)
  }

  predicate InTime(stamp: int, p: Poll, k: int)
    requires k >= 1
  {
    WithinSlack(stamp, p.check.read, k)
  }

  /** Every cycle of the firings is within the slack, the first one counted from `stamp`. */
  predicate AllInTime(stamp: int, fired: seq<Poll>, k: int)
    requires k >= 1
    decreases |fired|
  {
    fired == [] || (InTime(stamp, fired[0], k) && AllInTime(fired[0].check.stamp, fired[1..], k))
  }

  /** No request and no reply was lost. */
  predicate AllAnswered(fired: seq<Poll>) {
    fired == [] || (fired[0].transport.Fine? && AllAnswered(fired[1..]))
  }

  function LastStamp(stamp: int, fired: seq<Poll>): int {
    if fired == [] then stamp else fired[|fired| - 1].check.stamp
  }

  /** The stamp of the session when the loop has ended: it is that of the last check in time which the
      server made, up to the first late or failed keep-alive.  A lost reply means that it was made. */
  function StampAfter(stamp: int, fired: seq<Poll>, k: int): int
    requires k >= 1
    decreases |fired|
  {
    if fired == [] || fired[0].transport.RequestLost? || !InTime(stamp, fired[0], k) then stamp
    else if fired[0].transport.ReplyLost? then fired[0].check.stamp
    else StampAfter(fired[0].check.stamp, fired[1..], k)
  }

  lemma {:induction false} StampAfterAll(stamp: int, fired: seq<Poll>, k: int)
    requires k >= 1 && AllInTime(stamp, fired, k) && AllAnswered(fired)
    ensures StampAfter(stamp, fired, k) == LastStamp(stamp, fired)
    decreases |fired|
  {
    if fired != [] {
      StampAfterAll(fired[0].check.stamp, fired[1..], k);
    }
  }

  /** The server's check succeeds exactly if the cycle is within the slack. */
  lemma CheckPassesIff(stamp: int, read: int, k: int)
    requires k >= 1 && stamp <= read
    ensures !Expired(stamp, read, k) <==> WithinSlack(stamp, read, k)
  {
  }

  /** keepAlive: the request reaches the server or not, and its answer comes back or not. */
  method SendKeepAlive(server: SessionManager, id: SessionId, p: Poll) returns (isError: bool)
    modifies server`sessions, server`logins
    ensures server.sessions == if p.transport.RequestLost? then old(server.sessions)
                               else Checked(old(server.sessions), id, p.check, server.expireSec)
    ensures isError <==> || !p.transport.Fine? || id !in old(server.sessions)
                         || Expired(old(server.sessions)[id], p.check.read, server.expireSec)
  {
    if p.transport.RequestLost? {
      return true;
    }
    var ok := server.CheckSession(id, p.check);
    isError := p.transport.ReplyLost? || !ok;
  }

  /** The loop, with the server behind it.  It stops at the first keep-alive that fails or is refused.
      It goes on through all polls exactly if every cycle is within the slack and nothing is lost; if the
      server does not know the session, exactly if no poll fires. */
  method Process(server: SessionManager, id: SessionId, start: int, polls: seq<Poll>) returns (stopped: bool)
    requires server.expireSec >= 1 && (id in server.sessions ==> server.sessions[id] <= start)
    requires Forward(start, polls)
    modifies server`sessions, server`logins
    ensures id in server.sessions <==> id in old(server.sessions)
    ensures var fired := Firings(start, polls, Interval(server.expireSec));
            id !in server.sessions ==> (stopped <==> fired != []) && server.sessions == old(server.sessions)
    ensures (forall i :: 0 <= i < |polls| ==> polls[i].test - start < 1000 * (Interval(server.expireSec) + 1)) ==>
              !stopped && server.sessions == old(server.sessions)
    ensures id in server.sessions ==>
              var k := server.expireSec;
              var created := old(server.sessions)[id];
              var fired := Firings(start, polls, Interval(k));
              && (!stopped <==> AllInTime(created, fired, k) && AllAnswered(fired))
              && server.sessions[id] == StampAfter(created, fired, k)
              && (!stopped ==> server.sessions[id] == LastStamp(created, fired))
  {
    var k := server.expireSec;
    var interval := Interval(k);
    ghost var known := id in server.sessions;
    ghost var created := if known then server.sessions[id] else start;
    ghost var all := Firings(start, polls, interval);
    var timer := start;
    stopped := false;
    var n := 0;
    ghost var from, rest := start, polls;
    while n < |polls| && !stopped
      invariant n <= |polls| && rest == polls[n..]
      invariant Forward(from, rest)
      invariant id in server.sessions <==> known
      invariant !known ==> server.sessions == old(server.sessions)
      invariant all == [] ==>
                  !stopped && server.sessions == old(server.sessions) && Firings(timer, rest, interval) == []
      invariant !known ==> if stopped then all != [] else all == Firings(timer, rest, interval)
      invariant known && stopped ==> Ended(created, all, server.sessions[id], k)
      invariant known && !stopped ==> server.sessions[id] <= from
      invariant known && !stopped ==>
                  Remains(created, all, server.sessions[id], Firings(timer, rest, interval), k)
    {
      var p := polls[n];
      assert rest[0] == p;
      if Seconds(p.test - timer) > interval {
        assert Firings(timer, rest, interval) == [p] + Firings(p.set_, rest[1..], interval);
        if known {
          var stamp := server.sessions[id];
          CheckPassesIff(stamp, p.check.read, k);
          OneFiring(created, all, stamp, p, Firings(p.set_, rest[1..], interval), k);
        }
        timer := p.set_;
        var isError := SendKeepAlive(server, id, p);
        if isError {
          stopped := true;
        }
      }
      from := p.check.stamp;
      n := n + 1;
      rest := rest[1..];
    }
    NothingSentIff(start, polls, interval);
    if known && !stopped {
      StampAfterAll(created, all, k);
    }
  }

  /** After some of the firings, all in time, the rest decides what happens and what the stamp will be. */
  ghost predicate Remains(created: int, all: seq<Poll>, stamp: int, left: seq<Poll>, k: int)
    requires k >= 1
  {
    && (AllInTime(created, all, k) && AllAnswered(all) <==> AllInTime(stamp, left, k) && AllAnswered(left))
    && StampAfter(created, all, k) == StampAfter(stamp, left, k)
  }

  /** Some keep-alive failed or was refused, and this is the stamp that was left. */
  ghost predicate Ended(created: int, all: seq<Poll>, stamp: int, k: int)
    requires k >= 1
  {
    !(AllInTime(created, all, k) && AllAnswered(all)) && StampAfter(created, all, k) == stamp
  }

  lemma OneFiring(created: int, all: seq<Poll>, stamp: int, p: Poll, left: seq<Poll>, k: int)
    requires k >= 1 && Remains(created, all, stamp, [p] + left, k)
    ensures InTime(stamp, p, k) && p.transport.Fine? ==> Remains(created, all, p.check.stamp, left, k)
    ensures !InTime(stamp, p, k) || !p.transport.Fine? ==>
              Ended(created, all, if InTime(stamp, p, k) && p.transport.ReplyLost? then p.check.stamp else stamp, k)
  {
    assert ([p] + left)[1..] == left;
  }

  // ----- a condition on the environment -----

  /** Every poll comes at most delta after the reading before it (`from` for the first): the 100 ms
      sleep, its jitter and, behind a firing, the wait for the reply, all included. */
  predicate PolledWithin(from: int, timer: int, polls: seq<Poll>, interval: int, delta: int)
    decreases |polls|
  {
    polls == [] ||
    (polls[0].test - from <= delta
     && if Fires(timer, polls[0], interval)
        then PolledWithin(polls[0].set_, polls[0].set_, polls[1..], interval, delta)
        else PolledWithin(polls[0].test, timer, polls[1..], interval, delta))
  }

  /** How much longer this request takes to the server's check than the one before it took from the
      client's timer to the server's stamp.  For the first one the stamp is that of the login, which
      lies in front of the timer's start by the delay of the reply. */
  function LatencyGrowth(timer: int, stamp: int, p: Poll): int { (p.check.read - p.test) - (stamp - timer) }

  predicate LatencyWithin(timer: int, stamp: int, fired: seq<Poll>, growth: int)
    decreases |fired|
  {
    fired == [] ||
    (LatencyGrowth(timer, stamp, fired[0]) <= growth
     && LatencyWithin(fired[0].set_, fired[0].check.stamp, fired[1..], growth))
  }

  /** If polling delay and growth in latency together never exceed the slack, the session survives any
      number of cycles. */
  lemma {:induction false} PromptPollingSurvives(from: int, timer: int, stamp: int, polls: seq<Poll>, k: int,
                                                 delta: int, growth: int)
    requires k >= 1 && delta + growth <= 1000 * Slack(k)
    requires from < timer + 1000 * (Interval(k) + 1)
    requires PolledWithin(from, timer, polls, Interval(k), delta)
    requires LatencyWithin(timer, stamp, Firings(timer, polls, Interval(k)), growth)
    ensures AllInTime(stamp, Firings(timer, polls, Interval(k)), k)
    decreases |polls|
  {
    if polls != [] {
      var p := polls[0];
      if Fires(timer, p, Interval(k)) {
        var left := Firings(p.set_, polls[1..], Interval(k));
        assert ([p] + left)[1..] == left;
        PromptPollingSurvives(p.set_, p.set_, p.check.stamp, polls[1..], k, delta, growth);
      } else {
        PromptPollingSurvives(p.test, timer, stamp, polls[1..], k, delta, growth);
      }
    }
  }

  /** The slack is exact: for every expiry a cycle that takes just the slack longer is refused. */
  lemma SlackIsExact(stamp: int, p: Poll, k: int)
    requires k >= 1 && stamp <= p.check.read && Extra(stamp, p.check.read, Interval(k)) == 1000 * Slack(k)
    ensures Expired(stamp, p.check.read, k)
    ensures !Expired(stamp, p.check.read - 1, k)
  {
  }

  // ----- other requests and sweeps in between -----

  /** Among the touches of a session, these are the login and the keep-alives: the first and the last
      touch are among them, and from each to the next one the server's clock stays within the slack. */
  predicate KeepsUp(h: seq<Reading>, kept: seq<nat>, k: int)
    requires k >= 1
  {
    && h != [] && kept != [] && kept[0] == 0 && kept[|kept| - 1] == |h| - 1
    && forall i :: 0 < i < |kept| ==> KeptInTime(h, kept, i, k)
  }

  predicate KeptInTime(h: seq<Reading>, kept: seq<nat>, i: nat, k: int)
    requires k >= 1 && 0 < i < |kept|
  {
    kept[i - 1] < kept[i] < |h| && WithinSlack(h[kept[i - 1]].stamp, h[kept[i]].read, k)
  }

  lemma {:induction false} TouchesAscend(h: seq<Reading>, i: nat, j: nat)
    requires Sessions.Forward(h) && i <= j < |h|
    ensures h[i].read <= h[j].read && h[i].stamp <= h[j].stamp
    ensures i < j ==> h[i].stamp <= h[j].read
    decreases j - i
  {
    if i < j {
      TouchesAscend(h, i, j - 1);
      assert InOrder(h, j);
    }
  }

  /** Every touch but the first lies behind one of the kept ones and not behind the next. */
  lemma {:induction false} KeptAround(h: seq<Reading>, kept: seq<nat>, k: int, j: nat, n: nat) returns (i: nat)
    requires k >= 1 && KeepsUp(h, kept, k) && 0 < n < |kept| && 0 < j <= kept[n]
    ensures 0 < i < |kept| && kept[i - 1] < j <= kept[i]
    decreases n
  {
    assert KeptInTime(h, kept, n, k);
    if kept[n - 1] < j {
      i := n;
    } else {
      i := KeptAround(h, kept, k, j, n - 1);
    }
  }

  /** More touches between the keep-alives only make the gaps smaller. */
  lemma MoreTouchesHelp(h: seq<Reading>, kept: seq<nat>, k: int)
    requires k >= 1 && Sessions.Forward(h) && KeepsUp(h, kept, k)
    ensures GapsWithin(h, k)
  {
    forall j: nat | 0 < j < |h| ensures GapWithin(h, j, k) {
      var i := KeptAround(h, kept, k, j, |kept| - 1);
      assert KeptInTime(h, kept, i, k);
      var stamp, read := h[kept[i - 1]].stamp, h[kept[i]].read;
      TouchesAscend(h, kept[i - 1], kept[i]);
      TouchesAscend(h, kept[i - 1], j - 1);
      TouchesAscend(h, j, kept[i]);
      CheckPassesIff(stamp, read, k);
      SecondsMonotone(h[j].read - h[j - 1].stamp, read - stamp);
    }
  }

  /** In any run in which the keep-alives keep up, up to the keep-alive r, with any other checks, sweeps
      and removals in between: that keep-alive is accepted, and so is every check before it. */
  lemma EveryCheckSucceeds(before: seq<Event>, x: Reading, after: seq<Event>, r: Reading, id: SessionId,
                           kept: seq<nat>, k: int)
    requires k >= 1 && Touches(before, id) != [] && NotCreated(after, id)
    requires var h := Touches(before + [Check(id, x)] + after, id) + [r];
             Sessions.Forward(h) && KeepsUp(h, kept, k)
    ensures Accepted(before, id, x.read, k)
    ensures Accepted(before + [Check(id, x)] + after, id, r.read, k)
  {
    var checked := before + [Check(id, x)];
    var h := Touches(checked + after, id) + [r];
    MoreTouchesHelp(h, kept, k);
    assert checked[..|checked| - 1] == before;
    assert Touches(checked, id) == Touches(before, id) + [x];
    TouchesExtend(checked, after, id);
    PrefixKeeps(Touches(checked, id), h, k);
    CheckTellsHistory(before, id, x, k);
    CheckTellsHistory(checked + after, id, r, k);
  }
}
