/** How many processors the workers start, in any interleaving of their starts and of everything else,
    and what streams add to that. */
module RequestProtocolStartup {
  import opened RequestProtocol
  import opened RequestProtocolSafety
  import opened RequestProtocolAccounting

  /** One processor for each method in the lists, one list per service. */
  function Methods(keys: seq<seq<Rpc>>): multiset<Rpc> {
    if keys == [] then multiset{} else multiset(keys[0]) + Methods(keys[1..])
  }

  function MadeFor(procs: map<Address, Processor>, made: seq<Address>, rpc: Rpc): nat {
    if made == [] then 0
    else One(made[0] in procs && procs[made[0]].rpc == rpc) + MadeFor(procs, made[1..], rpc)
  }

  predicate Begins(v: Worker) { v.Starting? || v.StartingPost? }

  /** The processors of a method that a worker has still to start. */
  function ToStart(procs: map<Address, Processor>, v: Worker, rpc: Rpc): nat {
    if Begins(v) then Methods(v.keys)[rpc] + MadeFor(procs, v.made, rpc) else 0
  }

  /** A sum over workers. */
  ghost function Sum(ws: set<WorkerId>, f: WorkerId -> nat): nat {
    if ws == {} then 0
    else
      var w :| w in ws;
      f(w) + Sum(ws - {w}, f)
  }

  /** The order in which the workers are counted is of no account. */
  lemma {:induction false} SumWithout(ws: set<WorkerId>, f: WorkerId -> nat, w: WorkerId)
    requires w in ws
    ensures Sum(ws, f) == f(w) + Sum(ws - {w}, f)
    decreases ws
  {
    var x :| x in ws && Sum(ws, f) == f(x) + Sum(ws - {x}, f);
    if x != w {
      SumWithout(ws - {x}, f, w);
      SumWithout(ws - {w}, f, x);
      assert ws - {x} - {w} == ws - {w} - {x};
    }
  }

  lemma {:induction false} SumSame(ws: set<WorkerId>, f: WorkerId -> nat, g: WorkerId -> nat)
    requires forall w :: w in ws ==> f(w) == g(w)
    ensures Sum(ws, f) == Sum(ws, g)
    decreases ws
  {
    if ws != {} {
      var w :| w in ws;
      SumWithout(ws, f, w);
      SumWithout(ws, g, w);
      SumSame(ws - {w}, f, g);
    }
  }

  lemma {:induction false} SumConstant(ws: set<WorkerId>, f: WorkerId -> nat, n: nat)
    requires forall w :: w in ws ==> f(w) == n
    ensures Sum(ws, f) == |ws| * n
    decreases ws
  {
    if ws != {} {
      var w :| w in ws;
      SumWithout(ws, f, w);
      SumConstant(ws - {w}, f, n);
      OneMore(|ws - {w}|, n);
    }
  }

  lemma OneMore(n: nat, m: nat)
    ensures n * m + m == (n + 1) * m
  {
  }

  function ToStartBy(s: State, rpc: Rpc): WorkerId -> nat {
    w => if w in s.workers then ToStart(s.procs, s.workers[w], rpc) else 0
  }

  ghost function AllToStart(s: State, rpc: Rpc): nat { Sum(s.workers.Keys, ToStartBy(s, rpc)) }

  /** The methods that the services of a worker have. */
  function MethodsOf(workers: map<WorkerId, Worker>, rpc: Rpc): WorkerId -> nat {
    w => if w in workers && Begins(workers[w]) then Methods(workers[w].keys)[rpc] else 0
  }

  /** The processors of a method that all workers together are to start: one for each worker and service
      that has the method. */
  ghost function ToBeStarted(workers: map<WorkerId, Worker>, rpc: Rpc): nat {
    Sum(workers.Keys, MethodsOf(workers, rpc))
  }

  /** At the beginning all of them are still to be started. */
  lemma InitToStart(s: State, rpc: Rpc)
    requires Init(s)
    ensures AllToStart(s, rpc) == ToBeStarted(s.workers, rpc)
  {
    SumSame(s.workers.Keys, ToStartBy(s, rpc), MethodsOf(s.workers, rpc));
  }

  // ----- one step -----

  /** The made processors are the same ones for the same methods. */
  lemma {:induction false} MadeForFrame(procs: map<Address, Processor>, procs': map<Address, Processor>,
                                        made: seq<Address>, rpc: Rpc)
    requires forall p :: p in made ==> p in procs && p in procs' && procs'[p].rpc == procs[p].rpc
    ensures MadeFor(procs', made, rpc) == MadeFor(procs, made, rpc)
  {
    if made != [] {
      MadeForFrame(procs, procs', made[1..], rpc);
    }
  }

  lemma {:induction false} MadeForAppend(procs: map<Address, Processor>, made: seq<Address>, p: Address, rpc: Rpc)
    ensures MadeFor(procs, made + [p], rpc) == MadeFor(procs, made, rpc) + One(p in procs && procs[p].rpc == rpc)
  {
    if made == [] {
      assert made + [p] == [p];
    } else {
      assert (made + [p])[1..] == made[1..] + [p];
      MadeForAppend(procs, made[1..], p, rpc);
    }
  }

  lemma OthersToStart(s: State, step: Step, w: WorkerId, rpc: Rpc)
    requires Inv(s) && Enabled(s, step) && w in s.workers && w != step.w
    ensures var s' := Next(s, step);
            w in s'.workers && ToStart(s'.procs, s'.workers[w], rpc) == ToStart(s.procs, s.workers[w], rpc)
  {
    hide Inv, Enabled, Next;
    StepEffect(s, step);
    var s' := Next(s, step);
    var v := s.workers[w];
    if Begins(v) {
      forall p | p in v.made ensures p in s.procs && p in s'.procs && s'.procs[p].rpc == s.procs[p].rpc {
        assert HeldBy(s, w, p);
        SoleHolder(s, w, step.w, p);
        HeldIsLive(s, w, p);
        StepUntouched(s, step, p);
      }
      MadeForFrame(s.procs, s'.procs, v.made, rpc);
    }
  }

  lemma MadeForHead(procs: map<Address, Processor>, made: seq<Address>, rpc: Rpc)
    requires made != []
    ensures MadeFor(procs, made, rpc)
         == One(made[0] in procs && procs[made[0]].rpc == rpc) + MadeFor(procs, made[1..], rpc)
  {
  }

  lemma MadeForNone(procs: map<Address, Processor>, rpc: Rpc)
    ensures MadeFor(procs, [], rpc) == 0
  {
  }

  /** A new processor for the first method of the list, behind those already made. */
  lemma MakeToStart(s: State, step: Step, rpc: Rpc)
    requires Enabled(s, step) && step.Make? && step.w in s.workers
    requires forall p :: p in s.workers[step.w].made ==> p in s.procs
    ensures var s' := Next(s, step);
            && step.w in s'.workers && s'.started == s.started
            && ToStart(s'.procs, s'.workers[step.w], rpc) == ToStart(s.procs, s.workers[step.w], rpc)
  {
    var s' := Next(s, step);
    var v, id := s.workers[step.w], step.id;
    hide MadeFor;
    assert v.keys[0] == [v.keys[0][0]] + v.keys[0][1..];
    assert ([v.keys[0][1..]] + v.keys[1..])[1..] == v.keys[1..];
    MadeForFrame(s.procs, s'.procs, v.made, rpc);
    MadeForAppend(s'.procs, v.made, id, rpc);
  }

  /** The first of the made processors is started. */
  lemma StartPostToStart(s: State, step: Step, rpc: Rpc)
    requires Enabled(s, step) && step.StartPost? && step.w in s.workers
    requires forall p :: p in s.workers[step.w].made ==> p in s.procs
    ensures var s' := Next(s, step);
            && step.w in s'.workers
            && s'.started[rpc] + ToStart(s'.procs, s'.workers[step.w], rpc)
               == s.started[rpc] + ToStart(s.procs, s.workers[step.w], rpc)
  {
    var s' := Next(s, step);
    var v := s.workers[step.w];
    hide MadeFor, Methods;
    MadeForHead(s.procs, v.made, rpc);
    MadeForFrame(s.procs, s'.procs, v.made[1..], rpc);
  }

  lemma OtherToStart(s: State, step: Step, rpc: Rpc)
    requires Enabled(s, step) && !step.Make? && !step.StartPost? && step.w in s.workers
    requires Begins(s.workers[step.w]) ==> forall p :: p in s.workers[step.w].made ==> p in s.procs
    ensures var s' := Next(s, step);
            && step.w in s'.workers && s'.started == s.started
            && ToStart(s'.procs, s'.workers[step.w], rpc) == ToStart(s.procs, s.workers[step.w], rpc)
  {
    hide MadeFor;
    MadeForNone(s.procs, rpc);
    if step.StartSet? {
      hide Methods;
      MadeForFrame(s.procs, Next(s, step).procs, s.workers[step.w].made, rpc);
    }
  }

  lemma OwnToStart(s: State, step: Step, rpc: Rpc)
    requires Inv(s) && Enabled(s, step)
    ensures var s' := Next(s, step);
            && step.w in s.workers && step.w in s'.workers
            && s'.started[rpc] + ToStart(s'.procs, s'.workers[step.w], rpc)
               == s.started[rpc] + ToStart(s.procs, s.workers[step.w], rpc)
  {
    StepEffect(s, step);
    hide Enabled, Next, ToStart, FitsWorker, HoldsDistinct;
    WorkerFacts(s, step.w);
    hide Inv;
    if Begins(s.workers[step.w]) {
      assert forall p :: p in s.workers[step.w].made ==> p in Held(s.workers[step.w]);
    }
    if step.Make? {
      MakeStarts(s, step);
      MakeToStart(s, step, rpc);
    } else if step.StartPost? {
      MakeStarts(s, step);
      StartPostToStart(s, step, rpc);
    } else {
      OtherToStart(s, step, rpc);
    }
  }

  lemma MakeStarts(s: State, step: Step)
    requires Enabled(s, step) && (step.Make? || step.StartPost?)
    ensures step.w in s.workers && Begins(s.workers[step.w])
  {
  }

  lemma StepBalance(s: State, step: Step, rpc: Rpc)
    requires Inv(s) && Enabled(s, step)
    ensures var s' := Next(s, step);
            && s'.workers.Keys == s.workers.Keys
            && s'.started[rpc] + AllToStart(s', rpc) == s.started[rpc] + AllToStart(s, rpc)
  {
    hide Inv, Enabled, Next, ToStart, Sum;
    StepEffect(s, step);
    OwnToStart(s, step, rpc);
    var s' := Next(s, step);
    var ws, w := s.workers.Keys, step.w;
    SumWithout(ws, ToStartBy(s, rpc), w);
    SumWithout(ws, ToStartBy(s', rpc), w);
    forall x | x in ws - {w} ensures ToStartBy(s', rpc)(x) == ToStartBy(s, rpc)(x) {
      OthersToStart(s, step, x, rpc);
    }
    SumSame(ws - {w}, ToStartBy(s', rpc), ToStartBy(s, rpc));
  }

  // ----- whole runs -----

  /** In every run: what has been started and what is still to be started is what there was to start. */
  lemma {:induction false} RunBalance(origin: State, s: State, steps: seq<Step>, rpc: Rpc)
    requires RunFrom(origin, s, steps)
    ensures s.workers.Keys == origin.workers.Keys
    ensures s.started[rpc] + AllToStart(s, rpc) == ToBeStarted(origin.workers, rpc)
    decreases |steps|
  {
    hide AllToStart, Enabled, Next;
    if steps == [] {
      InitToStart(origin, rpc);
    } else {
      var n := |steps| - 1;
      var before := BeforeLast(origin, s, steps);
      RunBalance(origin, before, steps[..n], rpc);
      RunFromInv(origin, before, steps[..n]);
      StepBalance(before, steps[n], rpc);
    }
  }

  /** Once every worker is past its start, in whatever order they got there: one processor for each
      method of each service has been started by each worker, and the armed processors and the workers on
      the way to re-arming are these and one more for each dequeued completion of a write. */
  lemma AllStarted(origin: State, s: State, steps: seq<Step>, rpc: Rpc)
    requires RunFrom(origin, s, steps)
    requires forall w :: w in s.workers ==> !Begins(s.workers[w])
    ensures s.started[rpc] == ToBeStarted(origin.workers, rpc)
    ensures |Armed(s, rpc)| + |Rearming(s, rpc)| == ToBeStarted(origin.workers, rpc) + s.writesDone[rpc]
  {
    hide RunFrom, Sum;
    RunBalance(origin, s, steps, rpc);
    SumConstant(s.workers.Keys, ToStartBy(s, rpc), 0);
    assert Run(s, steps);
    RunConserves(s, steps, rpc);
  }

  // ----- a stream arms a new processor at every event -----

  /** One idle worker, and one call of a stream that waits for the completion op of a write. */
  predicate Streaming(s: State, rpc: Rpc, op: OpId, n: nat) {
    && rpc in s.streams && s.workers == map[0 := Idle]
    && op in s.ops && s.ops[op].op == Write
    && var p := s.ops[op].tag;
    && p in s.procs && s.procs[p].rpc == rpc && s.procs[p].status == PROCESS
    && s.started[rpc] == 1 && s.writesDone[rpc] == n
  }

  lemma FreshFor(s: State) returns (n: nat)
    ensures n !in s.procs && n !in s.ops
  {
    n := NumberAbove(s.procs.Keys + s.ops.Keys);
    assert n !in s.procs.Keys + s.ops.Keys;
  }

  lemma {:induction false} NumberAbove(used: set<nat>) returns (n: nat)
    ensures forall x :: x in used ==> x < n
    decreases used
  {
    if used == {} {
      n := 0;
    } else {
      var x :| x in used;
      var m := NumberAbove(used - {x});
      assert forall y :: y in used ==> y == x || y in used - {x};
      n := if x < m then m else x + 1;
    }
  }

  /** The only worker dequeues an event of a stream and makes a successor. */
  lemma StreamDequeues(origin: State, s: State, steps: seq<Step>, op: OpId, next: Address)
    returns (s': State, steps': seq<Step>)
    requires RunFrom(origin, s, steps) && s.workers == map[0 := Idle] && next !in s.procs && next !in s.ops
    requires op in s.ops && s.ops[op].tag in s.procs && s.procs[s.ops[op].tag].status == PROCESS
    ensures RunFrom(origin, s', steps')
    ensures var p := s.ops[op].tag;
            var rpc := s.procs[p].rpc;
            && s'.streams == s.streams && s'.started == s.started && s'.workers == map[0 := Rearm(p, OK, next)]
            && s'.writesDone[rpc] == s.writesDone[rpc] + One(s.ops[op].op == Write)
            && p in s'.procs && s'.procs[p].rpc == rpc && s'.procs[p].status == PROCESS
            && p != next && next in s'.procs && next !in s'.ops
  {
    hide RunFrom;
    RunStep(origin, s, steps, Dequeue(0, op, OK));
    var s1, r1 := Next(s, Dequeue(0, op, OK)), steps + [Dequeue(0, op, OK)];
    RunStep(origin, s1, r1, RunProcess(0, next));
    s', steps' := Next(s1, RunProcess(0, next)), r1 + [RunProcess(0, next)];
  }

  /** It arms the successor. */
  lemma StreamRearms(origin: State, s: State, steps: seq<Step>, op: OpId) returns (s': State, steps': seq<Step>)
    requires RunFrom(origin, s, steps) && s.workers == map[0 := Idle]
    requires op in s.ops && s.ops[op].tag in s.procs && s.procs[s.ops[op].tag].status == PROCESS
    ensures RunFrom(origin, s', steps')
    ensures var p := s.ops[op].tag;
            var rpc := s.procs[p].rpc;
            && s'.streams == s.streams && s'.started == s.started && s'.workers == map[0 := Serving(p, OK)]
            && s'.writesDone[rpc] == s.writesDone[rpc] + One(s.ops[op].op == Write)
            && p in s'.procs && s'.procs[p].rpc == rpc && s'.procs[p].status == PROCESS
  {
    hide RunFrom;
    var p := s.ops[op].tag;
    var next := FreshFor(s);
    var s2, r2 := StreamDequeues(origin, s, steps, op, next);
    RunStep(origin, s2, r2, RearmSet(0));
    var s3, r3 := Next(s2, RearmSet(0)), r2 + [RearmSet(0)];
    RunStep(origin, s3, r3, RearmSend(0, next));
    s', steps' := Next(s3, RearmSend(0, next)), r3 + [RearmSend(0, next)];
  }

  /** The only worker serves one event of a stream and writes an answer. */
  lemma StreamEvent(origin: State, s: State, steps: seq<Step>, op: OpId, rpc: Rpc)
    returns (s': State, steps': seq<Step>, op': OpId)
    requires RunFrom(origin, s, steps) && s.workers == map[0 := Idle] && rpc in s.streams
    requires op in s.ops && s.ops[op].tag in s.procs
    requires s.procs[s.ops[op].tag].rpc == rpc && s.procs[s.ops[op].tag].status == PROCESS && s.started[rpc] == 1
    ensures RunFrom(origin, s', steps')
    ensures Streaming(s', rpc, op', s.writesDone[rpc] + One(s.ops[op].op == Write))
  {
    hide RunFrom;
    var s1, r1 := StreamRearms(origin, s, steps, op);
    RunStep(origin, s1, r1, Handle(0, false));
    var s2, r2 := Next(s1, Handle(0, false)), r1 + [Handle(0, false)];
    op' := FreshFor(s2);
    RunStep(origin, s2, r2, SendWrite(0, op'));
    s', steps' := Next(s2, SendWrite(0, op')), r2 + [SendWrite(0, op')];
  }

  function StreamOrigin(rpc: Rpc, v: Worker): State {
    State(map[], map[], map[0 := v], {rpc}, [], multiset{}, multiset{})
  }

  lemma StreamPosts(origin: State, made: State, r1: seq<Step>, rpc: Rpc) returns (s: State, steps: seq<Step>)
    requires made == StreamOrigin(rpc, Starting([[]], [0])).(procs := map[0 := New(rpc)])
    requires RunFrom(origin, made, r1)
    ensures RunFrom(origin, s, steps) && s.workers == map[0 := Idle] && rpc in s.streams
    ensures 0 in s.ops && s.ops[0] == Posted(0, Request) && 0 in s.procs
    ensures s.procs[0].rpc == rpc && s.procs[0].status == PROCESS && s.started[rpc] == 1 && s.writesDone[rpc] == 0
  {
    hide RunFrom;
    RunStep(origin, made, r1, StartSet(0));
    var s2, r2 := Next(made, StartSet(0)), r1 + [StartSet(0)];
    RunStep(origin, s2, r2, StartPost(0, 0));
    var s3, r3 := Next(s2, StartPost(0, 0)), r2 + [StartPost(0, 0)];
    RunStep(origin, s3, r3, NextKey(0));
    var s4, r4 := Next(s3, NextKey(0)), r3 + [NextKey(0)];
    RunStep(origin, s4, r4, EnterLoop(0));
    s, steps := Next(s4, EnterLoop(0)), r4 + [EnterLoop(0)];
  }

  /** The only worker starts the processor of the only method, a stream. */
  lemma StreamStarts(rpc: Rpc) returns (origin: State, s: State, steps: seq<Step>)
    ensures RunFrom(origin, s, steps) && s.workers == map[0 := Idle] && rpc in s.streams
    ensures 0 in s.ops && s.ops[0] == Posted(0, Request) && 0 in s.procs
    ensures s.procs[0].rpc == rpc && s.procs[0].status == PROCESS && s.started[rpc] == 1 && s.writesDone[rpc] == 0
  {
    origin := StreamOrigin(rpc, Starting([[rpc]], []));
    assert RunFrom(origin, origin, []);
    hide RunFrom;
    var made := StreamOrigin(rpc, Starting([[]], [0])).(procs := map[0 := New(rpc)]);
    var keys, none: seq<Rpc> := [[rpc]], [];
    assert keys[0][1..] == none && [none] + keys[1..] == [none];
    assert Next(origin, Make(0, 0)).workers[0] == made.workers[0];
    assert Next(origin, Make(0, 0)) == made;
    RunStep(origin, origin, [], Make(0, 0));
    s, steps := StreamPosts(origin, made, [] + [Make(0, 0)], rpc);
  }

  lemma {:induction false} StreamOfWrites(rpc: Rpc, n: nat)
    returns (origin: State, s: State, steps: seq<Step>, op: OpId)
    ensures RunFrom(origin, s, steps) && Streaming(s, rpc, op, n)
  {
    hide RunFrom;
    if n == 0 {
      var s0, r0;
      origin, s0, r0 := StreamStarts(rpc);
      s, steps, op := StreamEvent(origin, s0, r0, 0, rpc);
    } else {
      var s0, r0, op0;
      origin, s0, r0, op0 := StreamOfWrites(rpc, n - 1);
      s, steps, op := StreamEvent(origin, s0, r0, op0, rpc);
    }
  }

  /** For every n there is a run in which one processor of a stream is started and, with a single call
      that has written n + 1 answers, n + 1 processors wait for a request. */
  lemma ArmedWithoutBound(rpc: Rpc, n: nat)
    ensures exists s, steps :: Run(s, steps) && s.started[rpc] == 1 && |Armed(s, rpc)| == n + 1
  {
    var origin, s, steps, op := StreamOfWrites(rpc, n);
    assert Run(s, steps);
    RunConserves(s, steps, rpc);
    assert Rearming(s, rpc) == {};
  }
}
