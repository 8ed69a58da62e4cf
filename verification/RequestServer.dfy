/** The code of `run` and of the worker in place.  Between any two of its actions other workers act:
    `Others` lets them take any steps of the protocol.  The state of a server is always that of a run
    of the protocol, so that all theorems about runs hold of this code. */
module RequestServer {
  import opened RequestProtocol
  import opened RequestProtocolSafety
  import opened RequestProtocolAccounting
  import opened RequestProtocolStartup

  /** The steps that one worker took. */
  function Own(steps: seq<Step>, w: WorkerId): seq<Step> {
    if steps == [] then []
    else
      var n := |steps| - 1;
      Own(steps[..n], w) + if steps[n].w == w then [steps[n]] else []
  }

  lemma {:induction false} OwnMembers(steps: seq<Step>, w: WorkerId, step: Step)
    ensures step in Own(steps, w) <==> step in steps && step.w == w
    decreases |steps|
  {
    if steps != [] {
      var n := |steps| - 1;
      OwnMembers(steps[..n], w, step);
      assert steps == steps[..n] + [steps[n]];
    }
  }

  /** A run goes on from `before` to `after`, with just these steps of worker w among the new ones. */
  predicate Extends(before: seq<Step>, after: seq<Step>, w: WorkerId, own: seq<Step>) {
    before <= after && Own(after[|before|..], w) == own
  }

  lemma ExtendsNothing(a: seq<Step>, w: WorkerId)
    ensures Extends(a, a, w, [])
  {
    assert a[|a|..] == [];
  }

  lemma ExtendsStep(a: seq<Step>, b: seq<Step>, w: WorkerId, x: seq<Step>, step: Step)
    requires Extends(a, b, w, x)
    ensures Extends(a, b + [step], w, x + if step.w == w then [step] else [])
  {
    assert (b + [step])[|a|..] == b[|a|..] + [step];
    assert (b[|a|..] + [step])[..|b| - |a|] == b[|a|..];
  }

  /** The steps by which a worker in run() on a processor in PROCESS re-arms the method. */
  function RearmSteps(w: WorkerId, next: Address, op: OpId): seq<Step> {
    [RunProcess(w, next), RearmSet(w), RearmSend(w, op)]
  }

  /** Does run() finish the call: a refused one always, a handled one if the handler says so. */
  predicate Ends(code: Code, done: bool) { code != OK || done }

  function AnswerSteps(w: WorkerId, ends: bool, op: OpId): seq<Step> {
    if ends then [SetFinish(w), SendFinish(w, op)] else [SendWrite(w, op)]
  }

  function ServeSteps(w: WorkerId, code: Code, done: bool, op: OpId): seq<Step> {
    [if code == OK then Handle(w, done) else Refuse(w)] + AnswerSteps(w, Ends(code, done), op)
  }

  /** The steps of one run(): serve the call, or delete its processor. */
  function RunSteps(w: WorkerId, code: Code, next: Address, nextOp: OpId, ownOp: OpId, done: bool,
                    inProcess: bool): seq<Step> {
    if inProcess then RearmSteps(w, next, nextOp) + ServeSteps(w, code, done, ownOp) else [RunFinish(w)]
  }

  /** What a worker finds out about the session of a request. */
  datatype Extraction = Extracted | NotFound | NotRequired

  /** The code that run() gets: a request without the session it needs, or with one that is not
      valid, is refused. */
  function CodeFor(extraction: Extraction, sessionValid: bool): Code {
    match extraction
    case NotFound => INVALID_ARGUMENT
    case Extracted => if sessionValid then OK else UNAUTHENTICATED
    case NotRequired => OK
  }

  /** The effect of an event on its processor, before, in and after the handler. */
  function Noted(x: Processor, code: Code): Processor { x.(code := code, okEvents := x.okEvents + One(code == OK)) }

  function Handled(x: Processor, code: Code): Processor { x.(handled := x.handled + One(code == OK)) }

  function Answered(x: Processor, answer: Op): Processor {
    if answer.Finish? then x.(status := FINISH, posted := x.posted + [answer]) else x.(posted := x.posted + [answer])
  }

  /** How a call is answered: finished with its code, or by a write. */
  function AnswerOf(code: Code, done: bool): Op { if Ends(code, done) then Finish(code) else Write }

  function Served(x: Processor, code: Code, done: bool): Processor {
    Answered(Handled(Noted(x, code), code), AnswerOf(code, done))
  }

  /** Worker w is at the same point, and what it holds is as it was. */
  ghost predicate SameFor(w: WorkerId, s: State, s': State) {
    && w in s.workers && w in s'.workers && s'.workers[w] == s.workers[w]
    && forall p :: p in Held(s.workers[w]) ==> p in s.procs && p in s'.procs && s'.procs[p] == s.procs[p]
  }

  lemma SameForStep(origin: State, s: State, steps: seq<Step>, step: Step, w: WorkerId)
    requires RunFrom(origin, s, steps) && Enabled(s, step) && step.w != w && w in s.workers
    ensures SameFor(w, s, Next(s, step))
  {
    hide RunFrom, Inv, Enabled, Next;
    RunFromInv(origin, s, steps);
    StepEffect(s, step);
    forall p | p in Held(s.workers[w])
      ensures p in s.procs && p in Next(s, step).procs && Next(s, step).procs[p] == s.procs[p]
    {
      assert HeldBy(s, w, p);
      HeldIsLive(s, w, p);
      SoleHolder(s, w, step.w, p);
      StepUntouched(s, step, p);
    }
  }

  lemma SameForTransitive(w: WorkerId, a: State, b: State, c: State)
    requires SameFor(w, a, b) && SameFor(w, b, c)
    ensures SameFor(w, a, c)
  {
  }

  lemma FreshNumber(used: set<nat>)
    ensures exists n: nat :: n !in used
  {
    var n := NumberAbove(used);
    assert n !in used;
  }

  lemma StreamsStay(s: State, step: Step)
    requires Enabled(s, step)
    ensures Next(s, step).streams == s.streams
  {
  }

  lemma DeletedForgotten(origin: State, s: State, steps: seq<Step>, w: WorkerId)
    requires RunFrom(origin, s, steps) && Enabled(s, RunFinish(w))
    ensures var p := s.workers[w].p; !Referenced(Next(s, RunFinish(w)), p)
  {
    hide RunFrom, Referenced, Next;
    assert Run(s, steps);
    DeletedIsForgotten(s, steps, w);
  }

  lemma TagIsLive(origin: State, s: State, steps: seq<Step>, op: OpId)
    requires RunFrom(origin, s, steps) && op in s.ops
    ensures s.ops[op].tag in s.procs
    ensures s.procs[s.ops[op].tag].status == if s.ops[op].op.Finish? then FINISH else PROCESS
  {
    hide RunFrom;
    assert Run(s, steps);
    DequeuedIsLive(s, steps, op);
  }

  lemma RearmSetIs(s: State, w: WorkerId, p: Address, code: Code, next: Address)
    requires w in s.workers && s.workers[w] == Rearm(p, code, next) && next in s.procs
    ensures Enabled(s, RearmSet(w))
    ensures Next(s, RearmSet(w)) == s.(procs := s.procs[next := s.procs[next].(status := PROCESS)],
                                       workers := s.workers[w := RearmPost(p, code, next)])
  {
  }

  lemma SetFinishIs(s: State, w: WorkerId, p: Address, code: Code)
    requires w in s.workers && s.workers[w] == Finishing(p, code) && p in s.procs
    ensures Enabled(s, SetFinish(w))
    ensures Next(s, SetFinish(w)) == s.(procs := s.procs[p := s.procs[p].(status := FINISH)],
                                        workers := s.workers[w := FinishPost(p, code)])
  {
  }

  /** The steps that post an operation. */
  lemma PostIs(s: State, step: Step, p: Address, kind: Op, v: Worker)
    requires step.w in s.workers && p in s.procs
    requires match step
             case RearmSend(w, op) => op !in s.ops && s.workers[w].RearmPost? && s.workers[w].next == p
                                      && kind == Request && v == Serving(s.workers[w].p, s.workers[w].code)
             case SendFinish(w, op) => op !in s.ops && kind.Finish? && s.workers[w] == FinishPost(p, kind.code)
                                       && v == Idle
             case SendWrite(w, op) => op !in s.ops && s.workers[w] == WritePost(p) && kind == Write && v == Idle
             case _ => false
    ensures Enabled(s, step)
    ensures Next(s, step) == s.(procs := s.procs[p := s.procs[p].(posted := s.procs[p].posted + [kind])],
                                ops := s.ops[step.op := Posted(p, kind)], workers := s.workers[step.w := v])
  {
  }

  /** How often a worker posted the first request of a processor that it had made itself. */
  function Starts(steps: seq<Step>): nat {
    if steps == [] then 0 else Starts(steps[..|steps| - 1]) + One(steps[|steps| - 1].StartPost?)
  }

  lemma NoStarts()
    ensures Starts([]) == 0
  {
  }

  lemma StartsMore(steps: seq<Step>, step: Step)
    ensures Starts(steps + [step]) == Starts(steps) + One(step.StartPost?)
  {
    assert (steps + [step])[..|steps|] == steps;
  }

  function MethodCount(services: seq<seq<Rpc>>): nat {
    if services == [] then 0 else |services[0]| + MethodCount(services[1..])
  }

  /** New processors for these methods, in this order. */
  predicate NewFor(procs: map<Address, Processor>, made: seq<Address>, rpcs: seq<Rpc>) {
    && |made| == |rpcs|
    && forall i :: 0 <= i < |made| ==> made[i] in procs && procs[made[i]] == New(rpcs[i])
  }

  lemma NewForSame(w: WorkerId, s: State, s': State, rpcs: seq<Rpc>)
    requires SameFor(w, s, s') && Begins(s.workers[w]) && NewFor(s.procs, s.workers[w].made, rpcs)
    ensures NewFor(s'.procs, s.workers[w].made, rpcs)
  {
    assert forall p :: p in s.workers[w].made ==> p in Held(s.workers[w]);
  }

  /** The processors that a worker has made are live. */
  lemma HeldMade(origin: State, s: State, steps: seq<Step>, w: WorkerId)
    requires RunFrom(origin, s, steps) && w in s.workers && Begins(s.workers[w])
    ensures forall p :: p in Held(s.workers[w]) ==> p in s.procs
    ensures forall p :: p in s.workers[w].made ==> p in s.procs
  {
    hide RunFrom, Inv, FitsWorker;
    RunFromInv(origin, s, steps);
    WorkerFacts(s, w);
    assert forall p :: p in s.workers[w].made ==> p in Held(s.workers[w]);
  }

  lemma MakeIs(s: State, w: WorkerId, id: Address, rpcs: seq<Rpc>, rest: seq<seq<Rpc>>, made: seq<Address>)
    requires w in s.workers && s.workers[w] == Starting([rpcs] + rest, made) && rpcs != [] && id !in s.procs
    ensures Enabled(s, Make(w, id))
    ensures Next(s, Make(w, id)) == s.(procs := s.procs[id := New(rpcs[0])],
                                       workers := s.workers[w := Starting([rpcs[1..]] + rest, made + [id])])
  {
    assert ([rpcs] + rest)[1..] == rest;
  }

  lemma StartSetIs(s: State, w: WorkerId, rest: seq<seq<Rpc>>, made: seq<Address>)
    requires w in s.workers && s.workers[w] == Starting([[]] + rest, made) && made != [] && made[0] in s.procs
    ensures Enabled(s, StartSet(w))
    ensures Next(s, StartSet(w)) == s.(procs := s.procs[made[0] := s.procs[made[0]].(status := PROCESS)],
                                       workers := s.workers[w := StartingPost([[]] + rest, made)])
  {
  }

  lemma StartPostIs(s: State, w: WorkerId, op: OpId, rest: seq<seq<Rpc>>, made: seq<Address>)
    requires w in s.workers && s.workers[w] == StartingPost([[]] + rest, made) && made != [] && made[0] in s.procs
    requires op !in s.ops
    ensures Enabled(s, StartPost(w, op))
    ensures var x := s.procs[made[0]];
            Next(s, StartPost(w, op)) == s.(procs := s.procs[made[0] := x.(posted := x.posted + [Request])],
                                            ops := s.ops[op := Posted(made[0], Request)],
                                            workers := s.workers[w := Starting([[]] + rest, made[1..])],
                                            started := s.started + multiset{x.rpc})
  {
  }

  lemma NextKeyIs(s: State, w: WorkerId, rest: seq<seq<Rpc>>)
    requires w in s.workers && s.workers[w] == Starting([[]] + rest, [])
    ensures Enabled(s, NextKey(w))
    ensures Next(s, NextKey(w)) == s.(workers := s.workers[w := Starting(rest, [])])
  {
    assert ([[]] + rest)[1..] == rest;
  }

  lemma EnterLoopIs(s: State, w: WorkerId)
    requires w in s.workers && s.workers[w] == Starting([], [])
    ensures Enabled(s, EnterLoop(w)) && Next(s, EnterLoop(w)) == s.(workers := s.workers[w := Idle])
  {
  }

  /** The session of the request is in order. */
  predicate Accepted(extraction: Extraction, sessionValid: bool) {
    extraction.NotRequired? || (extraction.Extracted? && sessionValid)
  }

  /** Worker w called a handler between these two points of a run. */
  predicate HandlerRan(before: seq<Step>, after: seq<Step>, w: WorkerId) {
    exists i :: |before| <= i < |after| && after[i].w == w && after[i].Handle?
  }

  /** In the part of a run in which a worker serves one event, it calls the handler exactly if the event
      is no Finish and the service of the request needs no session or the session is valid. */
  lemma HandlerRunsIff(before: seq<Step>, after: seq<Step>, w: WorkerId, op: OpId, extraction: Extraction,
                       sessionValid: bool, next: Address, nextOp: OpId, ownOp: OpId, done: bool, inProcess: bool)
    requires var code := CodeFor(extraction, sessionValid);
             Extends(before, after, w, [Dequeue(w, op, code)] + RunSteps(w, code, next, nextOp, ownOp, done, inProcess))
    ensures HandlerRan(before, after, w)
       <==> inProcess && Accepted(extraction, sessionValid)
  {
    var code := CodeFor(extraction, sessionValid);
    var own := Own(after[|before|..], w);
    assert forall step :: step in own && step.Handle? ==> inProcess && code == OK;
    if HandlerRan(before, after, w) {
      var i :| |before| <= i < |after| && after[i].w == w && after[i].Handle?;
      assert after[|before|..][i - |before|] == after[i];
      OwnMembers(after[|before|..], w, after[i]);
    }
    if inProcess && code == OK {
      assert own[4] == Handle(w, done);
      OwnMembers(after[|before|..], w, Handle(w, done));
      var i :| 0 <= i < |after| - |before| && after[|before|..][i] == Handle(w, done);
      assert after[|before| + i] == Handle(w, done);
    }
  }

  /** This step was taken between these two points of a run. */
  predicate NewStep(before: seq<Step>, after: seq<Step>, step: Step) {
    exists i :: |before| <= i < |after| && after[i] == step
  }

  lemma NewStepIsOwn(before: seq<Step>, after: seq<Step>, w: WorkerId, own: seq<Step>, step: Step)
    requires Extends(before, after, w, own) && step.w == w
    ensures NewStep(before, after, step) <==> step in own
  {
    OwnMembers(after[|before|..], w, step);
    if NewStep(before, after, step) {
      var i :| |before| <= i < |after| && after[i] == step;
      assert after[|before|..][i - |before|] == step;
    }
    if step in own {
      var i :| 0 <= i < |after| - |before| && after[|before|..][i] == step;
      assert after[|before| + i] == step;
    }
  }

  /** The code of the one event is the one that the run shows. */
  lemma DequeuedWith(before: seq<Step>, after: seq<Step>, w: WorkerId, op: OpId, code: Code, rest: seq<Step>, c: Code)
    requires Extends(before, after, w, [Dequeue(w, op, code)] + rest)
    requires forall step :: step in rest ==> !step.Dequeue?
    ensures NewStep(before, after, Dequeue(w, op, c)) <==> c == code
  {
    NewStepIsOwn(before, after, w, [Dequeue(w, op, code)] + rest, Dequeue(w, op, c));
  }

  lemma RunStepsDequeueNothing(w: WorkerId, code: Code, next: Address, nextOp: OpId, ownOp: OpId, done: bool,
                               inProcess: bool)
    ensures forall step :: step in RunSteps(w, code, next, nextOp, ownOp, done, inProcess) ==> !step.Dequeue?
  {
  }

  /** What the client of a call gets that is not answered by a write. */
  lemma AnswerSpelledOut(extraction: Extraction, sessionValid: bool, done: bool)
    ensures var answer := AnswerOf(CodeFor(extraction, sessionValid), done);
            && (answer == Write <==> Accepted(extraction, sessionValid) && !done)
            && (answer == Finish(OK) <==> Accepted(extraction, sessionValid) && done)
            && (answer == Finish(INVALID_ARGUMENT) <==> extraction.NotFound?)
            && (answer == Finish(UNAUTHENTICATED) <==> extraction.Extracted? && !sessionValid)
  {
  }

  /** Every worker is about to start the processors of all services. */
  function Beginning(streams: set<Rpc>, workerIds: set<WorkerId>, services: seq<seq<Rpc>>): State {
    State(map[], map[], map w | w in workerIds :: Starting(services, []), streams, [], multiset{}, multiset{})
  }

  lemma BeginningToStart(streams: set<Rpc>, workerIds: set<WorkerId>, services: seq<seq<Rpc>>, rpc: Rpc)
    ensures ToBeStarted(Beginning(streams, workerIds, services).workers, rpc) == |workerIds| * Methods(services)[rpc]
  {
    var workers := Beginning(streams, workerIds, services).workers;
    SumConstant(workerIds, MethodsOf(workers, rpc), Methods(services)[rpc]);
    assert workers.Keys == workerIds;
  }

  class Server {
    const streams: set<Rpc>
    var procs: map<Address, Processor>
    var ops: map<OpId, Posted>
    var workers: map<WorkerId, Worker>  // where each worker is
    var retired: seq<Processor>
    var started: multiset<Rpc>
    var writesDone: multiset<Rpc>
    ghost const services: seq<seq<Rpc>> // the methods of each service
    ghost const origin: State           // the state at the beginning
    ghost var run: seq<Step>            // what all workers have done since

    function View(): State
      reads this
    {
      State(procs, ops, workers, streams, retired, started, writesDone)
    }

    ghost predicate Valid()
      reads this
    {
      origin == Beginning(streams, origin.workers.Keys, services) && RunFrom(origin, View(), run)
    }

    /** Every worker is about to start the processors of all services. */
    constructor (streams: set<Rpc>, workerIds: set<WorkerId>, services: seq<seq<Rpc>>)
      ensures Valid() && run == [] && this.streams == streams && this.services == services
      ensures workers == map w | w in workerIds :: Starting(services, [])
    {
      this.streams := streams;
      procs, ops, retired, started, writesDone, run := map[], map[], [], multiset{}, multiset{}, [];
      workers := map w | w in workerIds :: Starting(services, []);
      this.services := services;
      origin := Beginning(streams, workerIds, services);
    }

    /** The state has become that of one more step of worker step.w, which has done `own` since `start`. */
    ghost method Record(step: Step, before: State, start: seq<Step>, own: seq<Step>)
      requires origin == Beginning(streams, origin.workers.Keys, services) && RunFrom(origin, before, run)
      requires Enabled(before, step) && View() == Next(before, step)
      requires Extends(start, run, step.w, own)
      modifies `run
      ensures Valid() && Extends(start, run, step.w, own + [step]) && run == old(run) + [step]
    {
      RunStep(origin, before, run, step);
      ExtendsStep(start, run, step.w, own, step);
      run := run + [step];
    }

    /** Other workers act for a while; steps that are not possible then do not happen. */
    method Others(w: WorkerId, steps: seq<Step>, ghost start: seq<Step>, ghost own: seq<Step>)
      requires Valid() && w in workers && forall p :: p in Held(workers[w]) ==> p in procs
      requires Extends(start, run, w, own)
      modifies this
      ensures Valid() && SameFor(w, old(View()), View()) && Extends(start, run, w, own)
    {
      hide RunFrom, Enabled, Next, Extends;
      ghost var before := View();
      for i := 0 to |steps|
        invariant Valid() && w in workers && SameFor(w, before, View()) && Extends(start, run, w, own)
      {
        ghost var between := View();
        if steps[i].w != w && Enabled(View(), steps[i]) {
          OtherStep(w, steps[i], start, own);
          SameForTransitive(w, before, between, View());
        }
      }
    }

    method OtherStep(w: WorkerId, step: Step, ghost start: seq<Step>, ghost own: seq<Step>)
      requires Valid() && w in workers && step.w != w && Enabled(View(), step)
      requires Extends(start, run, w, own)
      modifies this
      ensures Valid() && w in workers && SameFor(w, old(View()), View()) && Extends(start, run, w, own)
    {
      hide RunFrom, Enabled, Next, Extends, SameFor;
      SameForStep(origin, View(), run, step, w);
      ExtendsStep(start, run, w, own, step);
      StreamsStay(View(), step);
      RunStep(origin, View(), run, step);
      StepEffect(View(), step);
      var s := Next(View(), step);
      procs, ops, workers, retired := s.procs, s.ops, s.workers, s.retired;
      started, writesDone := s.started, s.writesDone;
      run := run + [step];
      assert own + [] == own;
      assert View() == s;
    }

    /** waitForRequest, Finish and Write: the operation is outstanding, its tag is the processor. */
    method PostOp(p: Address, kind: Op) returns (op: OpId)
      requires p in procs
      modifies `procs, `ops
      ensures op !in old(ops) && ops == old(ops)[op := Posted(p, kind)]
      ensures procs == old(procs)[p := old(procs)[p].(posted := old(procs)[p].posted + [kind])]
    {
      FreshNumber(ops.Keys);
      op :| op !in ops;
      procs := procs[p := procs[p].(posted := procs[p].posted + [kind])];
      ops := ops[op := Posted(p, kind)];
    }

    // ----- run() on a processor in PROCESS -----

    /** createRequestProcessor: a successor for the same method. */
    method CreateRequestProcessor(w: WorkerId, p: Address, code: Code, ghost start: seq<Step>, ghost own: seq<Step>)
      returns (next: Address)
      requires Valid() && w in workers && workers[w] == Dequeued(p, code) && p in procs && procs[p].status == PROCESS
      requires Extends(start, run, w, own)
      modifies this
      ensures Valid() && Extends(start, run, w, own + [RunProcess(w, next)])
      ensures next !in old(procs) && w in workers && workers[w] == Rearm(p, code, next)
      ensures procs == old(procs)[p := Noted(old(procs)[p], code)][next := New(old(procs)[p].rpc)]
    {
      hide RunFrom, Extends;
      ghost var before := View();
      FreshNumber(procs.Keys);
      next :| next !in procs;
      procs := procs[p := procs[p].(code := code, okEvents := procs[p].okEvents + One(code == OK))];
      procs := procs[next := New(procs[p].rpc)];
      workers := workers[w := Rearm(p, code, next)];
      Record(RunProcess(w, next), before, start, own);
    }

    /** run() on the successor, in CREATE: the status first, then waitForRequest. */
    method RunSuccessor(w: WorkerId, p: Address, code: Code, next: Address, others: seq<Step>,
                        ghost start: seq<Step>, ghost own: seq<Step>)
      returns (op: OpId)
      requires Valid() && w in workers && workers[w] == Rearm(p, code, next) && p != next && p in procs && next in procs
      requires Extends(start, run, w, own)
      modifies this
      ensures Valid() && Extends(start, run, w, own + [RearmSet(w)] + [RearmSend(w, op)])
      ensures w in workers && workers[w] == Serving(p, code) && p in procs && procs[p] == old(procs)[p]
      ensures next in procs
           && procs[next] == old(procs)[next].(status := PROCESS, posted := old(procs)[next].posted + [Request])
      ensures op in ops && ops[op] == Posted(next, Request)
    {
      hide RunFrom, Extends, Enabled, Next;
      ghost var before := View();
      RearmSetIs(before, w, p, code, next);
      procs := procs[next := procs[next].(status := PROCESS)];
      workers := workers[w := RearmPost(p, code, next)];
      Record(RearmSet(w), before, start, own);
      Others(w, others, start, own + [RearmSet(w)]);
      before := View();
      op := PostOp(next, Request);
      workers := workers[w := Serving(p, code)];
      PostIs(before, RearmSend(w, op), next, Request, Serving(p, code));
      Record(RearmSend(w, op), before, start, own + [RearmSet(w)]);
    }

    /** The handler is called if the code is OK. */
    method HandleRequest(w: WorkerId, p: Address, code: Code, done: bool, ghost start: seq<Step>, ghost own: seq<Step>)
      requires Valid() && w in workers && workers[w] == Serving(p, code) && p in procs
      requires procs[p].rpc !in streams ==> done
      requires Extends(start, run, w, own)
      modifies this
      ensures Valid() && Extends(start, run, w, own + [if code == OK then Handle(w, done) else Refuse(w)])
      ensures w in workers && workers[w] == (if Ends(code, done) then Finishing(p, code) else WritePost(p))
      ensures procs == old(procs)[p := Handled(old(procs)[p], code)]
    {
      hide RunFrom, Extends;
      ghost var before := View();
      if code == OK {
        procs := procs[p := procs[p].(handled := procs[p].handled + 1)];
        workers := workers[w := if done then Finishing(p, code) else WritePost(p)];
        Record(Handle(w, done), before, start, own);
      } else {
        workers := workers[w := Finishing(p, code)];
        Record(Refuse(w), before, start, own);
      }
    }

    /** FINISH is written before Finish is posted. */
    method FinishCall(w: WorkerId, p: Address, code: Code, others: seq<Step>,
                      ghost start: seq<Step>, ghost own: seq<Step>)
      returns (op: OpId)
      requires Valid() && w in workers && workers[w] == Finishing(p, code) && p in procs
      requires Extends(start, run, w, own)
      modifies this
      ensures Valid() && w in workers && workers[w] == Idle
      ensures Extends(start, run, w, own + [SetFinish(w)] + [SendFinish(w, op)])
      ensures op in ops && ops[op] == Posted(p, Finish(code))
      ensures p in procs
           && procs[p] == old(procs)[p].(status := FINISH, posted := old(procs)[p].posted + [Finish(code)])
    {
      hide RunFrom, Extends, Enabled, Next;
      ghost var before := View();
      SetFinishIs(before, w, p, code);
      procs := procs[p := procs[p].(status := FINISH)];
      workers := workers[w := FinishPost(p, code)];
      Record(SetFinish(w), before, start, own);
      Others(w, others, start, own + [SetFinish(w)]);
      before := View();
      op := PostOp(p, Finish(code));
      workers := workers[w := Idle];
      PostIs(before, SendFinish(w, op), p, Finish(code), Idle);
      Record(SendFinish(w, op), before, start, own + [SetFinish(w)]);
    }

    /** The call is finished, or the stream goes on with a write. */
    method Answer(w: WorkerId, p: Address, code: Code, done: bool, others: seq<Step>,
                  ghost start: seq<Step>, ghost own: seq<Step>)
      returns (op: OpId)
      requires Valid() && w in workers && workers[w] == (if Ends(code, done) then Finishing(p, code) else WritePost(p))
      requires p in procs
      requires Extends(start, run, w, own)
      modifies this
      ensures Valid() && w in workers && workers[w] == Idle
      ensures Extends(start, run, w, own + AnswerSteps(w, Ends(code, done), op))
      ensures op in ops && ops[op] == Posted(p, AnswerOf(code, done))
      ensures p in procs && procs[p] == Answered(old(procs)[p], AnswerOf(code, done))
    {
      hide RunFrom, Extends, Enabled, Next;
      if Ends(code, done) {
        op := FinishCall(w, p, code, others, start, own);
        assert own + AnswerSteps(w, Ends(code, done), op) == own + [SetFinish(w)] + [SendFinish(w, op)];
      } else {
        ghost var before := View();
        op := PostOp(p, Write);
        workers := workers[w := Idle];
        PostIs(before, SendWrite(w, op), p, Write, Idle);
        Record(SendWrite(w, op), before, start, own);
      }
    }

    /** The first half of run() on a processor in PROCESS: a successor waits for the next request. */
    method Rearmed(w: WorkerId, p: Address, code: Code, others: nat -> seq<Step>,
                   ghost start: seq<Step>, ghost own: seq<Step>)
      returns (next: Address, nextOp: OpId)
      requires Valid() && w in workers && workers[w] == Dequeued(p, code) && p in procs && procs[p].status == PROCESS
      requires Extends(start, run, w, own)
      modifies this
      ensures Valid() && w in workers && workers[w] == Serving(p, code)
      ensures Extends(start, run, w, own + RearmSteps(w, next, nextOp))
      ensures p in procs && procs[p] == Noted(old(procs)[p], code)
      ensures next in procs && procs[next] == New(old(procs)[p].rpc).(status := PROCESS, posted := [Request])
      ensures nextOp in ops && ops[nextOp] == Posted(next, Request)
    {
      hide RunFrom, Extends, Enabled, Next;
      next := CreateRequestProcessor(w, p, code, start, own);
      ghost var o1 := own + [RunProcess(w, next)];
      Others(w, others(0), start, o1);
      nextOp := RunSuccessor(w, p, code, next, others(1), start, o1);
      assert own + RearmSteps(w, next, nextOp) == o1 + [RearmSet(w)] + [RearmSend(w, nextOp)];
    }

    /** The second half: the call is handled or refused, and answered. */
    method Serve(w: WorkerId, p: Address, code: Code, done: bool, others: nat -> seq<Step>,
                 ghost start: seq<Step>, ghost own: seq<Step>)
      returns (op: OpId)
      requires Valid() && w in workers && workers[w] == Serving(p, code) && p in procs
      requires procs[p].rpc !in streams ==> done
      requires Extends(start, run, w, own)
      modifies this
      ensures Valid() && w in workers && workers[w] == Idle
      ensures Extends(start, run, w, own + ServeSteps(w, code, done, op))
      ensures p in procs && procs[p] == Answered(Handled(old(procs)[p], code), AnswerOf(code, done))
      ensures op in ops && ops[op] == Posted(p, AnswerOf(code, done))
    {
      hide RunFrom, Extends, Enabled, Next, Answered, Handled, AnswerSteps, AnswerOf;
      HandleRequest(w, p, code, done, start, own);
      ghost var first := [if code == OK then Handle(w, done) else Refuse(w)];
      Others(w, others(3), start, own + first);
      op := Answer(w, p, code, done, others(4), start, own + first);
      assert own + ServeSteps(w, code, done, op) == own + first + AnswerSteps(w, Ends(code, done), op);
    }

    /** run() on a processor in PROCESS, with other workers acting between its actions. */
    method RunInProcess(w: WorkerId, p: Address, code: Code, done: bool, others: nat -> seq<Step>,
                        ghost start: seq<Step>, ghost own: seq<Step>)
      returns (next: Address, nextOp: OpId, ownOp: OpId)
      requires Valid() && w in workers && workers[w] == Dequeued(p, code) && p in procs && procs[p].status == PROCESS
      requires procs[p].rpc !in streams ==> done
      requires Extends(start, run, w, own)
      modifies this
      ensures Valid() && w in workers && workers[w] == Idle
      ensures Extends(start, run, w, own + RearmSteps(w, next, nextOp) + ServeSteps(w, code, done, ownOp))
      ensures p in procs && procs[p] == Served(old(procs)[p], code, done)
      ensures ownOp in ops && ops[ownOp] == Posted(p, AnswerOf(code, done))
    {
      hide RunFrom, Extends, Enabled, Next, ServeSteps, RearmSteps;
      next, nextOp := Rearmed(w, p, code, others, start, own);
      ghost var o2 := own + RearmSteps(w, next, nextOp);
      Others(w, others(2), start, o2);
      ownOp := Serve(w, p, code, done, others, start, o2);
    }

    /** `delete this`, for a processor in FINISH. */
    method Delete(w: WorkerId, p: Address, code: Code, ghost start: seq<Step>, ghost own: seq<Step>)
      requires Valid() && w in workers && workers[w] == Dequeued(p, code) && p in procs && procs[p].status == FINISH
      requires Extends(start, run, w, own)
      modifies this
      ensures Valid() && w in workers && workers[w] == Idle && Extends(start, run, w, own + [RunFinish(w)])
      ensures procs == old(procs) - {p} && !Referenced(View(), p)
    {
      hide RunFrom, Extends;
      ghost var before, steps := View(), run;
      retired := retired + [procs[p]];
      procs := procs - {p};
      workers := workers[w := Idle];
      Record(RunFinish(w), before, start, own);
      DeletedForgotten(origin, before, steps, w);
    }

    // ----- the start of a worker -----

    /** One processor more of a service. */
    method MakeProcessor(w: WorkerId, rpcs: seq<Rpc>, made: seq<Address>, rest: seq<seq<Rpc>>, others: seq<Step>,
                         ghost start: seq<Step>, ghost own: seq<Step>)
      returns (id: Address, ghost own': seq<Step>)
      requires Valid() && w in workers && |made| < |rpcs| && workers[w] == Starting([rpcs[|made|..]] + rest, made)
      requires Extends(start, run, w, own) && NewFor(procs, made, rpcs[..|made|])
      modifies this
      ensures Valid() && w in workers && workers[w] == Starting([rpcs[|made| + 1..]] + rest, made + [id])
      ensures Extends(start, run, w, own') && Starts(own') == Starts(own)
      ensures NewFor(procs, made + [id], rpcs[..|made| + 1])
    {
      hide RunFrom, Extends, Enabled, Next, Starts;
      ghost var before := View();
      Others(w, others, start, own);
      NewForSame(w, before, View(), rpcs[..|made|]);
      before := View();
      FreshNumber(procs.Keys);
      id :| id !in procs;
      procs := procs[id := New(rpcs[|made|])];
      workers := workers[w := Starting([rpcs[|made| + 1..]] + rest, made + [id])];
      MakeIs(before, w, id, rpcs[|made|..], rest, made);
      assert rpcs[|made|..][1..] == rpcs[|made| + 1..];
      Record(Make(w, id), before, start, own);
      own' := own + [Make(w, id)];
      StartsMore(own, Make(w, id));
    }

    /** createRequestProcessors: the processors of one service, in the order of its methods. */
    method CreateRequestProcessors(w: WorkerId, rpcs: seq<Rpc>, rest: seq<seq<Rpc>>, others: nat -> seq<Step>,
                                   ghost start: seq<Step>, ghost own: seq<Step>)
      returns (made: seq<Address>, ghost own': seq<Step>)
      requires Valid() && w in workers && workers[w] == Starting([rpcs] + rest, [])
      requires Extends(start, run, w, own)
      modifies this
      ensures Valid() && w in workers && workers[w] == Starting([[]] + rest, made)
      ensures Extends(start, run, w, own') && Starts(own') == Starts(own)
      ensures NewFor(procs, made, rpcs)
    {
      hide RunFrom, Extends, Enabled, Next, Starts;
      made, own' := [], own;
      assert rpcs[0..] == rpcs;
      for k := 0 to |rpcs|
        invariant Valid() && w in workers && |made| == k && workers[w] == Starting([rpcs[k..]] + rest, made)
        invariant Extends(start, run, w, own') && Starts(own') == Starts(own)
        invariant NewFor(procs, made, rpcs[..k])
      {
        var id;
        id, own' := MakeProcessor(w, rpcs, made, rest, others(k), start, own');
        made := made + [id];
      }
      assert rpcs[..|rpcs|] == rpcs && rpcs[|rpcs|..] == [];
    }

    /** run() on a new processor, the first of those made: its status, then waitForRequest. */
    method RunCreated(w: WorkerId, made: seq<Address>, rest: seq<seq<Rpc>>, others: seq<Step>,
                      ghost start: seq<Step>, ghost own: seq<Step>)
      returns (op: OpId)
      requires Valid() && w in workers && workers[w] == Starting([[]] + rest, made) && made != []
      requires Extends(start, run, w, own)
      modifies this
      ensures Valid() && w in workers && workers[w] == Starting([[]] + rest, made[1..])
      ensures Extends(start, run, w, own + [StartSet(w)] + [StartPost(w, op)])
      ensures op in ops && ops[op] == Posted(made[0], Request)
    {
      hide RunFrom, Extends, Enabled, Next;
      HeldMade(origin, View(), run, w);
      ghost var before := View();
      StartSetIs(before, w, rest, made);
      procs := procs[made[0] := procs[made[0]].(status := PROCESS)];
      workers := workers[w := StartingPost([[]] + rest, made)];
      Record(StartSet(w), before, start, own);
      HeldMade(origin, View(), run, w);
      Others(w, others, start, own + [StartSet(w)]);
      HeldMade(origin, View(), run, w);
      before := View();
      op := PostOp(made[0], Request);
      workers := workers[w := Starting([[]] + rest, made[1..])];
      started := started + multiset{procs[made[0]].rpc};
      StartPostIs(before, w, op, rest, made);
      Record(StartPost(w, op), before, start, own + [StartSet(w)]);
    }

    /** The loop over the processors of one service. */
    method RunProcessors(w: WorkerId, made: seq<Address>, rest: seq<seq<Rpc>>, others: nat -> seq<Step>,
                         ghost start: seq<Step>, ghost own: seq<Step>)
      returns (ghost own': seq<Step>)
      requires Valid() && w in workers && workers[w] == Starting([[]] + rest, made)
      requires Extends(start, run, w, own)
      modifies this
      ensures Valid() && w in workers && workers[w] == Starting(rest, [])
      ensures Extends(start, run, w, own') && Starts(own') == Starts(own) + |made|
    {
      hide RunFrom, Extends, Enabled, Next, Starts;
      own' := own;
      assert made[0..] == made;
      for k := 0 to |made|
        invariant Valid() && w in workers && workers[w] == Starting([[]] + rest, made[k..])
        invariant Extends(start, run, w, own') && Starts(own') == Starts(own) + k
      {
        var op := RunCreated(w, made[k..], rest, others(k), start, own');
        StartsMore(own', StartSet(w));
        StartsMore(own' + [StartSet(w)], StartPost(w, op));
        own' := own' + [StartSet(w)] + [StartPost(w, op)];
        assert made[k..][1..] == made[k + 1..];
      }
      assert made[|made|..] == [];
      ghost var before := View();
      workers := workers[w := Starting(rest, [])];
      NextKeyIs(before, w, rest);
      Record(NextKey(w), before, start, own');
      StartsMore(own', NextKey(w));
      own' := own' + [NextKey(w)];
    }

    /** For the services in turn: create the processors, then run each of them.  While other workers do
        whatever they do, this one starts exactly one processor for each method of each service. */
    method RunRequestProcessorsPool(w: WorkerId, services: seq<seq<Rpc>>, others: (nat, nat) -> seq<Step>)
      returns (ghost own: seq<Step>)
      requires Valid() && w in workers && workers[w] == Starting(services, [])
      modifies this
      ensures Valid() && w in workers && workers[w] == Idle
      ensures Extends(old(run), run, w, own) && Starts(own) == MethodCount(services)
    {
      hide RunFrom, Extends, Enabled, Next, Starts;
      ghost var start := run;
      ExtendsNothing(run, w);
      own := [];
      assert Starts(own) == 0 by { NoStarts(); }
      assert services[0..] == services;
      for i := 0 to |services|
        invariant Valid() && w in workers && workers[w] == Starting(services[i..], [])
        invariant Extends(start, run, w, own)
        invariant Starts(own) + MethodCount(services[i..]) == MethodCount(services)
      {
        var rest := services[i + 1..];
        assert services[i..] == [services[i]] + rest && services[i..][1..] == rest;
        var made;
        var n: nat := 2 * i;
        made, own := CreateRequestProcessors(w, services[i], rest, (k: nat) => others(n, k), start, own);
        own := RunProcessors(w, made, rest, (k: nat) => others(n + 1, k), start, own);
      }
      assert services[|services|..] == [];
      ghost var before := View();
      workers := workers[w := Idle];
      EnterLoopIs(before, w);
      Record(EnterLoop(w), before, start, own);
      StartsMore(own, EnterLoop(w));
      own := own + [EnterLoop(w)];
    }

    // ----- the loop of a worker -----

    /** The queue delivers an operation: it is not outstanding any more, and the worker has its tag. */
    method AsyncNext(w: WorkerId, op: OpId, code: Code) returns (p: Address)
      requires Valid() && w in workers && workers[w] == Idle && op in ops && ops[op].tag in procs
      modifies this
      ensures Valid() && Extends(old(run), run, w, [Dequeue(w, op, code)])
      ensures p == old(ops)[op].tag && w in workers && workers[w] == Dequeued(p, code) && procs == old(procs)
    {
      hide RunFrom, Extends;
      ghost var before := View();
      p := ops[op].tag;
      writesDone := writesDone + if ops[op].op == Write then multiset{procs[p].rpc} else multiset{};
      ops := ops - {op};
      workers := workers[w := Dequeued(p, code)];
      ExtendsNothing(run, w);
      Record(Dequeue(w, op, code), before, old(run), []);
      assert [] + [Dequeue(w, op, code)] == [Dequeue(w, op, code)];
    }

    /** Take a completion from the queue and run the processor that is its tag with this code. */
    method RunEvent(w: WorkerId, op: OpId, code: Code, done: bool, others: nat -> seq<Step>)
      returns (next: Address, nextOp: OpId, ownOp: OpId)
      requires Valid() && w in workers && workers[w] == Idle && op in ops
      requires ops[op].tag in procs && procs[ops[op].tag].rpc !in streams ==> done
      modifies this
      ensures Valid() && w in workers && workers[w] == Idle
      ensures Extends(old(run), run, w, [Dequeue(w, op, code)]
                      + RunSteps(w, code, next, nextOp, ownOp, done, !old(ops)[op].op.Finish?))
      ensures var p := old(ops)[op].tag;
              && p in old(procs)
              && (!old(ops)[op].op.Finish? ==>
                    && p in procs && procs[p] == Served(old(procs)[p], code, done)
                    && ownOp in ops && ops[ownOp] == Posted(p, AnswerOf(code, done)))
              && (old(ops)[op].op.Finish? ==> p !in procs && !Referenced(View(), p))
    {
      hide RunFrom, Extends, Enabled, Next, Referenced, Served, AnswerOf;
      TagIsLive(origin, View(), run, op);
      ghost var start, own := run, [Dequeue(w, op, code)];
      var p := AsyncNext(w, op, code);
      Others(w, others(5), start, own);
      next, nextOp, ownOp := 0, 0, 0;
      if procs[p].status == PROCESS {
        next, nextOp, ownOp := RunInProcess(w, p, code, done, others, start, own);
        assert own + RearmSteps(w, next, nextOp) + ServeSteps(w, code, done, ownOp)
            == own + RunSteps(w, code, next, nextOp, ownOp, done, true);
      } else {
        Delete(w, p, code, start, own);
      }
    }

    /** One event: take a completion from the queue, judge the session of its request and run the
        processor that is its tag.  Nothing is required of that tag: that it is live, and in PROCESS or
        FINISH, follows from the state being that of a run. */
    method ProcessEvent(w: WorkerId, op: OpId, extraction: Extraction, sessionValid: bool, done: bool,
                        others: nat -> seq<Step>)
      returns (next: Address, nextOp: OpId, ownOp: OpId)
      requires Valid() && w in workers && workers[w] == Idle && op in ops
      requires ops[op].tag in procs && procs[ops[op].tag].rpc !in streams ==> done
      modifies this
      ensures Valid() && w in workers && workers[w] == Idle
      ensures var code := CodeFor(extraction, sessionValid);
              Extends(old(run), run, w, [Dequeue(w, op, code)]
                      + RunSteps(w, code, next, nextOp, ownOp, done, !old(ops)[op].op.Finish?))
      ensures NewStep(old(run), run, Dequeue(w, op, INVALID_ARGUMENT)) <==> extraction.NotFound?
      ensures NewStep(old(run), run, Dequeue(w, op, UNAUTHENTICATED)) <==> extraction.Extracted? && !sessionValid
      ensures NewStep(old(run), run, Dequeue(w, op, OK)) <==> Accepted(extraction, sessionValid)
      ensures HandlerRan(old(run), run, w) <==> !old(ops)[op].op.Finish? && Accepted(extraction, sessionValid)
      ensures var p := old(ops)[op].tag;
              && p in old(procs) && (old(ops)[op].op.Finish? ==> p !in procs && !Referenced(View(), p))
              && (!old(ops)[op].op.Finish? ==> p in procs && ownOp in ops && ops[ownOp].tag == p)
      ensures !old(ops)[op].op.Finish? ==>
                var x, answer := old(procs)[old(ops)[op].tag], ops[ownOp].op;
                var x' := procs[old(ops)[op].tag];
                && x'.rpc == x.rpc && x'.posted == x.posted + [answer] && (x'.status == FINISH <==> answer.Finish?)
                && x'.handled == x.handled + (if Accepted(extraction, sessionValid) then 1 else 0)
                && (answer == Write <==> Accepted(extraction, sessionValid) && !done)
                && (answer == Finish(OK) <==> Accepted(extraction, sessionValid) && done)
                && (answer == Finish(INVALID_ARGUMENT) <==> extraction.NotFound?)
                && (answer == Finish(UNAUTHENTICATED) <==> extraction.Extracted? && !sessionValid)
    {
      hide RunFrom, Extends, Enabled, Next, Referenced, RunSteps, NewStep, HandlerRan, AnswerOf;
      var code := OK;
      if extraction == NotFound {
        code := INVALID_ARGUMENT;
      } else if extraction == Extracted && !sessionValid {
        code := UNAUTHENTICATED;
      }
      ghost var start, inProcess := run, !ops[op].op.Finish?;
      TagIsLive(origin, View(), run, op);
      next, nextOp, ownOp := RunEvent(w, op, code, done, others);
      HandlerRunsIff(start, run, w, op, extraction, sessionValid, next, nextOp, ownOp, done, inProcess);
      AnswerSpelledOut(extraction, sessionValid, done);
      RunStepsDequeueNothing(w, code, next, nextOp, ownOp, done, inProcess);
      ghost var rest := RunSteps(w, code, next, nextOp, ownOp, done, inProcess);
      DequeuedWith(start, run, w, op, code, rest, INVALID_ARGUMENT);
      DequeuedWith(start, run, w, op, code, rest, UNAUTHENTICATED);
      DequeuedWith(start, run, w, op, code, rest, OK);
    }

    // ----- what holds of a server at any time -----

    /** Every live processor is the tag of one outstanding operation or is held by one worker; what is
        outstanding carries a live tag in the right status; the calls are in order, live ones and deleted
        ones; and the armed processors are accounted for. */
    lemma AlwaysHolds(p: Address, op: OpId, rpc: Rpc)
      requires Valid()
      ensures p in procs ==> (exists o :: TaggedBy(View(), o, p)) != (exists w :: HeldBy(View(), w, p))
      ensures p in procs ==> CallShape(procs[p].posted) && procs[p].handled <= procs[p].okEvents <= procs[p].handled + 1
      ensures op in ops ==> ops[op].tag in procs
                            && procs[ops[op].tag].status == if ops[op].op.Finish? then FINISH else PROCESS
      ensures |Armed(View(), rpc)| + |Rearming(View(), rpc)| == started[rpc] + writesDone[rpc]
    {
      hide RunFrom, Enabled, Next, CallShape, Armed, Rearming;
      assert Run(View(), run);
      if p in procs {
        OnePlace(View(), run, p);
        CallsWellFormed(View(), run, p);
      }
      if op in ops {
        TagIsLive(origin, View(), run, op);
      }
      RunConserves(View(), run, rpc);
    }

    /** Once all workers are past their start, for each method: the armed processors, and the workers on
        the way to re-arming, are one for each worker and one more for each completed write of a stream. */
    lemma ArmedOnceStarted(rpc: Rpc)
      requires Valid() && forall w :: w in workers ==> !Begins(workers[w])
      ensures |Armed(View(), rpc)| + |Rearming(View(), rpc)|
           == |workers| * Methods(services)[rpc] + writesDone[rpc]
    {
      hide RunFrom, Enabled, Next, Armed, Rearming, ToBeStarted;
      AllStarted(origin, View(), run, rpc);
      RunBalance(origin, View(), run, rpc);
      BeginningToStart(streams, origin.workers.Keys, services, rpc);
      assert |workers| == |workers.Keys|;
    }
  }
}
