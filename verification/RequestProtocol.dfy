/** The asynchronous request processors of server_lib/sl_request_processor.h, driven by any number of
    workers (server_lib/sl_request_worker.cpp) over one completion queue.  Every step below is one
    action of one worker between two points at which another worker can act; the write of a
    processor's status and the posting of its next operation are separate steps.  The one assumption
    on the queue: a posted operation is delivered exactly once, in any order and to any worker. */
module RequestProtocol {
  type Address = nat
  type WorkerId = nat
  type OpId = nat
  type Rpc = string

  datatype Status = CREATE | PROCESS | FINISH

  datatype Code = OK | INVALID_ARGUMENT | UNAUTHENTICATED

  /** What a worker posts; Finish sends its code to the client. */
  datatype Op = Request | Write | Finish(code: Code)

  datatype Posted = Posted(tag: Address, op: Op)

  /** A processor: its method and status, and for the statements below what has happened to it: the
      operations it posted, the code of its last event in PROCESS, the number of those events that had
      code OK, and the handler calls. */
  datatype Processor = Processor(rpc: Rpc, status: Status, posted: seq<Op>, code: Code, okEvents: nat, handled: nat)

  /** Where a worker is.  A processor named here is held: the worker will still use its address. */
  datatype Worker =
    | Starting(keys: seq<seq<Rpc>>, made: seq<Address>)      // creating, then running, one service's processors
    | StartingPost(keys: seq<seq<Rpc>>, made: seq<Address>)  // made[0] has status PROCESS, not posted yet
    | Idle
    | Dequeued(p: Address, code: Code)                       // in run(code)
    | Rearm(p: Address, code: Code, next: Address)           // successor created
    | RearmPost(p: Address, code: Code, next: Address)       // successor has status PROCESS, not posted yet
    | Serving(p: Address, code: Code)                        // successor posted, handler not called yet
    | Finishing(p: Address, code: Code)                      // about to write FINISH
    | FinishPost(p: Address, code: Code)                     // FINISH written, not posted yet
    | WritePost(p: Address)                                  // the stream goes on, write not posted yet
    | Stopped

  function Held(w: Worker): set<Address> {
    match w
    case Starting(_, made) => set x | x in made
    case StartingPost(_, made) => set x | x in made
    case Dequeued(p, _) => {p}
    case Rearm(p, _, next) => {p, next}
    case RearmPost(p, _, next) => {p, next}
    case Serving(p, _) => {p}
    case Finishing(p, _) => {p}
    case FinishPost(p, _) => {p}
    case WritePost(p) => {p}
    case Idle => {}
    case Stopped => {}
  }

  /** The whole server.  `streams` are the methods that answer with a stream; `retired` are the
      deleted processors; `started` and `writesDone` count, per method, the processors started by
      workers and the dequeued completions of writes. */
  datatype State = State(procs: map<Address, Processor>, ops: map<OpId, Posted>, workers: map<WorkerId, Worker>,
                         streams: set<Rpc>, retired: seq<Processor>,
                         started: multiset<Rpc>, writesDone: multiset<Rpc>)

  datatype Step =
    | Make(w: WorkerId, id: Address)
    | StartSet(w: WorkerId)
    | StartPost(w: WorkerId, op: OpId)
    | NextKey(w: WorkerId)
    | EnterLoop(w: WorkerId)
    | Dequeue(w: WorkerId, op: OpId, code: Code)
    | RunProcess(w: WorkerId, id: Address)
    | RunFinish(w: WorkerId)
    | RearmSet(w: WorkerId)
    | RearmSend(w: WorkerId, op: OpId)
    | Handle(w: WorkerId, done: bool)
    | Refuse(w: WorkerId)
    | SetFinish(w: WorkerId)
    | SendFinish(w: WorkerId, op: OpId)
    | SendWrite(w: WorkerId, op: OpId)
    | Stop(w: WorkerId)

  /** The step can be taken.  A new processor gets any address that is not in use, a deleted one's
      included.  A handler of a method that is no stream must return true (it is asserted). */
  predicate Enabled(s: State, step: Step) {
    step.w in s.workers &&
    var v := s.workers[step.w];
    match step
    case Make(_, id) => v.Starting? && v.keys != [] && v.keys[0] != [] && id !in s.procs
    case StartSet(_) => v.Starting? && v.keys != [] && v.keys[0] == [] && v.made != [] && v.made[0] in s.procs
    case StartPost(_, op) => v.StartingPost? && v.made != [] && v.made[0] in s.procs && op !in s.ops
    case NextKey(_) => v.Starting? && v.keys != [] && v.keys[0] == [] && v.made == []
    case EnterLoop(_) => v.Starting? && v.keys == [] && v.made == []
    case Dequeue(_, op, _) => v.Idle? && op in s.ops && s.ops[op].tag in s.procs
    case RunProcess(_, id) => v.Dequeued? && v.p in s.procs && s.procs[v.p].status == PROCESS && id !in s.procs
    case RunFinish(_) => v.Dequeued? && v.p in s.procs && s.procs[v.p].status == FINISH
    case RearmSet(_) => v.Rearm? && v.next in s.procs
    case RearmSend(_, op) => v.RearmPost? && v.next in s.procs && op !in s.ops
    case Handle(_, done) => v.Serving? && v.code == OK && v.p in s.procs && (done || s.procs[v.p].rpc in s.streams)
    case Refuse(_) => v.Serving? && v.code != OK
    case SetFinish(_) => v.Finishing? && v.p in s.procs
    case SendFinish(_, op) => v.FinishPost? && v.p in s.procs && op !in s.ops
    case SendWrite(_, op) => v.WritePost? && v.p in s.procs && op !in s.ops
    case Stop(_) => v.Idle?
  }

  function SetWorker(s: State, w: WorkerId, v: Worker): State { s.(workers := s.workers[w := v]) }

  function SetProc(s: State, p: Address, x: Processor): State { s.(procs := s.procs[p := x]) }

  function Post(s: State, op: OpId, p: Address, kind: Op): State
    requires p in s.procs
  {
    var x := s.procs[p];
    SetProc(s, p, x.(posted := x.posted + [kind])).(ops := s.ops[op := Posted(p, kind)])
  }

  function New(rpc: Rpc): Processor { Processor(rpc, CREATE, [], OK, 0, 0) }

  function Next(s: State, step: Step): State
    requires Enabled(s, step)
  {
    var w := step.w;
    var v := s.workers[w];
    match step
    case Make(_, id) =>
      SetWorker(SetProc(s, id, New(v.keys[0][0])), w,
                Starting([v.keys[0][1..]] + v.keys[1..], v.made + [id]))
    case StartSet(_) =>
      SetWorker(SetProc(s, v.made[0], s.procs[v.made[0]].(status := PROCESS)), w, StartingPost(v.keys, v.made))
    case StartPost(_, op) =>
      SetWorker(Post(s, op, v.made[0], Request), w, Starting(v.keys, v.made[1..]))
      .(started := s.started + multiset{s.procs[v.made[0]].rpc})
    case NextKey(_) => SetWorker(s, w, Starting(v.keys[1..], []))
    case EnterLoop(_) => SetWorker(s, w, Idle)
    case Dequeue(_, op, code) =>
      var posted := s.ops[op];
      SetWorker(s.(ops := s.ops - {op}), w, Dequeued(posted.tag, code))
      .(writesDone := s.writesDone + if posted.op == Write then multiset{s.procs[posted.tag].rpc} else multiset{})
    case RunProcess(_, id) =>
      var x := s.procs[v.p];
      var counted := SetProc(s, v.p, x.(code := v.code, okEvents := x.okEvents + if v.code == OK then 1 else 0));
      SetWorker(SetProc(counted, id, New(x.rpc)), w, Rearm(v.p, v.code, id))
    case RunFinish(_) =>
      SetWorker(s.(procs := s.procs - {v.p}, retired := s.retired + [s.procs[v.p]]), w, Idle)
    case RearmSet(_) =>
      SetWorker(SetProc(s, v.next, s.procs[v.next].(status := PROCESS)), w, RearmPost(v.p, v.code, v.next))
    case RearmSend(_, op) => SetWorker(Post(s, op, v.next, Request), w, Serving(v.p, v.code))
    case Handle(_, done) =>
      var x := s.procs[v.p];
      SetWorker(SetProc(s, v.p, x.(handled := x.handled + 1)), w,
                if done then Finishing(v.p, v.code) else WritePost(v.p))
    case Refuse(_) => SetWorker(s, w, Finishing(v.p, v.code))
    case SetFinish(_) => SetWorker(SetProc(s, v.p, s.procs[v.p].(status := FINISH)), w, FinishPost(v.p, v.code))
    case SendFinish(_, op) => SetWorker(Post(s, op, v.p, Finish(v.code)), w, Idle)
    case SendWrite(_, op) => SetWorker(Post(s, op, v.p, Write), w, Idle)
    case Stop(_) => SetWorker(s, w, Stopped)
  }

  /** Before the first step: every worker is about to start the processors of every service. */
  predicate Init(s: State) {
    && s.procs == map[] && s.ops == map[] && s.retired == []
    && s.started == multiset{} && s.writesDone == multiset{}
    && (forall w :: w in s.workers ==> s.workers[w].Starting? && s.workers[w].made == [])
  }

  /** s is reached from the initial state origin by these steps. */
  ghost predicate RunFrom(origin: State, s: State, steps: seq<Step>)
    decreases |steps|
  {
    if steps == [] then Init(origin) && s == origin
    else
      var n := |steps| - 1;
      exists before :: RunFrom(origin, before, steps[..n]) && Enabled(before, steps[n]) && s == Next(before, steps[n])
  }

  ghost predicate Run(s: State, steps: seq<Step>) {
    exists origin :: RunFrom(origin, s, steps)
  }

  /** A run goes on with any step that can be taken. */
  lemma RunStep(origin: State, s: State, steps: seq<Step>, step: Step)
    requires RunFrom(origin, s, steps) && Enabled(s, step)
    ensures RunFrom(origin, Next(s, step), steps + [step])
  {
    hide Enabled, Next;
    assert (steps + [step])[..|steps|] == steps;
  }

  /** The state in front of the last step of a run. */
  lemma BeforeLast(origin: State, s: State, steps: seq<Step>) returns (before: State)
    requires RunFrom(origin, s, steps) && steps != []
    ensures var n := |steps| - 1;
            RunFrom(origin, before, steps[..n]) && Enabled(before, steps[n]) && s == Next(before, steps[n])
  {
    hide Enabled, Next;
    var n := |steps| - 1;
    before :| RunFrom(origin, before, steps[..n]) && Enabled(before, steps[n]) && s == Next(before, steps[n]);
  }
}
