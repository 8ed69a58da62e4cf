/** What holds in every interleaving of the request protocol. */
module RequestProtocolSafety {
  import opened RequestProtocol

  // ----- who refers to a processor -----

  ghost predicate TaggedBy(s: State, op: OpId, p: Address) { op in s.ops && s.ops[op].tag == p }

  ghost predicate HeldBy(s: State, w: WorkerId, p: Address) { w in s.workers && p in Held(s.workers[w]) }

  ghost predicate Referenced(s: State, p: Address) {
    (exists op :: TaggedBy(s, op, p)) || (exists w :: HeldBy(s, w, p))
  }

  /** Only live processors are referred to, and every live one is. */
  ghost predicate RefersToLive(s: State) {
    && (forall op, p :: TaggedBy(s, op, p) ==> p in s.procs)
    && (forall w, p :: HeldBy(s, w, p) ==> p in s.procs)
    && (forall p :: p in s.procs ==> Referenced(s, p))
  }

  /** No processor is referred to twice. */
  ghost predicate RefersOnce(s: State) {
    && (forall op, op', p :: TaggedBy(s, op, p) && TaggedBy(s, op', p) ==> op == op')
    && (forall w, w', p :: HeldBy(s, w, p) && HeldBy(s, w', p) ==> w == w')
    && (forall op, w, p :: TaggedBy(s, op, p) ==> !HeldBy(s, w, p))
    && (forall w :: w in s.workers ==> HoldsDistinct(s.workers[w]))
  }

  predicate HoldsDistinct(v: Worker) {
    match v
    case Starting(keys, made) => NoDuplicates(made)
    case StartingPost(keys, made) => made != [] && NoDuplicates(made)
    case Rearm(p, _, next) => p != next
    case RearmPost(p, _, next) => p != next
    case _ => true
  }

  predicate NoDuplicates(made: seq<Address>) {
    forall i, j :: 0 <= i < j < |made| ==> made[i] != made[j]
  }

  // ----- what a processor has been through -----

  /** A request and then writes: the call is not finished. */
  predicate Open(posted: seq<Op>) {
    posted != [] && posted[0] == Request && forall i :: 0 < i < |posted| ==> posted[i] == Write
  }

  /** A request, writes, and one Finish at the very end. */
  predicate Complete(posted: seq<Op>) {
    |posted| >= 2 && Open(posted[..|posted| - 1]) && posted[|posted| - 1].Finish?
  }

  predicate Unstarted(x: Processor) { x.posted == [] && x.okEvents == 0 && x.handled == 0 }

  /** In PROCESS, with `pending` OK events whose handler call is still to come. */
  predicate InProcess(s: State, x: Processor, pending: nat) {
    && x.status == PROCESS && Open(x.posted) && x.okEvents == x.handled + pending
    && (x.rpc !in s.streams ==> x.posted == [Request] && x.handled + pending <= 1)
  }

  /** A unary call has not been handled yet. */
  predicate Fresh(s: State, x: Processor) { x.rpc !in s.streams ==> x.handled == 0 }

  /** A call about to be finished with this code: it is that of the last event, and a unary call has
      been handled exactly if it is OK. */
  predicate Ending(s: State, x: Processor, code: Code) {
    x.code == code && (x.rpc !in s.streams ==> (x.handled == 1 <==> code == OK))
  }

  /** A call whose Finish has been posted: the handler ran once for each OK event, and the client gets
      the code of the last event.  A unary call got one request and one Finish, and was handled exactly
      if that code is OK. */
  predicate Done(s: State, x: Processor) {
    && x.status == FINISH && Complete(x.posted) && x.okEvents == x.handled
    && x.posted[|x.posted| - 1] == Finish(x.code) && Ending(s, x, x.code)
    && (x.rpc !in s.streams ==> x.posted == [Request, Finish(x.code)] && x.handled <= 1)
  }

  predicate FitsOp(s: State, x: Processor, op: Op) {
    match op
    case Request => InProcess(s, x, 0) && x.posted == [Request] && x.handled == 0
    case Write => InProcess(s, x, 0) && x.rpc in s.streams && |x.posted| >= 2
    case Finish(code) => Done(s, x) && code == x.code
  }

  /** What a worker at this point knows about the processors it holds. */
  ghost predicate FitsWorker(s: State, v: Worker)
    requires forall p :: p in Held(v) ==> p in s.procs
  {
    match v
    case Starting(keys, made) =>
      && (keys == [] ==> made == [])
      && forall i :: 0 <= i < |made| ==>
           made[i] in Held(v) && Unstarted(s.procs[made[i]]) && s.procs[made[i]].status == CREATE
    case StartingPost(keys, made) =>
      && keys != []
      && forall i :: 0 <= i < |made| ==>
           (made[i] in Held(v) && Unstarted(s.procs[made[i]])
            && s.procs[made[i]].status == if i == 0 then PROCESS else CREATE)
    case Dequeued(p, code) =>
      (InProcess(s, s.procs[p], 0) && Fresh(s, s.procs[p])) || Done(s, s.procs[p])
    case Rearm(p, code, next) =>
      && InProcess(s, s.procs[p], if code == OK then 1 else 0) && Fresh(s, s.procs[p]) && s.procs[p].code == code
      && Unstarted(s.procs[next]) && s.procs[next].status == CREATE && s.procs[next].rpc == s.procs[p].rpc
    case RearmPost(p, code, next) =>
      && InProcess(s, s.procs[p], if code == OK then 1 else 0) && Fresh(s, s.procs[p]) && s.procs[p].code == code
      && Unstarted(s.procs[next]) && s.procs[next].status == PROCESS && s.procs[next].rpc == s.procs[p].rpc
    case Serving(p, code) =>
      InProcess(s, s.procs[p], if code == OK then 1 else 0) && Fresh(s, s.procs[p]) && s.procs[p].code == code
    case Finishing(p, code) => InProcess(s, s.procs[p], 0) && Ending(s, s.procs[p], code)
    case FinishPost(p, code) =>
      && InProcess(s, s.procs[p].(status := PROCESS), 0) && s.procs[p].status == FINISH
      && Ending(s, s.procs[p], code)
    case WritePost(p) => InProcess(s, s.procs[p], 0) && s.procs[p].rpc in s.streams
    case Idle => true
    case Stopped => true
  }

  ghost predicate Histories(s: State)
    requires RefersToLive(s)
  {
    && (forall op :: op in s.ops ==> TaggedBy(s, op, s.ops[op].tag) && FitsOp(s, s.procs[s.ops[op].tag], s.ops[op].op))
    && (forall w :: w in s.workers ==>
          (forall p :: p in Held(s.workers[w]) ==> HeldBy(s, w, p)) && FitsWorker(s, s.workers[w]))
    && (forall i :: 0 <= i < |s.retired| ==> Done(s, s.retired[i]))
  }

  ghost predicate Inv(s: State) { RefersToLive(s) && RefersOnce(s) && Histories(s) }

  lemma InitInv(s: State)
    requires Init(s)
    ensures Inv(s)
  {
  }

  // ----- the five ways in which a step moves references -----

  /** Worker w goes to point v, nothing else is said yet. */
  ghost predicate MovesWorker(s: State, s': State, w: WorkerId, v: Worker) {
    w in s.workers && s'.workers == s.workers[w := v] && s'.streams == s.streams
  }

  lemma HoldersElsewhere(s: State, s': State, w: WorkerId, v: Worker, w': WorkerId, p: Address)
    requires MovesWorker(s, s', w, v)
    ensures HeldBy(s', w', p) <==> if w' == w then p in Held(v) else HeldBy(s, w', p)
  {
  }

  lemma KeepReferences(s: State, s': State, w: WorkerId, v: Worker)
    requires RefersToLive(s) && RefersOnce(s) && MovesWorker(s, s', w, v)
    requires s'.ops == s.ops && s'.procs.Keys == s.procs.Keys
    requires Held(v) == Held(s.workers[w]) && HoldsDistinct(v)
    ensures RefersToLive(s') && RefersOnce(s')
  {
    forall x, p ensures HeldBy(s', x, p) == HeldBy(s, x, p) {
      HoldersElsewhere(s, s', w, v, x, p);
    }
    forall op, p ensures TaggedBy(s', op, p) == TaggedBy(s, op, p) {
    }
    forall p | p in s.procs ensures Referenced(s', p) {
      assert Referenced(s, p);
    }
  }

  lemma AllocateReference(s: State, s': State, w: WorkerId, v: Worker, id: Address)
    requires RefersToLive(s) && RefersOnce(s) && MovesWorker(s, s', w, v)
    requires s'.ops == s.ops && id !in s.procs && s'.procs.Keys == s.procs.Keys + {id}
    requires Held(v) == Held(s.workers[w]) + {id} && HoldsDistinct(v)
    ensures RefersToLive(s') && RefersOnce(s')
  {
    forall x, p ensures HeldBy(s', x, p) <==> HeldBy(s, x, p) || (x == w && p == id) {
      HoldersElsewhere(s, s', w, v, x, p);
    }
    forall op, p ensures TaggedBy(s', op, p) == TaggedBy(s, op, p) {
    }
    forall p | p in s'.procs ensures Referenced(s', p) {
      if p == id {
        assert HeldBy(s', w, id);
      } else {
        assert Referenced(s, p);
      }
    }
  }

  lemma PostReference(s: State, s': State, w: WorkerId, v: Worker, op: OpId, p: Address, kind: Op)
    requires RefersToLive(s) && RefersOnce(s) && MovesWorker(s, s', w, v)
    requires op !in s.ops && s'.ops == s.ops[op := Posted(p, kind)] && s'.procs.Keys == s.procs.Keys
    requires p in Held(s.workers[w]) && Held(v) == Held(s.workers[w]) - {p} && HoldsDistinct(v)
    ensures RefersToLive(s') && RefersOnce(s')
  {
    assert HeldBy(s, w, p);
    forall x, q ensures HeldBy(s', x, q) <==> HeldBy(s, x, q) && q != p {
      HoldersElsewhere(s, s', w, v, x, q);
    }
    forall o, q ensures TaggedBy(s', o, q) <==> TaggedBy(s, o, q) || (o == op && q == p) {
    }
    forall q | q in s'.procs ensures Referenced(s', q) {
      if q == p {
        assert TaggedBy(s', op, p);
      } else {
        assert Referenced(s, q);
      }
    }
  }

  lemma DequeueReference(s: State, s': State, w: WorkerId, v: Worker, op: OpId)
    requires RefersToLive(s) && RefersOnce(s) && MovesWorker(s, s', w, v)
    requires op in s.ops && s'.ops == s.ops - {op} && s'.procs.Keys == s.procs.Keys
    requires Held(s.workers[w]) == {} && Held(v) == {s.ops[op].tag} && HoldsDistinct(v)
    ensures RefersToLive(s') && RefersOnce(s')
  {
    var p := s.ops[op].tag;
    assert TaggedBy(s, op, p);
    forall x, q ensures HeldBy(s', x, q) <==> HeldBy(s, x, q) || (x == w && q == p) {
      HoldersElsewhere(s, s', w, v, x, q);
    }
    forall o, q ensures TaggedBy(s', o, q) <==> TaggedBy(s, o, q) && o != op {
    }
    forall q | q in s'.procs ensures Referenced(s', q) {
      if q == p {
        assert HeldBy(s', w, p);
      } else {
        assert Referenced(s, q);
      }
    }
  }

  lemma DeleteReference(s: State, s': State, w: WorkerId, v: Worker, p: Address)
    requires RefersToLive(s) && RefersOnce(s) && MovesWorker(s, s', w, v)
    requires s'.ops == s.ops && s'.procs.Keys == s.procs.Keys - {p}
    requires Held(s.workers[w]) == {p} && Held(v) == {} && HoldsDistinct(v)
    ensures RefersToLive(s') && RefersOnce(s')
  {
    assert HeldBy(s, w, p);
    forall x, q ensures HeldBy(s', x, q) <==> HeldBy(s, x, q) && q != p {
      HoldersElsewhere(s, s', w, v, x, q);
    }
    forall o, q ensures TaggedBy(s', o, q) == TaggedBy(s, o, q) {
    }
    forall q | q in s'.procs ensures Referenced(s', q) {
      assert Referenced(s, q);
    }
  }

  // ----- histories: a step changes only processors its worker holds or creates -----

  ghost predicate Untouched(s: State, s': State, w: WorkerId, p: Address)
    requires w in s.workers
  {
    p in s.procs && p !in Held(s.workers[w]) ==> p in s'.procs && s'.procs[p] == s.procs[p]
  }

  predicate CarriedOver(s: State, s': State, op: OpId)
    requires op in s'.ops
  {
    op in s.ops && s'.ops[op] == s.ops[op]
  }

  predicate FitsNewOp(s: State, op: OpId)
    requires op in s.ops
  {
    s.ops[op].tag in s.procs && FitsOp(s, s.procs[s.ops[op].tag], s.ops[op].op)
  }

  lemma KeepHistories(s: State, s': State, w: WorkerId, v: Worker)
    requires Inv(s) && MovesWorker(s, s', w, v) && RefersToLive(s') && RefersOnce(s')
    requires forall p :: Untouched(s, s', w, p)
    requires forall p :: p in Held(v) ==> p in s'.procs
    requires FitsWorker(s', v)
    requires forall op :: op in s'.ops ==> CarriedOver(s, s', op) || FitsNewOp(s', op)
    requires forall i :: 0 <= i < |s'.retired| ==> Done(s', s'.retired[i])
    ensures Histories(s')
  {
    forall op | op in s'.ops
      ensures TaggedBy(s', op, s'.ops[op].tag) && FitsOp(s', s'.procs[s'.ops[op].tag], s'.ops[op].op)
    {
      var p := s'.ops[op].tag;
      assert TaggedBy(s', op, p);
      if CarriedOver(s, s', op) {
        assert TaggedBy(s, op, p) && !HeldBy(s, w, p);
        assert Untouched(s, s', w, p);
      }
    }
    forall x | x in s'.workers
      ensures (forall p :: p in Held(s'.workers[x]) ==> HeldBy(s', x, p)) && FitsWorker(s', s'.workers[x])
    {
      assert forall p :: p in Held(s'.workers[x]) ==> HeldBy(s', x, p);
      if x != w {
        forall p | p in Held(s.workers[x]) ensures p in s'.procs && s'.procs[p] == s.procs[p] {
          assert HeldBy(s, x, p) && !HeldBy(s, w, p);
          assert Untouched(s, s', w, p);
        }
        FitsWorkerFrame(s, s', s.workers[x]);
      }
    }
  }

  lemma FitsWorkerFrame(s: State, s': State, v: Worker)
    requires forall p :: p in Held(v) ==> p in s.procs && p in s'.procs && s'.procs[p] == s.procs[p]
    requires s'.streams == s.streams && FitsWorker(s, v)
    ensures FitsWorker(s', v)
  {
  }

  lemma DoneFrame(s: State, s': State)
    requires s'.streams == s.streams
    ensures forall x :: Done(s, x) ==> Done(s', x)
  {
  }

  // ----- every step keeps the invariant -----

  lemma WorkerFacts(s: State, w: WorkerId)
    requires Inv(s) && w in s.workers
    ensures forall p :: p in Held(s.workers[w]) ==> p in s.procs
    ensures HoldsDistinct(s.workers[w]) && FitsWorker(s, s.workers[w])
    ensures forall i :: 0 <= i < |s.retired| ==> Done(s, s.retired[i])
  {
  }

  lemma OpFacts(s: State, op: OpId)
    requires Inv(s) && op in s.ops
    ensures s.ops[op].tag in s.procs && FitsOp(s, s.procs[s.ops[op].tag], s.ops[op].op)
  {
  }

  lemma MakeInv(s: State, w: WorkerId, id: Address)
    requires Inv(s) && Enabled(s, Make(w, id))
    ensures Inv(Next(s, Make(w, id)))
  {
    hide RefersToLive, RefersOnce, Histories;
    WorkerFacts(s, w);
    var s' := Next(s, Make(w, id));
    DoneFrame(s, s');
    var v, v' := s.workers[w], s'.workers[w];
    assert forall p :: p in v.made ==> p in Held(v);
    assert Held(v') == Held(v) + {id};
    AllocateReference(s, s', w, v', id);
    KeepHistories(s, s', w, v');
  }

  lemma StartSetInv(s: State, w: WorkerId)
    requires Inv(s) && Enabled(s, StartSet(w))
    ensures Inv(Next(s, StartSet(w)))
  {
    hide RefersToLive, RefersOnce, Histories;
    WorkerFacts(s, w);
    var s' := Next(s, StartSet(w));
    DoneFrame(s, s');
    var v, v' := s.workers[w], s'.workers[w];
    KeepReferences(s, s', w, v');
    assert forall p :: p in v.made ==> p in Held(v);
    KeepHistories(s, s', w, v');
  }

  lemma StartPostInv(s: State, w: WorkerId, op: OpId)
    requires Inv(s) && Enabled(s, StartPost(w, op))
    ensures Inv(Next(s, StartPost(w, op)))
  {
    hide RefersToLive, RefersOnce, Histories;
    WorkerFacts(s, w);
    var s' := Next(s, StartPost(w, op));
    DoneFrame(s, s');
    var v, v' := s.workers[w], s'.workers[w];
    var p := v.made[0];
    assert v.made == [p] + v.made[1..];
    assert Held(v') == Held(v) - {p};
    PostReference(s, s', w, v', op, p, Request);
    assert s'.procs[p].posted == [Request];
    KeepHistories(s, s', w, v');
  }

  lemma DequeueInv(s: State, w: WorkerId, op: OpId, code: Code)
    requires Inv(s) && Enabled(s, Dequeue(w, op, code))
    ensures Inv(Next(s, Dequeue(w, op, code)))
  {
    hide RefersToLive, RefersOnce, Histories;
    WorkerFacts(s, w);
    var s' := Next(s, Dequeue(w, op, code));
    DoneFrame(s, s');
    var v' := s'.workers[w];
    OpFacts(s, op);
    DequeueReference(s, s', w, v', op);
    KeepHistories(s, s', w, v');
  }

  lemma RunProcessInv(s: State, w: WorkerId, id: Address)
    requires Inv(s) && Enabled(s, RunProcess(w, id))
    ensures Inv(Next(s, RunProcess(w, id)))
  {
    hide RefersToLive, RefersOnce, Histories;
    WorkerFacts(s, w);
    var s' := Next(s, RunProcess(w, id));
    DoneFrame(s, s');
    var v' := s'.workers[w];
    AllocateReference(s, s', w, v', id);
    KeepHistories(s, s', w, v');
  }

  lemma RunFinishInv(s: State, w: WorkerId)
    requires Inv(s) && Enabled(s, RunFinish(w))
    ensures Inv(Next(s, RunFinish(w)))
  {
    hide RefersToLive, RefersOnce, Histories;
    WorkerFacts(s, w);
    var s' := Next(s, RunFinish(w));
    DoneFrame(s, s');
    DeleteReference(s, s', w, Idle, s.workers[w].p);
    KeepHistories(s, s', w, Idle);
  }

  lemma PostedShape(posted: seq<Op>, kind: Op)
    ensures posted == [] && kind == Request ==> posted + [kind] == [Request] && Open(posted + [kind])
    ensures Open(posted) && kind == Write ==> Open(posted + [kind]) && |posted + [kind]| >= 2
    ensures Open(posted) && kind.Finish? ==> Complete(posted + [kind])
    ensures posted == [Request] && kind.Finish? ==> posted + [kind] == [Request, kind]
  {
    assert (posted + [kind])[..|posted|] == posted;
  }

  lemma RearmSendInv(s: State, w: WorkerId, op: OpId)
    requires Inv(s) && Enabled(s, RearmSend(w, op))
    ensures Inv(Next(s, RearmSend(w, op)))
  {
    hide RefersToLive, RefersOnce, Histories, Open, Complete;
    WorkerFacts(s, w);
    var s' := Next(s, RearmSend(w, op));
    DoneFrame(s, s');
    var p := s.workers[w].next;
    PostReference(s, s', w, s'.workers[w], op, p, Request);
    PostedShape(s.procs[p].posted, Request);
    KeepHistories(s, s', w, s'.workers[w]);
  }

  /** A call whose Finish is posted is done. */
  lemma FinishedIsDone(s: State, x: Processor, code: Code)
    requires InProcess(s, x.(status := PROCESS), 0) && x.status == FINISH && Ending(s, x, code)
    ensures FitsOp(s, x.(posted := x.posted + [Finish(code)]), Finish(code))
  {
    PostedShape(x.posted, Finish(code));
    hide Open, Complete;
  }

  lemma SendFinishInv(s: State, w: WorkerId, op: OpId)
    requires Inv(s) && Enabled(s, SendFinish(w, op))
    ensures Inv(Next(s, SendFinish(w, op)))
  {
    hide RefersToLive, RefersOnce, Histories, Open, Complete, InProcess, Ending, FitsOp, Done;
    WorkerFacts(s, w);
    var s' := Next(s, SendFinish(w, op));
    DoneFrame(s, s');
    var p, code := s.workers[w].p, s.workers[w].code;
    PostReference(s, s', w, s'.workers[w], op, p, Finish(code));
    FinishedIsDone(s, s.procs[p], code);
    FitsOpFrame(s, s', s'.procs[p], Finish(code));
    KeepHistories(s, s', w, s'.workers[w]);
  }

  lemma FitsOpFrame(s: State, s': State, x: Processor, op: Op)
    requires s'.streams == s.streams && FitsOp(s, x, op)
    ensures FitsOp(s', x, op)
  {
  }

  lemma SendWriteInv(s: State, w: WorkerId, op: OpId)
    requires Inv(s) && Enabled(s, SendWrite(w, op))
    ensures Inv(Next(s, SendWrite(w, op)))
  {
    hide RefersToLive, RefersOnce, Histories, Open, Complete;
    WorkerFacts(s, w);
    var s' := Next(s, SendWrite(w, op));
    DoneFrame(s, s');
    var p := s.workers[w].p;
    PostReference(s, s', w, s'.workers[w], op, p, Write);
    PostedShape(s.procs[p].posted, Write);
    KeepHistories(s, s', w, s'.workers[w]);
  }

  /** The steps that only change the held processor or the worker's own point. */
  lemma LocalInv(s: State, step: Step)
    requires Inv(s) && Enabled(s, step)
    requires step.NextKey? || step.EnterLoop? || step.RearmSet? || step.Handle? || step.Refuse?
          || step.SetFinish? || step.Stop?
    ensures Inv(Next(s, step))
  {
    hide RefersToLive, RefersOnce, Histories;
    WorkerFacts(s, step.w);
    var s' := Next(s, step);
    DoneFrame(s, s');
    var v' := s'.workers[step.w];
    assert Held(v') == Held(s.workers[step.w]);
    KeepReferences(s, s', step.w, v');
    KeepHistories(s, s', step.w, v');
  }

  lemma StepInv(s: State, step: Step)
    requires Inv(s) && Enabled(s, step)
    ensures Inv(Next(s, step))
  {
    hide Inv;
    match step {
      case Make(w, id) => MakeInv(s, w, id);
      case StartSet(w) => StartSetInv(s, w);
      case StartPost(w, op) => StartPostInv(s, w, op);
      case Dequeue(w, op, code) => DequeueInv(s, w, op, code);
      case RunProcess(w, id) => RunProcessInv(s, w, id);
      case RunFinish(w) => RunFinishInv(s, w);
      case RearmSend(w, op) => RearmSendInv(s, w, op);
      case SendFinish(w, op) => SendFinishInv(s, w, op);
      case SendWrite(w, op) => SendWriteInv(s, w, op);
      case _ => LocalInv(s, step);
    }
  }

  lemma {:induction false} RunFromInv(origin: State, s: State, steps: seq<Step>)
    requires RunFrom(origin, s, steps)
    ensures Inv(s)
    decreases |steps|
  {
    hide Inv, Init, Enabled, Next;
    if steps == [] {
      InitInv(s);
    } else {
      var n := |steps| - 1;
      var before := BeforeLast(origin, s, steps);
      RunFromInv(origin, before, steps[..n]);
      StepInv(before, steps[n]);
    }
  }

  lemma RunInv(s: State, steps: seq<Step>)
    requires Run(s, steps)
    ensures Inv(s)
  {
    hide Inv, RunFrom;
    var origin :| RunFrom(origin, s, steps);
    RunFromInv(origin, s, steps);
  }

  // ----- in every run -----

  /** Every live processor is the tag of exactly one outstanding operation and held by no worker, or
      held by exactly one worker and no operation's tag. */
  lemma OnePlace(s: State, steps: seq<Step>, p: Address)
    requires Run(s, steps) && p in s.procs
    ensures (exists op :: TaggedBy(s, op, p)) != (exists w :: HeldBy(s, w, p))
    ensures forall op, op' :: TaggedBy(s, op, p) && TaggedBy(s, op', p) ==> op == op'
    ensures forall w, w' :: HeldBy(s, w, p) && HeldBy(s, w', p) ==> w == w'
  {
    RunInv(s, steps);
    assert Referenced(s, p);
  }

  /** Whatever operation completes, its tag is a live processor whose status was written before the
      operation was posted: never CREATE, and FINISH exactly for a completed Finish. */
  lemma DequeuedIsLive(s: State, steps: seq<Step>, op: OpId)
    requires Run(s, steps) && op in s.ops
    ensures s.ops[op].tag in s.procs
    ensures s.procs[s.ops[op].tag].status == if s.ops[op].op.Finish? then FINISH else PROCESS
  {
    RunInv(s, steps);
    OpFacts(s, op);
  }

  /** `delete this` leaves no reference behind: no operation carries the address, no worker holds it. */
  lemma DeletedIsForgotten(s: State, steps: seq<Step>, w: WorkerId)
    requires Run(s, steps) && Enabled(s, RunFinish(w))
    ensures var p := s.workers[w].p; p !in Next(s, RunFinish(w)).procs && !Referenced(Next(s, RunFinish(w)), p)
  {
    RunInv(s, steps);
    StepInv(s, RunFinish(w));
  }

  /** No worker is ever stuck: unless it has stopped, or idles over an empty queue, it can act. */
  lemma NoWorkerStuck(s: State, steps: seq<Step>, w: WorkerId, free: nat)
    requires Run(s, steps) && w in s.workers && !s.workers[w].Stopped?
    requires free !in s.procs && free !in s.ops
    ensures s.workers[w].Idle? ==> forall op, code :: op in s.ops ==> Enabled(s, Dequeue(w, op, code))
    ensures !s.workers[w].Idle? ==> exists step :: Enabled(s, step) && step.w == w
  {
    hide Inv, Run, FitsWorker, HoldsDistinct, NextStep;
    RunInv(s, steps);
    if s.workers[w].Idle? {
      IdleCanDequeue(s, w);
    } else {
      hide Enabled;
      WorkerFacts(s, w);
      WorkerCanAct(s, w, free);
      var step := NextStep(s, w, free);
      assert Enabled(s, step) && step.w == w;
    }
  }

  lemma IdleCanDequeue(s: State, w: WorkerId)
    requires Inv(s) && w in s.workers && s.workers[w].Idle?
    ensures forall op, code :: op in s.ops ==> Enabled(s, Dequeue(w, op, code))
  {
    hide Inv;
    forall op | op in s.ops ensures s.ops[op].tag in s.procs {
      OpFacts(s, op);
    }
  }

  function NextStep(s: State, w: WorkerId, free: nat): (step: Step)
    requires w in s.workers
    ensures step.w == w
  {
    match s.workers[w]
    case Starting(keys, made) =>
      if keys == [] then EnterLoop(w) else if keys[0] != [] then Make(w, free)
      else if made != [] then StartSet(w) else NextKey(w)
    case StartingPost(_, _) => StartPost(w, free)
    case Dequeued(p, _) => if p in s.procs && s.procs[p].status == PROCESS then RunProcess(w, free) else RunFinish(w)
    case Rearm(_, _, _) => RearmSet(w)
    case RearmPost(_, _, _) => RearmSend(w, free)
    case Serving(_, code) => if code == OK then Handle(w, true) else Refuse(w)
    case Finishing(_, _) => SetFinish(w)
    case FinishPost(_, _) => SendFinish(w, free)
    case WritePost(_) => SendWrite(w, free)
    case Idle => Stop(w)
    case Stopped => Stop(w)
  }

  lemma WorkerCanAct(s: State, w: WorkerId, free: nat)
    requires w in s.workers && !s.workers[w].Stopped? && !s.workers[w].Idle?
    requires free !in s.procs && free !in s.ops
    requires forall p :: p in Held(s.workers[w]) ==> p in s.procs
    requires HoldsDistinct(s.workers[w]) && FitsWorker(s, s.workers[w])
    ensures Enabled(s, NextStep(s, w, free))
  {
    var v := s.workers[w];
    assert v.Starting? || v.StartingPost? ==> forall p :: p in v.made ==> p in Held(v);
  }

  /** Every deleted call posted one request, then writes only, then exactly one Finish, with the code of
      its last event; its handler ran once for each event with code OK and never otherwise.  A unary call
      wrote nothing in between, and its client was told OK exactly if the handler ran. */
  lemma RetiredCallsComplete(s: State, steps: seq<Step>, i: nat)
    requires Run(s, steps) && i < |s.retired|
    ensures var x := s.retired[i];
            && |x.posted| >= 2 && x.posted[0] == Request && x.posted[|x.posted| - 1] == Finish(x.code)
            && (forall k :: 0 < k < |x.posted| - 1 ==> x.posted[k] == Write)
            && x.handled == x.okEvents
            && (x.rpc !in s.streams ==>
                  x.posted == [Request, Finish(x.code)] && x.handled == if x.code == OK then 1 else 0)
  {
    RunInv(s, steps);
    hide Inv, Run;
    WorkerlessFacts(s, i);
    var x := s.retired[i];
    assert forall k :: 0 <= k < |x.posted| - 1 ==> x.posted[k] == x.posted[..|x.posted| - 1][k];
  }

  /** So far: nothing, a request and then writes, or that and one Finish. */
  predicate CallShape(posted: seq<Op>) {
    posted == [] || Open(posted) || Complete(posted)
  }

  /** Every processor of every run, live ones included: its operations have that shape, and its handler
      has run once for each event with code OK, but for one that may still be on its way to the handler.
      A unary call posts at most a request and a Finish, and is handled at most once. */
  lemma CallsWellFormed(s: State, steps: seq<Step>, p: Address)
    requires Run(s, steps) && p in s.procs
    ensures var x := s.procs[p];
            && CallShape(x.posted) && x.handled <= x.okEvents <= x.handled + 1
            && (x.status == FINISH ==> x.okEvents == x.handled)
            && (x.rpc !in s.streams ==> x.posted in [[], [Request], [Request, Finish(x.code)]] && x.handled <= 1)
  {
    RunInv(s, steps);
    hide Run, Open, Complete, RefersOnce, Histories;
    assert Referenced(s, p);
    if op :| TaggedBy(s, op, p) {
      OpFacts(s, op);
    } else {
      var w :| HeldBy(s, w, p);
      WorkerFacts(s, w);
      HeldCallShape(s, s.workers[w], p);
    }
  }

  lemma HeldCallShape(s: State, v: Worker, p: Address)
    requires p in Held(v) && (forall q :: q in Held(v) ==> q in s.procs) && FitsWorker(s, v)
    ensures var x := s.procs[p];
            && CallShape(x.posted) && x.handled <= x.okEvents <= x.handled + 1
            && (x.status == FINISH ==> x.okEvents == x.handled)
            && (x.rpc !in s.streams ==> x.posted in [[], [Request], [Request, Finish(x.code)]] && x.handled <= 1)
  {
    hide Open, Complete;
    if v.Starting? || v.StartingPost? {
      var i :| 0 <= i < |v.made| && v.made[i] == p;
    }
  }

  lemma WorkerlessFacts(s: State, i: nat)
    requires Inv(s) && i < |s.retired|
    ensures Done(s, s.retired[i])
  {
  }
}
