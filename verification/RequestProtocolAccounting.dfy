/** Conservation: per method, armed processors and workers on the way to re-arm add up. */
module RequestProtocolAccounting {
  import opened RequestProtocol
  import opened RequestProtocolSafety

  /** The operation waits for a request of this method: an armed processor. */
  predicate OpArmed(s: State, op: OpId, rpc: Rpc) {
    && op in s.ops && s.ops[op].op.Request?
    && s.ops[op].tag in s.procs && s.procs[s.ops[op].tag].rpc == rpc
  }

  /** The worker has dequeued an event of a call in PROCESS and has not posted the successor yet. */
  predicate Rearms(s: State, w: WorkerId, rpc: Rpc) {
    && w in s.workers
    && match s.workers[w]
       case Dequeued(p, _) => p in s.procs && s.procs[p].status == PROCESS && s.procs[p].rpc == rpc
       case Rearm(p, _, _) => p in s.procs && s.procs[p].rpc == rpc
       case RearmPost(p, _, _) => p in s.procs && s.procs[p].rpc == rpc
       case _ => false
  }

  function Armed(s: State, rpc: Rpc): set<OpId> { set op | op in s.ops && OpArmed(s, op, rpc) }

  function Rearming(s: State, rpc: Rpc): set<WorkerId> { set w | w in s.workers && Rearms(s, w, rpc) }

  ghost predicate Conserved(s: State, rpc: Rpc) {
    |Armed(s, rpc)| + |Rearming(s, rpc)| == s.started[rpc] + s.writesDone[rpc]
  }

  /** A step leaves alone every processor that its worker does not hold. */
  lemma StepUntouched(s: State, step: Step, p: Address)
    requires Inv(s) && Enabled(s, step)
    ensures Untouched(s, Next(s, step), step.w, p)
  {
    hide RefersToLive, RefersOnce, Histories, FitsWorker;
    WorkerFacts(s, step.w);
    var v := s.workers[step.w];
    assert v.Starting? || v.StartingPost? ==> forall q :: q in v.made ==> q in Held(v);
  }

  predicate Posts(step: Step) { step.StartPost? || step.RearmSend? || step.SendFinish? || step.SendWrite? }

  /** What a step does to the workers and the outstanding operations. */
  lemma StepEffect(s: State, step: Step)
    requires Enabled(s, step)
    ensures step.w in s.workers
    ensures var s' := Next(s, step);
            && s'.workers.Keys == s.workers.Keys
            && (forall w :: w in s.workers && w != step.w ==> s'.workers[w] == s.workers[w])
            && (Posts(step) ==> step.op !in s.ops && step.op in s'.ops && s'.ops == s.ops[step.op := s'.ops[step.op]])
            && (step.Dequeue? ==> step.op in s.ops && s'.ops == s.ops - {step.op})
            && (!Posts(step) && !step.Dequeue? ==> s'.ops == s.ops)
  {
  }

  /** An operation that stays outstanding stays armed or unarmed. */
  lemma OtherOps(s: State, step: Step, op: OpId, rpc: Rpc)
    requires Inv(s) && Enabled(s, step)
    requires op in s.ops && op in Next(s, step).ops && Next(s, step).ops[op] == s.ops[op]
    ensures OpArmed(Next(s, step), op, rpc) == OpArmed(s, op, rpc)
  {
    StepEffect(s, step);
    hide Next, Enabled;
    var p := s.ops[op].tag;
    assert TaggedBy(s, op, p) && !HeldBy(s, step.w, p);
    StepUntouched(s, step, p);
  }

  lemma SoleHolder(s: State, w: WorkerId, w': WorkerId, p: Address)
    requires Inv(s) && HeldBy(s, w, p) && w' != w
    ensures !HeldBy(s, w', p)
  {
  }

  lemma OtherWorkers(s: State, step: Step, w: WorkerId, rpc: Rpc)
    requires Inv(s) && Enabled(s, step) && w != step.w
    ensures Rearms(Next(s, step), w, rpc) == Rearms(s, w, rpc)
  {
    hide Next, Enabled, Inv;
    StepEffect(s, step);
    if w in s.workers && (s.workers[w].Dequeued? || s.workers[w].Rearm? || s.workers[w].RearmPost?) {
      var p := s.workers[w].p;
      assert HeldBy(s, w, p);
      SoleHolder(s, w, step.w, p);
      StepUntouched(s, step, p);
      HeldIsLive(s, w, p);
    }
  }

  lemma HeldIsLive(s: State, w: WorkerId, p: Address)
    requires Inv(s) && HeldBy(s, w, p)
    ensures p in s.procs
  {
  }

  lemma ArmedMember(s: State, step: Step, rpc: Rpc, op: OpId)
    requires Inv(s) && Enabled(s, step)
    requires !((Posts(step) || step.Dequeue?) && op == step.op)
    ensures OpArmed(Next(s, step), op, rpc) == OpArmed(s, op, rpc)
  {
    hide Next, Enabled, Inv;
    StepEffect(s, step);
    if op in s.ops {
      OtherOps(s, step, op, rpc);
    }
  }

  /** Armed processors: one more when a Request is posted, one less when its completion is dequeued. */
  lemma ArmedEffect(s: State, step: Step, rpc: Rpc)
    requires Inv(s) && Enabled(s, step)
    ensures var s' := Next(s, step);
            && (Posts(step) ==> step.op !in Armed(s, rpc)
                                && Armed(s', rpc) == Armed(s, rpc)
                                                     + (if OpArmed(s', step.op, rpc) then {step.op} else {}))
            && (step.Dequeue? ==> Armed(s', rpc) == Armed(s, rpc) - {step.op})
            && (!Posts(step) && !step.Dequeue? ==> Armed(s', rpc) == Armed(s, rpc))
  {
    hide Next, Enabled, Inv;
    var s' := Next(s, step);
    StepEffect(s, step);
    assert forall x, op :: OpArmed(x, op, rpc) ==> op in x.ops;
    assert step.Dequeue? ==> !OpArmed(s', step.op, rpc);
    assert Posts(step) ==> !OpArmed(s, step.op, rpc);
    hide OpArmed;
    forall op | !((Posts(step) || step.Dequeue?) && op == step.op)
      ensures OpArmed(s', op, rpc) == OpArmed(s, op, rpc)
    {
      ArmedMember(s, step, rpc, op);
    }
    assert forall op :: op in Armed(s, rpc) <==> OpArmed(s, op, rpc);
    assert forall op :: op in Armed(s', rpc) <==> OpArmed(s', op, rpc);
    hide Armed;
  }

  lemma RearmingEffect(s: State, step: Step, rpc: Rpc)
    requires Inv(s) && Enabled(s, step)
    ensures var s' := Next(s, step);
            Rearming(s', rpc) == Rearming(s, rpc) - {step.w} + (if Rearms(s', step.w, rpc) then {step.w} else {})
  {
    hide Next, Enabled, Inv;
    var s' := Next(s, step);
    StepEffect(s, step);
    forall w | w != step.w ensures Rearms(s', w, rpc) == Rearms(s, w, rpc) {
      OtherWorkers(s, step, w, rpc);
    }
  }

  /** What a step that does not dequeue does at its own worker and operation. */
  lemma OwnEffect(s: State, step: Step, rpc: Rpc)
    requires Enabled(s, step) && !step.Dequeue? && !step.RearmSend?
    ensures var s' := Next(s, step);
            var before, after := Rearms(s, step.w, rpc), Rearms(s', step.w, rpc);
            && s'.writesDone == s.writesDone
            && before == after
            && (step.StartPost? ==> s'.started[rpc] == s.started[rpc] + (if OpArmed(s', step.op, rpc) then 1 else 0))
            && (!step.StartPost? ==> s'.started == s.started)
            && (Posts(step) && !step.StartPost? ==> !OpArmed(s', step.op, rpc))
  {
  }

  lemma RearmSendEffect(s: State, step: Step, rpc: Rpc)
    requires Inv(s) && Enabled(s, step) && step.RearmSend?
    ensures var s' := Next(s, step);
            && s'.writesDone == s.writesDone && s'.started == s.started
            && !Rearms(s', step.w, rpc) && Rearms(s, step.w, rpc) == OpArmed(s', step.op, rpc)
  {
    WorkerFacts(s, step.w);
    hide RefersToLive, RefersOnce, Histories, Open, Complete;
  }

  lemma DequeueEffect(s: State, step: Step, rpc: Rpc)
    requires Inv(s) && Enabled(s, step) && step.Dequeue?
    ensures var s' := Next(s, step);
            && !Rearms(s, step.w, rpc) && s'.started == s.started
            && (if OpArmed(s, step.op, rpc) then 1 else 0) + s'.writesDone[rpc]
               == s.writesDone[rpc] + (if Rearms(s', step.w, rpc) then 1 else 0)
  {
    OpFacts(s, step.op);
    hide RefersToLive, RefersOnce, Histories, Open, Complete;
  }

  lemma CardinalityAdd<T>(a: set<T>, x: T, b: bool)
    requires x !in a
    ensures |a + (if b then {x} else {})| == |a| + (if b then 1 else 0)
  {
  }

  lemma CardinalityRemove<T>(a: set<T>, x: T)
    ensures |a - {x}| == |a| - (if x in a then 1 else 0)
  {
  }

  lemma CardinalityReplace<T>(a: set<T>, x: T, b: bool)
    ensures |a - {x} + (if b then {x} else {})| == |a| - (if x in a then 1 else 0) + (if b then 1 else 0)
  {
    CardinalityAdd(a - {x}, x, b);
  }

  function One(b: bool): nat { if b then 1 else 0 }

  lemma ArmedCount(s: State, step: Step, rpc: Rpc)
    requires Inv(s) && Enabled(s, step)
    ensures var s' := Next(s, step);
            |Armed(s', rpc)| == |Armed(s, rpc)| + One(Posts(step) && OpArmed(s', step.op, rpc))
                                - One(step.Dequeue? && OpArmed(s, step.op, rpc))
  {
    hide Next, Enabled, Inv;
    var s' := Next(s, step);
    ArmedEffect(s, step, rpc);
    if step.Dequeue? {
      assert step.op in Armed(s, rpc) <==> OpArmed(s, step.op, rpc);
      hide Armed, OpArmed;
      CardinalityRemove(Armed(s, rpc), step.op);
    } else if Posts(step) {
      hide Armed, OpArmed;
      CardinalityAdd(Armed(s, rpc), step.op, OpArmed(s', step.op, rpc));
    }
  }

  lemma RearmingCount(s: State, step: Step, rpc: Rpc)
    requires Inv(s) && Enabled(s, step)
    ensures var s' := Next(s, step);
            |Rearming(s', rpc)| == |Rearming(s, rpc)| - One(Rearms(s, step.w, rpc)) + One(Rearms(s', step.w, rpc))
  {
    hide Next, Enabled, Inv;
    RearmingEffect(s, step, rpc);
    assert step.w in Rearming(s, rpc) <==> Rearms(s, step.w, rpc);
    hide Rearms, Rearming;
    CardinalityReplace(Rearming(s, rpc), step.w, Rearms(Next(s, step), step.w, rpc));
  }

  lemma StepConserves(s: State, step: Step, rpc: Rpc)
    requires Inv(s) && Enabled(s, step) && Conserved(s, rpc)
    ensures Conserved(Next(s, step), rpc)
  {
    hide Next, Enabled, Inv, Rearms, OpArmed, Armed, Rearming;
    ArmedCount(s, step, rpc);
    RearmingCount(s, step, rpc);
    if step.Dequeue? {
      DequeueEffect(s, step, rpc);
    } else if step.RearmSend? {
      RearmSendEffect(s, step, rpc);
    } else {
      OwnEffect(s, step, rpc);
    }
  }

  lemma UnaryWritesNothing(s: State, step: Step, rpc: Rpc)
    requires Inv(s) && Enabled(s, step)
    ensures Next(s, step).streams == s.streams
    ensures rpc !in s.streams ==> Next(s, step).writesDone[rpc] == s.writesDone[rpc]
  {
    if step.Dequeue? {
      OpFacts(s, step.op);
    }
  }

  lemma {:induction false} RunFromConserves(origin: State, s: State, steps: seq<Step>, rpc: Rpc)
    requires RunFrom(origin, s, steps)
    ensures Conserved(s, rpc) && (rpc !in s.streams ==> s.writesDone[rpc] == 0)
    decreases |steps|
  {
    if steps == [] {
      assert Armed(s, rpc) == {} && Rearming(s, rpc) == {};
    } else {
      hide Enabled, Next, Conserved;
      var n := |steps| - 1;
      var before := BeforeLast(origin, s, steps);
      RunFromConserves(origin, before, steps[..n], rpc);
      RunFromInv(origin, before, steps[..n]);
      StepConserves(before, steps[n], rpc);
      UnaryWritesNothing(before, steps[n], rpc);
    }
  }

  /** In every run, for every method: the processors that wait for a request, plus the workers between
      dequeuing an event and re-arming, are the processors the workers started plus one for each
      dequeued completion of a write.  For a unary method there are no writes. */
  lemma RunConserves(s: State, steps: seq<Step>, rpc: Rpc)
    requires Run(s, steps)
    ensures |Armed(s, rpc)| + |Rearming(s, rpc)| == s.started[rpc] + s.writesDone[rpc]
    ensures rpc !in s.streams ==> s.writesDone[rpc] == 0
  {
    hide RunFrom;
    var origin :| RunFrom(origin, s, steps);
    RunFromConserves(origin, s, steps, rpc);
  }
}
