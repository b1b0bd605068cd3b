/**
 Concurrency slots over all concurrent requests. Each request is a handler activation with its
 own stack of deferred calls; the steps of different requests interleave freely.
 */
module RunSlots {
  datatype Deferred = CancelContext | ReleaseSlot

  /** Where a handler stands. `Granted` is between a successful acquire and the defer behind it. */
  datatype Pc = Gating | Acquiring | Granted | Running | Returning | Done

  datatype Activation = Activation(
    pc: Pc, deferred: seq<Deferred>, status: int, acquired: nat, released: nat, cancelled: nat)

  type Id = nat

  datatype State = State(max: nat, free: nat, runs: map<Id, Activation>)

  datatype Step =
    | Arrive(id: Id)
    | Refuse(id: Id, status: int)  // a gate before the slot: 400 or 403
    | OpenContext(id: Id)          // all gates passed: derive the context, defer its cancel
    | Grant(id: Id)                // the semaphore hands out a slot
    | Busy(id: Id)                 // timeout or disconnect while waiting: 429
    | DeferRelease(id: Id)
    | Finish(id: Id, status: int)  // any exit of the run itself, streaming or not
    | Panic(id: Id)                // caught by the outermost middleware: 500
    | RunDeferred(id: Id)          // last in, first out
    | Respond(id: Id)

  function NewActivation(): Activation {
    Activation(Gating, [], 0, 0, 0, 0)
  }

  predicate At(s: State, id: Id, pc: Pc) {
    id in s.runs && s.runs[id].pc == pc
  }

  predicate Enabled(s: State, step: Step) {
    match step
    case Arrive(id) => id !in s.runs
    case Refuse(id, status) => At(s, id, Gating) && status in {400, 403}
    case OpenContext(id) => At(s, id, Gating)
    case Grant(id) => At(s, id, Acquiring) && s.free > 0
    case Busy(id) => At(s, id, Acquiring)
    case DeferRelease(id) => At(s, id, Granted)
    case Finish(id, status) => At(s, id, Running) && status in {200, 400, 500, 504}
    case Panic(id) => At(s, id, Gating) || At(s, id, Running)
    case RunDeferred(id) => At(s, id, Returning) && s.runs[id].deferred != []
    case Respond(id) => At(s, id, Returning) && s.runs[id].deferred == []
  }

  function Pop(a: Activation): Activation
    requires a.deferred != []
  {
    var n := |a.deferred| - 1;
    match a.deferred[n]
    case ReleaseSlot => a.(deferred := a.deferred[..n], released := a.released + 1)
    case CancelContext => a.(deferred := a.deferred[..n], cancelled := a.cancelled + 1)
  }

  function Next(s: State, step: Step): State
    requires Enabled(s, step)
  {
    var id := step.id;
    var a := if id in s.runs then s.runs[id] else NewActivation();
    match step
    case Arrive(_) => s.(runs := s.runs[id := a])
    case Refuse(_, status) => s.(runs := s.runs[id := a.(pc := Returning, status := status)])
    case OpenContext(_) => s.(runs := s.runs[id := a.(pc := Acquiring, deferred := a.deferred + [CancelContext])])
    case Grant(_) => s.(free := s.free - 1, runs := s.runs[id := a.(pc := Granted, acquired := a.acquired + 1)])
    case Busy(_) => s.(runs := s.runs[id := a.(pc := Returning, status := 429)])
    case DeferRelease(_) => s.(runs := s.runs[id := a.(pc := Running, deferred := a.deferred + [ReleaseSlot])])
    case Finish(_, status) => s.(runs := s.runs[id := a.(pc := Returning, status := status)])
    case Panic(_) => s.(runs := s.runs[id := a.(pc := Returning, status := 500)])
    case RunDeferred(_) =>
      s.(free := if a.deferred[|a.deferred| - 1].ReleaseSlot? then s.free + 1 else s.free, runs := s.runs[id := Pop(a)])
    case Respond(_) => s.(runs := s.runs[id := a.(pc := Done)])
  }

  predicate ValidRun(s: State, steps: seq<Step>)
    decreases |steps|
  {
    steps == [] || (Enabled(s, steps[0]) && ValidRun(Next(s, steps[0]), steps[1..]))
  }

  function Final(s: State, steps: seq<Step>): State
    requires ValidRun(s, steps)
    decreases |steps|
  {
    if steps == [] then s else Final(Next(s, steps[0]), steps[1..])
  }

  function Init(max: nat): State {
    State(max, max, map[])
  }

  // ----- what every activation keeps -----

  predicate Holds(a: Activation) {
    a.acquired > a.released
  }

  /** The slot is held exactly while its release is still to come, and the context goes last. */
  predicate ActivationOk(a: Activation) {
    match a.pc
    case Gating => a.deferred == [] && a.acquired == a.released == a.cancelled == 0
    case Acquiring => a.deferred == [CancelContext] && a.acquired == a.released == a.cancelled == 0
    case Granted => a.deferred == [CancelContext] && a.acquired == 1 && a.released == a.cancelled == 0
    case Running => a.deferred == [CancelContext, ReleaseSlot] && a.acquired == 1 && a.released == a.cancelled == 0
    case _ =>
      && (a.status == 429 ==> a.acquired == 0)
      && a.acquired <= 1
      && (if a.deferred == [CancelContext, ReleaseSlot] then a.acquired == 1 && a.released == a.cancelled == 0
          else if a.deferred == [CancelContext] then a.acquired == a.released && a.cancelled == 0
          else a.deferred == [] && a.acquired == a.released && a.cancelled <= 1)
      && (a.pc.Done? ==> a.deferred == [])
  }

  ghost predicate AllOk(s: State) {
    forall id :: id in s.runs ==> ActivationOk(s.runs[id])
  }

  function Holders(s: State): set<Id> {
    set id | id in s.runs && Holds(s.runs[id])
  }

  /** Free slots and held slots always add up to the configured number. */
  ghost predicate Conserved(s: State) {
    s.free + |Holders(s)| == s.max
  }

  lemma StepOk(s: State, step: Step)
    requires AllOk(s) && Enabled(s, step)
    ensures AllOk(Next(s, step))
  {
    var s' := Next(s, step);
    forall id | id in s'.runs
      ensures ActivationOk(s'.runs[id])
    {
      if id == step.id && step.RunDeferred? {
        var a := s.runs[id];
        assert a.deferred == [CancelContext, ReleaseSlot] ==> a.deferred[..1] == [CancelContext];
        assert a.deferred == [CancelContext] ==> a.deferred[..0] == [];
      }
    }
  }

  predicate Releases(s: State, step: Step) {
    step.RunDeferred? && At(s, step.id, Returning) && s.runs[step.id].deferred != [] &&
    s.runs[step.id].deferred[|s.runs[step.id].deferred| - 1].ReleaseSlot?
  }

  lemma GrantConserves(s: State, step: Step)
    requires AllOk(s) && Conserved(s) && Enabled(s, step) && step.Grant?
    ensures Conserved(Next(s, step))
  {
    assert Holders(Next(s, step)) == Holders(s) + {step.id};
  }

  lemma ReleaseConserves(s: State, step: Step)
    requires AllOk(s) && Conserved(s) && Enabled(s, step) && Releases(s, step)
    ensures Conserved(Next(s, step))
  {
    assert Holders(Next(s, step)) == Holders(s) - {step.id};
  }

  lemma OtherConserves(s: State, step: Step)
    requires Conserved(s) && Enabled(s, step) && !step.Grant? && !Releases(s, step)
    ensures Conserved(Next(s, step))
  {
    assert Holders(Next(s, step)) == Holders(s);
  }

  lemma StepConserves(s: State, step: Step)
    requires AllOk(s) && Conserved(s) && Enabled(s, step)
    ensures Conserved(Next(s, step))
  {
    if step.Grant? {
      GrantConserves(s, step);
    } else if Releases(s, step) {
      ReleaseConserves(s, step);
    } else {
      OtherConserves(s, step);
    }
  }

  /** Over every run, with any number of concurrent requests and any exits. */
  lemma {:induction false} SlotsConserved(s: State, steps: seq<Step>)
    requires AllOk(s) && Conserved(s) && ValidRun(s, steps)
    ensures AllOk(Final(s, steps)) && Conserved(Final(s, steps)) && Final(s, steps).max == s.max
    decreases |steps|
  {
    if steps == [] {
    } else {
      StepOk(s, steps[0]);
      StepConserves(s, steps[0]);
      SlotsConserved(Next(s, steps[0]), steps[1..]);
    }
  }

  predicate InRun(a: Activation) {
    a.pc.Granted? || a.pc.Running?
  }

  function Inside(s: State): set<Id> {
    set id | id in s.runs && InRun(s.runs[id])
  }

  /**
   From the start, over any run: never more than `max` handlers are past the slot at once, each
   holding one, and a waiting one can be granted a slot exactly while fewer are held; a finished
   handler has released what it acquired, once, and one told "busy" never released anything; a slot
   goes back before the context that stops its child is cancelled.
   */
  lemma SlotSafety(max: nat, steps: seq<Step>)
    requires ValidRun(Init(max), steps)
    ensures var e := Final(Init(max), steps);
            && |Inside(e)| <= max
            && (forall id :: id in e.runs ==>
                  var a := e.runs[id];
                  && a.released <= a.acquired <= 1
                  && (InRun(a) ==> a.acquired == 1 && a.released == 0)
                  && (a.pc.Acquiring? ==> (Enabled(e, Grant(id)) <==> |Holders(e)| < max))
                  && (a.pc.Done? ==> a.released == a.acquired)
                  && (a.status == 429 && (a.pc.Returning? || a.pc.Done?) ==> a.released == 0)
                  && (a.cancelled > 0 ==> a.released == a.acquired))
            && ((forall id :: id in e.runs ==> e.runs[id].pc.Done?) ==> e.free == max)
  {
    var s, e := Init(max), Final(Init(max), steps);
    assert Holders(s) == {};
    SlotsConserved(s, steps);
    assert Inside(e) <= Holders(e);
    SubsetSize(Inside(e), Holders(e));
    if forall id :: id in e.runs ==> e.runs[id].pc.Done? {
      assert Holders(e) == {};
    }
  }

  lemma {:induction false} SubsetSize(a: set<Id>, b: set<Id>)
    requires a <= b
    ensures |a| <= |b|
    decreases |a|
  {
    if a == {} {
    } else {
      var x :| x in a;
      SubsetSize(a - {x}, b - {x});
    }
  }
}
