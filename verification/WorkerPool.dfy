/** A pool of children under one shared budget: at most one unreleased turn per worker, and
    one admission behind every dispatch. */
module WorkerPool {
  import opened Vocabulary
  import opened Wrappers
  import opened Budgets
  import opened Sets

  /** Where a worker's job is. */
  datatype Job = NoJob | Queued | InActor | Done(outcome: Outcome)

  datatype Outcome = Observed | NotAdmittedTurn | Unknown

  datatype Error = Config | InputRefused | State | Replay | Busy | ReleaseRefused | ReleaseUnknown | Budget(refusal: Refusal) | RpcRefused | ThreadUnknown

  /** A worker with its facade's fields. */
  datatype Worker = Worker(id: string, purpose: Purpose, binding: Option<string>, job: Job, retired: bool,
                           active: Option<string>, thread: Option<string>, threadStarted: bool, currentThread: bool, turnDispatched: bool)

  predicate Free(w: Worker, purpose: Purpose, id: Option<string>) {
    w.purpose == purpose && (id == None || id == Some(w.id)) && w.binding == None && !w.retired
  }

  /** The references of one class of work. */
  datatype Refs = Refs(admitted: set<string>, dispatched: set<string>)

  function RefsOf(p: Purpose, fore: Refs, back: Refs): Refs {
    if p == Conversation then fore else back
  }

  /** A worker inside its actor was admitted, and its turn is dispatched exactly when its facade says so. */
  predicate Works(w: Worker, seen: set<string>, fore: Refs, back: Refs) {
    && (w.binding == None <==> w.job == NoJob)
    && (w.binding.Some? ==> w.binding.value in seen && w.active == w.binding)
    && (w.job == Queued ==> !w.turnDispatched && !w.currentThread && w.binding.value !in fore.admitted && w.binding.value !in back.admitted)
    && (w.job == InActor ==> w.binding.value in RefsOf(w.purpose, fore, back).admitted)
    && (w.job == InActor && !w.turnDispatched ==> w.binding.value !in RefsOf(w.purpose, fore, back).dispatched)
    && (w.job == Done(Observed) ==> w.turnDispatched)
    && (w.job == Done(NotAdmittedTurn) ==> !w.turnDispatched)
    && (w.binding.Some? && w.turnDispatched ==> w.binding.value in RefsOf(w.purpose, fore, back).dispatched)
  }

  /** Another request's admission or dispatch is not this worker's. */
  predicate OnlyFor(a: Refs, b: Refs, ref: string) {
    a.admitted <= b.admitted <= a.admitted + {ref} && a.dispatched <= b.dispatched <= a.dispatched + {ref}
  }

  predicate AllWork(workers: seq<Worker>, seen: set<string>, fore: Refs, back: Refs) {
    forall i :: 0 <= i < |workers| ==> Works(workers[i], seen, fore, back)
  }

  /** No two workers hold the same request. */
  predicate Apart(workers: seq<Worker>) {
    forall i, j :: 0 <= i < j < |workers| && workers[i].binding.Some? ==> workers[i].binding != workers[j].binding
  }

  /** The ledger's counters count the requests admitted and dispatched. */
  predicate Counts(l: Ledger, seen: set<string>, fore: Refs, back: Refs) {
    && fore.dispatched <= fore.admitted <= seen && back.dispatched <= back.admitted <= seen
    && l.foregroundAdmissions == |fore.admitted| && l.admissions == |fore.admitted| + |back.admitted|
    && l.foregroundTurns == |fore.dispatched| && l.turns == |fore.dispatched| + |back.dispatched|
  }

  function AdmitRef(r: Refs, ref: string): Refs { r.(admitted := r.admitted + {ref}) }

  function DispatchRef(r: Refs, ref: string): Refs { r.(dispatched := r.dispatched + {ref}) }

  /** An admission is one more admitted request, of its own class. */
  lemma AdmittedStep(l: Ledger, workers: seq<Worker>, k: nat, seen: set<string>, fore: Refs, back: Refs)
    requires Counts(l, seen, fore, back) && AllWork(workers, seen, fore, back) && Apart(workers)
    requires k < |workers| && workers[k].job == Queued
    ensures workers[k].binding.Some?
    ensures var (w, ref) := (workers[k], workers[k].binding.value);
            var f := if w.purpose == Conversation then AdmitRef(fore, ref) else fore;
            var b := if w.purpose == Conversation then back else AdmitRef(back, ref);
            && Counts(l.Admit(w.purpose), seen, f, b)
            && AllWork(workers[k := w.(job := InActor)], seen, f, b) && Apart(workers[k := w.(job := InActor)])
  {
    var (w, ref) := (workers[k], workers[k].binding.value);
    FreshRef(w, seen, fore, back);
    var f := if w.purpose == Conversation then AdmitRef(fore, ref) else fore;
    var b := if w.purpose == Conversation then back else AdmitRef(back, ref);
    assert Works(w.(job := InActor), seen, f, b);
    hide Works;
    OthersWork(workers, k, w.(job := InActor), seen, fore, back, f, b, ref);
  }

  /** A dispatch is one more dispatched request, admitted before. */
  lemma DispatchedStep(l: Ledger, workers: seq<Worker>, k: nat, seen: set<string>, fore: Refs, back: Refs)
    requires Counts(l, seen, fore, back) && AllWork(workers, seen, fore, back) && Apart(workers)
    requires k < |workers| && workers[k].job == InActor && !workers[k].turnDispatched
    ensures workers[k].binding.Some? && l.Pending(workers[k].purpose)
    ensures var (w, ref) := (workers[k], workers[k].binding.value);
            var f := if w.purpose == Conversation then DispatchRef(fore, ref) else fore;
            var b := if w.purpose == Conversation then back else DispatchRef(back, ref);
            && Counts(l.Dispatch(w.purpose), seen, f, b)
            && AllWork(workers[k := w.(turnDispatched := true)], seen, f, b) && Apart(workers[k := w.(turnDispatched := true)])
  {
    var (w, ref) := (workers[k], workers[k].binding.value);
    var f := if w.purpose == Conversation then DispatchRef(fore, ref) else fore;
    var b := if w.purpose == Conversation then back else DispatchRef(back, ref);
    var r := RefsOf(w.purpose, fore, back);
    OneMore(r.dispatched, r.admitted, ref);
    assert Works(w.(turnDispatched := true), seen, f, b);
    hide Works;
    OthersWork(workers, k, w.(turnDispatched := true), seen, fore, back, f, b, ref);
  }

  lemma OthersWork(workers: seq<Worker>, k: nat, w: Worker, seen: set<string>, fore: Refs, back: Refs, fore': Refs, back': Refs, ref: string)
    requires k < |workers| && AllWork(workers, seen, fore, back) && Apart(workers) && workers[k].binding == Some(ref)
    requires OnlyFor(fore, fore', ref) && OnlyFor(back, back', ref)
    requires Works(w, seen, fore', back')
    ensures AllWork(workers[k := w], seen, fore', back')
  {
    forall i | 0 <= i < |workers| && i != k ensures Works(workers[i], seen, fore', back') {
      OtherWorks(workers[i], seen, fore, back, fore', back', ref);
    }
  }

  lemma OtherWorks(w: Worker, seen: set<string>, fore: Refs, back: Refs, fore': Refs, back': Refs, ref: string)
    requires Works(w, seen, fore, back) && OnlyFor(fore, fore', ref) && OnlyFor(back, back', ref) && w.binding != Some(ref)
    ensures Works(w, seen, fore', back')
  {
  }

  lemma EndedWork(workers: seq<Worker>, k: nat, end: Worker, seen: set<string>, fore: Refs, back: Refs)
    requires k < |workers| && AllWork(workers, seen, fore, back) && Apart(workers) && workers[k].job == Queued
    requires end == workers[k].(job := Done(NotAdmittedTurn), retired := true) || end == workers[k].(job := Done(Unknown), retired := true)
    ensures AllWork(workers[k := end], seen, fore, back) && Apart(workers[k := end])
  {
    assert Works(workers[k], seen, fore, back) ==> Works(end, seen, fore, back);
  }

  lemma FreshRef(w: Worker, seen: set<string>, fore: Refs, back: Refs)
    requires Works(w, seen, fore, back) && w.job == Queued
    ensures w.binding.Some? && w.binding.value in seen && w.binding.value !in fore.admitted && w.binding.value !in back.admitted
    ensures w.active == w.binding && !w.turnDispatched
  {
  }

  class WorkerPool {
    const budget: SharedBudget
    var workers: seq<Worker>
    var closing: bool
    var seen: set<string>
    /** Which requests were admitted and which dispatched, foreground and background. */
    ghost var fore: Refs
    ghost var back: Refs

    ghost predicate Valid()
      reads this, budget
    {
      && budget.Valid() && Counts(budget.ledger, seen, fore, back)
      && AllWork(workers, seen, fore, back) && Apart(workers)
      && (closing ==> budget.closed && forall i :: 0 <= i < |workers| ==> workers[i].retired)
    }

    constructor (budget: SharedBudget, ids: seq<(string, Purpose)>)
      requires budget.Valid() && budget.ledger.admissions == 0 && budget.ledger.turns == 0
      ensures Valid() && this.budget == budget && |workers| == |ids| && seen == {} && !closing
      ensures forall i :: 0 <= i < |ids| ==> workers[i].id == ids[i].0 && workers[i].purpose == ids[i].1 && workers[i].binding == None
    {
      this.budget := budget;
      workers := seq(|ids|, i requires 0 <= i < |ids| => Worker(ids[i].0, ids[i].1, None, NoJob, false, None, None, false, false, false));
      closing, seen, fore, back := false, {}, Refs({}, {}), Refs({}, {});
    }

    /** Bind a request to the first free worker of its purpose. */
    method Submit(purpose: Purpose, ref: string, workerId: Option<string>, proper: bool, clock: Option<real>) returns (e: Option<Error>, k: nat)
      requires Valid()
      modifies `workers, `seen, budget`lastObserved
      ensures Valid() && closing == old(closing)
      ensures e == None ==> proper && !closing && ref !in old(seen) && seen == old(seen) + {ref}
      ensures |workers| == |old(workers)| && k <= |workers|
      ensures e == None ==> k < |workers| && Free(old(workers)[k], purpose, workerId) && forall i :: 0 <= i < k ==> !Free(old(workers)[i], purpose, workerId)
      ensures e == None ==> workers == old(workers)[k := old(workers)[k].(binding := Some(ref), job := Queued, active := Some(ref), turnDispatched := false, currentThread := false)]
      ensures e != None ==> workers == old(workers) && seen == old(seen)
      ensures e == None ==>
                var w := old(workers)[k];
                w.purpose == purpose && w.binding == None && !w.retired && (workerId == None || w.id == workerId.value)
      ensures e == Some(Busy) ==> forall i :: 0 <= i < |workers| ==>
                workers[i].purpose != purpose || workers[i].binding.Some? || workers[i].retired || (workerId.Some? && workers[i].id != workerId.value)
      ensures e.Some? ==>
                match e.value
                case InputRefused => !proper
                case State => closing
                case Budget(_) => clock == None || clock.value < old(budget.lastObserved) || budget.closed || clock.value >= budget.deadline
                case Replay => ref in old(seen)
                case Busy => forall i :: 0 <= i < |workers| ==> !Free(workers[i], purpose, workerId)
                case _ => false
      ensures budget.ledger == old(budget.ledger)
    {
      k := 0;
      if !proper { return Some(Error.InputRefused), 0; }
      if closing { return Some(State), 0; }
      var refusal := budget.Remaining(clock);
      if refusal.Some? { return Some(Budget(refusal.value)), 0; }
      if ref in seen { return Some(Replay), 0; }
      while k < |workers| && !Free(workers[k], purpose, workerId)
        invariant k <= |workers| && forall i :: 0 <= i < k ==> !Free(workers[i], purpose, workerId)
      {
        k := k + 1;
      }
      if k == |workers| { return Some(Busy), 0; }
      seen := seen + {ref};
      workers := workers[k := workers[k].(binding := Some(ref), job := Queued, active := Some(ref), turnDispatched := false, currentThread := false)];
      e := None;
    }

    /** The job starts: its turn is admitted, or the worker is retired. */
    method Begin(k: nat, clock: Option<real>) returns (r: Admission)
      requires Valid() && k < |workers| && workers[k].job == Queued
      modifies `workers, `fore, `back, budget`lastObserved, budget`ledger
      ensures Valid()
      ensures r.Admitted? ==> workers == old(workers)[k := old(workers)[k].(job := InActor)]
      ensures r.Admitted? ==> budget.ledger == old(budget.ledger).Admit(old(workers)[k].purpose)
      ensures r.NotAdmitted? ==> workers == old(workers)[k := old(workers)[k].(job := Done(NotAdmittedTurn), retired := true)]
      ensures r.Failed? ==> workers == old(workers)[k := old(workers)[k].(job := Done(Unknown), retired := true)]
      ensures !r.Admitted? ==> budget.ledger == old(budget.ledger)
      ensures r == NotAdmitted(false) && old(workers)[k].purpose == Conversation ==> budget.ledger.foregroundAdmissions >= budget.ledger.reserve
      ensures r == NotAdmitted(false) && old(workers)[k].purpose != Conversation ==>
                || budget.ledger.limit - budget.ledger.admissions <= 0
                || budget.ledger.limit - budget.ledger.admissions <= budget.ledger.reserve - budget.ledger.foregroundAdmissions
      ensures r.Admitted? || r.NotAdmitted? <==> !budget.closed && clock.Some? && clock.value >= old(budget.lastObserved)
      ensures r == NotAdmitted(true) ==> budget.deadline - clock.value < if old(workers)[k].purpose == CommunityAssessment then 30.0 else 300.0
    {
      var w := workers[k];
      AdmittedStep(budget.ledger, workers, k, seen, fore, back);
      hide AllWork, Apart, Counts, Ledger.Admit, Ledger.AdmitLimit;
      r := budget.Admit(clock, w.purpose);
      if r.Admitted? {
        if w.purpose == Conversation { fore := AdmitRef(fore, w.binding.value); }
        else { back := AdmitRef(back, w.binding.value); }
        workers := workers[k := w.(job := InActor)];
      } else {
        if r == NotAdmitted(false) && w.purpose == Conversation { ForegroundKept(budget.ledger); }
        var end := w.(job := Done(if r.NotAdmitted? then NotAdmittedTurn else Unknown), retired := true);
        EndedWork(workers, k, end, seen, fore, back);
        workers := workers[k := end];
      }
    }

    /** The actor starts a thread: once in the worker's life, and never after a turn. */
    method ThreadStart(k: nat, clock: Option<real>, clockAfter: Option<real>, answer: Option<string>) returns (e: Option<Error>)
      requires Valid() && k < |workers| && workers[k].job == InActor
      modifies `workers, budget`lastObserved
      ensures Valid() && budget.ledger == old(budget.ledger)
      ensures e == None <==>
                && clock.Some? && clockAfter.Some? && old(budget.lastObserved) <= clock.value <= clockAfter.value < budget.deadline && !budget.closed
                && answer.Some? && !old(workers)[k].threadStarted && !old(workers)[k].turnDispatched
      ensures e == None ==> workers == old(workers)[k := old(workers)[k].(threadStarted := true, currentThread := true, thread := answer)]
      ensures e == Some(RpcRefused) ==> old(workers)[k].threadStarted || old(workers)[k].turnDispatched
      ensures e == Some(ThreadUnknown) ==> answer == None
      ensures e.Some? ==> e.value.RpcRefused? || e.value.ThreadUnknown? || e.value.Budget?
    {
      var w := workers[k];
      var refusal := budget.Remaining(clock);
      if refusal.Some? { return Some(Budget(refusal.value)); }
      if w.threadStarted || w.turnDispatched { return Some(RpcRefused); }
      w := w.(threadStarted := true, currentThread := true);
      workers := workers[k := w];
      refusal := budget.Remaining(clockAfter);
      if refusal.Some? { return Some(Budget(refusal.value)); }
      if answer == None { return Some(ThreadUnknown); }
      workers := workers[k := w.(thread := answer)];
      e := None;
    }

    /** The actor starts its one turn; an admitted worker is never short of turns here. */
    method TurnStart(k: nat, threadId: string, clock: Option<real>, clockAtDispatch: Option<real>) returns (e: Option<Error>)
      requires Valid() && k < |workers| && workers[k].job == InActor
      modifies `workers, `fore, `back, budget`lastObserved, budget`ledger
      ensures Valid()
      ensures e == None <==>
                && clock.Some? && clockAtDispatch.Some? && old(budget.lastObserved) <= clock.value <= clockAtDispatch.value < budget.deadline && !budget.closed
                && old(workers)[k].thread == Some(threadId) && !old(workers)[k].turnDispatched
      ensures e == None ==> workers == old(workers)[k := old(workers)[k].(turnDispatched := true)]
      ensures e == None ==> budget.ledger == old(budget.ledger).Dispatch(old(workers)[k].purpose)
      ensures e != None ==> workers == old(workers) && budget.ledger == old(budget.ledger)
      ensures e != Some(Budget(TurnsRefused))
      ensures e.Some? ==> e.value.Budget? || (e.value.RpcRefused? && (workers[k].thread != Some(threadId) || workers[k].turnDispatched))
    {
      var w := workers[k];
      var refusal := budget.Remaining(clock);
      if refusal.Some? { return Some(Budget(refusal.value)); }
      if w.thread != Some(threadId) || w.turnDispatched { return Some(RpcRefused); }
      DispatchedStep(budget.ledger, workers, k, seen, fore, back);
      hide Works, Counts;
      refusal := budget.Dispatch(clockAtDispatch, w.purpose);
      if refusal.Some? { return Some(Budget(refusal.value)); }
      if w.purpose == Conversation { fore := DispatchRef(fore, w.binding.value); }
      else { back := DispatchRef(back, w.binding.value); }
      workers := workers[k := w.(turnDispatched := true)];
      e := None;
    }

    /** The actor is done: an observed turn was dispatched, a rolled-back one was not. */
    method Finish(k: nat, claimed: Outcome, clock: Option<real>) returns (outcome: Outcome)
      requires Valid() && k < |workers| && workers[k].job == InActor
      modifies `workers, budget`lastObserved
      ensures Valid() && budget.ledger == old(budget.ledger)
      ensures outcome == Observed <==>
                && clock.Some? && old(budget.lastObserved) <= clock.value < budget.deadline && !budget.closed
                && claimed == Observed && old(workers)[k].turnDispatched
      ensures outcome == NotAdmittedTurn <==>
                && clock.Some? && old(budget.lastObserved) <= clock.value < budget.deadline && !budget.closed
                && claimed == NotAdmittedTurn && !old(workers)[k].turnDispatched && !old(workers)[k].currentThread
      ensures workers == old(workers)[k := old(workers)[k].(job := Done(outcome), retired := old(workers)[k].retired || outcome != Observed)]
    {
      var w := workers[k];
      var refusal := budget.Remaining(clock);
      outcome := if refusal.Some? then Unknown
                 else if claimed == Observed && w.turnDispatched then Observed
                 else if claimed == NotAdmittedTurn && !w.turnDispatched && !w.currentThread then NotAdmittedTurn
                 else Unknown;
      workers := workers[k := w.(job := Done(outcome), retired := w.retired || outcome != Observed)];
    }

    /** Only an observed turn is released; an unknown delivery retires its worker. */
    method Release(k: nat, delivery: Delivery, actorOk: bool) returns (e: Option<Error>)
      requires Valid() && k < |workers|
      modifies `workers
      ensures Valid()
      ensures e == None <==> (
                && !closing && old(workers)[k].job == Done(Observed) && !old(workers)[k].retired
                && (old(workers)[k].purpose == Conversation || delivery == NotSent) && actorOk)
      ensures e == None ==> workers == old(workers)[k := old(workers)[k].(binding := None, job := NoJob, active := None, retired := delivery == UnknownDelivery)]
      ensures e == Some(Error.ReleaseUnknown) ==> workers == old(workers)[k := old(workers)[k].(retired := true)]
      ensures e == Some(State) || e == Some(ReleaseRefused) ==> workers == old(workers)
    {
      var w := workers[k];
      if closing { return Some(State); }
      if w.job != Done(Observed) || w.retired || !(w.purpose == Conversation || delivery == NotSent) { return Some(ReleaseRefused); }
      if !actorOk {
        workers := workers[k := w.(retired := true)];
        return Some(Error.ReleaseUnknown);
      }
      workers := workers[k := w.(binding := None, job := NoJob, active := None, retired := delivery == UnknownDelivery)];
      e := None;
    }

    /** Closing revokes the budget and retires everyone. */
    method Close()
      requires Valid()
      modifies `workers, `closing, budget`closed
      ensures Valid() && closing && budget.closed && |workers| == |old(workers)|
      ensures forall i :: 0 <= i < |workers| ==> workers[i] == old(workers)[i].(retired := true)
    {
      closing := true;
      budget.Close();
      workers := seq(|workers|, i requires 0 <= i < |workers| reads this => workers[i].(retired := true));
    }

    /** What holds at every point of every run. */
    lemma Ledgers()
      requires Valid()
      ensures budget.ledger.foregroundTurns <= budget.ledger.turns <= budget.ledger.admissions <= budget.ledger.limit
      ensures budget.ledger.admissions - budget.ledger.foregroundAdmissions <= budget.ledger.limit - budget.ledger.reserve
      ensures budget.readBytes <= budget.readLimit && budget.writeBytes <= budget.writeLimit
    {
      BackgroundBounded(budget.ledger);
    }
  }
}
