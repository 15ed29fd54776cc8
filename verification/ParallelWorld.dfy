/** A parallel session beside the gate that reads its wire, as values: when the two agree about
    every worker, which frames are still owed, and how many there can be. */
module ParallelWorld {
  import opened Vocabulary
  import opened Wrappers
  import opened OutputGate
  import opened Sets

  const REQUESTS := 16

  datatype SlotPhase = Running | ReleasePhase | Retired

  datatype Call = Call(ref: string, answered: bool)

  /** Where a worker's job is inside a tool callback. */
  datatype Job = Outside | Claimed(callRef: string, name: string) | Waiting(callRef: string) | Broken

  datatype Slot = Slot(ref: string, phase: SlotPhase, call: Option<Call>, native: Option<(string, string)>, job: Job, done: bool)

  /** What the main thread is about to do. */
  datatype Main =
    | Announcing(n: nat)
    | Looping
    | Refusing(id: string, reason: Reason, turns: int)
    | Scoping(id: string, scope: Scope, answer: Answer)
    | Exporting(id: string, scope: Scope, answer: Answer, parts: nat, size: nat)
    | Completing(id: string, scope: Scope, answer: Answer)
    | Releasing(id: string, ref: string, delivery: Delivery)
    | Ending
    | Settled

  /** What a job ends with. */
  datatype JobResult = Unadmitted(reason: Reason, turns: int) | Observed(scope: Scope, answer: Answer) | Crashed

  /** What a write under the output lock comes to. */
  datatype Outcome = Sent | Doubtful(delivered: bool, diagnosed: bool)

  // ---------- one worker seen from both sides

  /** What the main thread's state means for one worker. */
  function DutyOf(main: Main, id: string): Main {
    match main
    case Refusing(w, _, _) => if w == id then main else Looping
    case Scoping(w, _, _) => if w == id then main else Looping
    case Exporting(w, _, _, _, _) => if w == id then main else Looping
    case Completing(w, _, _) => if w == id then main else Looping
    case Releasing(w, _, _) => if w == id then main else Looping
    case Announcing(_) => Looping
    case _ => main
  }

  predicate Clean(m: Member) {
    m.active == None && m.scope == None && !m.completed && !m.retired
  }

  predicate AnswerOk(checks: Checks, m: Member, answer: Answer) {
    checks.answer(answer.text) && 0 <= answer.toolCalls <= 8 && 0 <= answer.toolRefusals <= 4
    && (m.purpose == Conversation || !answer.image)
  }

  /** The session's slot for a worker and the gate's record of it agree. */
  predicate Agrees(checks: Checks, m: Member, slot: Option<Slot>, duty: Main) {
    && m.ready && m.closed == None
    && match slot
       case None => (
         match duty
         case Ending => true
         case Releasing(_, ref, delivery) =>
           m.active == Some(ref) && m.completed && !m.retired && checks.identifier(ref) && (m.purpose == Conversation || delivery == NotSent)
         case _ => Clean(m))
       case Some(s) => checks.identifier(s.ref) && SlotAgrees(checks, m, s, duty)
  }

  /** A call claimed by a running job can be written as it stands. */
  predicate ClaimOk(checks: Checks, m: Member, s: Slot) {
    s.job.Claimed? ==>
      && s.phase == Running && !s.done && s.native.Some? && m.purpose != CommunityAssessment
      && checks.identifier(s.job.callRef) && s.job.name in m.tools
  }

  predicate SlotAgrees(checks: Checks, m: Member, s: Slot, duty: Main) {
    ClaimOk(checks, m, s) &&
    match s.phase
    case Retired =>
      match duty {
        case Refusing(_, _, turns) => m.active == None && 0 <= turns <= TURNS
        case Ending => true
        case Looping => true
        case _ => false
      }
    case Running =>
      && !m.completed && !m.retired && Free(m, s.ref)
      && (match duty
          case Ending => true
          case Scoping(_, scope, answer) =>
            s.done && m.scope == None && scope.requestRef == s.ref && ScopeOk(checks, m, scope) && AnswerOk(checks, m, answer)
          case Exporting(_, scope, answer, _, _) =>
            s.done && m.scope == Some(scope) && scope.requestRef == s.ref && ScopeOk(checks, m, scope) && AnswerOk(checks, m, answer)
          case Looping => m.scope == None && (s.native == None ==> m.active == None)
          case _ => false)
    case ReleasePhase =>
      && s.done
      && (match duty
          case Ending => true
          case Completing(_, scope, answer) =>
            && !m.completed && !m.retired && Free(m, s.ref) && m.scope == Some(scope)
            && scope.requestRef == s.ref && ScopeOk(checks, m, scope) && AnswerOk(checks, m, answer)
          case Looping => m.active == Some(s.ref) && m.completed && !m.retired
          case _ => false)
  }

  /** Once the main thread ends, it owes a worker nothing more. */
  lemma EndingAgrees(checks: Checks, m: Member, slot: Option<Slot>, duty: Main)
    requires Agrees(checks, m, slot, duty) && duty != Settled
    ensures Agrees(checks, m, slot, Ending)
  {
  }

  /** A tool frame claimed by a running job is accepted whenever it is written. */
  lemma ToolAccepted(checks: Checks, m: Member, s: Slot, duty: Main, purpose: Purpose)
    requires Agrees(checks, m, Some(s), duty) && s.phase == Running && s.job.Claimed? && purpose == m.purpose
    ensures var r := MemberStep(checks, m, Tool(purpose, s.ref, s.job.callRef, s.job.name));
            && r.Some? && r.value.purpose == m.purpose && r.value.tools == m.tools
            && Agrees(checks, r.value, Some(s.(job := Waiting(s.job.callRef))), duty)
            && Agrees(checks, r.value, Some(s.(job := Broken)), duty)
            && Agrees(checks, m, Some(s.(job := Broken)), duty)
  {
  }

  lemma RefusalAccepted(checks: Checks, m: Member, s: Slot, duty: Main)
    requires Agrees(checks, m, Some(s), duty) && s.phase == Retired && duty.Refusing?
    ensures var r := MemberStep(checks, m, NotAdmitted(m.purpose, s.ref, duty.reason, duty.turns));
            && r.Some? && r.value.purpose == m.purpose && r.value.tools == m.tools
            && Agrees(checks, r.value, Some(s), Looping) && Agrees(checks, r.value, Some(s), Ending)
  {
  }

  lemma ScopeAccepted(checks: Checks, m: Member, s: Slot, duty: Main)
    requires Agrees(checks, m, Some(s), duty) && s.phase == Running && duty.Scoping?
    ensures var r := MemberStep(checks, m, Scoped(duty.scope));
            && r.Some? && r.value.purpose == m.purpose && r.value.tools == m.tools
            && Agrees(checks, r.value, Some(s), Exporting(duty.id, duty.scope, duty.answer, 0, 0))
            && Agrees(checks, r.value, Some(s), Ending)
  {
  }

  lemma ImageAccepted(checks: Checks, m: Member, s: Slot, duty: Main, part: nat)
    requires Agrees(checks, m, Some(s), duty) && s.phase == Running && duty.Exporting? && duty.answer.image
    ensures MemberStep(checks, m, Image(part)) == Some(m)
    ensures forall parts, size :: Agrees(checks, m, Some(s), duty.(parts := parts, size := size))
  {
  }

  lemma CompletedAccepted(checks: Checks, m: Member, s: Slot, duty: Main)
    requires Agrees(checks, m, Some(s), duty) && s.phase == ReleasePhase && duty.Completing?
    ensures var r := MemberStep(checks, m, Completed(duty.scope, duty.answer));
            && r.Some? && r.value.purpose == m.purpose && r.value.tools == m.tools
            && Agrees(checks, r.value, Some(s), Looping) && Agrees(checks, r.value, Some(s), Ending)
  {
  }

  lemma ReleasedAccepted(checks: Checks, m: Member, duty: Main)
    requires Agrees(checks, m, None, duty) && duty.Releasing?
    ensures var r := MemberStep(checks, m, Released(m.purpose, duty.ref, duty.delivery));
            && r.Some? && r.value.purpose == m.purpose && r.value.tools == m.tools
            && Agrees(checks, r.value, None, Looping) && Agrees(checks, r.value, None, Ending)
  {
  }

  // ---------- all workers together

  type Tools = Purpose -> seq<string>

  predicate Known(members: map<string, Member>, workers: seq<(string, Purpose)>, tools: Tools) {
    && members.Keys == IdsOf(workers)
    && forall id :: id in members ==>
         members[id].purpose == PurposeOf(workers, id) && (members[id].ready ==> members[id].tools == tools(members[id].purpose))
  }

  function SlotOf(active: map<string, Slot>, id: string): Option<Slot> {
    if id in active then Some(active[id]) else None
  }

  predicate AllAgree(checks: Checks, members: map<string, Member>, active: map<string, Slot>, main: Main) {
    && active.Keys <= members.Keys
    && forall id :: id in members ==> Agrees(checks, members[id], SlotOf(active, id), DutyOf(main, id))
  }

  /** The main thread has the same duty to everyone else, or none any more. */
  ghost predicate SameDuty(main: Main, next: Main, except: string) {
    forall id: string :: id != except ==> DutyOf(next, id) == DutyOf(main, id) || (next == Ending && DutyOf(main, id) != Settled)
  }

  /** A step that touches one worker leaves the others in agreement. */
  lemma OneAgrees(checks: Checks, members: map<string, Member>, active: map<string, Slot>, main: Main,
                  id: string, m: Member, next: map<string, Slot>, main': Main)
    requires AllAgree(checks, members, active, main) && id in members && next.Keys <= members.Keys
    requires forall o :: o in members && o != id ==> SlotOf(next, o) == SlotOf(active, o)
    requires SameDuty(main, main', id) && Agrees(checks, m, SlotOf(next, id), DutyOf(main', id))
    ensures AllAgree(checks, members[id := m], next, main')
  {
    hide Agrees;
    forall o | o in members && o != id ensures Agrees(checks, members[o], SlotOf(next, o), DutyOf(main', o)) {
      if main' == Ending && DutyOf(main, o) != Settled {
        EndingAgrees(checks, members[o], SlotOf(active, o), DutyOf(main, o));
      }
    }
  }

  /** The main thread gives up: everyone still agrees. */
  lemma AllEnding(checks: Checks, members: map<string, Member>, active: map<string, Slot>, main: Main)
    requires AllAgree(checks, members, active, main) && main != Settled
    ensures AllAgree(checks, members, active, Ending)
  {
    hide Agrees;
    forall o | o in members ensures Agrees(checks, members[o], SlotOf(active, o), Ending) {
      EndingAgrees(checks, members[o], SlotOf(active, o), DutyOf(main, o));
    }
  }

  // ---------- how many frames there can be

  /** Which frames are out, by the request or call they belong to. */
  datatype Tally = Tally(announced: nat, tools: set<string>, scoped: set<string>, images: nat,
                         finished: set<string>, freed: set<string>, refused: set<string>)
  {
    function Frames(): nat {
      1 + announced + |tools| + |scoped| + images + |finished| + |freed| + |refused|
    }

    /** Each request has either a refusal or one scope, its images, one completion and one release. */
    predicate Bounded(seenRequests: set<string>, seenCalls: set<string>, room: nat, population: nat) {
      && announced <= population + 1 && population <= 8
      && tools <= seenCalls && |seenCalls| <= CALLS
      && scoped + refused <= seenRequests && |seenRequests| <= REQUESTS && scoped !! refused
      && finished <= scoped && freed <= finished
      && images + room <= IMAGE_FRAMES * |scoped|
    }
  }

  /** The frame cap of the gate cannot be reached: 570 frames before the end, 580 with it. */
  lemma FramesBounded(t: Tally, seenRequests: set<string>, seenCalls: set<string>, room: nat, population: nat)
    requires t.Bounded(seenRequests, seenCalls, room, population)
    ensures t.Frames() <= 570
  {
    Smaller(t.tools, seenCalls);
    Smaller(t.scoped + t.refused, seenRequests);
    assert |t.scoped + t.refused| == |t.scoped| + |t.refused|;
    Smaller(t.finished, t.scoped);
    Smaller(t.freed, t.finished);
  }

  /** Image frames still allowed to the export that is running. */
  function Room(main: Main): nat {
    if main.Exporting? && main.parts <= IMAGE_FRAMES then IMAGE_FRAMES - main.parts else 0
  }

  /** What is still owed for a worker's request is not out yet. */
  predicate Due(t: Tally, slot: Option<Slot>, duty: Main) {
    match slot
    case None => (duty.Releasing? ==> duty.ref in t.finished && duty.ref !in t.freed)
    case Some(s) =>
      match s.phase
      case Running =>
        if duty.Ending? then true
        else if duty.Exporting? then s.ref in t.scoped && s.ref !in t.finished && duty.parts <= IMAGE_FRAMES
        else s.ref !in t.scoped && s.ref !in t.refused
      case Retired => duty.Refusing? ==> s.ref !in t.scoped && s.ref !in t.refused
      case ReleasePhase =>
        if duty.Ending? then true
        else if duty.Completing? then s.ref in t.scoped && s.ref !in t.finished
        else s.ref in t.finished && s.ref !in t.freed
  }

  predicate AllDue(t: Tally, active: map<string, Slot>, main: Main, seenRequests: set<string>) {
    Owed(t, active, main, seenRequests) && Apart(active) && Placed(t, active, main, seenRequests)
  }

  predicate Owed(t: Tally, active: map<string, Slot>, main: Main, seenRequests: set<string>) {
    forall id :: id in active ==> active[id].ref in seenRequests && Due(t, Some(active[id]), DutyOf(main, id))
  }

  /** No two slots hold the same request. */
  predicate Apart(active: map<string, Slot>) {
    forall a, b :: a in active && b in active && a != b ==> active[a].ref != active[b].ref
  }

  /** The main thread works on a slot that exists, or on a request that has just left its slot. */
  predicate Placed(t: Tally, active: map<string, Slot>, main: Main, seenRequests: set<string>) {
    && (main.Releasing? ==>
          && main.id !in active && main.ref in seenRequests && Due(t, None, main)
          && (forall id :: id in active ==> active[id].ref != main.ref))
    && (main.Refusing? || main.Scoping? || main.Exporting? || main.Completing? ==> main.id in active)
  }

  /** A call that is about to be written is not out, and no two jobs write the same one. */
  predicate CallsDue(t: Tally, active: map<string, Slot>, seenCalls: set<string>) {
    && (forall id :: id in active && active[id].job.Claimed? ==> active[id].job.callRef in seenCalls && active[id].job.callRef !in t.tools)
    && (forall a, b :: a in active && b in active && a != b && active[a].job.Claimed? && active[b].job.Claimed? ==>
          active[a].job.callRef != active[b].job.callRef)
  }

  /** Nothing but one request's own frames was added. */
  predicate Adds(t: Tally, t': Tally, ref: string) {
    && t.scoped <= t'.scoped <= t.scoped + {ref} && t.finished <= t'.finished <= t.finished + {ref}
    && t.freed <= t'.freed <= t.freed + {ref} && t.refused <= t'.refused <= t.refused + {ref}
  }

  lemma OtherDue(t: Tally, t': Tally, s: Slot, duty: Main, duty': Main, ref: string)
    requires Due(t, Some(s), duty) && Adds(t, t', ref) && s.ref != ref
    requires duty' == duty || duty' == Ending
    ensures Due(t', Some(s), duty')
  {
  }

  lemma {:induction false} OneDue(t: Tally, t': Tally, active: map<string, Slot>, next: map<string, Slot>, main: Main, main': Main,
               seen: set<string>, seen': set<string>, id: string, ref: string)
    requires AllDue(t, active, main, seen) && Adds(t, t', ref) && seen <= seen' && ref in seen'
    requires next.Keys <= active.Keys + {id} && active.Keys <= next.Keys + {id}
    requires forall o :: o in active && o != id ==> next[o] == active[o] && active[o].ref != ref
    requires id in next ==> next[id].ref == ref && Due(t', Some(next[id]), DutyOf(main', id))
    requires SameDuty(main, main', id)
    requires main'.Releasing? && main'.id == id ==> id !in next && main'.ref == ref && Due(t', None, main')
    requires main'.Releasing? && main'.id != id ==> main' == main && id in active && active[id].ref == ref
    requires main'.Refusing? || main'.Scoping? || main'.Exporting? || main'.Completing? ==> main'.id in next
    ensures AllDue(t', next, main', seen')
  {
    hide Due;
    OneOwed(t, t', active, next, main, main', seen, seen', id, ref);
    OneApart(active, next, id, ref);
    if main'.Releasing? && main'.id != id {
      StillReleasing(t, t', main, ref);
    }
  }

  lemma OneOwed(t: Tally, t': Tally, active: map<string, Slot>, next: map<string, Slot>, main: Main, main': Main,
                seen: set<string>, seen': set<string>, id: string, ref: string)
    requires Owed(t, active, main, seen) && Adds(t, t', ref) && seen <= seen' && ref in seen'
    requires next.Keys <= active.Keys + {id}
    requires forall o :: o in next && o != id ==> next[o] == active[o] && active[o].ref != ref
    requires id in next ==> next[id].ref == ref && Due(t', Some(next[id]), DutyOf(main', id))
    requires SameDuty(main, main', id)
    ensures Owed(t', next, main', seen')
  {
    hide Due, Adds;
    forall o | o in next ensures next[o].ref in seen' && Due(t', Some(next[o]), DutyOf(main', o)) {
      if o != id { OtherDue(t, t', next[o], DutyOf(main, o), DutyOf(main', o), ref); }
    }
  }

  lemma OneApart(active: map<string, Slot>, next: map<string, Slot>, id: string, ref: string)
    requires Apart(active) && next.Keys <= active.Keys + {id}
    requires forall o :: o in next && o != id ==> next[o] == active[o] && active[o].ref != ref
    requires id in next ==> next[id].ref == ref
    ensures Apart(next)
  {
  }

  lemma StillReleasing(t: Tally, t': Tally, main: Main, ref: string)
    requires main.Releasing? && main.ref != ref && Adds(t, t', ref) && Due(t, None, main)
    ensures Due(t', None, main)
  {
  }

  /** Others' requests differ from this one's. */
  lemma OthersDiffer(t: Tally, active: map<string, Slot>, main: Main, seen: set<string>, id: string, ref: string)
    requires AllDue(t, active, main, seen)
    requires (id in active && active[id].ref == ref) || ref !in seen || (main.Releasing? && main.id == id && main.ref == ref)
    ensures forall o :: o in active && o != id ==> active[o].ref != ref
  {
  }

  lemma OneCall(t: Tally, t': Tally, active: map<string, Slot>, next: map<string, Slot>, seen: set<string>, seen': set<string>, id: string)
    requires CallsDue(t, active, seen) && seen <= seen'
    requires next.Keys <= active.Keys + {id}
    requires forall o :: o in next && o != id ==> next[o] == active[o]
    requires forall o :: o in next && o != id && next[o].job.Claimed? ==> next[o].job.callRef !in t'.tools - t.tools
    requires id in next && next[id].job.Claimed? ==> (
      && next[id].job.callRef in seen' && next[id].job.callRef !in t'.tools
      && forall o :: o in next && o != id && next[o].job.Claimed? ==> next[o].job.callRef != next[id].job.callRef)
    ensures CallsDue(t', next, seen')
  {
  }

  /** The session beside the gate's members. */
  datatype World = World(members: map<string, Member>, active: map<string, Slot>, main: Main, tally: Tally,
                         seenRequests: set<string>, seenCalls: set<string>)
  {
    predicate Good(checks: Checks) {
      && AllAgree(checks, members, active, main)
      && AllDue(tally, active, main, seenRequests)
      && CallsDue(tally, active, seenCalls)
    }
  }

  /** Only one worker, and one request of its, is touched. */
  ghost predicate Touches(w: World, v: World, id: string, ref: string) {
    && id in w.members && id in v.members && v.members == w.members[id := v.members[id]]
    && v.active.Keys <= w.active.Keys + {id} && w.active.Keys <= v.active.Keys + {id}
    && (forall o :: o in w.active && o != id ==> v.active[o] == w.active[o])
    && Adds(w.tally, v.tally, ref) && w.seenRequests <= v.seenRequests && ref in v.seenRequests
    && ((id in w.active && w.active[id].ref == ref) || ref !in w.seenRequests || (w.main.Releasing? && w.main.id == id && w.main.ref == ref))
    && w.seenCalls <= v.seenCalls
    && SameDuty(w.main, v.main, id)
  }

  /** What the step must show of the worker it touches. */
  predicate LocallyGood(checks: Checks, v: World, id: string, ref: string)
    requires id in v.members
  {
    && Agrees(checks, v.members[id], SlotOf(v.active, id), DutyOf(v.main, id))
    && (id in v.active ==> v.active[id].ref == ref && Due(v.tally, Some(v.active[id]), DutyOf(v.main, id)))
    && (v.main.Releasing? && v.main.id == id ==> id !in v.active && v.main.ref == ref && Due(v.tally, None, v.main))
    && (v.main.Refusing? || v.main.Scoping? || v.main.Exporting? || v.main.Completing? ==> v.main.id in v.active)
  }

  /** No other job's call has just been written, and a new claim is a new call. */
  predicate CallsApart(w: World, v: World, id: string) {
    && (forall o :: o in v.active && o != id && v.active[o].job.Claimed? ==> v.active[o].job.callRef !in v.tally.tools - w.tally.tools)
    && (id in v.active && v.active[id].job.Claimed? ==>
          && v.active[id].job.callRef in v.seenCalls && v.active[id].job.callRef !in v.tally.tools
          && (forall o :: o in v.active && o != id && v.active[o].job.Claimed? ==> v.active[o].job.callRef != v.active[id].job.callRef))
  }

  /** A slot keeps what it owes while only its job and call change. */
  lemma SameSlot(checks: Checks, t: Tally, m: Member, s: Slot, s': Slot, duty: Main)
    requires Agrees(checks, m, Some(s), duty) && Due(t, Some(s), duty)
    requires s'.ref == s.ref && s'.phase == s.phase && (s'.native == s.native || s'.native.Some?) && (s.done ==> s'.done)
    requires ClaimOk(checks, m, s')
    ensures Agrees(checks, m, Some(s'), duty) && Due(t, Some(s'), duty)
  {
  }

  /** What agreement says of a slot by itself. */
  lemma SlotFacts(checks: Checks, m: Member, s: Slot, duty: Main)
    requires Agrees(checks, m, Some(s), duty)
    ensures checks.identifier(s.ref) && m.ready && ClaimOk(checks, m, s)
    ensures s.phase == ReleasePhase ==> s.done
  {
  }

  /** Good worlds, read at one worker. */
  lemma GoodAt(checks: Checks, w: World, id: string)
    requires w.Good(checks) && id in w.active
    ensures id in w.members && Agrees(checks, w.members[id], Some(w.active[id]), DutyOf(w.main, id))
    ensures w.active[id].ref in w.seenRequests && Due(w.tally, Some(w.active[id]), DutyOf(w.main, id))
    ensures w.main.Releasing? ==> w.main.id != id
    ensures w.active.Keys <= w.members.Keys
  {
    assert SlotOf(w.active, id) == Some(w.active[id]);
  }

  /** A change to one slot alone. */
  lemma {:induction false} SlotStep(checks: Checks, w: World, id: string, s: Slot, calls: set<string>)
    requires w.Good(checks) && id in w.active && w.seenCalls <= calls
    requires id in w.members && s.ref == w.active[id].ref
    requires Agrees(checks, w.members[id], Some(s), DutyOf(w.main, id)) && Due(w.tally, Some(s), DutyOf(w.main, id))
    requires s.job.Claimed? ==> s.job.callRef in calls && s.job.callRef !in w.seenCalls && w.tally.tools <= w.seenCalls
    ensures w.(active := w.active[id := s], seenCalls := calls).Good(checks)
  {
    hide Agrees, Due;
    GoodAt(checks, w, id);
    var v := w.(active := w.active[id := s], seenCalls := calls);
    assert v.members == w.members[id := v.members[id]];
    assert SlotOf(v.active, id) == Some(s);
    SamePlace(checks, w);
    Step(checks, w, v, id, s.ref);
  }

  lemma SamePlace(checks: Checks, w: World)
    requires w.Good(checks)
    ensures w.main.Refusing? || w.main.Scoping? || w.main.Exporting? || w.main.Completing? ==> w.main.id in w.active
    ensures w.main.Releasing? ==> w.main.id !in w.active && Due(w.tally, None, w.main)
  {
  }

  /** A step that is right for the worker it touches is right for all. */
  lemma {:induction false} Step(checks: Checks, w: World, v: World, id: string, ref: string)
    requires w.Good(checks) && Touches(w, v, id, ref) && LocallyGood(checks, v, id, ref) && CallsApart(w, v, id)
    requires v.active.Keys <= w.members.Keys
    requires v.main.Releasing? && v.main.id != id ==> v.main == w.main && id in w.active && w.active[id].ref == ref
    ensures v.Good(checks)
  {
    hide Agrees, Due;
    OthersDiffer(w.tally, w.active, w.main, w.seenRequests, id, ref);
    OneAgrees(checks, w.members, w.active, w.main, id, v.members[id], v.active, v.main);
    OneDue(w.tally, v.tally, w.active, v.active, w.main, v.main, w.seenRequests, v.seenRequests, id, ref);
    OneCall(w.tally, v.tally, w.active, v.active, w.seenCalls, v.seenCalls, id);
  }

  /** Giving up touches nobody. */
  lemma GiveUp(checks: Checks, w: World)
    requires w.Good(checks) && w.main != Settled
    ensures w.(main := Ending).Good(checks)
  {
    AllEnding(checks, w.members, w.active, w.main);
  }

  /** Nobody has work while the announcements go out. */
  lemma NobodyYet(checks: Checks, workers: seq<(string, Purpose)>, w: World)
    requires w.active == map[] && w.members.Keys == IdsOf(workers) && PartlyOut(workers, w.members, |workers|)
    requires w.main.Announcing? || w.main == Ending || w.main == Looping
    ensures w.Good(checks)
  {
    AllOut(checks, workers, w.members, w.main);
  }

  /** The frame a claimed call is written as. */
  function ToolFrame(m: Member, s: Slot): Inner
    requires s.job.Claimed?
  {
    Tool(m.purpose, s.ref, s.job.callRef, s.job.name)
  }

  function WithTool(w: World, id: string, m: Member, s: Slot): World
    requires id in w.active && w.active[id].job.Claimed?
  {
    w.(members := w.members[id := m], active := w.active[id := s], tally := w.tally.(tools := w.tally.tools + {w.active[id].job.callRef}))
  }

  /** A claimed call may be written at any moment, whatever the others have done since. */
  lemma {:induction false} ToolOut(checks: Checks, w: World, id: string, job: Job)
    requires w.Good(checks) && id in w.active && w.active[id].job.Claimed?
    requires job == Waiting(w.active[id].job.callRef) || job == Broken
    ensures id in w.members
    ensures var r := MemberStep(checks, w.members[id], ToolFrame(w.members[id], w.active[id]));
            && r.Some? && r.value.purpose == w.members[id].purpose && r.value.tools == w.members[id].tools && r.value.ready
            && WithTool(w, id, r.value, w.active[id].(job := job)).Good(checks)
  {
    hide World.Good;
    GoodAt(checks, w, id);
    SamePlace(checks, w);
    var s := w.active[id];
    ToolAccepted(checks, w.members[id], s, DutyOf(w.main, id), w.members[id].purpose);
    var m := MemberStep(checks, w.members[id], ToolFrame(w.members[id], s)).value;
    hide Agrees, Due;
    var v := WithTool(w, id, m, s.(job := job));
    assert SlotOf(v.active, id) == Some(s.(job := job));
    ToolDue(w.tally, v.tally, s, s.(job := job), w.main, DutyOf(w.main, id));
    CallApart(checks, w, id);
    Step(checks, w, v, id, s.ref);
  }

  lemma ToolDue(t: Tally, t': Tally, s: Slot, s': Slot, main: Main, duty: Main)
    requires t' == t.(tools := t'.tools) && s'.ref == s.ref && s'.phase == s.phase
    ensures Due(t, Some(s), duty) <==> Due(t', Some(s'), duty)
    ensures Due(t, None, main) <==> Due(t', None, main)
  {
  }

  lemma CallApart(checks: Checks, w: World, id: string)
    requires w.Good(checks) && id in w.active && w.active[id].job.Claimed?
    ensures w.active[id].job.callRef in w.seenCalls && w.active[id].job.callRef !in w.tally.tools
    ensures forall o :: o in w.active && o != id && w.active[o].job.Claimed? ==> w.active[o].job.callRef != w.active[id].job.callRef
  {
  }

  function After(w: World, id: string, m: Member, t: Tally, main: Main): World {
    w.(members := w.members[id := m], tally := t, main := main)
  }

  /** The one worker the main thread is busy with, if any. */
  predicate BusyWith(main: Main, id: string) {
    match main
    case Looping => true
    case Ending => true
    case Refusing(o, _, _) => o == id
    case Scoping(o, _, _) => o == id
    case Exporting(o, _, _, _, _) => o == id
    case Completing(o, _, _) => o == id
    case Releasing(o, _, _) => o == id
    case _ => false
  }

  lemma OnlyThatDuty(main: Main, main': Main, id: string)
    requires BusyWith(main, id) && BusyWith(main', id) && (main == Ending ==> main' == Ending)
    ensures SameDuty(main, main', id)
  {
  }

  /** A frame the main thread writes for a slot that stays. */
  lemma {:induction false} MainStep(checks: Checks, w: World, id: string, m: Member, t: Tally, main: Main)
    requires w.Good(checks) && id in w.active && id in w.members
    requires BusyWith(w.main, id) && BusyWith(main, id) && (w.main == Ending ==> main == Ending) && !main.Releasing?
    requires Adds(w.tally, t, w.active[id].ref) && t.tools == w.tally.tools
    requires Agrees(checks, m, Some(w.active[id]), DutyOf(main, id)) && Due(t, Some(w.active[id]), DutyOf(main, id))
    ensures After(w, id, m, t, main).Good(checks)
  {
    hide Agrees, Due;
    var v := After(w, id, m, t, main);
    GoodAt(checks, w, id);
    OnlyThatDuty(w.main, main, id);
    assert SlotOf(v.active, id) == Some(w.active[id]);
    CallsStay(checks, w, v, id);
    Step(checks, w, v, id, w.active[id].ref);
  }

  lemma CallsStay(checks: Checks, w: World, v: World, id: string)
    requires w.Good(checks) && v.active == w.active && v.tally.tools == w.tally.tools && v.seenCalls == w.seenCalls
    ensures CallsApart(w, v, id)
  {
  }

  function Refused(t: Tally, ref: string): Tally { t.(refused := t.refused + {ref}) }

  function ScopeSent(t: Tally, ref: string): Tally { t.(scoped := t.scoped + {ref}) }

  function ImageSent(t: Tally): Tally { t.(images := t.images + 1) }

  function Finished(t: Tally, ref: string): Tally { t.(finished := t.finished + {ref}) }

  function Freed(t: Tally, ref: string): Tally { t.(freed := t.freed + {ref}) }

  /** The worker the main thread is writing for. */
  lemma AtMain(checks: Checks, w: World)
    requires w.Good(checks) && (w.main.Refusing? || w.main.Scoping? || w.main.Exporting? || w.main.Completing?)
    ensures w.main.id in w.active && w.main.id in w.members && BusyWith(w.main, w.main.id)
    ensures Agrees(checks, w.members[w.main.id], Some(w.active[w.main.id]), w.main)
    ensures Due(w.tally, Some(w.active[w.main.id]), w.main) && w.active[w.main.id].ref in w.seenRequests
    ensures w.active[w.main.id].phase ==
            if w.main.Refusing? then Retired else if w.main.Completing? then ReleasePhase else Running
  {
    SamePlace(checks, w);
    GoodAt(checks, w, w.main.id);
  }

  lemma RefusalOut(checks: Checks, w: World, next: Main)
    requires w.Good(checks) && w.main.Refusing? && (next == Looping || next == Ending)
    ensures w.main.id in w.active && w.main.id in w.members
    ensures var (id, s, m) := (w.main.id, w.active[w.main.id], w.members[w.main.id]);
            var f := NotAdmitted(m.purpose, s.ref, w.main.reason, w.main.turns);
            && Keeps(checks, m, f) && s.ref !in w.tally.scoped && s.ref !in w.tally.refused && s.ref in w.seenRequests
            && After(w, id, MemberStep(checks, m, f).value, Refused(w.tally, s.ref), next).Good(checks)
  {
    hide World.Good;
    AtMain(checks, w);
    var (id, s, m) := (w.main.id, w.active[w.main.id], w.members[w.main.id]);
    RefusalAccepted(checks, m, s, w.main);
    var m' := MemberStep(checks, m, NotAdmitted(m.purpose, s.ref, w.main.reason, w.main.turns)).value;
    hide Agrees, MemberStep;
    MainStep(checks, w, id, m', Refused(w.tally, s.ref), next);
  }

  lemma ScopeOut(checks: Checks, w: World, next: Main)
    requires w.Good(checks) && w.main.Scoping? && w.tally.finished <= w.tally.scoped
    requires next == Ending || next == Exporting(w.main.id, w.main.scope, w.main.answer, 0, 0)
    ensures w.main.id in w.active && w.main.id in w.members
    ensures var (id, s, m) := (w.main.id, w.active[w.main.id], w.members[w.main.id]);
            var f := Scoped(w.main.scope);
            && Keeps(checks, m, f) && s.ref !in w.tally.scoped && s.ref !in w.tally.refused && s.ref in w.seenRequests
            && After(w, id, MemberStep(checks, m, f).value, ScopeSent(w.tally, s.ref), next).Good(checks)
  {
    hide World.Good;
    AtMain(checks, w);
    var (id, s, m) := (w.main.id, w.active[w.main.id], w.members[w.main.id]);
    ScopeAccepted(checks, m, s, w.main);
    var m' := MemberStep(checks, m, Scoped(w.main.scope)).value;
    hide Agrees, MemberStep;
    MainStep(checks, w, id, m', ScopeSent(w.tally, s.ref), next);
  }

  lemma ImageOut(checks: Checks, w: World, part: nat, size: nat, next: Main)
    requires w.Good(checks) && w.main.Exporting? && w.main.answer.image && w.main.parts < IMAGE_FRAMES
    requires next == Ending || next == w.main.(parts := w.main.parts + 1, size := size)
    ensures w.main.id in w.active && w.main.id in w.members
    ensures var m := w.members[w.main.id];
            MemberStep(checks, m, Image(part)) == Some(m) && Keeps(checks, m, Image(part))
            && After(w, w.main.id, m, ImageSent(w.tally), next).Good(checks)
  {
    hide World.Good;
    AtMain(checks, w);
    var (id, s, m) := (w.main.id, w.active[w.main.id], w.members[w.main.id]);
    ImageAccepted(checks, m, s, w.main, part);
    if next == Ending { EndingAgrees(checks, m, Some(s), w.main); }
    hide MemberStep;
    MainStep(checks, w, id, m, ImageSent(w.tally), next);
  }

  lemma CompletedOut(checks: Checks, w: World, next: Main)
    requires w.Good(checks) && w.main.Completing? && (next == Looping || next == Ending)
    ensures w.main.id in w.active && w.main.id in w.members
    ensures var (id, s, m) := (w.main.id, w.active[w.main.id], w.members[w.main.id]);
            var f := Completed(w.main.scope, w.main.answer);
            && Keeps(checks, m, f) && s.ref in w.tally.scoped && s.ref !in w.tally.finished
            && (w.tally.freed <= w.tally.finished ==> After(w, id, MemberStep(checks, m, f).value, Finished(w.tally, s.ref), next).Good(checks))
  {
    hide World.Good;
    AtMain(checks, w);
    var (id, s, m) := (w.main.id, w.active[w.main.id], w.members[w.main.id]);
    CompletedAccepted(checks, m, s, w.main);
    var m' := MemberStep(checks, m, Completed(w.main.scope, w.main.answer)).value;
    hide Agrees, MemberStep;
    if w.tally.freed <= w.tally.finished {
      MainStep(checks, w, id, m', Finished(w.tally, s.ref), next);
    }
  }

  /** The release is written after its slot is gone. */
  lemma ReleasedOut(checks: Checks, w: World, next: Main)
    requires w.Good(checks) && w.main.Releasing? && (next == Looping || next == Ending) && w.main.id in w.members
    ensures var (id, m) := (w.main.id, w.members[w.main.id]);
            var f := Released(m.purpose, w.main.ref, w.main.delivery);
            && Keeps(checks, m, f) && w.main.ref in w.tally.finished && w.main.ref !in w.tally.freed
            && After(w, id, MemberStep(checks, m, f).value, Freed(w.tally, w.main.ref), next).Good(checks)
  {
    SamePlace(checks, w);
    var (id, m) := (w.main.id, w.members[w.main.id]);
    assert SlotOf(w.active, id) == None;
    assert Agrees(checks, m, None, w.main);
    ReleasedAccepted(checks, m, w.main);
    var v := After(w, id, MemberStep(checks, m, Released(m.purpose, w.main.ref, w.main.delivery)).value, Freed(w.tally, w.main.ref), next);
    assert Agrees(checks, v.members[id], None, next);
    hide Agrees, MemberStep;
    OnlyThatDuty(w.main, next, id);
    CallsStay(checks, w, v, id);
    PlacedRef(checks, w);
    Step(checks, w, v, id, w.main.ref);
  }

  lemma PlacedRef(checks: Checks, w: World)
    requires w.Good(checks) && w.main.Releasing?
    ensures w.main.ref in w.seenRequests && w.active.Keys <= w.members.Keys
  {
  }

  /** A slot whose call changes, but not to a new claim. */
  lemma CallStep(checks: Checks, w: World, id: string, s: Slot)
    requires w.Good(checks) && id in w.active && id in w.members && s.ref == w.active[id].ref
    requires Agrees(checks, w.members[id], Some(s), DutyOf(w.main, id)) && Due(w.tally, Some(s), DutyOf(w.main, id))
    requires s.job == w.active[id].job || !s.job.Claimed?
    ensures w.(active := w.active[id := s]).Good(checks)
  {
    hide Agrees, Due;
    GoodAt(checks, w, id);
    var v := w.(active := w.active[id := s]);
    assert v.members == w.members[id := v.members[id]];
    assert SlotOf(v.active, id) == Some(s);
    SamePlace(checks, w);
    Step(checks, w, v, id, s.ref);
  }

  /** A new turn on a worker that has none. */
  lemma NewTurn(checks: Checks, w: World, id: string, ref: string)
    requires w.Good(checks) && w.main == Looping && id in w.members && id !in w.active
    requires ref !in w.seenRequests && checks.identifier(ref) && w.tally.scoped + w.tally.refused <= w.seenRequests
    ensures w.(active := w.active[id := Slot(ref, Running, None, None, Outside, false)], seenRequests := w.seenRequests + {ref}).Good(checks)
  {
    var s := Slot(ref, Running, None, None, Outside, false);
    var v := w.(active := w.active[id := s], seenRequests := w.seenRequests + {ref});
    NewSlot(checks, w, id, ref);
    hide Agrees, Due, World.Good;
    assert SlotOf(v.active, id) == Some(s);
    assert v.members == w.members[id := v.members[id]];
    KeysWithin(checks, w);
    NewApart(checks, w, v, id);
    Step(checks, w, v, id, ref);
  }

  lemma NewSlot(checks: Checks, w: World, id: string, ref: string)
    requires w.Good(checks) && w.main == Looping && id in w.members && id !in w.active
    requires ref !in w.seenRequests && checks.identifier(ref) && w.tally.scoped + w.tally.refused <= w.seenRequests
    ensures var s := Slot(ref, Running, None, None, Outside, false);
            Agrees(checks, w.members[id], Some(s), Looping) && Due(w.tally, Some(s), Looping)
  {
    assert SlotOf(w.active, id) == None;
    assert Agrees(checks, w.members[id], None, Looping);
  }

  lemma KeysWithin(checks: Checks, w: World)
    requires w.Good(checks)
    ensures w.active.Keys <= w.members.Keys
  {
  }

  /** A slot that claims nothing, or what it claimed before, disturbs no other call. */
  lemma NewApart(checks: Checks, w: World, v: World, id: string)
    requires w.Good(checks) && v.tally.tools == w.tally.tools && w.seenCalls <= v.seenCalls
    requires forall o :: o in v.active && o != id ==> o in w.active && v.active[o] == w.active[o]
    requires id in v.active && v.active[id].job.Claimed? ==> id in w.active && w.active[id].job == v.active[id].job
    ensures CallsApart(w, v, id)
  {
  }

  lemma MoreRequests(t: Tally, seen: set<string>, calls: set<string>, ref: string, room: nat, population: nat)
    requires t.Bounded(seen, calls, room, population) && ref !in seen && |seen| < REQUESTS
    ensures t.Bounded(seen + {ref}, calls, room, population) && t.scoped + t.refused <= seen
  {
  }

  /** The main thread turns to one worker, whose slot may change with it. */
  lemma {:induction false} TurnTo(checks: Checks, w: World, id: string, s: Slot, main: Main)
    requires w.Good(checks) && id in w.active && id in w.members && s.ref == w.active[id].ref && s.job == w.active[id].job
    requires BusyWith(w.main, id) && BusyWith(main, id) && w.main != Ending && !main.Releasing?
    requires Agrees(checks, w.members[id], Some(s), DutyOf(main, id)) && Due(w.tally, Some(s), DutyOf(main, id))
    ensures w.(main := main, active := w.active[id := s]).Good(checks)
  {
    hide Agrees, Due, World.Good;
    var v := w.(main := main, active := w.active[id := s]);
    GoodAt(checks, w, id);
    OnlyThatDuty(w.main, main, id);
    assert v.members == w.members[id := v.members[id]];
    assert SlotOf(v.active, id) == Some(s);
    NewApart(checks, w, v, id);
    Step(checks, w, v, id, s.ref);
  }

  lemma ObservedStep(checks: Checks, w: World, id: string, scope: Scope, answer: Answer)
    requires w.Good(checks) && w.main == Looping && id in w.active && id in w.members
    requires w.active[id].phase == Running && w.active[id].done && scope.requestRef == w.active[id].ref
    requires scope.purpose == w.members[id].purpose && checks.identifier(scope.threadId) && checks.identifier(scope.turnId) && 1 <= scope.turnNumber <= TURNS
    requires AnswerOk(checks, w.members[id], answer)
    ensures w.(main := Scoping(id, scope, answer)).Good(checks)
  {
    GoodAt(checks, w, id);
    var s, m, main := w.active[id], w.members[id], Scoping(id, scope, answer);
    assert Agrees(checks, m, Some(s), DutyOf(main, id)) && Due(w.tally, Some(s), DutyOf(main, id));
    hide Agrees, Due;
    assert w.active[id := s] == w.active;
    TurnTo(checks, w, id, s, main);
  }

  lemma UnadmittedStep(checks: Checks, w: World, id: string, reason: Reason, turns: int)
    requires w.Good(checks) && w.main == Looping && id in w.active && id in w.members
    requires w.active[id].phase == Running && w.active[id].done && w.active[id].native == None && 0 <= turns <= TURNS
    ensures w.(main := Refusing(id, reason, turns), active := w.active[id := w.active[id].(phase := Retired)]).Good(checks)
  {
    GoodAt(checks, w, id);
    var s, m, main := w.active[id].(phase := Retired), w.members[id], Refusing(id, reason, turns);
    assert Agrees(checks, m, Some(s), DutyOf(main, id)) && Due(w.tally, Some(s), DutyOf(main, id));
    hide Agrees, Due;
    TurnTo(checks, w, id, s, main);
  }

  lemma ReleaseStep(checks: Checks, w: World)
    requires w.Good(checks) && w.main.Exporting?
    ensures w.main.id in w.active
    ensures var id := w.main.id;
            w.(main := Completing(id, w.main.scope, w.main.answer), active := w.active[id := w.active[id].(phase := ReleasePhase)]).Good(checks)
  {
    AtMain(checks, w);
    var id := w.main.id;
    var s, m, main := w.active[id].(phase := ReleasePhase), w.members[id], Completing(id, w.main.scope, w.main.answer);
    assert Agrees(checks, m, Some(s), DutyOf(main, id)) && Due(w.tally, Some(s), DutyOf(main, id));
    hide Agrees, Due;
    TurnTo(checks, w, id, s, main);
  }

  lemma FreeStep(checks: Checks, w: World, id: string, delivery: Delivery)
    requires w.Good(checks) && w.main == Looping && id in w.active && id in w.members && w.active[id].phase == ReleasePhase
    requires w.members[id].purpose == Conversation || delivery == NotSent
    ensures w.(main := Releasing(id, w.active[id].ref, delivery), active := w.active - {id}).Good(checks)
  {
    GoodAt(checks, w, id);
    var main := Releasing(id, w.active[id].ref, delivery);
    var v := w.(main := main, active := w.active - {id});
    assert Agrees(checks, w.members[id], None, DutyOf(main, id)) && Due(w.tally, None, main);
    hide Agrees, Due, World.Good;
    OnlyThatDuty(w.main, main, id);
    assert v.members == w.members[id := v.members[id]];
    assert SlotOf(v.active, id) == None;
    NewApart(checks, w, v, id);
    Step(checks, w, v, id, main.ref);
  }

  /** The first workers have been announced and nothing else has happened. */
  predicate PartlyOut(workers: seq<(string, Purpose)>, members: map<string, Member>, n: nat)
    requires members.Keys == IdsOf(workers)
  {
    forall i :: 0 <= i < |workers| ==>
      var m := members[workers[i].0];
      if i < n then m.ready && Clean(m) && m.closed == None else m == NewMember(workers[i].1)
  }

  lemma FreshOut(workers: seq<(string, Purpose)>, tools: Tools)
    requires DistinctIds(workers)
    ensures Known(Fresh(workers), workers, tools) && PartlyOut(workers, Fresh(workers), 0)
  {
    forall i | 0 <= i < |workers| ensures Fresh(workers)[workers[i].0] == NewMember(workers[i].1) { PurposeAt(workers, i); }
  }

  /** One more worker announced. */
  lemma OneMoreOut(checks: Checks, workers: seq<(string, Purpose)>, members: map<string, Member>, tools: Tools, n: nat)
    requires DistinctIds(workers) && Known(members, workers, tools) && n < |workers| && PartlyOut(workers, members, n)
    requires checks.Tools(workers[n].1, tools(workers[n].1))
    ensures var (id, purpose) := workers[n];
            var r := MemberStep(checks, members[id], Ready(purpose, tools(purpose)));
            && r.Some? && Known(members[id := r.value], workers, tools) && PartlyOut(workers, members[id := r.value], n + 1)
  {
    PurposeAt(workers, n);
    var (id, purpose) := workers[n];
    var r := MemberStep(checks, members[id], Ready(purpose, tools(purpose)));
    assert members[id] == NewMember(purpose);
    assert members[id := r.value].Keys == members.Keys;
  }

  /** All announced and idle. */
  lemma AllOut(checks: Checks, workers: seq<(string, Purpose)>, members: map<string, Member>, main: Main)
    requires members.Keys == IdsOf(workers) && PartlyOut(workers, members, |workers|) && (main.Announcing? || main == Ending || main == Looping)
    ensures AllAgree(checks, members, map[], main)
  {
    forall id | id in members ensures Agrees(checks, members[id], None, DutyOf(main, id)) {
      var i :| 0 <= i < |workers| && workers[i].0 == id;
    }
  }

  // ---------- the end

  function Total(sizes: seq<nat>): nat {
    if sizes == [] then 0 else Total(sizes[..|sizes| - 1]) + sizes[|sizes| - 1]
  }

  /** Every worker's last frame, in the pool's order. */
  function Closing(workers: seq<(string, Purpose)>, code: Code, facts: seq<Facts>, sizes: seq<nat>): seq<(Outer, nat)>
    requires |facts| == |sizes| == |workers|
  {
    seq(|workers|, i requires 0 <= i < |workers| => (Worker(workers[i].0, Ended(code, facts[i])), sizes[i]))
  }

  /** And then the pool's own, whose receipt the gate normalises or refuses. */
  function End(workers: seq<(string, Purpose)>, code: Code, facts: seq<Facts>, sizes: seq<nat>, last: nat, receiptOk: bool): seq<(Outer, nat)>
    requires |facts| == |sizes| == |workers|
  {
    Closing(workers, code, facts, sizes) + [(PoolClosed(code, receiptOk), last)]
  }

  /** A frame that belongs to the end. */
  predicate Last(f: Outer) {
    f.PoolClosed? || (f.Worker? && f.frame.Ended?)
  }

  lemma EndAt(workers: seq<(string, Purpose)>, code: Code, facts: seq<Facts>, sizes: seq<nat>, last: nat, receiptOk: bool)
    requires |facts| == |sizes| == |workers| && 2 <= |workers| <= 8
    ensures |End(workers, code, facts, sizes, last, receiptOk)| == |workers| + 1
    ensures forall i :: 0 <= i <= |workers| ==> Last(End(workers, code, facts, sizes, last, receiptOk)[i].0)
  {
  }

  lemma TotalMore(sizes: seq<nat>, n: nat)
    requires n < |sizes|
    ensures Total(sizes[..n + 1]) == Total(sizes[..n]) + sizes[n]
  {
    assert sizes[..n + 1][..n] == sizes[..n];
  }

  /** Whether the first n last frames can be accepted: those workers were announced, and the bytes still fit. */
  predicate CanClose(g: Gate, workers: seq<(string, Purpose)>, sizes: seq<nat>, n: nat)
    requires n <= |workers| == |sizes|
  {
    && (n > 0 ==> g.ready && g.innerBytes + Total(sizes[..n]) <= INNER_CAP)
    && forall i :: 0 <= i < n ==> workers[i].0 in g.members && g.members[workers[i].0].ready
  }

  /** The gate before the end. */
  predicate Closable(checks: Checks, g: Gate, workers: seq<(string, Purpose)>) {
    && DistinctIds(workers) && |workers| <= 8 && (forall i :: 0 <= i < |workers| ==> checks.identifier(workers[i].0))
    && !g.closed && !g.receipt && g.frames <= 570 && g.innerBytes <= INNER_CAP
    && (g.ready ==> g.members.Keys == IdsOf(workers)) && (!g.ready ==> g.members == map[])
    && (forall id :: id in g.members ==> g.members[id].closed == None)
  }

  predicate ClosedTo(g: Gate, h: Gate, workers: seq<(string, Purpose)>, code: Code, facts: seq<Facts>, sizes: seq<nat>, n: nat)
    requires n <= |workers| == |facts| == |sizes|
  {
    && h == g.(frames := g.frames + n, innerBytes := g.innerBytes + Total(sizes[..n]), members := h.members)
    && h.members.Keys == g.members.Keys
    && (forall i :: 0 <= i < n ==> workers[i].0 in h.members && h.members[workers[i].0].closed == Some((code, facts[i])))
    && (forall i :: n <= i < |workers| && workers[i].0 in h.members ==> h.members[workers[i].0] == g.members[workers[i].0])
  }

  lemma EndStep(checks: Checks, m: Member, code: Code, facts: Facts)
    requires m.closed == None && FactsOk(facts)
    ensures MemberStep(checks, m, Ended(code, facts)) == if m.ready then Some(m.(closed := Some((code, facts)))) else None
  {
  }

  /** One more last frame. */
  lemma {:induction false} CloseOne(checks: Checks, g: Gate, h: Gate, workers: seq<(string, Purpose)>, code: Code, facts: seq<Facts>, sizes: seq<nat>, n: nat)
    requires |facts| == |sizes| == |workers| && n < |workers| && Closable(checks, g, workers) && FactsOk(facts[n])
    requires ClosedTo(g, h, workers, code, facts, sizes, n) && CanClose(g, workers, sizes, n)
    ensures var r := Accept(checks, h, Worker(workers[n].0, Ended(code, facts[n])), sizes[n]);
            && (r.Some? <==> CanClose(g, workers, sizes, n + 1))
            && (r.Some? ==> ClosedTo(g, r.value, workers, code, facts, sizes, n + 1))
  {
    hide MemberStep, Total;
    TotalMore(sizes, n);
    var id := workers[n].0;
    assert g.ready ==> id in g.members;
    if id in h.members { EndStep(checks, h.members[id], code, facts[n]); }
    assert id in h.members ==> h.members[id] == g.members[id];
    assert forall i :: 0 <= i < |workers| && i != n ==> workers[i].0 != id;
  }

  /** The last frames of all workers are accepted up to the first worker that was never announced,
      or until the bytes run out. */
  lemma {:induction false} CloseRun(checks: Checks, g: Gate, workers: seq<(string, Purpose)>, code: Code, facts: seq<Facts>, sizes: seq<nat>, n: nat)
    requires |facts| == |sizes| == |workers| && n <= |workers| && Closable(checks, g, workers)
    requires forall i :: 0 <= i < |facts| ==> FactsOk(facts[i])
    ensures var r := Run(checks, g, Closing(workers, code, facts, sizes)[..n]);
            && (r.Some? <==> CanClose(g, workers, sizes, n))
            && (r.Some? ==> ClosedTo(g, r.value, workers, code, facts, sizes, n))
  {
    hide Accept, Closable, ClosedTo, CanClose;
    var frames := Closing(workers, code, facts, sizes);
    if n == 0 {
      NoneClosed(checks, g, workers, code, facts, sizes);
    } else {
      CloseRun(checks, g, workers, code, facts, sizes, n - 1);
      assert frames[..n] == frames[..n - 1] + [(frames[n - 1].0, frames[n - 1].1)];
      RunMore(checks, g, frames[..n - 1], frames[n - 1].0, frames[n - 1].1);
      var h := Run(checks, g, frames[..n - 1]);
      CloseLess(g, workers, sizes, n);
      if h.Some? { CloseOne(checks, g, h.value, workers, code, facts, sizes, n - 1); }
    }
  }

  lemma NoneClosed(checks: Checks, g: Gate, workers: seq<(string, Purpose)>, code: Code, facts: seq<Facts>, sizes: seq<nat>)
    requires |facts| == |sizes| == |workers| && Closable(checks, g, workers)
    ensures CanClose(g, workers, sizes, 0) && ClosedTo(g, g, workers, code, facts, sizes, 0)
  {
  }

  lemma CloseLess(g: Gate, workers: seq<(string, Purpose)>, sizes: seq<nat>, n: nat)
    requires 0 < n <= |workers| == |sizes|
    ensures CanClose(g, workers, sizes, n) ==> CanClose(g, workers, sizes, n - 1)
  {
    assert sizes[..n][..n - 1] == sizes[..n - 1];
  }

  /** The gate after the end: only the result line is still to come. */
  predicate PoolOver(g: Gate, control: nat) {
    g.closed && !g.receipt && g.frames <= 579 && g.controlBytes == control
  }

  /** After the end a result line is accepted exactly when it is normal and its bytes still fit; and then
      nothing more is. */
  lemma ResultFollows(checks: Checks, g: Gate, control: nat, n: nat, resultOk: bool)
    requires PoolOver(g, control)
    ensures Accept(checks, g, EpochResult(resultOk), n).Some? <==> control + n <= CONTROL_CAP && resultOk
    ensures Accept(checks, g, EpochResult(resultOk), n).Some? ==>
              && Accept(checks, g, EpochResult(resultOk), n).value.closed && Accept(checks, g, EpochResult(resultOk), n).value.receipt
              && forall f, m :: Accept(checks, Accept(checks, g, EpochResult(resultOk), n).value, f, m) == None
  {
  }

  /** The whole end is accepted exactly when every worker had been announced, the bytes of the workers'
      last frames, which the session does not count, still fit, the pool's last line fits the cap on
      control lines, and its receipt is normal. */
  lemma CloseAccepted(checks: Checks, g: Gate, workers: seq<(string, Purpose)>, code: Code, facts: seq<Facts>, sizes: seq<nat>, last: nat, receiptOk: bool)
    requires |facts| == |sizes| == |workers| && 0 < |workers| && Closable(checks, g, workers)
    requires forall i :: 0 <= i < |facts| ==> FactsOk(facts[i])
    ensures Run(checks, g, End(workers, code, facts, sizes, last, receiptOk)).Some? <==>
            && g.ready && (forall i :: 0 <= i < |workers| ==> g.members[workers[i].0].ready)
            && g.innerBytes + Total(sizes) <= INNER_CAP && g.controlBytes + last <= CONTROL_CAP && receiptOk
    ensures Run(checks, g, End(workers, code, facts, sizes, last, receiptOk)).Some? ==>
              PoolOver(Run(checks, g, End(workers, code, facts, sizes, last, receiptOk)).value, g.controlBytes + last)
  {
    hide Accept, Run, Closing;
    var frames := Closing(workers, code, facts, sizes);
    CloseRun(checks, g, workers, code, facts, sizes, |workers|);
    assert frames[..|workers|] == frames && sizes[..|workers|] == sizes by { ClosingAt(workers, code, facts, sizes); }
    RunMore(checks, g, frames, PoolClosed(code, receiptOk), last);
    var r := Run(checks, g, frames);
    if r.Some? { PoolCloses(checks, g, r.value, workers, code, facts, sizes, last, receiptOk); }
  }

  lemma PoolCloses(checks: Checks, g: Gate, h: Gate, workers: seq<(string, Purpose)>, code: Code, facts: seq<Facts>, sizes: seq<nat>, last: nat, receiptOk: bool)
    requires |facts| == |sizes| == |workers| && Closable(checks, g, workers) && g.ready
    requires ClosedTo(g, h, workers, code, facts, sizes, |workers|)
    ensures Accept(checks, h, PoolClosed(code, receiptOk), last).Some? <==> g.controlBytes + last <= CONTROL_CAP && receiptOk
    ensures Accept(checks, h, PoolClosed(code, receiptOk), last).Some? ==>
              PoolOver(Accept(checks, h, PoolClosed(code, receiptOk), last).value, g.controlBytes + last)
  {
    forall id | id in h.members ensures h.members[id].closed.Some? && h.members[id].closed.value.0 == code {
      var i :| 0 <= i < |workers| && workers[i].0 == id;
    }
  }

  function GateAfter(g: Gate, id: string, m: Member, size: nat): Gate {
    g.(frames := g.frames + 1, innerBytes := g.innerBytes + size, members := g.members[id := m])
  }

  /** The pool a session may open: its population, identifiers and tools. */
  predicate Configured(checks: Checks, workers: seq<(string, Purpose)>, tools: Tools) {
    && Population(workers)
    && forall i :: 0 <= i < |workers| ==> checks.identifier(workers[i].0) && checks.Tools(workers[i].1, tools(workers[i].1))
  }

  lemma ConfiguredHas(checks: Checks, workers: seq<(string, Purpose)>, tools: Tools)
    requires Configured(checks, workers, tools)
    ensures DistinctIds(workers) && 2 <= |workers| <= 8
    ensures forall i :: 0 <= i < |workers| ==> workers[i].0 in IdsOf(workers) && checks.identifier(workers[i].0) && checks.Tools(workers[i].1, tools(workers[i].1))
    ensures forall id :: id in IdsOf(workers) ==> checks.identifier(id)
  {
  }

  lemma AgreeAt(checks: Checks, w: World, id: string)
    requires w.Good(checks) && id in w.members
    ensures w.members[id].ready
  {
  }

  lemma Prolong(a: seq<(Outer, nat)>, end: seq<(Outer, nat)>, k: nat)
    requires k < |end|
    ensures a + end[..k] + [end[k]] == a + end[..k + 1]
  {
  }

  lemma ClosingAt(workers: seq<(string, Purpose)>, code: Code, facts: seq<Facts>, sizes: seq<nat>)
    requires |facts| == |sizes| == |workers|
    ensures |Closing(workers, code, facts, sizes)| == |workers|
    ensures forall i :: 0 <= i < |workers| ==> Closing(workers, code, facts, sizes)[i] == (Worker(workers[i].0, Ended(code, facts[i])), sizes[i])
  {
  }

  lemma MemberOpen(checks: Checks, w: World, id: string)
    requires w.Good(checks) && id in w.members
    ensures w.members[id].ready && w.members[id].closed == None
  {
  }

  lemma PartlyOpen(workers: seq<(string, Purpose)>, members: map<string, Member>, n: nat)
    requires members.Keys == IdsOf(workers) && PartlyOut(workers, members, n) && n < |workers|
    ensures forall id :: id in members ==> members[id].closed == None
    ensures !members[workers[n].0].ready
  {
    forall id | id in members ensures members[id].closed == None {
      var i :| 0 <= i < |workers| && workers[i].0 == id;
    }
  }

  /** The gate takes the frame, and the worker stays who it is. */
  predicate Keeps(checks: Checks, m: Member, f: Inner) {
    var r := MemberStep(checks, m, f);
    r.Some? && r.value.purpose == m.purpose && r.value.tools == m.tools && r.value.ready
  }

  lemma {:induction false} BrokenOut(checks: Checks, w: World, id: string)
    requires w.Good(checks) && id in w.active
    ensures w.(active := w.active[id := w.active[id].(job := Broken)]).Good(checks)
    ensures w.active[id].job.Claimed? ==> w.active[id].job.callRef in w.seenCalls && w.active[id].job.callRef !in w.tally.tools
  {
    GoodAt(checks, w, id);
    var s := w.active[id].(job := Broken);
    SameSlot(checks, w.tally, w.members[id], w.active[id], s, DutyOf(w.main, id));
    hide Agrees, Due;
    SlotStep(checks, w, id, s, w.seenCalls);
  }

  lemma OneMoreAnnounced(t: Tally, seen: set<string>, calls: set<string>, room: nat, population: nat)
    requires t.Bounded(seen, calls, room, population) && t.announced <= population
    ensures t.(announced := t.announced + 1).Bounded(seen, calls, room, population)
    ensures t.(announced := t.announced + 1).Frames() == t.Frames() + 1
  {
  }

  lemma OneMoreRefusal(t: Tally, seen: set<string>, calls: set<string>, ref: string, room: nat, population: nat)
    requires t.Bounded(seen, calls, room, population) && ref in seen && ref !in t.scoped && ref !in t.refused
    ensures Refused(t, ref).Bounded(seen, calls, room, population) && Refused(t, ref).Frames() == t.Frames() + 1
  {
  }

  lemma FinishedScoped(t: Tally, seen: set<string>, calls: set<string>, room: nat, population: nat)
    requires t.Bounded(seen, calls, room, population)
    ensures t.finished <= t.scoped && t.freed <= t.finished
  {
  }

  /** A scope makes room for its images. */
  lemma OneMoreScope(t: Tally, seen: set<string>, calls: set<string>, ref: string, population: nat)
    requires t.Bounded(seen, calls, 0, population) && ref in seen && ref !in t.scoped && ref !in t.refused
    ensures ScopeSent(t, ref).Bounded(seen, calls, IMAGE_FRAMES, population) && ScopeSent(t, ref).Bounded(seen, calls, 0, population)
    ensures ScopeSent(t, ref).Frames() == t.Frames() + 1
  {
  }

  lemma OneMoreImage(t: Tally, seen: set<string>, calls: set<string>, room: nat, population: nat)
    requires t.Bounded(seen, calls, room + 1, population)
    ensures ImageSent(t).Bounded(seen, calls, room, population) && ImageSent(t).Bounded(seen, calls, 0, population)
    ensures ImageSent(t).Frames() == t.Frames() + 1 && t.Bounded(seen, calls, 0, population)
  {
  }

  lemma OneMoreAnswer(t: Tally, seen: set<string>, calls: set<string>, ref: string, room: nat, population: nat)
    requires t.Bounded(seen, calls, room, population) && ref in t.scoped && ref !in t.finished
    ensures Finished(t, ref).Bounded(seen, calls, room, population) && Finished(t, ref).Frames() == t.Frames() + 1
    ensures t.freed <= t.finished
  {
  }

  lemma OneMoreRelease(t: Tally, seen: set<string>, calls: set<string>, ref: string, room: nat, population: nat)
    requires t.Bounded(seen, calls, room, population) && ref in t.finished && ref !in t.freed
    ensures Freed(t, ref).Bounded(seen, calls, room, population) && Freed(t, ref).Frames() == t.Frames() + 1
  {
  }

  lemma OneMoreCall(t: Tally, seenRequests: set<string>, seenCalls: set<string>, callRef: string, room: nat, population: nat)
    requires t.Bounded(seenRequests, seenCalls, room, population) && callRef in seenCalls && callRef !in t.tools
    ensures t.(tools := t.tools + {callRef}).Bounded(seenRequests, seenCalls, room, population)
    ensures t.(tools := t.tools + {callRef}).Frames() == t.Frames() + 1
  {
  }

  lemma KnownKept(members: map<string, Member>, workers: seq<(string, Purpose)>, tools: Tools, id: string, m: Member)
    requires Known(members, workers, tools) && id in members && members[id].ready
    requires m.purpose == members[id].purpose && m.tools == members[id].tools
    ensures Known(members[id := m], workers, tools)
  {
    assert members[id := m].Keys == members.Keys;
  }

  lemma SomeTools(checks: Checks, workers: seq<(string, Purpose)>, tools: Tools, id: string)
    requires Configured(checks, workers, tools) && id in IdsOf(workers)
    ensures PurposeOf(workers, id) == CommunityAssessment ==> tools(CommunityAssessment) == []
  {
    var i :| 0 <= i < |workers| && workers[i].0 == id;
    PurposeAt(workers, i);
  }

  lemma MoreCalls(t: Tally, seenRequests: set<string>, seenCalls: set<string>, callRef: string, room: nat, population: nat)
    requires t.Bounded(seenRequests, seenCalls, room, population) && callRef !in seenCalls && |seenCalls| < CALLS
    ensures t.Bounded(seenRequests, seenCalls + {callRef}, room, population)
  {
  }

  lemma LoopGood(checks: Checks, w: World, n: nat)
    requires w.main == Looping && w.(main := Announcing(n)).Good(checks)
    ensures w.Good(checks)
  {
    hide Agrees, Due;
    assert forall id: string :: DutyOf(Announcing(n), id) == DutyOf(Looping, id);
  }
}
