/** The supervisor's acceptor for what a parallel session emits: one small automaton per
    worker inside one for the pool, with frame and byte caps. */
module OutputGate {
  import opened Vocabulary
  import opened Wrappers
  import opened EpochClock

  const FRAME_COUNT := 1024
  const INNER_CAP := 512 * 1024 * 1024
  const CONTROL_CAP := 65536

  datatype Reason = Time | Turns

  datatype Scope = Scope(purpose: Purpose, requestRef: string, threadId: string, turnId: string, turnNumber: int)

  datatype Answer = Answer(text: string, image: bool, toolCalls: int, toolRefusals: int)

  /** Facts of a native actor: the counters, and the flags the gate looks at. */
  datatype Facts = Facts(turnsAttempted: int, turnsAdmitted: int, toolCalls: int, closed: bool, troubled: bool, unreleasedTurn: bool)

  /** What one worker may say. */
  datatype Inner =
    | Ready(purpose: Purpose, tools: seq<string>)
    | Tool(purpose: Purpose, requestRef: string, callRef: string, name: string)
    | Scoped(scope: Scope)
    | Image(part: nat)
    | Completed(scope: Scope, answer: Answer)
    | Released(purpose: Purpose, requestRef: string, delivery: Delivery)
    | NotAdmitted(purpose: Purpose, requestRef: string, reason: Reason, turnsAdmitted: int)
    | Ended(code: Code, facts: Facts)

  datatype Outer =
    | Custody(workers: seq<(string, Purpose)>)
    | PoolReady(workers: seq<(string, Purpose)>)
    | Worker(id: string, frame: Inner)
    | PoolClosed(code: Code, receiptOk: bool)
    | EpochResult(receiptOk: bool)
  {
    predicate Control?() { Custody? || PoolClosed? || EpochResult? }
  }

  /** The checks on text that both ends make the same way. */
  datatype Checks = Checks(identifier: string -> bool, toolName: string -> bool, answer: string -> bool)
  {
    predicate Names(names: seq<string>) {
      && 1 <= |names| <= 32 && names[0] == "neurobro_read_history"
      && (forall i :: 0 <= i < |names| ==> toolName(names[i]))
      && (forall i, j :: 0 <= i < j < |names| ==> names[i] != names[j])
    }

    /** The tools a worker of each purpose announces. */
    predicate Tools(purpose: Purpose, tools: seq<string>) {
      match purpose
      case Conversation => Names(tools)
      case HistoryAnalysis => tools == ["neurobro_analysis_material", "neurobro_analysis_notes", "neurobro_analysis_commit"]
      case CommunityAssessment => tools == []
    }
  }

  /** What the gate remembers of one worker. */
  datatype Member = Member(purpose: Purpose, tools: seq<string>, ready: bool, active: Option<string>, scope: Option<Scope>,
                           completed: bool, retired: bool, closed: Option<(Code, Facts)>)

  function NewMember(purpose: Purpose): Member {
    Member(purpose, [], false, None, None, false, false, None)
  }

  predicate Free(m: Member, ref: string) {
    m.active == None || m.active == Some(ref)
  }

  /** The automaton of one worker; a frame it has no transition for is refused. */
  function MemberStep(checks: Checks, m: Member, f: Inner): Option<Member> {
    if m.closed.Some? then None
    else match f
      case Ready(purpose, tools) =>
        if !m.ready && purpose == m.purpose && checks.Tools(purpose, tools) then Some(m.(ready := true, tools := tools)) else None
      case Tool(purpose, ref, callRef, name) =>
        if m.ready && purpose == m.purpose && checks.identifier(ref) && Free(m, ref) && !m.retired && !m.completed
           && purpose != CommunityAssessment && checks.identifier(callRef) && name in m.tools
        then Some(m.(active := Some(ref))) else None
      case Scoped(scope) =>
        if m.ready && ScopeOk(checks, m, scope) && Free(m, scope.requestRef) && !m.retired && !m.completed && m.scope == None
        then Some(m.(active := Some(scope.requestRef), scope := Some(scope))) else None
      case Image(_) =>
        if m.ready && m.purpose == Conversation && m.scope.Some? && !m.completed then Some(m) else None
      case Completed(scope, answer) =>
        if m.ready && ScopeOk(checks, m, scope) && Free(m, scope.requestRef) && !m.retired && !m.completed && m.scope == Some(scope)
           && checks.answer(answer.text) && 0 <= answer.toolCalls <= 8 && 0 <= answer.toolRefusals <= 4
           && (m.purpose == Conversation || !answer.image)
        then Some(m.(active := Some(scope.requestRef), completed := true)) else None
      case Released(purpose, ref, delivery) =>
        if m.ready && purpose == m.purpose && checks.identifier(ref) && m.active == Some(ref) && m.completed
           && (purpose == Conversation || delivery == NotSent)
        then Some(m.(active := None, scope := None, completed := false)) else None
      case NotAdmitted(purpose, ref, reason, turns) =>
        if m.ready && purpose == m.purpose && checks.identifier(ref) && m.active == None && 0 <= turns <= TURNS
        then Some(m.(retired := true)) else None
      case Ended(code, facts) =>
        if m.ready && FactsOk(facts) then Some(m.(closed := Some((code, facts)))) else None
  }

  predicate ScopeOk(checks: Checks, m: Member, scope: Scope) {
    && scope.purpose == m.purpose && checks.identifier(scope.requestRef)
    && checks.identifier(scope.threadId) && checks.identifier(scope.turnId) && 1 <= scope.turnNumber <= TURNS
  }

  predicate FactsOk(f: Facts) {
    0 <= f.turnsAttempted <= TURNS && 0 <= f.turnsAdmitted <= TURNS && 0 <= f.toolCalls <= 193
  }

  /** The whole gate. */
  datatype Gate = Gate(custody: Option<seq<(string, Purpose)>>, ready: bool, members: map<string, Member>,
                       closed: bool, receipt: bool, frames: nat, innerBytes: nat, controlBytes: nat)

  const START := Gate(None, false, map[], false, false, 0, 0, 0)

  predicate DistinctIds(workers: seq<(string, Purpose)>) {
    forall i, j :: 0 <= i < j < |workers| ==> workers[i].0 != workers[j].0
  }

  function IdsOf(workers: seq<(string, Purpose)>): set<string> {
    set i | 0 <= i < |workers| :: workers[i].0
  }

  /** The purpose a listed worker has; the last entry of an id decides, as in a dictionary. */
  function PurposeOf(workers: seq<(string, Purpose)>, id: string): Purpose
    requires id in IdsOf(workers)
  {
    var n := |workers| - 1;
    if workers[n].0 == id then workers[n].1
    else
      assert forall i :: 0 <= i < n ==> workers[..n][i] == workers[i];
      PurposeOf(workers[..n], id)
  }

  lemma {:induction false} PurposeAt(workers: seq<(string, Purpose)>, i: nat)
    requires i < |workers| && DistinctIds(workers)
    ensures workers[i].0 in IdsOf(workers) && PurposeOf(workers, workers[i].0) == workers[i].1
    decreases |workers|
  {
    var n := |workers| - 1;
    if i < n {
      assert workers[..n][i] == workers[i];
      PurposeAt(workers[..n], i);
    }
  }

  /** One conversation worker, at least one for analysis, at most one for assessment. */
  predicate Population(workers: seq<(string, Purpose)>) {
    && 2 <= |workers| <= 8 && DistinctIds(workers)
    && (exists i :: 0 <= i < |workers| && workers[i].1 == Conversation && forall j :: 0 <= j < |workers| && j != i ==> workers[j].1 != Conversation)
    && (forall i, j :: 0 <= i < j < |workers| ==> !(workers[i].1 == CommunityAssessment && workers[j].1 == CommunityAssessment))
    && (exists i :: 0 <= i < |workers| && workers[i].1 == HistoryAnalysis)
  }

  function Fresh(workers: seq<(string, Purpose)>): map<string, Member> {
    map id | id in IdsOf(workers) :: NewMember(PurposeOf(workers, id))
  }

  /** Count a frame and its bytes; either cap refuses. */
  function Counted(g: Gate, f: Outer, length: nat): Option<Gate> {
    var c := if f.Control?() then g.(frames := g.frames + 1, controlBytes := g.controlBytes + length)
             else g.(frames := g.frames + 1, innerBytes := g.innerBytes + length);
    var fits := if f.Control?() then c.controlBytes <= CONTROL_CAP else c.innerBytes <= INNER_CAP;
    if !g.receipt && c.frames <= FRAME_COUNT && fits then Some(c) else None
  }

  /** What accepting a frame does to the gate, or refusal. */
  function Accept(checks: Checks, g: Gate, f: Outer, length: nat): Option<Gate> {
    match Counted(g, f, length)
    case None => None
    case Some(c) =>
      match f
      case Custody(workers) =>
        if c.custody == None && !c.ready && !c.closed && Population(workers) then Some(c.(custody := Some(workers))) else None
      case PoolReady(workers) =>
        if c.custody == Some(workers) && !c.ready && !c.closed then Some(c.(ready := true, members := Fresh(workers))) else None
      case Worker(id, frame) =>
        if !checks.identifier(id) || !c.ready || c.closed || id !in c.members then None
        else (match MemberStep(checks, c.members[id], frame)
              case None => None
              case Some(m) => Some(c.(members := c.members[id := m])))
      case PoolClosed(code, receiptOk) =>
        if !c.closed && AllEnded(c.members, code) && receiptOk then Some(c.(closed := true)) else None
      case EpochResult(receiptOk) =>
        if receiptOk then Some(c.(receipt := true)) else None
  }

  predicate AllEnded(members: map<string, Member>, code: Code) {
    forall id :: id in members ==> members[id].closed.Some? && members[id].closed.value.0 == code
  }

  /** A run of frames, each with the length of its line. */
  function Run(checks: Checks, g: Gate, frames: seq<(Outer, nat)>): Option<Gate> {
    if frames == [] then Some(g)
    else match Run(checks, g, frames[..|frames| - 1])
      case None => None
      case Some(h) => Accept(checks, h, frames[|frames| - 1].0, frames[|frames| - 1].1)
  }

  lemma RunMore(checks: Checks, g: Gate, frames: seq<(Outer, nat)>, f: Outer, length: nat)
    ensures Run(checks, g, frames + [(f, length)]) ==
            (match Run(checks, g, frames) case None => None case Some(h) => Accept(checks, h, f, length))
  {
    assert (frames + [(f, length)])[..|frames|] == frames;
  }

  lemma {:induction false} RunConcat(checks: Checks, g: Gate, a: seq<(Outer, nat)>, b: seq<(Outer, nat)>)
    requires Run(checks, g, a).Some?
    ensures Run(checks, g, a + b) == Run(checks, Run(checks, g, a).value, b)
    decreases |b|
  {
    hide Accept;
    if b == [] {
      assert a + b == a;
    } else {
      var n := |b| - 1;
      RunConcat(checks, g, a, b[..n]);
      assert a + b == (a + b[..n]) + [(b[n].0, b[n].1)];
      RunMore(checks, g, a + b[..n], b[n].0, b[n].1);
    }
  }

  // ---------- safety of the acceptor itself

  /** After its end a worker says nothing more. */
  lemma {:induction false} NothingAfterEnd(checks: Checks, g: Gate, frames: seq<(Outer, nat)>, id: string)
    requires id in g.members && g.members[id].closed.Some? && g.ready
    requires Run(checks, g, frames).Some?
    ensures id in Run(checks, g, frames).value.members
    ensures Run(checks, g, frames).value.members[id] == g.members[id] && Run(checks, g, frames).value.ready
    ensures forall i :: 0 <= i < |frames| ==> !(frames[i].0.Worker? && frames[i].0.id == id)
    decreases |frames|
  {
    if frames != [] {
      NothingAfterEnd(checks, g, frames[..|frames| - 1], id);
    }
  }

  /** The caps are never passed, and bytes and frames are exactly what was accepted. */
  lemma {:induction false} CountsAreExact(checks: Checks, frames: seq<(Outer, nat)>)
    requires Run(checks, START, frames).Some?
    ensures var g := Run(checks, START, frames).value;
            g.frames == |frames| <= FRAME_COUNT && g.innerBytes <= INNER_CAP && g.controlBytes <= CONTROL_CAP
            && g.innerBytes + g.controlBytes == Lengths(frames)
    decreases |frames|
  {
    if frames != [] {
      CountsAreExact(checks, frames[..|frames| - 1]);
    }
  }

  function Lengths(frames: seq<(Outer, nat)>): nat {
    if frames == [] then 0 else Lengths(frames[..|frames| - 1]) + frames[|frames| - 1].1
  }

  // ---------- the gate and its clock

  /** What happens at the gate: a line arrives, or the host closes (its input ends, or it sends its close). */
  datatype Event = Arrived(f: Outer, length: nat, now: real, stamp: real) | InputEnded(now: real, stamp: real)

  function MomentOf(f: Outer, now: real, stamp: real): Moment {
    Moment(if f.Custody? then Admits else if f.Control?() then Closes else Passes, now, stamp)
  }

  function Moments(events: seq<Event>): seq<Moment> {
    seq(|events|, i requires 0 <= i < |events| =>
      match events[i] case Arrived(f, _, now, stamp) => MomentOf(f, now, stamp) case InputEnded(now, stamp) => Moment(Closes, now, stamp))
  }

  /** The lines among the events. */
  function Frames(events: seq<Event>): seq<(Outer, nat)> {
    if events == [] then []
    else
      var before := Frames(events[..|events| - 1]);
      match events[|events| - 1] case Arrived(f, length, _, _) => before + [(f, length)] case InputEnded(_, _) => before
  }

  /** Gate and clock together: a line is accepted by both or refused. */
  function Happens(checks: Checks, g: Gate, c: Clock, e: Event): Option<(Gate, Clock)> {
    match e
    case Arrived(f, length, now, stamp) =>
      (match (Accept(checks, g, f, length), Seen(c, MomentOf(f, now, stamp)))
       case (Some(h), Some(d)) => Some((h, d))
       case _ => None)
    case InputEnded(now, stamp) =>
      (match Seen(c, Moment(Closes, now, stamp)) case Some(d) => Some((g, d)) case None => None)
  }

  /** What a line that is accepted does to the clock. */
  lemma ClockTells(checks: Checks, g: Gate, c: Clock, f: Outer, length: nat, now: real, stamp: real)
    ensures Happens(checks, g, c, Arrived(f, length, now, stamp)).Some? ==>
              var d := Happens(checks, g, c, Arrived(f, length, now, stamp)).value.1;
              && now < c.end && now < c.hardEnd && (f.Custody? ==> stamp < c.end && stamp < c.hardEnd && !c.closing)
              && (d.ready <==> c.ready || f.Custody?) && (d.closing <==> c.closing || f.PoolClosed? || f.EpochResult?)
              && (f.PoolReady? || f.Worker? || c.closing ==> d.end == c.end)
  {
    hide Accept;
  }

  function RunInTime(checks: Checks, g: Gate, c: Clock, events: seq<Event>): Option<(Gate, Clock)> {
    if events == [] then Some((g, c))
    else match RunInTime(checks, g, c, events[..|events| - 1])
      case None => None
      case Some((h, d)) => Happens(checks, h, d, events[|events| - 1])
  }

  /** Whether a run of events passes is a question of its lines and a question of its times, and neither
      depends on the other. */
  lemma {:induction false} TimeApart(checks: Checks, g: Gate, c: Clock, events: seq<Event>)
    ensures RunInTime(checks, g, c, events) ==
            match (Run(checks, g, Frames(events)), Watched(c, Moments(events))) case (Some(h), Some(d)) => Some((h, d)) case _ => None
    decreases |events|
  {
    hide Accept, Seen, MomentOf;
    if events != [] {
      var n := |events| - 1;
      TimeApart(checks, g, c, events[..n]);
      assert Moments(events)[..n] == Moments(events[..n]);
      if events[n].Arrived? { RunMore(checks, g, Frames(events[..n]), events[n].f, events[n].length); }
    }
  }

  // ---------- the gate as the program keeps it

  class OutputGate {
    const checks: Checks
    const budget: Budget
    var custody: Option<seq<(string, Purpose)>>
    var ready: bool
    var closed: bool
    var receipt: bool
    var frames: nat
    var innerBytes: nat
    var controlBytes: nat
    var workers: map<string, Member>

    function State(): Gate
      reads this
    {
      Gate(custody, ready, workers, closed, receipt, frames, innerBytes, controlBytes)
    }

    constructor (checks: Checks, budget: Budget)
      ensures State() == START && this.checks == checks && this.budget == budget
    {
      this.checks, this.budget := checks, budget;
      custody, ready, closed, receipt, frames, innerBytes, controlBytes, workers := None, false, false, false, 0, 0, 0, map[];
    }

    /** One worker's frame; what the worker record becomes is what the automaton says. */
    method ParallelWorkerFrame(id: string, f: Inner) returns (ok: bool)
      requires id in workers
      modifies `workers
      ensures ok <==> MemberStep(checks, old(workers[id]), f).Some?
      ensures ok ==> workers == old(workers)[id := MemberStep(checks, old(workers[id]), f).value]
    {
      var w := workers[id];
      if w.closed.Some? { return false; }
      if f.Ready? {
        if w.ready || f.purpose != w.purpose || !checks.Tools(f.purpose, f.tools) { return false; }
        workers := workers[id := w.(ready := true, tools := f.tools)];
        return true;
      }
      if !w.ready { return false; }
      if f.Image? { return w.purpose == Conversation && w.scope.Some? && !w.completed; }
      if f.Ended? {
        if !FactsOk(f.facts) { return false; }
        workers := workers[id := w.(closed := Some((f.code, f.facts)))];
        return true;
      }
      if f.Scoped? || f.Completed? {
        if !ScopeOk(checks, w, f.scope) { return false; }
      } else if f.purpose != w.purpose || !checks.identifier(f.requestRef) {
        return false;
      }
      var ref := if f.Scoped? || f.Completed? then f.scope.requestRef else f.requestRef;
      if w.active.Some? && w.active.value != ref { return false; }
      if f.Released? {
        if w.active != Some(ref) || !w.completed || (w.purpose != Conversation && f.delivery != NotSent) { return false; }
        workers := workers[id := w.(active := None, scope := None, completed := false)];
      } else if f.NotAdmitted? {
        if w.active.Some? || !(0 <= f.turnsAdmitted <= TURNS) { return false; }
        workers := workers[id := w.(retired := true)];
      } else {
        if w.retired || w.completed { return false; }
        w := w.(active := Some(ref));
        if f.Tool? {
          if w.purpose == CommunityAssessment || !checks.identifier(f.callRef) || f.name !in w.tools { return false; }
        } else if f.Scoped? {
          if w.scope.Some? { return false; }
          w := w.(scope := Some(f.scope));
        } else {
          if w.scope != Some(f.scope) || !checks.answer(f.answer.text) { return false; }
          if !(0 <= f.answer.toolCalls <= 8 && 0 <= f.answer.toolRefusals <= 4) { return false; }
          if w.purpose != Conversation && f.answer.image { return false; }
          w := w.(completed := true);
        }
        workers := workers[id := w];
      }
      ok := true;
    }

    /** One frame of the stream, read at `now`; `stamp` is the clock when it is read again. A refusal ends
        the stream, so only acceptance fixes the state. */
    method AcceptParallel(f: Outer, length: nat, now: real, stamp: real) returns (ok: bool)
      modifies this, budget
      ensures ok <==> Happens(checks, old(State()), old(budget.State()), Arrived(f, length, now, stamp)).Some?
      ensures ok ==> Some((State(), budget.State())) == Happens(checks, old(State()), old(budget.State()), Arrived(f, length, now, stamp))
      ensures ok ==> now < old(budget.end) && now < budget.hardEnd && (f.Custody? ==> stamp < old(budget.end) && stamp < budget.hardEnd && !old(budget.closing))
      ensures ok ==> (budget.ready <==> old(budget.ready) || f.Custody?) && (budget.closing <==> old(budget.closing) || f.PoolClosed? || f.EpochResult?)
      ensures ok && (f.PoolReady? || f.Worker? || old(budget.closing)) ==> budget.end == old(budget.end)
    {
      hide MemberStep, Population, Fresh, AllEnded, Clock.Admitted, Clock.Closed;
      ClockTells(checks, State(), budget.State(), f, length, now, stamp);
      var left := budget.Remaining(TOTAL_SECONDS, now);
      if left == None { return false; }
      if receipt { return false; }
      frames := frames + 1;
      if frames > FRAME_COUNT { return false; }
      if f.Control?() {
        controlBytes := controlBytes + length;
        if controlBytes > CONTROL_CAP { return false; }
      } else {
        innerBytes := innerBytes + length;
        if innerBytes > INNER_CAP { return false; }
      }
      match f {
        case Custody(proofs) =>
          if custody.Some? || ready || closed || !Population(proofs) { return false; }
          ok := budget.AdmitEpoch(stamp);
          if !ok { return; }
          custody := Some(proofs);
        case PoolReady(list) =>
          if custody != Some(list) || ready || closed { return false; }
          workers, ready := Fresh(list), true;
        case PoolClosed(code, receiptOk) =>
          if closed || !AllEnded(workers, code) || !receiptOk { return false; }
          closed := true;
          budget.Close(stamp);
        case EpochResult(receiptOk) =>
          if !receiptOk { return false; }
          receipt := true;
          budget.Close(stamp);
        case Worker(id, frame) =>
          if !checks.identifier(id) || !ready || closed || id !in workers { return false; }
          ok := ParallelWorkerFrame(id, frame);
          return;
      }
      ok := true;
    }

    /** The host closes: no more time is left than cleaning up takes. */
    method EndInput(now: real, stamp: real) returns (ok: bool)
      modifies budget
      ensures ok <==> Happens(checks, State(), old(budget.State()), InputEnded(now, stamp)).Some?
      ensures ok ==> Some((State(), budget.State())) == Happens(checks, State(), old(budget.State()), InputEnded(now, stamp))
      ensures ok <==> now < old(budget.end) && now < budget.hardEnd
      ensures ok ==> budget.closing && budget.ready == old(budget.ready)
    {
      var left := budget.Remaining(1.0, now);
      ok := left.Some?;
      if ok { budget.Close(stamp); }
    }
  }
}
