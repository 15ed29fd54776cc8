/** The coordinator of a scoped epoch: two or three slots over one transport, one turn at a
    time, with every dispatch reserved before it happens. */
module ScopedRpc {
  import opened Vocabulary
  import opened Wrappers

  const RESPONSES := 16
  const EPOCH_SECONDS := 900.0

  datatype Slot = Slot(thread: Option<string>, started: bool, turns: nat, responses: nat)

  datatype Active = Active(purpose: Purpose, ref: string, number: nat, deadline: real, dispatched: bool, completed: bool, threadsBefore: nat, turnsBefore: nat)

  datatype Error = PhaseRefused | DeadlineUnknown | TransportUnknown

  datatype Begun = Admitted(number: nat) | NotAdmitted(turns: bool, admitted: nat) | Refused(error: Error)

  const NEW_SLOT := Slot(None, false, 0, 0)

  /** A slot of a purpose, or an empty one. */
  function At(slots: map<Purpose, Slot>, p: Purpose): Slot { if p in slots then slots[p] else NEW_SLOT }

  function TurnSum(slots: map<Purpose, Slot>): nat {
    At(slots, Conversation).turns + At(slots, HistoryAnalysis).turns + At(slots, CommunityAssessment).turns
  }

  function One(b: bool): nat { if b then 1 else 0 }

  function StartedCount(slots: map<Purpose, Slot>): nat {
    One(At(slots, Conversation).started) + One(At(slots, HistoryAnalysis).started) + One(At(slots, CommunityAssessment).started)
  }

  /** Threads are distinct, and a slot that has one was started. */
  predicate Threads(slots: map<Purpose, Slot>) {
    && (forall p :: p in slots && slots[p].thread.Some? ==> slots[p].started)
    && (forall p, q :: p in slots && q in slots && p != q && slots[p].thread.Some? ==> slots[p].thread != slots[q].thread)
  }

  /** One slot changes: how the sums follow. */
  lemma SumsFollow(slots: map<Purpose, Slot>, p: Purpose, s: Slot)
    requires p in slots
    ensures TurnSum(slots[p := s]) == TurnSum(slots) - slots[p].turns + s.turns
    ensures StartedCount(slots[p := s]) == StartedCount(slots) - One(slots[p].started) + One(s.started)
  {
    assert forall q :: q != p ==> At(slots[p := s], q) == At(slots, q);
    match p
    case Conversation =>
    case HistoryAnalysis =>
    case CommunityAssessment =>
  }

  /** While some slot has not started, fewer threads than slots have. */
  lemma RoomForThread(slots: map<Purpose, Slot>, p: Purpose)
    requires p in slots && !slots[p].started && (slots.Keys == {Conversation, HistoryAnalysis} || slots.Keys == {Conversation, HistoryAnalysis, CommunityAssessment})
    ensures StartedCount(slots) < |slots|
  {
    if slots.Keys == {Conversation, HistoryAnalysis} {
      assert CommunityAssessment !in slots;
      assert |slots.Keys| == 2;
    } else {
      assert |slots.Keys| == 3;
    }
  }

  /** The slots of a protocol, and what the totals say of them. */
  predicate SlotsOk(slots: map<Purpose, Slot>, turns: nat, threads: nat) {
    && (slots.Keys == {Conversation, HistoryAnalysis} || slots.Keys == {Conversation, HistoryAnalysis, CommunityAssessment})
    && TurnSum(slots) == turns && StartedCount(slots) == threads && threads <= |slots|
    && Threads(slots)
    && (forall p :: p in slots ==> slots[p].responses <= RESPONSES)
  }

  /** Starting a slot is always within the cap on threads. */
  lemma Started(slots: map<Purpose, Slot>, turns: nat, threads: nat, p: Purpose)
    requires SlotsOk(slots, turns, threads) && p in slots && !slots[p].started
    ensures threads < |slots| && SlotsOk(slots[p := slots[p].(started := true)], turns, threads + 1)
  {
    RoomForThread(slots, p);
    SumsFollow(slots, p, slots[p].(started := true));
    assert slots[p := slots[p].(started := true)].Keys == slots.Keys;
  }

  lemma NamedThread(slots: map<Purpose, Slot>, turns: nat, threads: nat, p: Purpose, id: string)
    requires SlotsOk(slots, turns, threads) && p in slots && slots[p].started && forall q :: q in slots ==> slots[q].thread != Some(id)
    ensures SlotsOk(slots[p := slots[p].(thread := Some(id))], turns, threads)
  {
    SumsFollow(slots, p, slots[p].(thread := Some(id)));
    assert slots[p := slots[p].(thread := Some(id))].Keys == slots.Keys;
  }

  lemma Turned(slots: map<Purpose, Slot>, turns: nat, threads: nat, p: Purpose)
    requires SlotsOk(slots, turns, threads) && p in slots
    ensures SlotsOk(slots[p := slots[p].(turns := slots[p].turns + 1, responses := 0)], turns + 1, threads)
  {
    SumsFollow(slots, p, slots[p].(turns := slots[p].turns + 1, responses := 0));
    assert slots[p := slots[p].(turns := slots[p].turns + 1, responses := 0)].Keys == slots.Keys;
  }

  lemma Responded(slots: map<Purpose, Slot>, turns: nat, threads: nat, p: Purpose)
    requires SlotsOk(slots, turns, threads) && p in slots && slots[p].responses < RESPONSES
    ensures SlotsOk(slots[p := slots[p].(responses := slots[p].responses + 1)], turns, threads)
  {
    SumsFollow(slots, p, slots[p].(responses := slots[p].responses + 1));
    assert slots[p := slots[p].(responses := slots[p].responses + 1)].Keys == slots.Keys;
  }

  /** A slot's turns are among all turns. */
  lemma SlotTurns(slots: map<Purpose, Slot>, turns: nat, threads: nat, p: Purpose)
    requires SlotsOk(slots, turns, threads) && p in slots
    ensures slots[p].turns <= turns && |slots| <= 3
  {
    assert At(slots, p) == slots[p];
    match p
    case Conversation =>
    case HistoryAnalysis =>
    case CommunityAssessment =>
  }

  class Coordinator {
    var slots: map<Purpose, Slot>
    var deadline: real
    var admitted: nat
    var threads: nat
    var turns: nat
    var active: Option<Active>
    var retired: bool
    var seenRefs: set<string>

    predicate Valid()
      reads this
    {
      && SlotsOk(slots, turns, threads) && turns <= admitted <= TURNS
      && (active.Some? ==>
            && active.value.purpose in slots && active.value.ref in seenRefs && active.value.number == admitted
            && active.value.threadsBefore <= threads
            && turns == active.value.turnsBefore + One(active.value.dispatched)
            && (active.value.completed ==> active.value.dispatched)
            && (!active.value.dispatched ==> turns < admitted)
            && (active.value.dispatched ==> slots[active.value.purpose].thread.Some? && slots[active.value.purpose].turns > 0))
      && (|seenRefs| == admitted || (retired && |seenRefs| == admitted + 1))
    }

    /** The epoch has begun. */
    constructor (three: bool, now: real)
      ensures Valid() && admitted == 0 && turns == 0 && threads == 0 && active == None && !retired && seenRefs == {}
      ensures deadline == now + 900.0 && (forall p :: p in slots ==> slots[p] == NEW_SLOT)
      ensures slots.Keys == if three then {Conversation, HistoryAnalysis, CommunityAssessment} else {Conversation, HistoryAnalysis}
    {
      slots := if three then map[Conversation := NEW_SLOT, HistoryAnalysis := NEW_SLOT, CommunityAssessment := NEW_SLOT]
               else map[Conversation := NEW_SLOT, HistoryAnalysis := NEW_SLOT];
      deadline, admitted, threads, turns, active, retired, seenRefs := now + EPOCH_SECONDS, 0, 0, 0, None, false, {};
    }

    /** A check that, failing, retires the coordinator for good. */
    method Need(value: bool) returns (e: Option<Error>)
      requires Valid()
      modifies `retired
      ensures Valid() && e == (if value then None else Some(PhaseRefused)) && retired == (old(retired) || !value)
    {
      hide SlotsOk;
      if !value { retired := true; }
      e := if value then None else Some(PhaseRefused);
    }

    /** Admit the next turn, or say why not; a check that fails and a turn not admitted end the epoch,
        a cancelled or late call does not. */
    method BeginTurn(p: Purpose, ref: string, identifier: bool, now: real, cancelled: bool) returns (r: Begun)
      requires Valid()
      modifies `retired, `seenRefs, `admitted, `active
      ensures Valid() && (old(retired) ==> retired && !r.Admitted?)
      ensures r.Admitted? <==> !cancelled && now < deadline && !old(retired) && old(active) == None && p in slots && identifier && ref !in old(seenRefs) && old(admitted) < 16 && deadline - now >= (if p == CommunityAssessment then 30.0 else 300.0)
      ensures r.Admitted? ==> r.number == admitted == old(admitted) + 1 <= 16 && active.Some? && active.value.ref == ref && active.value.purpose == p && !active.value.dispatched
      ensures r.Admitted? ==>
                var end := now + if p == CommunityAssessment then 30.0 else 300.0;
                && active == Some(Active(p, ref, admitted, if end < deadline then end else deadline, false, false, threads, turns))
                && seenRefs == old(seenRefs) + {ref}
      ensures cancelled ==> r == Refused(TransportUnknown)
      ensures !cancelled && now >= deadline ==> r == Refused(DeadlineUnknown)
      ensures !cancelled && now < deadline && r.Refused? ==> r == Refused(PhaseRefused) && (old(retired) || old(active).Some? || p !in slots || !identifier || ref in old(seenRefs))
      ensures r.Admitted? ==> old(active) == None && ref !in old(seenRefs) && deadline - now >= (if p == CommunityAssessment then 30.0 else 300.0)
      ensures r.NotAdmitted? ==> retired && r.admitted == admitted && (r.turns <==> admitted == 16)
      ensures r.NotAdmitted? ==> admitted == 16 || deadline - now < (if p == CommunityAssessment then 30.0 else 300.0)
      ensures !r.Admitted? ==> admitted == old(admitted) && active == old(active) && seenRefs == old(seenRefs)
      ensures !r.Admitted? ==> retired == (old(retired) || (!cancelled && now < deadline))
    {
      hide SlotsOk;
      if cancelled { return Refused(TransportUnknown); }
      if now >= deadline { return Refused(DeadlineUnknown); }
      var e := Need(!retired && active == None && p in slots && identifier && ref !in seenRefs);
      if e.Some? { return Refused(e.value); }
      var seconds := if p == CommunityAssessment then 30.0 else 300.0;
      if admitted >= TURNS || deadline - now < seconds {
        retired := true;
        return NotAdmitted(admitted >= TURNS, admitted);
      }
      seenRefs, admitted := seenRefs + {ref}, admitted + 1;
      active := Some(Active(p, ref, admitted, if now + seconds < deadline then now + seconds else deadline, false, false, threads, turns));
      r := Admitted(admitted);
    }

    /** A turn of this purpose is active and has time left. */
    predicate InTime(p: Purpose, now: real, cancelled: bool)
      reads `retired, `active, `deadline
    {
      !retired && active.Some? && active.value.purpose == p && now < active.value.deadline && now < deadline && !cancelled
    }

    /** The active turn of a purpose, while there is time. */
    method Current(p: Purpose, now: real, cancelled: bool) returns (e: Option<Error>)
      requires Valid()
      modifies `retired
      ensures Valid() && (old(retired) ==> retired)
      ensures e == None <==> old(InTime(p, now, cancelled))
      ensures e == None ==> !retired
    {
      hide SlotsOk;
      e := Need(!retired && active.Some? && active.value.purpose == p);
      if e.Some? { return; }
      if now >= active.value.deadline {
        retired := true;
        return Some(DeadlineUnknown);
      }
      e := if cancelled then Some(TransportUnknown) else if now >= deadline then Some(DeadlineUnknown) else None;
    }

    /** The active turn of a purpose, not completed, before its time is looked at. */
    method Own(p: Purpose, proper: bool) returns (e: Option<Error>)
      requires Valid()
      modifies `retired
      ensures Valid() && retired == (old(retired) || e != None)
      ensures e == None <==> !old(retired) && active.Some? && active.value.purpose == p && !active.value.completed && proper
    {
      hide SlotsOk;
      e := Need(!retired && active.Some? && active.value.purpose == p);
      if e.Some? { return; }
      e := Need(!active.value.completed && proper);
    }

    /** A thread that no slot has. */
    predicate IsNew(answer: Option<string>)
      reads `slots
      ensures IsNew(answer) ==> answer.Some?
    {
      answer.Some? && forall q :: q in slots ==> slots[q].thread != answer
    }

    /** A slot's one thread may be asked for. */
    predicate MayStart(p: Purpose, proper: bool, now: real, cancelled: bool)
      reads `retired, `active, `deadline, `slots
    {
      InTime(p, now, cancelled) && proper && !active.value.completed && !active.value.dispatched && p in slots && !slots[p].started
    }

    method CheckStart(p: Purpose, proper: bool, now: real, cancelled: bool) returns (e: Option<Error>)
      requires Valid()
      modifies `retired
      ensures Valid() && (old(retired) ==> retired)
      ensures e == None <==> old(MayStart(p, proper, now, cancelled))
      ensures e == None <==>
                && old(!retired) && active.Some? && active.value.purpose == p && now < active.value.deadline && now < deadline && !cancelled
                && proper && !active.value.completed && !active.value.dispatched && p in slots && !slots[p].started
    {
      hide SlotsOk;
      e := Own(p, proper);
      if e.Some? { return; }
      e := Current(p, now, cancelled);
      if e.Some? { return; }
      e := Need(!slots[p].started && !active.value.dispatched);
    }

    /** Start a slot's one thread. There is always room for it: the cap on threads is implied. */
    method ThreadStart(p: Purpose, proper: bool, now: real, cancelled: bool, answer: Option<string>, bound: bool) returns (e: Option<Error>)
      requires Valid()
      modifies `retired, `slots, `threads
      ensures Valid() && (old(retired) ==> retired && e != None)
      ensures e == None <==> old(MayStart(p, proper, now, cancelled) && IsNew(answer)) && bound
      ensures e == None <==>
                && old(!retired) && active.Some? && active.value.purpose == p && now < active.value.deadline && now < deadline && !cancelled
                && proper && !active.value.completed && !active.value.dispatched && p in old(slots) && !old(slots)[p].started
                && answer.Some? && (forall q :: q in old(slots) ==> old(slots)[q].thread != answer) && bound
      ensures e == None ==> p in old(slots) && slots == old(slots)[p := old(slots)[p].(thread := answer, started := true)] && threads == old(threads) + 1
      ensures threads > old(threads) && e != None ==> retired
    {
      hide Valid, SlotsOk;
      e := CheckStart(p, proper, now, cancelled);
      if e.Some? { return; }
      StartSlot(p, answer);
      e := BindThread(p, answer, bound);
    }

    /** The thread the answer names, if no slot has it; a registry that refuses it retires all. */
    method BindThread(p: Purpose, answer: Option<string>, bound: bool) returns (e: Option<Error>)
      requires Valid() && p in slots && slots[p].started
      modifies `retired, `slots
      ensures Valid() && retired == (old(retired) || e != None)
      ensures e == None <==> old(IsNew(answer)) && bound
      ensures slots == if old(IsNew(answer)) then old(slots)[p := old(slots)[p].(thread := answer)] else old(slots)
    {
      hide Valid;
      e := Need(IsNew(answer));
      if e.Some? { return; }
      NameThread(p, answer.value);
      e := Need(bound);
    }

    /** The thread is reserved before it is asked for. */
    method StartSlot(p: Purpose, ghost answer: Option<string>)
      requires Valid() && p in slots && !slots[p].started
      modifies `slots, `threads
      ensures Valid() && slots == old(slots)[p := old(slots)[p].(started := true)] && threads == old(threads) + 1
      ensures IsNew(answer) == old(IsNew(answer))
    {
      hide SlotsOk;
      assert forall q :: q in slots ==> slots[p := slots[p].(started := true)][q].thread == slots[q].thread;
      Started(slots, turns, threads, p);
      if threads >= |slots| { assert false; }
      slots, threads := slots[p := slots[p].(started := true)], threads + 1;
    }

    method NameThread(p: Purpose, id: string)
      requires Valid() && p in slots && slots[p].started && IsNew(Some(id))
      modifies `slots
      ensures Valid() && slots == old(slots)[p := old(slots)[p].(thread := Some(id))]
    {
      hide SlotsOk;
      NamedThread(slots, turns, threads, p, id);
      slots := slots[p := slots[p].(thread := Some(id))];
    }

    /** Dispatch the active turn, once. The cap on turns is implied by the one on admissions. */
    method TurnStart(p: Purpose, proper: bool, threadId: string, now: real, cancelled: bool, ok: bool) returns (e: Option<Error>)
      requires Valid()
      modifies `retired, `slots, `turns, `active
      ensures Valid() && (old(retired) ==> retired && e != None)
      ensures e == None <==>
                && old(!retired) && old(active).Some? && old(active).value.purpose == p && now < old(active).value.deadline && now < deadline && !cancelled
                && proper && ok && !old(active).value.completed && !old(active).value.dispatched
                && p in old(slots) && old(slots)[p].thread == Some(threadId)
      ensures e == None ==> old(active).Some? && !old(active).value.dispatched && active == Some(old(active).value.(dispatched := true)) && turns == old(turns) + 1 <= 16
      ensures e == None ==> p in old(slots) && old(slots)[p].thread == Some(threadId) && slots == old(slots)[p := old(slots)[p].(turns := old(slots)[p].turns + 1, responses := 0)]
      ensures turns > old(turns) && e != None ==> retired
    {
      hide SlotsOk;
      e := Own(p, proper);
      if e.Some? { return; }
      e := Current(p, now, cancelled);
      if e.Some? { return; }
      var a := active.value;
      if !a.dispatched && turns >= TURNS { assert false; }
      e := Need(slots[p].thread == Some(threadId) && !a.dispatched);
      if e.Some? { return; }
      Turned(slots, turns, threads, p);
      active, turns := Some(a.(dispatched := true)), turns + 1;
      slots := slots[p := slots[p].(turns := slots[p].turns + 1, responses := 0)];
      if !ok {
        retired := true;
        return Some(TransportUnknown);
      }
      e := None;
    }

    /** Answer one request of the dispatched turn. */
    method Respond(p: Purpose, now: real, cancelled: bool, ok: bool, late: bool) returns (e: Option<Error>)
      requires Valid()
      modifies `retired, `slots
      ensures Valid() && (old(retired) ==> retired && e != None)
      ensures e == None <==>
                && old(!retired) && active.Some? && active.value.purpose == p && now < active.value.deadline && now < deadline && !cancelled
                && ok && !late && active.value.dispatched && !active.value.completed
                && p in old(slots) && old(slots)[p].responses < 16
      ensures e == None ==> !late && p in old(slots) && slots == old(slots)[p := old(slots)[p].(responses := old(slots)[p].responses + 1)]
      ensures e != None ==> retired && (slots == old(slots) || (late && p in old(slots) && slots == old(slots)[p := old(slots)[p].(responses := old(slots)[p].responses + 1)]))
    {
      hide SlotsOk;
      e := Need(!retired && active.Some? && active.value.purpose == p);
      if e.Some? { return; }
      e := Need(active.value.dispatched && !active.value.completed && slots[p].responses < RESPONSES);
      if e.Some? { return; }
      e := Current(p, now, cancelled);
      if e.Some? || !ok {
        retired := true;
        return Some(TransportUnknown);
      }
      Responded(slots, turns, threads, p);
      slots := slots[p := slots[p].(responses := slots[p].responses + 1)];
      if late { retired := true; }
      e := if late then Some(DeadlineUnknown) else None;
    }

    /** The dispatched turn is complete; its numbers are the coordinator's. */
    method CompleteTurn(p: Purpose, ref: string, threadId: string, turnNumber: int, registered: bool) returns (e: Option<Error>, number: nat)
      requires Valid()
      modifies `retired, `active
      ensures Valid() && (old(retired) ==> retired && e != None)
      ensures e == None <==>
                && !old(retired) && registered && old(active).Some? && old(active).value.purpose == p && old(active).value.ref == ref
                && old(active).value.dispatched && !old(active).value.completed
                && p in slots && slots[p].thread == Some(threadId) && turnNumber == slots[p].turns
      ensures e == None ==> active == Some(old(active).value.(completed := true))
      ensures e == None ==> number == admitted && p in slots && turnNumber == slots[p].turns <= number && slots[p].thread == Some(threadId)
      ensures e != None ==> active == old(active)
    {
      hide SlotsOk;
      number := 0;
      e := Need(!retired && active.Some? && active.value.purpose == p);
      if e.Some? { return; }
      var a := active.value;
      e := Need(a.ref == ref && a.dispatched && !a.completed);
      if e.Some? { return; }
      e := Need(slots[p].thread == Some(threadId) && turnNumber == slots[p].turns);
      if e.Some? { return; }
      if !registered { return Some(TransportUnknown), 0; }
      SlotTurns(slots, turns, threads, p);
      active, number := Some(a.(completed := true)), a.number;
    }

    /** A proven non-admission takes its number back; it left no dispatch of any kind. */
    method FinishNotAdmitted(p: Purpose, ref: string) returns (e: Option<Error>)
      requires Valid()
      modifies `retired, `active, `admitted
      ensures Valid() && retired
      ensures e == None <==> !old(retired) && old(active).Some? && old(active).value.purpose == p && old(active).value.ref == ref && !old(active).value.dispatched && threads == old(active).value.threadsBefore
      ensures e == None ==> active == None && admitted == old(admitted) - 1
      ensures e == None ==> old(active).Some? && turns == old(active).value.turnsBefore && threads == old(active).value.threadsBefore && !old(active).value.dispatched
      ensures e != None ==> active == old(active) && admitted == old(admitted)
    {
      hide SlotsOk;
      e := Need(!retired && active.Some? && active.value.purpose == p);
      if e.Some? { return; }
      var a := active.value;
      e := Need(a.ref == ref && !a.dispatched && threads == a.threadsBefore && turns == a.turnsBefore);
      if e.Some? { return; }
      admitted, active, retired := admitted - 1, None, true;
    }

    /** Only a completed turn is released; an unknown delivery retires the coordinator. */
    method ReleaseTurn(p: Purpose, ref: string, delivery: Delivery) returns (e: Option<Error>)
      requires Valid()
      modifies `retired, `active
      ensures Valid() && (old(retired) ==> retired && e != None)
      ensures e == None <==> !old(retired) && old(active).Some? && old(active).value.purpose == p && old(active).value.ref == ref && old(active).value.completed && (p == Conversation || delivery == NotSent)
      ensures e == None ==> active == None && retired == (delivery == UnknownDelivery)
      ensures e != None ==> active == old(active) && retired
    {
      hide SlotsOk;
      e := Need(!retired && active.Some? && active.value.purpose == p);
      if e.Some? { return; }
      e := Need(active.value.ref == ref && active.value.completed && (p == Conversation || delivery == NotSent));
      if e.Some? { return; }
      active := None;
      if delivery == UnknownDelivery { retired := true; }
    }

    method Close()
      requires Valid()
      modifies `retired
      ensures Valid() && retired
    {
      retired := true;
    }

    /** What holds after any run. */
    lemma Bounds()
      requires Valid()
      ensures TurnSum(slots) == turns <= admitted <= 16
      ensures StartedCount(slots) == threads <= 3 && |seenRefs| <= 17
      ensures forall p :: p in slots ==> slots[p].responses <= 16
      ensures active.Some? && !active.value.dispatched ==> turns < 16
      ensures forall p, q :: p in slots && q in slots && p != q && slots[p].thread.Some? ==> slots[q].thread != slots[p].thread
    {
      SlotTurns(slots, turns, threads, Conversation);
    }
  }
}
