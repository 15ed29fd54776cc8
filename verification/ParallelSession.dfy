/** The multiplexed session: one main thread, one job thread per worker, one output lock.
    Each method is one thread's step between two lock acquisitions; the gate that reads the
    wire runs along in ghost state. */
module ParallelSession {
  import opened Vocabulary
  import opened Wrappers
  import opened EpochClock
  import opened OutputGate
  import opened ParallelWorld

  class Session {
    const checks: Checks
    const workers: seq<(string, Purpose)>
    const tools: Tools
    var stop: Option<Code>
    var active: map<string, Slot>
    var seenRequests: set<string>
    var seenCalls: set<string>
    var totalsOut: nat
    var main: Main
    /** The frames on the wire, the gate that has read them, and how many of each there are. */
    ghost var sent: seq<(Outer, nat)>
    ghost var gate: Gate
    ghost var tally: Tally
    /** How many frames were out when the end began. */
    ghost var ordinary: nat

    /** The gate has accepted everything that is out, and counts no more bytes than the session. */
    ghost predicate Wired()
      reads `sent, `gate, `totalsOut
    {
      && Run(checks, START, sent) == Some(gate)
      && gate.custody == Some(workers) && !gate.closed && !gate.receipt
      && gate.innerBytes <= totalsOut <= WIRE_BYTES && gate.controlBytes <= CONTROL_CAP
    }

    /** The announcements go out first, one worker at a time; then everyone agrees. */
    ghost predicate Staffed()
      reads `gate, `tally, `main, `active, `seenRequests, `seenCalls
    {
      && tally.announced <= |workers| + 1
      && (tally.announced == 0 <==> !gate.ready) && (!gate.ready ==> gate.members == map[])
      && (gate.ready ==> Known(gate.members, workers, tools) && gate.members.Keys == IdsOf(workers))
      && (tally.announced <= |workers| ==> active == map[] && (main == Announcing(tally.announced) || main == Ending))
      && (0 < tally.announced <= |workers| ==> PartlyOut(workers, gate.members, tally.announced - 1))
      && (tally.announced == |workers| + 1 ==>
            && Now().Good(checks)
            && main != Settled && (main.Announcing? ==> main.n == |workers| + 1 && active == map[]))
    }

    ghost function Now(): World
      reads `gate, `tally, `main, `active, `seenRequests, `seenCalls
    {
      World(gate.members, active, main, tally, seenRequests, seenCalls)
    }

    ghost predicate Accounted()
      reads `gate, `tally, `main, `seenRequests, `seenCalls
    {
      && gate.frames == tally.Frames()
      && tally.Bounded(seenRequests, seenCalls, Room(main), |workers|)
    }

    /** After the end: what the gate had accepted, and then only last frames. */
    ghost predicate Over()
      reads `sent, `gate, `ordinary, `stop
    {
      && stop.Some? && ordinary <= |sent| <= 579
      && Run(checks, START, sent[..ordinary]) == Some(gate) && gate.innerBytes <= INNER_CAP
      && forall i :: ordinary <= i < |sent| ==> Last(sent[i].0)
    }

    ghost predicate Valid()
      reads this
    {
      Configured(checks, workers, tools) && if main == Settled then Over() else Wired() && Staffed() && Accounted()
    }

    constructor (checks: Checks, workers: seq<(string, Purpose)>, tools: Tools, custodyBytes: nat)
      requires Configured(checks, workers, tools) && custodyBytes <= CONTROL_CAP
      ensures Valid() && main == Announcing(0) && stop == None && sent == [(Custody(workers), custodyBytes)]
      ensures this.checks == checks && this.workers == workers && this.tools == tools && totalsOut == 0
    {
      this.checks, this.workers, this.tools := checks, workers, tools;
      stop, active, seenRequests, seenCalls, totalsOut, main := None, map[], {}, {}, 0, Announcing(0);
      sent := [(Custody(workers), custodyBytes)];
      gate := START.(custody := Some(workers), frames := 1, controlBytes := custodyBytes);
      tally, ordinary := Tally(0, {}, {}, 0, {}, {}, {}), 0;
      assert [(Custody(workers), custodyBytes)][..0] == [];
    }

    /** Whether a frame written now goes out in full. */
    predicate Goes(size: nat, o: Outcome)
      reads `stop, `totalsOut
    {
      stop == None && size <= FRAME_BYTES && totalsOut + size <= WIRE_BYTES && o.Sent?
    }

    lemma Working()
      requires Valid() && main != Settled
      ensures Configured(checks, workers, tools) && Wired() && Staffed() && Accounted()
    {
    }

    lemma Resume()
      requires Configured(checks, workers, tools) && Wired() && Staffed() && Accounted() && main != Settled
      ensures Valid()
    {
    }

    /** Write one worker's frame under the output lock. */
    method Put(id: string, f: Inner, size: nat, o: Outcome) returns (ok: bool, ghost out: bool)
      requires Wired() && gate.ready && id in gate.members && checks.identifier(id)
      requires MemberStep(checks, gate.members[id], f).Some? && gate.frames < FRAME_COUNT
      modifies `totalsOut, `stop, `gate, `sent
      ensures Wired() && gate.ready && (ok ==> out)
      ensures old(stop).Some? ==> !out
      ensures stop == old(stop) || (old(stop) == None && stop == Some(IoUnknown) && !ok)
      ensures out ==> sent == old(sent) + [(Worker(id, f), size)]
      ensures out ==> gate == GateAfter(old(gate), id, MemberStep(checks, old(gate).members[id], f).value, size)
      ensures !out ==> sent == old(sent) && gate == old(gate)
      ensures ok <==> old(Goes(size, o))
      ensures ok <==> old(stop) == None && size <= 3145728 && old(totalsOut) + size <= 536870912 && o.Sent?
    {
      hide MemberStep, Run;
      ok, out := false, false;
      if stop.Some? || size > FRAME_BYTES || totalsOut + size > WIRE_BYTES { return; }
      totalsOut := totalsOut + size;
      if o.Sent? || o.delivered {
        RunMore(checks, START, sent, Worker(id, f), size);
        gate := GateAfter(gate, id, MemberStep(checks, gate.members[id], f).value, size);
        sent := sent + [(Worker(id, f), size)];
        out := true;
      }
      if o.Doubtful? && o.diagnosed { stop := Some(IoUnknown); }
      ok := o.Sent?;
    }

    /** The announcement of the pool itself. */
    method AnnouncePool(size: nat, o: Outcome)
      requires Valid() && main == Announcing(0)
      modifies `totalsOut, `stop, `gate, `sent, `tally, `main
      ensures Valid() && (main == Announcing(1) || main == Ending)
      ensures stop == old(stop) || (old(stop) == None && stop == Some(IoUnknown) && main == Ending)
      ensures (main == Announcing(1) <==> old(Goes(size, o)))
      ensures sent == old(sent) + [(PoolReady(workers), size)] || (main == Ending && sent == old(sent))
    {
      hide Valid, Configured, Wired, Staffed, Accounted, AtPool, Run, Fresh;
      ghost var g, t, before, total := gate, tally, sent, totalsOut;
      BeforePool();
      var fits := stop == None && size <= FRAME_BYTES && totalsOut + size <= WIRE_BYTES;
      if fits {
        totalsOut := totalsOut + size;
        if o.Sent? || o.delivered {
          gate := gate.(frames := gate.frames + 1, innerBytes := gate.innerBytes + size, ready := true, members := Fresh(workers));
          sent := sent + [(PoolReady(workers), size)];
          tally := tally.(announced := tally.announced + 1);
        }
        if o.Doubtful? && o.diagnosed { stop := Some(IoUnknown); }
      }
      main := if fits && o.Sent? then Announcing(1) else Ending;
      if gate.ready { AfterPool(g, t, before, size); } else { NoPool(total); }
      Resume();
    }

    /** Nothing but the custody proofs is out. */
    ghost predicate AtPool(g: Gate, t: Tally, before: seq<(Outer, nat)>, total: nat)
      reads `active, `seenRequests, `seenCalls
    {
      && Run(checks, START, before) == Some(g) && g.custody == Some(workers) && !g.closed && !g.receipt && !g.ready && g.members == map[]
      && g.innerBytes <= total <= WIRE_BYTES && g.controlBytes <= CONTROL_CAP && active == map[]
      && t.announced == 0 && g.frames == t.Frames() && t.Bounded(seenRequests, seenCalls, 0, |workers|)
    }

    lemma BeforePool()
      requires Valid() && main == Announcing(0)
      ensures Configured(checks, workers, tools) && AtPool(gate, tally, sent, totalsOut) && !gate.ready && totalsOut <= WIRE_BYTES
    {
      hide Configured, World.Good, Known, PartlyOut, Run, Tally.Bounded, Tally.Frames;
    }

    lemma AfterPool(g: Gate, t: Tally, before: seq<(Outer, nat)>, size: nat)
      requires Configured(checks, workers, tools) && size <= totalsOut && AtPool(g, t, before, totalsOut - size) && totalsOut <= WIRE_BYTES
      requires sent == before + [(PoolReady(workers), size)] && tally == t.(announced := t.announced + 1) && (main == Announcing(1) || main == Ending)
      requires gate == g.(frames := g.frames + 1, innerBytes := g.innerBytes + size, ready := true, members := Fresh(workers))
      ensures Wired() && Staffed() && Accounted()
    {
      hide Configured, World.Good, Known, PartlyOut, Run, Fresh, DistinctIds, Tally.Bounded, Tally.Frames;
      FramesBounded(t, seenRequests, seenCalls, 0, |workers|);
      OneMoreAnnounced(t, seenRequests, seenCalls, 0, |workers|);
      ConfiguredHas(checks, workers, tools);
      RunMore(checks, START, before, PoolReady(workers), size);
      FreshOut(workers, tools);
    }

    lemma NoPool(total: nat)
      requires AtPool(gate, tally, sent, total) && total <= totalsOut <= WIRE_BYTES && main == Ending
      ensures Wired() && Staffed() && Accounted()
    {
      hide Run, Tally.Bounded, Tally.Frames;
    }

    /** The announcement of one worker and its tools. */
    method AnnounceWorker(size: nat, o: Outcome)
      requires Valid() && main.Announcing? && 1 <= main.n <= |workers|
      modifies `totalsOut, `stop, `gate, `sent, `tally, `main
      ensures Valid() && (main == Announcing(old(main).n + 1) || main == Ending)
      ensures main != Ending <==> old(Goes(size, o))
      ensures sent == old(sent) + [(Worker(workers[old(main).n - 1].0, Ready(workers[old(main).n - 1].1, tools(workers[old(main).n - 1].1))), size)] || (main == Ending && sent == old(sent))
    {
      hide Valid, Configured, MemberStep, Wired, Staffed, Accounted, AtWorker, Run, Goes, GateAfter;
      var n := main.n - 1;
      var (id, purpose) := workers[n];
      ghost var g, t := gate, tally;
      ghost var out;
      var ok;
      BeforeWorker(n);
      ok, out := Put(id, Ready(purpose, tools(purpose)), size, o);
      main := if ok then Announcing(n + 2) else Ending;
      if out {
        tally := tally.(announced := tally.announced + 1);
        AfterWorker(g, t, n, size);
      } else {
        NoWorker(n);
      }
      Resume();
    }

    /** The n-th worker is the next to be announced. */
    ghost predicate AtWorker(g: Gate, t: Tally, n: nat)
      reads `active, `seenRequests, `seenCalls
    {
      && n < |workers| && Known(g.members, workers, tools) && PartlyOut(workers, g.members, n) && g.ready && active == map[]
      && t.announced == n + 1 && g.frames == t.Frames() && t.Bounded(seenRequests, seenCalls, 0, |workers|)
    }

    lemma BeforeWorker(n: nat)
      requires Valid() && main == Announcing(n + 1) && n < |workers|
      ensures Configured(checks, workers, tools) && Wired() && AtWorker(gate, tally, n)
      ensures gate.ready && workers[n].0 in gate.members && checks.identifier(workers[n].0) && gate.frames < FRAME_COUNT
      ensures MemberStep(checks, gate.members[workers[n].0], Ready(workers[n].1, tools(workers[n].1))).Some?
    {
      hide MemberStep, World.Good, Known, PartlyOut, Wired, DistinctIds, Tally.Bounded, Tally.Frames;
      AtAnnouncement();
      FramesBounded(tally, seenRequests, seenCalls, 0, |workers|);
      ConfiguredHas(checks, workers, tools);
      OneMoreOut(checks, workers, gate.members, tools, n);
    }

    lemma AfterWorker(g: Gate, t: Tally, n: nat, size: nat)
      requires Configured(checks, workers, tools) && AtWorker(g, t, n)
      requires MemberStep(checks, g.members[workers[n].0], Ready(workers[n].1, tools(workers[n].1))).Some?
      requires gate == GateAfter(g, workers[n].0, MemberStep(checks, g.members[workers[n].0], Ready(workers[n].1, tools(workers[n].1))).value, size)
      requires tally == t.(announced := t.announced + 1) && (main == Announcing(n + 2) || main == Ending)
      ensures Staffed() && Accounted()
    {
      hide Configured, MemberStep, World.Good, PartlyOut, DistinctIds, Tally.Bounded, Tally.Frames;
      ConfiguredHas(checks, workers, tools);
      OneMoreOut(checks, workers, g.members, tools, n);
      OneMoreAnnounced(t, seenRequests, seenCalls, 0, |workers|);
      if tally.announced == |workers| + 1 { NobodyYet(checks, workers, Now()); }
    }

    lemma NoWorker(n: nat)
      requires AtWorker(gate, tally, n) && main == Ending
      ensures Staffed() && Accounted()
    {
      hide PartlyOut, Tally.Bounded, Tally.Frames;
    }

    /** Announcing is where the announcements are. */
    lemma AtAnnouncement()
      requires Valid() && main.Announcing? && main.n <= |workers|
      ensures tally.announced == main.n && active == map[]
    {
    }

    /** The receiver starts once every worker is announced. */
    method StartLoop()
      requires Valid() && main == Announcing(|workers| + 1)
      modifies `main
      ensures Valid() && main == Looping
    {
      hide Configured, Known, PartlyOut, Run;
      main := Looping;
      LoopGood(checks, Now(), |workers| + 1);
    }

    /** A slot exists only after every worker was announced. */
    lemma AtWork(id: string)
      requires Valid() && main != Settled && id in active
      ensures tally.announced == |workers| + 1 && gate.ready && Now().Good(checks) && id in gate.members
      ensures Agrees(checks, gate.members[id], Some(active[id]), DutyOf(main, id)) && Due(tally, Some(active[id]), DutyOf(main, id))
      ensures active[id].ref in seenRequests && tally.tools <= seenCalls
      ensures gate.members[id].ready ==> gate.members[id].tools == tools(gate.members[id].purpose)
      ensures gate.members[id].purpose == PurposeAtWork(id) && checks.identifier(id)
      ensures Known(gate.members, workers, tools) && gate.members[id].ready && !main.Announcing?
    {
      hide Due, World.Good, Configured, SlotAgrees;
      GoodAt(checks, Now(), id);
      ConfiguredHas(checks, workers, tools);
    }

    function PurposeAtWork(id: string): Purpose {
      if id in IdsOf(workers) then PurposeOf(workers, id) else Conversation
    }

    /** The first cause of a stop stays. */
    method Halt(code: Code)
      requires Valid()
      modifies `stop
      ensures Valid() && stop == if old(stop).None? then Some(code) else old(stop)
    {
      hide World.Good, Configured, Wired, Accounted, Staffed, Run;
      if stop == None { stop := Some(code); }
    }

    lemma StoppedAtEnd()
      requires Valid() && main == Settled
      ensures stop.Some?
    {
    }

    /** A running job asks for a tool: checks under the condition lock. */
    method ClaimTool(id: string, callRef: string, name: string, native: (string, string), proper: bool) returns (ok: bool)
      requires Valid() && id in active && active[id].job.Outside? && !active[id].done
      modifies `active, `seenCalls, `stop
      ensures Valid()
      ensures ok <==>
                && old(stop) == None && proper && old(active[id].phase) == Running && old(active[id].call) == None
                && name in tools(PurposeAtWork(id)) && (old(active[id].native) == None || old(active[id].native) == Some(native))
                && checks.identifier(callRef) && callRef !in old(seenCalls) && |old(seenCalls)| < 128
      ensures ok ==> stop == None && seenCalls == old(seenCalls) + {callRef}
      ensures ok ==> active == old(active)[id := old(active[id]).(native := Some(native), call := Some(Call(callRef, false)), job := Claimed(callRef, name))]
      ensures !ok ==> stop.Some? && seenCalls == old(seenCalls) && active == old(active)[id := old(active[id]).(job := Broken)]
    {
      hide Valid, IdsOf;
      var s, purpose := active[id], PurposeAtWork(id);
      if main == Settled { StoppedAtEnd(); }
      ok := stop == None && proper && s.phase == Running && s.call == None && name in tools(purpose)
        && (s.native == None || s.native == Some(native)) && checks.identifier(callRef) && callRef !in seenCalls && |seenCalls| < CALLS;
      if !ok {
        FailTool(id, ProtocolRefused);
        return;
      }
      Claim(id, callRef, name, native);
    }

    method Claim(id: string, callRef: string, name: string, native: (string, string))
      requires Valid() && main != Settled && id in active && active[id].job.Outside? && !active[id].done
      requires active[id].phase == Running && active[id].call == None && name in tools(PurposeAtWork(id))
      requires (active[id].native == None || active[id].native == Some(native)) && checks.identifier(callRef) && callRef !in seenCalls && |seenCalls| < CALLS
      modifies `active, `seenCalls
      ensures Valid() && seenCalls == old(seenCalls) + {callRef}
      ensures active == old(active)[id := old(active[id]).(native := Some(native), call := Some(Call(callRef, false)), job := Claimed(callRef, name))]
    {
      hide Valid, Agrees, Due, World.Good, Configured, Wired, Known, Tally.Bounded, IdsOf;
      var s := active[id];
      Working();
      AtWork(id);
      SlotFacts(checks, gate.members[id], s, DutyOf(main, id));
      var claimed := s.(native := Some(native), call := Some(Call(callRef, false)), job := Claimed(callRef, name));
      SomeTools(checks, workers, tools, id);
      SameSlot(checks, tally, gate.members[id], s, claimed, DutyOf(main, id));
      SlotStep(checks, Now(), id, claimed, seenCalls + {callRef});
      MoreCalls(tally, seenRequests, seenCalls, callRef, Room(main), |workers|);
      seenCalls, active := seenCalls + {callRef}, active[id := claimed];
      Resume();
    }

    /** The frame counts fit, and one more frame of a known worker goes out; then the main thread goes on
        or gives up. Slots are the caller's. */
    method Emit(id: string, f: Inner, size: nat, o: Outcome, ghost t: Tally, next: Main, fail: Main) returns (ok: bool, ghost out: bool)
      requires Wired() && Accounted() && gate.ready && Known(gate.members, workers, tools) && checks.identifier(id)
      requires tally.announced == |workers| + 1 && id in gate.members && gate.members[id].ready
      requires Keeps(checks, gate.members[id], f)
      requires t.Frames() == tally.Frames() + 1 && t.announced == tally.announced
      requires t.Bounded(seenRequests, seenCalls, Room(next), |workers|) && t.Bounded(seenRequests, seenCalls, Room(fail), |workers|)
      requires tally.Bounded(seenRequests, seenCalls, Room(fail), |workers|)
      modifies `totalsOut, `stop, `gate, `sent, `tally, `main
      ensures Wired() && Accounted() && gate.ready && Known(gate.members, workers, tools)
      ensures (ok ==> out && old(stop) == None) && (ok <==> old(Goes(size, o)))
      ensures stop == old(stop) || (old(stop) == None && stop == Some(IoUnknown) && !ok)
      ensures main == (if ok then next else fail) && tally.announced == old(tally).announced
      ensures out ==> tally == t && gate.members == old(gate).members[id := MemberStep(checks, old(gate).members[id], f).value]
      ensures out ==> sent == old(sent) + [(Worker(id, f), size)]
      ensures !out ==> tally == old(tally) && gate == old(gate) && sent == old(sent)
      ensures old(stop).Some? ==> !out
    {
      hide MemberStep, Known, Wired, Tally.Bounded, Tally.Frames;
      FramesBounded(tally, seenRequests, seenCalls, Room(main), |workers|);
      ghost var members := gate.members;
      ok, out := Put(id, f, size, o);
      if out {
        KnownKept(members, workers, tools, id, MemberStep(checks, members[id], f).value);
        tally := t;
      }
      main := if ok then next else fail;
    }

    lemma StillStaffed()
      requires tally.announced == |workers| + 1 && gate.ready && Known(gate.members, workers, tools) && Now().Good(checks)
      requires main != Settled && !main.Announcing?
      ensures Staffed()
    {
    }

    /** Write the claimed call. */
    method WriteTool(id: string, size: nat, o: Outcome) returns (ok: bool)
      requires Valid() && id in active && active[id].job.Claimed?
      modifies `totalsOut, `stop, `gate, `sent, `tally, `active, `main
      ensures Valid() && main == old(main)
      ensures old(stop).Some? ==> sent == old(sent)
      ensures ok == old(Goes(size, o))
      ensures sent == old(sent) + [(Worker(id, Tool(PurposeAtWork(id), old(active[id]).ref, old(active[id]).job.callRef, old(active[id]).job.name)), size)] || (!ok && sent == old(sent))
      ensures active == old(active)[id := old(active[id]).(job := if ok then Waiting(old(active[id]).job.callRef) else Broken)]
      ensures ok ==> stop == old(stop) == None
    {
      hide Valid;
      ok := false;
      if stop.Some? {
        ChangeCall(id, active[id].call, Broken, active[id].done);
      } else {
        if main == Settled { StoppedAtEnd(); }
        ok := SendTool(id, size, o);
      }
    }

    method SendTool(id: string, size: nat, o: Outcome) returns (ok: bool)
      requires Valid() && main != Settled && stop == None && id in active && active[id].job.Claimed?
      modifies `totalsOut, `stop, `gate, `sent, `tally, `active, `main
      ensures Valid() && main == old(main) && (ok ==> stop == None)
      ensures ok == old(Goes(size, o))
      ensures sent == old(sent) + [(Worker(id, Tool(PurposeAtWork(id), old(active[id]).ref, old(active[id]).job.callRef, old(active[id]).job.name)), size)] || (!ok && sent == old(sent))
      ensures active == old(active)[id := old(active[id]).(job := if ok then Waiting(old(active[id]).job.callRef) else Broken)]
    {
      hide Valid, Goes, Agrees, Due, World.Good, Configured, Wired, MemberStep, Known, Staffed, Tally.Bounded, ClaimOk;
      Working();
      AtWork(id);
      ghost var w := Now();
      var s := active[id];
      ToolOut(checks, w, id, Waiting(s.job.callRef));
      ToolOut(checks, w, id, Broken);
      BrokenOut(checks, w, id);
      OneMoreCall(tally, seenRequests, seenCalls, s.job.callRef, Room(main), |workers|);
      ghost var out;
      ok, out := Emit(id, Tool(PurposeAtWork(id), s.ref, s.job.callRef, s.job.name), size, o,
                      tally.(tools := tally.tools + {s.job.callRef}), main, main);
      active := active[id := s.(job := if ok then Waiting(s.job.callRef) else Broken)];
      assert out ==> Now() == WithTool(w, id, gate.members[id], active[id]);
      assert !out ==> Now() == w.(active := active);
      StillStaffed();
      Resume();
    }

    /** The main thread is writing only when every worker was announced. */
    lemma {:induction false} AtWriting()
      requires Valid() && (main.Refusing? || main.Scoping? || main.Exporting? || main.Completing? || main.Releasing?)
      requires main.Releasing? ==> main.id in IdsOf(workers)
      ensures tally.announced == |workers| + 1 && gate.ready && Now().Good(checks) && main.id in gate.members
      ensures main.Releasing? || main.id in active
      ensures Known(gate.members, workers, tools) && gate.members[main.id].ready
      ensures gate.members[main.id].purpose == PurposeAtWork(main.id) && checks.identifier(main.id)
    {
      hide Due, World.Good, Configured, SlotAgrees;
      SamePlace(checks, Now());
      ConfiguredHas(checks, workers, tools);
      if !main.Releasing? { GoodAt(checks, Now(), main.id); }
      AgreeAt(checks, Now(), main.id);
    }

    /** Tell the host that a worker's turn was not admitted. */
    method WriteRefusal(size: nat, o: Outcome) returns (ok: bool)
      requires Valid() && main.Refusing?
      modifies `totalsOut, `stop, `gate, `sent, `tally, `main
      ensures Valid() && main == if ok then Looping else Ending
      ensures ok == old(Goes(size, o))
      ensures sent == old(sent) + [(Worker(old(main).id, NotAdmitted(PurposeAtWork(old(main).id), active[old(main).id].ref, old(main).reason, old(main).turns)), size)] || (!ok && sent == old(sent))
    {
      hide Valid, Goes, Agrees, Due, World.Good, Configured, Wired, MemberStep, Known, Staffed, Tally.Bounded;
      Working();
      AtWriting();
      ghost var w, id := Now(), main.id;
      var s := active[main.id];
      RefusalOut(checks, w, Looping);
      RefusalOut(checks, w, Ending);
      GiveUp(checks, w);
      OneMoreRefusal(tally, seenRequests, seenCalls, s.ref, 0, |workers|);
      ghost var out;
      ok, out := Emit(main.id, NotAdmitted(PurposeAtWork(main.id), s.ref, main.reason, main.turns), size, o, Refused(tally, s.ref), Looping, Ending);
      assert out ==> Now() == After(w, id, gate.members[id], Refused(w.tally, s.ref), main);
      assert !out ==> Now() == w.(main := Ending);
      StillStaffed();
      Resume();
    }

    /** Publish the scope of an observed turn. */
    method WriteScope(size: nat, o: Outcome) returns (ok: bool)
      requires Valid() && main.Scoping?
      modifies `totalsOut, `stop, `gate, `sent, `tally, `main
      ensures Valid() && main == if ok then Exporting(old(main).id, old(main).scope, old(main).answer, 0, 0) else Ending
      ensures ok == old(Goes(size, o))
      ensures sent == old(sent) + [(Worker(old(main).id, Scoped(old(main).scope)), size)] || (!ok && sent == old(sent))
    {
      hide Valid, Goes, Agrees, Due, World.Good, Configured, Wired, MemberStep, Known, Staffed, Tally.Bounded;
      Working();
      AtWriting();
      ghost var w, id, ref := Now(), main.id, active[main.id].ref;
      var next := Exporting(main.id, main.scope, main.answer, 0, 0);
      FinishedScoped(tally, seenRequests, seenCalls, 0, |workers|);
      ScopeOut(checks, w, next);
      ScopeOut(checks, w, Ending);
      GiveUp(checks, w);
      OneMoreScope(tally, seenRequests, seenCalls, ref, |workers|);
      ghost var out;
      ok, out := Emit(main.id, Scoped(main.scope), size, o, ScopeSent(tally, ref), next, Ending);
      assert out ==> Now() == After(w, id, gate.members[id], ScopeSent(w.tally, ref), main);
      assert !out ==> Now() == w.(main := Ending);
      StillStaffed();
      Resume();
    }

    /** Export one frame of the image, within the export's own bounds. */
    method WriteImage(part: nat, bytes: nat, size: nat, o: Outcome) returns (ok: bool)
      requires Valid() && main.Exporting? && main.answer.image
      modifies `totalsOut, `stop, `gate, `sent, `tally, `main
      ensures Valid()
      ensures ok <==> old(Goes(size, o)) && old(main).parts < 24 && old(main).size + bytes <= 12582912
      ensures main == if ok then old(main).(parts := old(main).parts + 1, size := old(main).size + bytes) else Ending
      ensures sent == old(sent) + [(Worker(old(main).id, Image(part)), size)] || (!ok && sent == old(sent))
    {
      hide Valid, Goes;
      ok := false;
      if main.parts >= IMAGE_FRAMES || main.size + bytes > IMAGE_BYTES {
        EndMain();
      } else {
        ok := SendImage(part, bytes, size, o);
      }
    }

    method SendImage(part: nat, bytes: nat, size: nat, o: Outcome) returns (ok: bool)
      requires Valid() && main.Exporting? && main.answer.image && main.parts < IMAGE_FRAMES
      modifies `totalsOut, `stop, `gate, `sent, `tally, `main
      ensures Valid() && ok == old(Goes(size, o))
      ensures sent == old(sent) + [(Worker(old(main).id, Image(part)), size)] || (!ok && sent == old(sent))
      ensures main == if ok then old(main).(parts := old(main).parts + 1, size := old(main).size + bytes) else Ending
    {
      hide Valid, Goes, Agrees, Due, World.Good, Configured, Wired, MemberStep, Known, Staffed, Tally.Bounded;
      Working();
      AtWriting();
      ghost var w, id := Now(), main.id;
      var next := main.(parts := main.parts + 1, size := main.size + bytes);
      ImageOut(checks, w, part, next.size, next);
      ImageOut(checks, w, part, next.size, Ending);
      GiveUp(checks, w);
      OneMoreImage(tally, seenRequests, seenCalls, Room(next), |workers|);
      ghost var out;
      ok, out := Emit(main.id, Image(part), size, o, ImageSent(tally), next, Ending);
      assert out ==> Now() == After(w, id, w.members[id], ImageSent(w.tally), main);
      assert !out ==> Now() == w.(main := Ending);
      StillStaffed();
      Resume();
    }

    /** Publish the answer. */
    method WriteCompleted(size: nat, o: Outcome) returns (ok: bool)
      requires Valid() && main.Completing?
      modifies `totalsOut, `stop, `gate, `sent, `tally, `main
      ensures Valid() && main == if ok then Looping else Ending
      ensures ok == old(Goes(size, o))
      ensures sent == old(sent) + [(Worker(old(main).id, Completed(old(main).scope, old(main).answer)), size)] || (!ok && sent == old(sent))
    {
      hide Valid, Goes, Agrees, Due, World.Good, Configured, Wired, MemberStep, Known, Staffed, Tally.Bounded;
      Working();
      AtWriting();
      ghost var w, id, ref := Now(), main.id, active[main.id].ref;
      CompletedOut(checks, w, Looping);
      CompletedOut(checks, w, Ending);
      GiveUp(checks, w);
      OneMoreAnswer(tally, seenRequests, seenCalls, ref, 0, |workers|);
      ghost var out;
      ok, out := Emit(main.id, Completed(main.scope, main.answer), size, o, Finished(tally, ref), Looping, Ending);
      assert out ==> Now() == After(w, id, gate.members[id], Finished(w.tally, ref), main);
      assert !out ==> Now() == w.(main := Ending);
      StillStaffed();
      Resume();
    }

    /** Confirm a release; an unknown delivery also ends the session. */
    method WriteReleased(size: nat, o: Outcome) returns (ok: bool)
      requires Valid() && main.Releasing? && main.id in IdsOf(workers)
      modifies `totalsOut, `stop, `gate, `sent, `tally, `main
      ensures Valid() && main == if ok && old(main).delivery != UnknownDelivery then Looping else Ending
      ensures ok == old(Goes(size, o))
      ensures sent == old(sent) + [(Worker(old(main).id, Released(PurposeAtWork(old(main).id), old(main).ref, old(main).delivery)), size)] || (!ok && sent == old(sent))
    {
      hide Valid, Goes, Agrees, Due, World.Good, Configured, Wired, MemberStep, Known, Staffed, Tally.Bounded;
      Working();
      AtWriting();
      ghost var w, id, ref := Now(), main.id, main.ref;
      var next := if main.delivery == UnknownDelivery then Ending else Looping;
      ReleasedOut(checks, w, next);
      ReleasedOut(checks, w, Ending);
      GiveUp(checks, w);
      OneMoreRelease(tally, seenRequests, seenCalls, ref, 0, |workers|);
      ghost var out;
      ok, out := Emit(main.id, Released(PurposeAtWork(main.id), main.ref, main.delivery), size, o, Freed(tally, ref), next, Ending);
      assert out ==> Now() == After(w, id, gate.members[id], Freed(w.tally, ref), main);
      assert !out ==> Now() == w.(main := Ending);
      StillStaffed();
      Resume();
    }

    /** A turn from the host starts a job on an idle worker. */
    method TakeTurn(id: string, ref: string, proper: bool) returns (ok: bool)
      requires Valid() && main == Looping
      modifies `main, `active, `seenRequests
      ensures Valid()
      ensures ok <==> stop == None && proper && id in IdsOf(workers) && id !in old(active) && checks.identifier(ref) && ref !in old(seenRequests) && |old(seenRequests)| < 16
      ensures ok ==> main == Looping && seenRequests == old(seenRequests) + {ref}
      ensures ok ==> active == old(active)[id := Slot(ref, Running, None, None, Outside, false)]
      ensures !ok ==> main == Ending && active == old(active) && seenRequests == old(seenRequests)
    {
      hide Valid, IdsOf;
      ok := stop == None && proper && id in IdsOf(workers) && id !in active && checks.identifier(ref) && ref !in seenRequests && |seenRequests| < REQUESTS;
      if !ok {
        EndMain();
        return;
      }
      OpenSlot(id, ref);
    }

    method OpenSlot(id: string, ref: string)
      requires Valid() && main == Looping && id in IdsOf(workers) && id !in active
      requires checks.identifier(ref) && ref !in seenRequests && |seenRequests| < REQUESTS
      modifies `active, `seenRequests
      ensures Valid() && seenRequests == old(seenRequests) + {ref}
      ensures active == old(active)[id := Slot(ref, Running, None, None, Outside, false)]
    {
      hide World.Good, Configured, Wired, Staffed, Accounted, Known, Tally.Bounded, Tally.Frames, IdsOf, Valid;
      ghost var w := Now();
      Working();
      AtLoop(id);
      InLoop();
      MoreRequests(tally, seenRequests, seenCalls, ref, 0, |workers|);
      NewTurn(checks, w, id, ref);
      seenRequests := seenRequests + {ref};
      active := active[id := Slot(ref, Running, None, None, Outside, false)];
      StillLooping();
      Resume();
    }

    lemma InLoop()
      requires Valid() && main == Looping
      ensures gate.frames == tally.Frames() && tally.Bounded(seenRequests, seenCalls, 0, |workers|)
    {
    }

    lemma StillLooping()
      requires main == Looping && tally.announced == |workers| + 1 && gate.ready && Known(gate.members, workers, tools)
      requires Now().Good(checks) && gate.frames == tally.Frames() && tally.Bounded(seenRequests, seenCalls, 0, |workers|)
      ensures Staffed() && Accounted()
    {
      hide World.Good, Tally.Bounded, Tally.Frames;
    }

    lemma AtLoop(id: string)
      requires Valid() && main == Looping && id in IdsOf(workers)
      ensures tally.announced == |workers| + 1 && Now().Good(checks) && id in gate.members && gate.ready
      ensures Known(gate.members, workers, tools) && gate.members[id].purpose == PurposeAtWork(id)
    {
    }

    /** A tool result from the host reaches the call that waits for it. */
    method AnswerTool(id: string, callRef: string, proper: bool) returns (ok: bool)
      requires Valid() && main == Looping
      modifies `main, `active
      ensures Valid()
      ensures ok <==> stop == None && proper && id in old(active) && old(active[id].phase) == Running && old(active[id].call) == Some(Call(callRef, false))
      ensures ok ==> main == Looping && active == old(active)[id := old(active[id]).(call := Some(Call(callRef, true)))]
      ensures !ok ==> main == Ending && active == old(active)
    {
      hide Agrees, Due, World.Good, Configured, Wired, Accounted, Staffed;
      ok := stop == None && proper && id in active && active[id].phase == Running && active[id].call == Some(Call(callRef, false));
      if !ok {
        EndMain();
        return;
      }
      ChangeCall(id, Some(Call(callRef, true)), active[id].job, active[id].done);
    }

    /** Change a slot's call and job only. */
    method ChangeCall(id: string, call: Option<Call>, job: Job, done: bool)
      requires Valid() && id in active && (job == active[id].job || !job.Claimed?) && (active[id].done ==> done) && (done && job.Claimed? ==> active[id].done)
      modifies `active
      ensures Valid() && active == old(active)[id := old(active[id]).(call := call, job := job, done := done)]
    {
      hide Agrees, Due, World.Good, Configured, Wired, Over, Accounted, Staffed, Known;
      ghost var w := Now();
      var s := active[id].(call := call, job := job, done := done);
      if main != Settled {
        AtWork(id);
        SlotFacts(checks, gate.members[id], active[id], DutyOf(main, id));
        SameSlot(checks, tally, gate.members[id], active[id], s, DutyOf(main, id));
        CallStep(checks, w, id, s);
      }
      active := active[id := s];
      if main != Settled { StillStaffed(); }
    }

    /** The answer reaches the job; a stopped session answers nobody. */
    method ReturnTool(id: string) returns (ok: bool)
      requires Valid() && id in active && active[id].job.Waiting? && active[id].call.Some?
      modifies `active
      ensures Valid()
      ensures ok <==> stop == None && old(active[id].call.value.answered)
      ensures ok ==> active == old(active)[id := old(active[id]).(call := None, job := Outside)]
      ensures !ok && stop == None ==> active == old(active)
      ensures !ok && stop.Some? ==> active == old(active)[id := old(active[id]).(job := Broken)]
    {
      hide Wired, Accounted, Staffed, Configured;
      ok := stop == None && active[id].call.value.answered;
      if ok {
        ChangeCall(id, None, Outside, active[id].done);
      } else if stop.Some? {
        ChangeCall(id, active[id].call, Broken, active[id].done);
      }
    }

    /** A callback that fails stops the session; its call stays where it was. */
    method FailTool(id: string, code: Code)
      requires Valid() && id in active
      modifies `active, `stop
      ensures Valid() && stop.Some? && (old(stop).Some? ==> stop == old(stop))
      ensures active == old(active)[id := old(active[id]).(job := Broken)]
    {
      hide Wired, Accounted, Staffed, Configured;
      ChangeCall(id, active[id].call, Broken, active[id].done);
      Halt(code);
    }

    /** A job ends outside its callbacks. */
    method FinishJob(id: string)
      requires Valid() && id in active && (active[id].job.Outside? || active[id].job.Broken?)
      modifies `active
      ensures Valid() && active == old(active)[id := old(active[id]).(done := true)]
    {
      ChangeCall(id, active[id].call, active[id].job, true);
    }

    /** The main thread collects a finished job. */
    method Collect(id: string, result: JobResult) returns (ok: bool)
      requires Valid() && main == Looping && id in active && active[id].phase == Running && active[id].done
      modifies `main, `active
      ensures Valid()
      ensures result.Crashed? ==> !ok
      ensures result.Unadmitted? ==> (ok <==> old(active[id].call) == None && old(active[id].native) == None && 0 <= result.turns <= 16)
      ensures result.Observed? ==>
                (ok <==>
                  && old(active[id].call) == None
                  && result.scope.purpose == PurposeAtWork(id) && result.scope.requestRef == old(active[id].ref)
                  && checks.identifier(result.scope.threadId) && checks.identifier(result.scope.turnId) && 1 <= result.scope.turnNumber <= 16
                  && (old(active[id].native) == None || old(active[id].native) == Some((result.scope.threadId, result.scope.turnId)))
                  && checks.answer(result.answer.text) && 0 <= result.answer.toolCalls <= 8 && 0 <= result.answer.toolRefusals <= 4
                  && (result.answer.image ==> PurposeAtWork(id) == Conversation))
      ensures ok && result.Observed? ==> active == old(active) && main == Scoping(id, result.scope, result.answer)
      ensures ok && result.Unadmitted? ==> active == old(active)[id := old(active[id]).(phase := Retired)] && main == Refusing(id, result.reason, result.turns)
      ensures !ok ==> main == Ending && active == old(active)
    {
      hide Agrees, Due, World.Good, Configured, Wired, Known, Tally.Bounded, Staffed;
      var s := active[id];
      ok := s.call == None && Proper(result, s, PurposeAtWork(id));
      if !ok {
        EndMain();
        return;
      }
      AtWork(id);
      ghost var w := Now();
      match result {
        case Observed(scope, answer) =>
          main := Scoping(id, scope, answer);
          ObservedStep(checks, w, id, scope, answer);
        case Unadmitted(reason, turns) =>
          main := Refusing(id, reason, turns);
          active := active[id := s.(phase := Retired)];
          UnadmittedStep(checks, w, id, reason, turns);
        case Crashed => assert false;
      }
      StillStaffed();
    }

    /** What a job may end with. */
    predicate Proper(result: JobResult, s: Slot, purpose: Purpose) {
      match result
      case Crashed => false
      case Unadmitted(reason, turns) => s.native == None && 0 <= turns <= TURNS
      case Observed(scope, answer) =>
        && scope.purpose == purpose && scope.requestRef == s.ref && checks.identifier(scope.threadId) && checks.identifier(scope.turnId)
        && 1 <= scope.turnNumber <= TURNS && (s.native == None || s.native == Some((scope.threadId, scope.turnId)))
        && checks.answer(answer.text) && 0 <= answer.toolCalls <= 8 && 0 <= answer.toolRefusals <= 4
        && (answer.image ==> purpose == Conversation)
    }

    /** The export is over: the slot waits for its release before the answer goes out. */
    method BeginRelease()
      requires Valid() && main.Exporting? && main.id in active
      modifies `main, `active
      ensures Valid() && main == Completing(old(main).id, old(main).scope, old(main).answer)
      ensures active == old(active)[old(main).id := old(active[main.id]).(phase := ReleasePhase)]
    {
      hide Agrees, Due, World.Good, Configured, Wired, Known, Staffed;
      AtWork(main.id);
      ghost var w := Now();
      ReleaseStep(checks, w);
      active := active[main.id := active[main.id].(phase := ReleasePhase)];
      main := Completing(main.id, main.scope, main.answer);
      StillStaffed();
    }

    /** The host releases a turn. */
    method Release(id: string, delivery: Delivery, pooled: bool) returns (ok: bool)
      requires Valid() && main == Looping
      modifies `main, `active
      ensures Valid()
      ensures ok <==> stop == None && pooled && id in old(active) && old(active[id].phase) == ReleasePhase && (PurposeAtWork(id) == Conversation || delivery == NotSent)
      ensures ok ==> main == Releasing(id, old(active[id].ref), delivery) && active == old(active) - {id}
      ensures !ok ==> main == Ending && active == old(active)
    {
      hide Agrees, Due, World.Good, Configured, Wired, Known, Staffed, Tally.Bounded;
      ok := stop == None && pooled && id in active && active[id].phase == ReleasePhase && (PurposeAtWork(id) == Conversation || delivery == NotSent);
      if !ok {
        EndMain();
        return;
      }
      AtWork(id);
      ghost var w := Now();
      FreeStep(checks, w, id, delivery);
      main := Releasing(id, active[id].ref, delivery);
      active := active - {id};
      StillStaffed();
    }

    /** The main thread leaves its loop, from wherever it is. */
    method EndMain()
      requires Valid() && main != Settled
      modifies `main
      ensures Valid() && main == Ending
    {
      hide Configured, Wired, Known, World.Good, PartlyOut;
      if tally.announced == |workers| + 1 { GiveUp(checks, Now()); }
      main := Ending;
    }

    /** However the threads interleave, the gate has accepted all that is out, well within its frame cap. */
    lemma {:induction false} EverythingAccepted()
      requires Valid() && main != Settled
      ensures Run(checks, START, sent) == Some(gate) && |sent| == gate.frames <= 570
      ensures gate.innerBytes <= INNER_CAP && Closable(checks, gate, workers)
      ensures (forall i :: 0 <= i < |workers| ==> workers[i].0 in gate.members && gate.members[workers[i].0].ready) <==> tally.announced == |workers| + 1
    {
      hide Agrees, Due, MemberStep, Accept, Known, Configured, World.Good, Tally.Bounded, Run, PartlyOut;
      FramesBounded(tally, seenRequests, seenCalls, Room(main), |workers|);
      ConfiguredHas(checks, workers, tools);
      CountsAreExact(checks, sent);
      if tally.announced == |workers| + 1 {
        forall id | id in gate.members ensures gate.members[id].ready && gate.members[id].closed == None { MemberOpen(checks, Now(), id); }
        assert forall i :: 0 <= i < |workers| ==> workers[i].0 in gate.members;
      } else if tally.announced > 0 {
        PartlyOpen(workers, gate.members, tally.announced - 1);
        assert !gate.members[workers[tally.announced - 1].0].ready;
      } else {
        assert workers[0].0 !in gate.members;
      }
    }

    /** The end of the session: the gate accepts it exactly when every worker had been announced, the
        workers' last frames, which the session does not count, still fit in the gate's byte cap, the
        pool's last line, which the session does not hold against it, fits the gate's cap on control
        lines, and the receipt in it is normal. */
    lemma {:induction false} EndAccepted(facts: seq<Facts>, sizes: seq<nat>, last: nat, receiptOk: bool)
      requires Valid() && main != Settled && stop.Some? && |facts| == |sizes| == |workers|
      requires forall i :: 0 <= i < |facts| ==> FactsOk(facts[i])
      ensures Run(checks, START, sent + End(workers, stop.value, facts, sizes, last, receiptOk)).Some?
              <==> (tally.announced == |workers| + 1 && gate.innerBytes + Total(sizes) <= INNER_CAP
                    && gate.controlBytes + last <= CONTROL_CAP && receiptOk)
    {
      hide Closable, Staffed, Accounted;
      EverythingAccepted();
      ConfiguredHas(checks, workers, tools);
      RunConcat(checks, START, sent, End(workers, stop.value, facts, sizes, last, receiptOk));
      CloseAccepted(checks, gate, workers, stop.value, facts, sizes, last, receiptOk);
      ReadyWhenAnnounced();
    }

    /** The result line that follows every end: output, end and result are accepted exactly when the end is, the
        result is normal and the control lines with it still fit; then the gate has its receipt and takes nothing more. */
    lemma {:induction false} ResultAccepted(facts: seq<Facts>, sizes: seq<nat>, last: nat, receiptOk: bool, n: nat, resultOk: bool)
      requires Valid() && main != Settled && stop.Some? && |facts| == |sizes| == |workers|
      requires forall i :: 0 <= i < |facts| ==> FactsOk(facts[i])
      ensures var run := Run(checks, START, sent + End(workers, stop.value, facts, sizes, last, receiptOk) + [(EpochResult(resultOk), n)]);
              && (run.Some? <==> (tally.announced == |workers| + 1 && gate.innerBytes + Total(sizes) <= INNER_CAP
                                  && gate.controlBytes + last + n <= CONTROL_CAP && receiptOk && resultOk))
              && (run.Some? ==> run.value.closed && run.value.receipt && forall f, m :: Accept(checks, run.value, f, m) == None)
    {
      hide *;
      EndAccepted(facts, sizes, last, receiptOk);
      GateAtEnd(facts, sizes, last, receiptOk);
      var end := End(workers, stop.value, facts, sizes, last, receiptOk);
      RunMore(checks, START, sent + end, EpochResult(resultOk), n);
      var run := Run(checks, START, sent + end);
      if run.Some? { ResultFollows(checks, run.value, gate.controlBytes + last, n, resultOk); }
    }

    /** A session that ends before its last worker was announced ends in a refusal. */
    lemma {:induction false} EndRefused()
      requires Valid() && main != Settled && stop.Some? && tally.announced <= |workers|
      ensures forall facts: seq<Facts>, sizes: seq<nat>, last, receiptOk ::
                |facts| == |sizes| == |workers| && (forall i :: 0 <= i < |facts| ==> FactsOk(facts[i])) ==>
                Run(checks, START, sent + End(workers, stop.value, facts, sizes, last, receiptOk)) == None
    {
      hide *;
      forall facts: seq<Facts>, sizes: seq<nat>, last, receiptOk |
        |facts| == |sizes| == |workers| && (forall i :: 0 <= i < |facts| ==> FactsOk(facts[i]))
        ensures Run(checks, START, sent + End(workers, stop.value, facts, sizes, last, receiptOk)) == None
      {
        EndAccepted(facts, sizes, last, receiptOk);
      }
    }

    /** The gate's own clock: everything that is out is accepted exactly when each line arrived within the
        window it fell into, and no refusal has another cause. */
    lemma {:induction false} AcceptedInTime(started: real, events: seq<Event>)
      requires Valid() && main != Settled && Frames(events) == sent
      ensures RunInTime(checks, START, Opened(started), events).Some?
              <==> AllInTime(started, Moments(events))
    {
      hide *;
      EverythingAccepted();
      TimeApart(checks, START, Opened(started), events);
      WatchedIff(started, Moments(events));
    }

    /** The end with its times: the four conditions on its lines and the windows are all that decides. */
    lemma {:induction false} EndAcceptedInTime(facts: seq<Facts>, sizes: seq<nat>, last: nat, receiptOk: bool, started: real, events: seq<Event>)
      requires Valid() && main != Settled && stop.Some? && |facts| == |sizes| == |workers|
      requires forall i :: 0 <= i < |facts| ==> FactsOk(facts[i])
      requires Frames(events) == sent + End(workers, stop.value, facts, sizes, last, receiptOk)
      ensures RunInTime(checks, START, Opened(started), events).Some? <==>
              && tally.announced == |workers| + 1 && gate.innerBytes + Total(sizes) <= INNER_CAP
              && gate.controlBytes + last <= CONTROL_CAP && receiptOk
              && AllInTime(started, Moments(events))
    {
      hide *;
      EndAccepted(facts, sizes, last, receiptOk);
      TimeApart(checks, START, Opened(started), events);
      WatchedIff(started, Moments(events));
    }

    /** The result line with its time. */
    lemma {:induction false} ResultAcceptedInTime(facts: seq<Facts>, sizes: seq<nat>, last: nat, receiptOk: bool, n: nat, resultOk: bool, started: real, events: seq<Event>)
      requires Valid() && main != Settled && stop.Some? && |facts| == |sizes| == |workers|
      requires forall i :: 0 <= i < |facts| ==> FactsOk(facts[i])
      requires Frames(events) == sent + End(workers, stop.value, facts, sizes, last, receiptOk) + [(EpochResult(resultOk), n)]
      ensures RunInTime(checks, START, Opened(started), events).Some? <==>
              && tally.announced == |workers| + 1 && gate.innerBytes + Total(sizes) <= INNER_CAP
              && gate.controlBytes + last + n <= CONTROL_CAP && receiptOk && resultOk
              && AllInTime(started, Moments(events))
      ensures RunInTime(checks, START, Opened(started), events).Some? ==> RunInTime(checks, START, Opened(started), events).value.0.receipt
    {
      hide *;
      ResultAccepted(facts, sizes, last, receiptOk, n, resultOk);
      TimeApart(checks, START, Opened(started), events);
      WatchedIff(started, Moments(events));
    }

    lemma {:induction false} GateAtEnd(facts: seq<Facts>, sizes: seq<nat>, last: nat, receiptOk: bool)
      requires Valid() && main != Settled && stop.Some? && |facts| == |sizes| == |workers|
      requires forall i :: 0 <= i < |facts| ==> FactsOk(facts[i])
      ensures Run(checks, START, sent + End(workers, stop.value, facts, sizes, last, receiptOk)).Some? ==>
                PoolOver(Run(checks, START, sent + End(workers, stop.value, facts, sizes, last, receiptOk)).value, gate.controlBytes + last)
    {
      hide Closable, Staffed, Accounted;
      EverythingAccepted();
      ConfiguredHas(checks, workers, tools);
      RunConcat(checks, START, sent, End(workers, stop.value, facts, sizes, last, receiptOk));
      CloseAccepted(checks, gate, workers, stop.value, facts, sizes, last, receiptOk);
    }

    lemma Affordable(size: nat)
      requires stop == None && totalsOut + size <= FRAME_BYTES
      ensures Goes(size, Sent)
    {
    }

    lemma ReadyWhenAnnounced()
      requires Valid() && main != Settled
      ensures gate.ready ==> gate.members.Keys == IdsOf(workers)
      ensures tally.announced == |workers| + 1 ==> gate.ready
    {
    }

    lemma {:induction false} WithinCap()
      requires Valid() && main != Settled
      ensures |sent| <= 570 && 2 <= |workers| <= 8
    {
      EverythingAccepted();
      ConfiguredHas(checks, workers, tools);
    }

    /** Emit frames in order until one does not fit or its write is in doubt. */
    method EmitAll(frames: seq<(Outer, nat)>, fits: seq<bool>, outcomes: seq<Outcome>) returns (ok: bool, ghost k: nat)
      requires |frames| == |fits| == |outcomes|
      modifies `sent
      ensures k <= |frames| && sent == old(sent) + frames[..k]
      ensures ok ==> k == |frames|
      ensures ok <==> forall i :: 0 <= i < |frames| ==> fits[i] && outcomes[i].Sent?
    {
      ok, k := false, 0;
      for i := 0 to |frames|
        invariant k == i && sent == old(sent) + frames[..k]
        invariant forall j :: 0 <= j < i ==> fits[j] && outcomes[j].Sent?
      {
        if !fits[i] { return; }
        if outcomes[i].Sent? || outcomes[i].delivered {
          Prolong(old(sent), frames, k);
          sent := sent + [frames[i]];
          k := k + 1;
        }
        if !outcomes[i].Sent? { return; }
      }
      ok := true;
    }

    /** Which of the last frames can be written at all. */
    function Fitting(facts: seq<Facts>, sizes: seq<nat>, last: nat): (r: seq<bool>)
      requires |facts| == |sizes|
      ensures |r| == |facts| + 1 && (r[|facts|] <==> last <= 3145728)
      ensures forall i :: 0 <= i < |facts| ==> (r[i] <==> FactsOk(facts[i]) && sizes[i] <= 3145728)
    {
      seq(|facts| + 1, i requires 0 <= i <= |facts| => if i < |facts| then FactsOk(facts[i]) && sizes[i] <= FRAME_BYTES else last <= FRAME_BYTES)
    }

    /** The last frames, all under one hold of the output lock; after them nothing is written. */
    method Close(facts: seq<Facts>, sizes: seq<nat>, last: nat, receiptOk: bool, outcomes: seq<Outcome>) returns (ok: bool, ghost k: nat)
      requires Valid() && main == Ending && stop.Some? && |facts| == |sizes| == |workers| && |outcomes| == |workers| + 1
      modifies `main, `sent, `ordinary
      ensures Valid() && main == Settled && k <= |workers| + 1 && |sent| <= 579 && ordinary == |old(sent)|
      ensures sent == old(sent) + End(workers, stop.value, facts, sizes, last, receiptOk)[..k]
      ensures ok ==> k == |workers| + 1
      ensures ok <==> (forall i :: 0 <= i < |workers| ==> FactsOk(facts[i]) && sizes[i] <= 3145728 && outcomes[i].Sent?) && last <= 3145728 && outcomes[|workers|].Sent?
    {
      hide *;
      var fits := Fitting(facts, sizes, last);
      WithinCap();
      ghost var before, end := sent, End(workers, stop.value, facts, sizes, last, receiptOk);
      EndAt(workers, stop.value, facts, sizes, last, receiptOk);
      EverythingAccepted();
      StillConfigured();
      main, ordinary := Settled, |sent|;
      ok, k := EmitAll(End(workers, stop.value, facts, sizes, last, receiptOk), fits, outcomes);
      assert sent[..ordinary] == before;
      assert forall i :: ordinary <= i < |sent| ==> sent[i] == end[i - ordinary];
      Ended();
    }

    lemma StillConfigured()
      requires Valid()
      ensures Configured(checks, workers, tools)
    {
    }

    lemma Ended()
      requires Configured(checks, workers, tools) && main == Settled && stop.Some? && ordinary <= |sent| <= 579
      requires Run(checks, START, sent[..ordinary]) == Some(gate) && gate.innerBytes <= INNER_CAP
      requires forall i :: ordinary <= i < |sent| ==> Last(sent[i].0)
      ensures Valid()
    {
    }

    /** Once the last frames have begun to go out nothing else does, whatever jobs are still running:
        the wire holds what the gate had accepted, then last frames only. */
    lemma NothingAfterwards()
      requires Valid() && main == Settled
      ensures ordinary <= |sent| <= 579 && Run(checks, START, sent[..ordinary]) == Some(gate)
      ensures forall i :: ordinary <= i < |sent| ==> Last(sent[i].0)
    {
    }
  }

  const ANY_TEXT := Checks((s: string) => true, (s: string) => true, (s: string) => true)

  const TWO_WORKERS: seq<(string, Purpose)> := [("worker-0", Conversation), ("worker-1", HistoryAnalysis)]

  const THEIR_TOOLS: Tools := (p: Purpose) =>
    match p
    case Conversation => ["neurobro_read_history"]
    case HistoryAnalysis => ["neurobro_analysis_material", "neurobro_analysis_notes", "neurobro_analysis_commit"]
    case CommunityAssessment => []

  lemma TwoWorkersConfigured()
    ensures Configured(ANY_TEXT, TWO_WORKERS, THEIR_TOOLS)
  {
    hide Checks.Tools, Population;
    TwoWorkersPopulate();
    TheirToolsNamed(Conversation);
    TheirToolsNamed(HistoryAnalysis);
  }

  lemma TwoWorkersPopulate()
    ensures Population(TWO_WORKERS)
  {
    var a, b := "worker-0", "worker-1";
    assert a[7] != b[7];
    assert TWO_WORKERS[0] == (a, Conversation) && TWO_WORKERS[1] == (b, HistoryAnalysis);
  }

  lemma TheirToolsNamed(p: Purpose)
    ensures ANY_TEXT.Tools(p, THEIR_TOOLS(p))
  {
  }

  /** A pool of two whose time runs out after the pool was announced and before its workers were:
      whatever its last frames are, the gate refuses its end. */
  method StoppedWhileAnnouncing() returns (s: Session)
    ensures fresh(s) && s.Valid() && s.main == Ending && s.stop == Some(EpochLimit) && s.workers == TWO_WORKERS
    ensures forall facts: seq<Facts>, sizes: seq<nat>, last, receiptOk ::
              |facts| == |sizes| == |s.workers| && (forall i :: 0 <= i < |facts| ==> FactsOk(facts[i])) ==>
              Run(s.checks, START, s.sent + End(s.workers, EpochLimit, facts, sizes, last, receiptOk)) == None
  {
    TwoWorkersConfigured();
    hide Configured, Session.Valid, Session.Goes, Run, End, FactsOk;
    s := new Session(ANY_TEXT, TWO_WORKERS, THEIR_TOOLS, 2000);
    s.Affordable(200);
    s.AnnouncePool(200, Sent);
    s.AtAnnouncement();
    s.Halt(EpochLimit);
    s.EndMain();
    s.EndRefused();
  }
}
