/** The personal agent's intake: ordinary observations run a few at a time in arrival order,
    control ones at once. One event loop; each method is what happens between two awaits. */
module Intake {
  import opened Wrappers

  /** A rejection reason as JavaScript tests it: `??` looks for null and undefined only,
      a condition for any falsy value. */
  datatype Reason = Nullish | Falsy(name: string) | Truthy(name: string)

  /** The first reason that is neither null nor undefined. */
  function FirstReason(reasons: seq<Reason>): Reason {
    if reasons == [] then Nullish
    else
      var r := FirstReason(reasons[..|reasons| - 1]);
      if r.Nullish? then reasons[|reasons| - 1] else r
  }

  datatype Phase = Feeding | Draining(thrown: Option<Reason>) | Returned | Threw(reason: Reason)

  const BACKLOG := Truthy("Durable intake backlog requires reconciliation")

  /** The places, in arrival order, of the ordinary observations. */
  function Ordinary(arrivals: seq<bool>): seq<nat> {
    if arrivals == [] then []
    else Ordinary(arrivals[..|arrivals| - 1]) + (if arrivals[|arrivals| - 1] then [] else [|arrivals| - 1])
  }

  lemma {:induction false} OrdinaryPlaces(arrivals: seq<bool>)
    ensures forall k :: 0 <= k < |Ordinary(arrivals)| ==> Ordinary(arrivals)[k] < |arrivals| && !arrivals[Ordinary(arrivals)[k]]
    ensures forall j, k :: 0 <= j < k < |Ordinary(arrivals)| ==> Ordinary(arrivals)[j] < Ordinary(arrivals)[k]
    ensures forall i :: 0 <= i < |arrivals| && !arrivals[i] ==> i in Ordinary(arrivals)
  {
    if arrivals != [] {
      var n := |arrivals| - 1;
      var before := Ordinary(arrivals[..n]);
      OrdinaryPlaces(arrivals[..n]);
      assert forall k :: 0 <= k < |before| ==> before[k] < n && !arrivals[before[k]];
      var all := Ordinary(arrivals);
      assert all == before + (if arrivals[n] then [] else [n]);
      hide Ordinary;
      forall i | 0 <= i < |arrivals| && !arrivals[i] ensures i in all {
        if i < n {
          assert arrivals[..n][i] == arrivals[i];
          assert i in before;
        } else {
          assert all[|before|] == n;
        }
      }
    }
  }

  /** The first reason decides: it counts only if every earlier one was null or undefined. */
  lemma {:induction false} FirstReasonDecides(reasons: seq<Reason>)
    ensures FirstReason(reasons).Truthy? <==>
            exists k :: 0 <= k < |reasons| && reasons[k].Truthy? && forall j :: 0 <= j < k ==> reasons[j].Nullish?
    ensures FirstReason(reasons).Nullish? <==> forall j :: 0 <= j < |reasons| ==> reasons[j].Nullish?
  {
    if reasons != [] {
      var n := |reasons| - 1;
      var before := reasons[..n];
      FirstReasonDecides(before);
      assert forall j :: 0 <= j < n ==> before[j] == reasons[j];
      if FirstReason(before).Truthy? {
        var k :| 0 <= k < n && before[k].Truthy? && forall j :: 0 <= j < k ==> before[j].Nullish?;
        assert reasons[k].Truthy? && forall j :: 0 <= j < k ==> reasons[j].Nullish?;
      } else if FirstReason(before).Falsy? {
        assert forall k :: 0 <= k < n && reasons[k].Truthy? ==> before[k].Truthy?;
      }
    }
  }

  /** A handler that rejects with zero hides one that rejects later with a real error. */
  lemma FalsyHides(name: string)
    ensures FirstReason([Falsy("0"), Truthy(name)]) == Falsy("0")
  {
    var reasons := [Falsy("0"), Truthy(name)];
    assert reasons[..1] == [Falsy("0")];
    assert [Falsy("0")][..0] == [];
  }

  /** The set of places a sequence names. */
  ghost function Places(s: seq<nat>): set<nat> { set i | i in s }

  lemma Insert(s: seq<nat>, i: nat)
    ensures Places(s + [i]) == Places(s) + {i}
  {
    assert forall j :: j in s + [i] <==> j in s || j == i;
  }

  ghost predicate IsControls(controls: set<nat>, arrivals: seq<bool>) {
    forall i: nat :: i in controls <==> i < |arrivals| && arrivals[i]
  }

  class Intake {
    const concurrency: nat
    const queueLimit: nat
    /** How many observations the feed has yielded; the next one's place. */
    var taken: nat
    var waiting: seq<nat>
    var running: nat
    var failure: Reason
    var aborted: bool
    var faulted: bool
    var phase: Phase
    var active: set<nat>
    /** The places whose closure was made with the control flag. */
    var controls: set<nat>
    /** What was taken from the feed (true for control), the ordinary ones started, in order,
        what has settled, and every rejection. */
    ghost var arrivals: seq<bool>
    ghost var started: seq<nat>
    ghost var settled: set<nat>
    ghost var reasons: seq<Reason>

    predicate Failed()
      reads `failure
    {
      failure.Truthy?
    }

    /** The ordinary observations being handled. */
    ghost function OrdinaryActive(): set<nat>
      reads `active, `controls
    {
      active - controls
    }

    /** Ordinary work is started in arrival order, once; whatever was started and has not settled is active;
        a slot is taken exactly while an ordinary handler is active. */
    ghost predicate Accounted()
      reads `taken, `waiting, `running, `active, `arrivals, `started, `controls, `settled
    {
      && 1 <= concurrency <= queueLimit && |waiting| <= queueLimit
      && taken == |arrivals|
      && started + waiting == Ordinary(arrivals)
      && IsControls(controls, arrivals)
      && active !! settled && active + settled == Places(started) + controls
      && running == |OrdinaryActive()| <= concurrency
    }

    ghost predicate Blamed()
      reads `failure, `faulted, `reasons
    {
      failure == FirstReason(reasons) && (reasons != [] <==> faulted)
    }

    /** Waiting work means that every slot is busy, unless work has stopped. */
    ghost predicate Busy()
      reads `waiting, `failure, `aborted, `running
    {
      waiting != [] && !Failed() && !aborted ==> running == concurrency
    }

    ghost predicate Ended()
      reads `phase, `failure, `active
    {
      && (phase.Returned? ==> !Failed() && active == {})
      && (phase.Threw? ==> active == {})
    }

    ghost predicate Valid()
      reads this
    {
      Accounted() && Blamed() && Busy() && Ended()
    }

    constructor (concurrency: nat, queueLimit: nat)
      requires 1 <= concurrency <= queueLimit
      ensures Valid() && phase == Feeding && arrivals == [] && reasons == [] && !aborted && failure == Nullish && taken == 0 && settled == {}
      ensures this.concurrency == concurrency && this.queueLimit == queueLimit
    {
      this.concurrency, this.queueLimit := concurrency, queueLimit;
      taken, waiting, running, failure, aborted, faulted, phase, active := 0, [], 0, Nullish, false, false, Feeding, {};
      arrivals, started, controls, settled, reasons := [], [], {}, {}, [];
    }

    /** The limits must be at least one, and the backlog at least as large as the concurrency. */
    static method Open(concurrency: int, queueLimit: int) returns (intake: Intake?)
      ensures intake != null <==> 1 <= concurrency <= queueLimit
      ensures intake != null ==> fresh(intake) && intake.Valid() && intake.phase == Feeding && intake.arrivals == [] && !intake.aborted
      ensures intake != null ==> intake.concurrency == concurrency && intake.queueLimit == queueLimit
    {
      if !(1 <= concurrency <= queueLimit) { return null; }
      intake := new Intake(concurrency, queueLimit);
    }

    /** Start waiting observations while there are free slots. */
    method Pump()
      requires Accounted()
      modifies `waiting, `running, `active, `started
      ensures Accounted() && Busy()
      ensures old(started) <= started && old(active) <= active
      ensures Failed() || aborted ==> started == old(started) && active == old(active) && waiting == old(waiting)
    {
      while !Failed() && !aborted && running < concurrency && waiting != []
        invariant Accounted() && old(started) <= started && old(active) <= active
        invariant Failed() || aborted ==> started == old(started) && active == old(active) && waiting == old(waiting)
        decreases |waiting|
      {
        hide Accounted, Busy;
        Launch();
      }
    }

    /** The observation that has waited longest takes a slot. */
    method Launch()
      requires Accounted() && running < concurrency && waiting != []
      modifies `waiting, `running, `active, `started
      ensures Accounted() && waiting == old(waiting)[1..] && started == old(started) + old(waiting)[..1]
      ensures active == old(active) + {old(waiting)[0]} && running == old(running) + 1
    {
      hide Ordinary, Places, IsControls;
      var next := waiting[0];
      NextIsNew(next);
      running := running + 1;
      active := active + {next};
      started, waiting := started + [next], waiting[1..];
      assert old(waiting)[..1] == [next];
    }

    /** The next observation waiting is ordinary and has not been started. */
    lemma NextIsNew(next: nat)
      requires Accounted() && waiting != [] && next == waiting[0]
      ensures next !in controls && next !in active && next !in settled
      ensures (active + {next}) - controls == OrdinaryActive() + {next}
      ensures |OrdinaryActive() + {next}| == |OrdinaryActive()| + 1
      ensures Places(started + [next]) == Places(started) + {next}
      ensures started + waiting == (started + [next]) + waiting[1..]
    {
      NextIsAhead(next);
      assert next !in active + settled;
      hide Accounted, Ordinary;
      assert started + waiting == (started + [next]) + waiting[1..];
      Insert(started, next);
    }

    lemma NextIsAhead(next: nat)
      requires started + waiting == Ordinary(arrivals) && IsControls(controls, arrivals)
      requires waiting != [] && next == waiting[0]
      ensures next !in controls && next !in Places(started)
    {
      OrdinaryPlaces(arrivals);
      hide Ordinary;
      var all := Ordinary(arrivals);
      assert all[|started|] == next;
      assert forall k :: 0 <= k < |started| ==> started[k] == all[k];
    }

    /** Every place taken so far is in the past. */
    lemma PlacesPast()
      requires Accounted()
      ensures forall i :: i in Places(started) + controls ==> i < taken
    {
      OrdinaryPlaces(arrivals);
      forall i | i in Places(started) ensures i < taken {
        var k :| 0 <= k < |started| && started[k] == i;
        assert Ordinary(arrivals)[k] == i;
      }
    }

    /** A control observation takes the next place and no slot. */
    lemma ControlIsNew()
      requires Accounted()
      ensures taken !in active && taken !in settled && taken !in controls
      ensures Ordinary(arrivals + [true]) == Ordinary(arrivals)
      ensures (active + {taken}) - (controls + {taken}) == OrdinaryActive()
      ensures IsControls(controls + {taken}, arrivals + [true])
    {
      PlacesPast();
      assert (arrivals + [true])[..taken] == arrivals;
      assert Ordinary(arrivals) + [] == Ordinary(arrivals);
    }

    /** An ordinary observation takes the next place and waits. */
    lemma OrdinaryIsNext()
      requires Accounted()
      ensures started + (waiting + [taken]) == Ordinary(arrivals + [false])
      ensures IsControls(controls, arrivals + [false])
    {
      PlacesPast();
      assert (arrivals + [false])[..taken] == arrivals;
      assert started + (waiting + [taken]) == started + waiting + [taken];
    }

    method LaunchControl()
      requires Accounted()
      modifies `taken, `active, `arrivals, `controls
      ensures Accounted() && arrivals == old(arrivals) + [true] && active == old(active) + {old(taken)}
      ensures controls == old(controls) + {old(taken)} && taken == old(taken) + 1
    {
      hide Ordinary, Places, IsControls;
      ControlIsNew();
      active, arrivals, controls, taken := active + {taken}, arrivals + [true], controls + {taken}, taken + 1;
    }

    method Enqueue()
      requires Accounted() && |waiting| < queueLimit
      modifies `taken, `waiting, `arrivals
      ensures Accounted() && arrivals == old(arrivals) + [false] && waiting == old(waiting) + [old(taken)]
      ensures taken == old(taken) + 1
    {
      hide Ordinary, Places, IsControls;
      OrdinaryIsNext();
      waiting, arrivals, taken := waiting + [taken], arrivals + [false], taken + 1;
    }

    /** One observation from the feed. A control one starts at once, whatever the slots;
        a backlog beyond the limit ends the feed with an error. */
    method Arrive(control: bool)
      requires Valid() && phase == Feeding
      modifies `taken, `waiting, `running, `active, `phase, `arrivals, `started, `controls
      ensures Valid() && old(started) <= started && old(active) <= active
      ensures old(Failed()) ==> phase == Draining(Some(failure)) && arrivals == old(arrivals) && started == old(started)
      ensures !old(Failed()) && control ==> taken == old(taken) + 1
      ensures !old(Failed()) && control ==> phase == Feeding && arrivals == old(arrivals) + [true] && old(taken) in active && started == old(started)
      ensures !old(Failed()) && !control && |old(waiting)| < queueLimit ==> phase == Feeding && arrivals == old(arrivals) + [false]
      ensures !old(Failed()) && !control && |old(waiting)| >= queueLimit ==> phase == Draining(Some(BACKLOG)) && arrivals == old(arrivals) && started == old(started)
    {
      hide Accounted, Blamed;
      if Failed() {
        phase := Draining(Some(failure));
      } else if control {
        LaunchControl();
      } else if |waiting| >= queueLimit {
        phase := Draining(Some(BACKLOG));
      } else {
        Enqueue();
        Pump();
      }
    }

    /** An active handler settles: its slot is freed, and waiting work may start. The first rejection
        that is neither null nor undefined is kept; any rejection aborts the feed. */
    method Settle(i: nat, rejection: Option<Reason>)
      requires Valid() && i in active
      modifies `waiting, `running, `failure, `faulted, `active, `started, `settled, `reasons
      ensures Valid() && settled == old(settled) + {i} && phase == old(phase)
      ensures i !in active && old(active) - {i} <= active && old(started) <= started
      ensures reasons == old(reasons) + (if rejection.Some? then [rejection.value] else [])
      ensures failure == if old(failure).Nullish? && rejection.Some? then rejection.value else old(failure)
    {
      hide Accounted;
      Blame(rejection);
      Retire(i);
      Pump();
      StillSettled(i);
    }

    method Blame(rejection: Option<Reason>)
      requires Blamed()
      modifies `failure, `faulted, `reasons
      ensures Blamed() && reasons == old(reasons) + (if rejection.Some? then [rejection.value] else [])
      ensures failure == if old(failure).Nullish? && rejection.Some? then rejection.value else old(failure)
    {
      if rejection.Some? {
        assert (reasons + [rejection.value])[..|reasons|] == reasons;
        failure := if failure.Nullish? then rejection.value else failure;
        faulted, reasons := true, reasons + [rejection.value];
      } else {
        assert reasons + [] == reasons;
      }
    }

    method Retire(i: nat)
      requires Accounted() && i in active
      modifies `running, `active, `settled
      ensures Accounted() && active == old(active) - {i} && settled == old(settled) + {i}
    {
      hide Ordinary, Places;
      SlotOf(i);
      active, settled := active - {i}, settled + {i};
      running := if i in controls then running else running - 1;
    }

    /** Only an ordinary observation holds a slot. */
    lemma SlotOf(i: nat)
      requires Accounted() && i in active
      ensures i < |arrivals| && (i in controls <==> arrivals[i])
      ensures (active - {i}) - controls == if i in controls then OrdinaryActive() else OrdinaryActive() - {i}
      ensures |(active - {i}) - controls| == |OrdinaryActive()| - (if i in controls then 0 else 1)
    {
      PlacesPast();
      assert i in Places(started) + controls;
      assert i !in controls ==> i in OrdinaryActive();
    }

    lemma StillSettled(i: nat)
      requires Accounted() && i in settled
      ensures i !in active
    {
    }

    method Abort()
      requires Valid()
      modifies `aborted
      ensures Valid() && aborted
    {
      aborted := true;
    }

    /** The feed ends, or fails with a reason of its own. */
    method EndFeed(error: Option<Reason>)
      requires Valid() && phase == Feeding
      modifies `phase
      ensures Valid() && phase == Draining(error)
    {
      phase := Draining(error);
    }

    /** Nothing is active any more: throw what ended the feed, else the failure kept, else return. */
    method Finish()
      requires Valid() && phase.Draining? && active == {}
      modifies `phase
      ensures Valid() && (phase.Returned? || phase.Threw?)
      ensures phase.Returned? <==> old(phase).thrown.None? && !FirstReason(reasons).Truthy?
      ensures phase.Threw? ==> phase.reason == if old(phase).thrown.Some? then old(phase).thrown.value else FirstReason(reasons)
    {
      hide Accounted;
      if phase.thrown.Some? {
        phase := Threw(phase.thrown.value);
      } else if Failed() {
        phase := Threw(failure);
      } else {
        phase := Returned;
      }
    }
  }

  /** In every state: at most the configured number of ordinary handlers is active; ordinary observations
      were started in arrival order and once each; waiting work means every slot is busy; and a control
      observation has been started as soon as it has arrived. */
  lemma Scheduled(intake: Intake)
    requires intake.Valid()
    ensures |intake.OrdinaryActive()| <= intake.concurrency
    ensures intake.started <= Ordinary(intake.arrivals)
    ensures forall j, k :: 0 <= j < k < |intake.started| ==> intake.started[j] < intake.started[k]
    ensures intake.waiting != [] && !intake.failure.Truthy? && !intake.aborted ==> |intake.OrdinaryActive()| == intake.concurrency
    ensures forall i: nat :: i < |intake.arrivals| && intake.arrivals[i] ==> i in intake.active + intake.settled
    ensures intake.phase.Returned? || intake.phase.Threw? ==> intake.active == {}
  {
    hide FirstReason, Ordinary, Places;
    var all := Ordinary(intake.arrivals);
    OrdinaryPlaces(intake.arrivals);
    assert forall k :: 0 <= k < |intake.started| ==> intake.started[k] == all[k];
  }

  /** A normal return without abort: every observation the feed yielded was handled exactly once. */
  lemma HandledOnce(intake: Intake)
    requires intake.Valid() && intake.phase.Returned? && !intake.aborted
    ensures intake.waiting == [] && intake.started == Ordinary(intake.arrivals)
    ensures forall j, k :: 0 <= j < k < |intake.started| ==> intake.started[j] < intake.started[k]
    ensures intake.active == {} && (forall i: nat :: i in intake.settled <==> i < |intake.arrivals|)
  {
    hide FirstReason, Ordinary;
    var all := Ordinary(intake.arrivals);
    OrdinaryPlaces(intake.arrivals);
    assert intake.OrdinaryActive() == {};
    assert intake.started == all;
    forall i: nat ensures i in intake.settled <==> i < |intake.arrivals| {
      assert i in intake.settled <==> i in Places(all) || i in intake.controls;
    }
  }

  /** Exactly when a normal return hides a rejection: the first one worth keeping is falsy. */
  lemma ReturnHides(intake: Intake)
    requires intake.Valid() && intake.phase.Returned?
    ensures !exists k :: 0 <= k < |intake.reasons| && intake.reasons[k].Truthy? && forall j :: 0 <= j < k ==> intake.reasons[j].Nullish?
    ensures intake.faulted <==> intake.reasons != []
  {
    FirstReasonDecides(intake.reasons);
  }

  /** Two control observations, one handler rejecting with zero and then one with an error: the call
      returns normally. */
  method HiddenFailure(name: string) returns (t: Intake)
    ensures fresh(t) && t.Valid() && t.phase.Returned? && t.reasons == [Falsy("0"), Truthy(name)] && !t.aborted
  {
    hide Intake.Valid, FirstReason;
    t := new Intake(1, 1);
    t.Arrive(true);
    t.Arrive(true);
    t.Settle(0, Some(Falsy("0")));
    t.Settle(1, Some(Truthy(name)));
    NoneOrdinary(t);
    assert t.reasons == [Falsy("0"), Truthy(name)];
    FalsyHides(name);
    t.EndFeed(None);
    t.Finish();
  }

  lemma {:induction false} AllControls(arrivals: seq<bool>)
    requires forall i :: 0 <= i < |arrivals| ==> arrivals[i]
    ensures Ordinary(arrivals) == []
  {
    if arrivals != [] { AllControls(arrivals[..|arrivals| - 1]); }
  }

  lemma NoneOrdinary(t: Intake)
    requires t.Valid() && t.arrivals == [true, true] && t.settled == {0, 1}
    ensures t.active == {}
  {
    AllControls(t.arrivals);
    hide Ordinary;
    assert t.started == [];
    assert forall i :: i in t.controls ==> i < 2;
    assert forall i :: i in t.active ==> i in Places(t.started) + t.controls;
  }
}
