/** What may still arrive between turns: late requests are refused within a budget, their
    replies confirmed one by one, and everything is counted once for all validators. */
module IdleLedger {
  import opened Vocabulary
  import opened Wrappers
  import opened Sets

  const BYTE_CAP := 262144
  const FRAME_CAP := 262144
  const FRAME_COUNT := 512
  const RESPONDED_CAP := 12
  const LATE_REFUSAL_CAP := 4

  type Key = string

  /** An idle frame: its encoded size, its request id if it has one, and what it says. `shaped`
      is the outcome of the checks on its own keys and types. */
  datatype Idle = Idle(size: nat, id: Option<Key>, shaped: bool, content: Content)

  datatype Content =
    | ToolCall(callId: string, correlated: bool)
    | Resolved(key: Key)
    | Notice

  datatype Site = Poisoned | OverBudget | Refused

  datatype Seen = Notification | RefuseTool(key: Key) | Error(site: Site)

  /** Pending and confirmed requests are apart, together all that were seen, and counted. */
  predicate Balanced(seeds: set<Key>, seen: set<Key>, pending: set<Key>, confirmed: set<Key>, refusals: nat) {
    && pending !! confirmed && seen == pending + confirmed && seeds <= confirmed && |seen| == |seeds| + refusals
  }

  lemma RefusedBalance(seeds: set<Key>, seen: set<Key>, pending: set<Key>, confirmed: set<Key>, refusals: nat, key: Key)
    requires Balanced(seeds, seen, pending, confirmed, refusals) && key !in seen
    ensures Balanced(seeds, seen + {key}, pending + {key}, confirmed, refusals + 1)
  {
  }

  lemma ConfirmedBalance(seeds: set<Key>, seen: set<Key>, pending: set<Key>, confirmed: set<Key>, refusals: nat, key: Key)
    requires Balanced(seeds, seen, pending, confirmed, refusals) && key in pending
    ensures Balanced(seeds, seen, pending - {key}, confirmed + {key}, refusals)
  {
  }

  class IdleValidator {
    const seeds: set<Key>
    var seen: set<Key>
    var calls: set<string>
    var pending: set<Key>
    var confirmed: set<Key>
    var frames: nat
    var bytes: nat
    var refusals: nat
    var resolved: nat
    var poisoned: bool
    /** The requests whose resolution was accepted. */
    ghost var settled: seq<Key>

    /** Without poison every request seen is either awaiting its confirmed reply or confirmed, and
        only confirmed ones were ever resolved. */
    predicate Valid()
      reads this
    {
      && |seeds| <= RESPONDED_CAP && refusals <= LATE_REFUSAL_CAP
      && (!poisoned ==> Balanced(seeds, seen, pending, confirmed, refusals) && |calls| == refusals && frames <= FRAME_COUNT && bytes <= BYTE_CAP)
    }

    ghost predicate Settled()
      reads `resolved, `settled, `confirmed
    {
      resolved == |settled| && forall k :: k in settled ==> k in confirmed
    }

    constructor (responded: set<Key>)
      requires |responded| <= RESPONDED_CAP
      ensures Valid() && Settled() && Fine() && !poisoned && frames == 0 && bytes == 0 && refusals == 0 && seen == responded && confirmed == responded && pending == {} && seeds == responded
    {
      seeds, seen, confirmed, calls, pending := responded, responded, responded, {}, {};
      frames, bytes, refusals, resolved, poisoned, settled := 0, 0, 0, 0, false, [];
    }

    /** Too many answered requests, or one given twice, are refused. */
    static method Open(responded: seq<Key>) returns (v: IdleValidator?)
      ensures v != null <==> |responded| <= RESPONDED_CAP && NoRepeats(responded)
      ensures v != null <==> |responded| <= 12 && forall i, j :: 0 <= i < j < |responded| ==> responded[i] != responded[j]
      ensures v != null ==> fresh(v) && v.Fine() && !v.poisoned && v.frames == 0 && v.bytes == 0 && v.seeds == Elements(responded)
    {
      if |responded| > RESPONDED_CAP || !NoRepeats(responded) { return null; }
      ElementCount(responded);
      v := new IdleValidator(Elements(responded));
    }

    /** Whether the counters refuse a frame. */
    predicate TooMuch(f: Idle)
      reads this
    {
      f.size > FRAME_CAP || bytes + f.size > BYTE_CAP || frames + 1 > FRAME_COUNT
    }

    /** Whether a notification says what it may. */
    predicate Welcome(f: Idle)
      reads `confirmed
    {
      f.shaped && !f.content.ToolCall? && (f.content.Resolved? ==> f.content.key in confirmed)
    }

    /** Count a frame. */
    method Count(f: Idle) returns (ok: bool)
      requires Valid() && Settled() && !poisoned
      modifies `frames, `bytes, `poisoned
      ensures Valid() && Settled() && poisoned == !ok && frames == old(frames) + 1
      ensures ok <==> f.size <= 262144 && old(bytes) + f.size <= 262144 && old(frames) < 512
      ensures ok <==> !old(TooMuch(f))
      ensures ok ==> bytes == old(bytes) + f.size
    {
      hide Balanced;
      frames := frames + 1;
      bytes := if bytes + f.size > BYTE_CAP then BYTE_CAP + 1 else bytes + f.size;
      ok := f.size <= FRAME_CAP && bytes <= BYTE_CAP && frames <= FRAME_COUNT;
      poisoned := !ok;
    }

    /** What becomes of a late request: it is refused once, while refusals are left. */
    function Verdict(key: Key, callId: string, correlated: bool): Seen
      reads `seen, `calls, `refusals
    {
      if key in seen || !correlated || callId in calls then Error(Refused)
      else if refusals < LATE_REFUSAL_CAP then RefuseTool(key)
      else Error(OverBudget)
    }

    /** Refuse a late request in the host's name, or give up on the connection. */
    method Refuse(key: Key, callId: string, correlated: bool) returns (r: Seen)
      requires Valid() && Settled() && !poisoned
      modifies `seen, `calls, `pending, `refusals, `poisoned
      ensures Valid() && Settled() && poisoned == r.Error?
      ensures r == old(Verdict(key, callId, correlated))
      ensures r.RefuseTool? <==> key !in old(seen) && correlated && callId !in old(calls) && old(refusals) < 4
      ensures r == Error(OverBudget) <==> key !in old(seen) && correlated && callId !in old(calls) && old(refusals) >= 4
      ensures r.RefuseTool? ==> calls == old(calls) + {callId}
      ensures r.RefuseTool? ==> r.key == key && key !in old(seen) && seen == old(seen) + {key} && pending == old(pending) + {key} && refusals == old(refusals) + 1
      ensures r.Error? ==> seen == old(seen) && pending == old(pending) && calls == old(calls) && refusals == old(refusals)
    {
      r := Verdict(key, callId, correlated);
      hide Valid, Settled;
      if r.RefuseTool? { Note(key, callId); } else { Poison(); }
    }

    /** A refused request awaits the confirmation of its reply. */
    method Note(key: Key, callId: string)
      requires Valid() && !poisoned && key !in seen && callId !in calls && refusals < LATE_REFUSAL_CAP
      modifies `seen, `calls, `pending, `refusals
      ensures Valid() && seen == old(seen) + {key} && pending == old(pending) + {key} && calls == old(calls) + {callId} && refusals == old(refusals) + 1
    {
      RefusedBalance(seeds, seen, pending, confirmed, refusals, key);
      assert |calls + {callId}| == refusals + 1;
      hide Balanced;
      seen, calls, pending, refusals := seen + {key}, calls + {callId}, pending + {key}, refusals + 1;
    }

    method Poison()
      requires Valid()
      modifies `poisoned
      ensures Valid() && poisoned
    {
      hide Balanced;
      poisoned := true;
    }

    /** Observe one idle frame. */
    method Observe(f: Idle) returns (r: Seen)
      requires Valid() && Settled()
      modifies this
      ensures Valid() && Settled() && poisoned == (old(poisoned) || r.Error?)
      ensures r == Error(Site.Poisoned) <==> old(poisoned)
      ensures r.Notification? <==>
                && old(!poisoned) && f.size <= 262144 && old(bytes) + f.size <= 262144 && old(frames) < 512
                && f.shaped && f.id == None && !f.content.ToolCall? && (f.content.Resolved? ==> f.content.key in old(confirmed))
      ensures r.RefuseTool? <==>
                && old(!poisoned) && f.size <= 262144 && old(bytes) + f.size <= 262144 && old(frames) < 512
                && f.shaped && f.id.Some? && f.content.ToolCall? && f.content.correlated
                && f.id.value !in old(seen) && f.content.callId !in old(calls) && old(refusals) < 4
      ensures r.Notification? <==> old(!poisoned && !TooMuch(f) && Welcome(f)) && f.id == None
      ensures r.RefuseTool? <==> old(!poisoned && !TooMuch(f)) && f.shaped && f.id.Some? && f.content.ToolCall? && old(Verdict(f.id.value, f.content.callId, f.content.correlated)).RefuseTool?
      ensures old(!poisoned) ==> frames == old(frames) + 1
      ensures old(!poisoned) && old(TooMuch(f)) ==> r == Error(OverBudget)
      ensures r == Error(OverBudget) ==> old(TooMuch(f)) || f.id.Some?
      ensures !r.Error? ==> bytes == old(bytes) + f.size && f.shaped
      ensures r.RefuseTool? ==> f.id == Some(r.key) && f.content.ToolCall? && r.key !in old(seen) && refusals == old(refusals) + 1
      ensures r.RefuseTool? ==> seen == old(seen) + {r.key} && pending == old(pending) + {r.key} && confirmed == old(confirmed)
      ensures r.Notification? ==> f.id == None
      ensures !r.RefuseTool? ==> seen == old(seen) && pending == old(pending) && confirmed == old(confirmed) && refusals == old(refusals)
      ensures r.Notification? && f.content.Resolved? ==> f.content.key in confirmed && settled == old(settled) + [f.content.key]
      ensures !(r.Notification? && f.content.Resolved?) ==> settled == old(settled)
    {
      hide Balanced;
      if poisoned { return Error(Site.Poisoned); }
      var ok := Count(f);
      if !ok { return Error(OverBudget); }
      if !f.shaped || (f.id.Some? != f.content.ToolCall?) || (f.content.Resolved? && f.content.key !in confirmed) {
        poisoned := true;
        return Error(Refused);
      }
      match f.content {
        case Notice => r := Notification;
        case Resolved(key) =>
          resolved, settled := resolved + 1, settled + [key];
          r := Notification;
        case ToolCall(callId, correlated) =>
          r := Refuse(f.id.value, callId, correlated);
      }
    }

    /** A validator that is given no requests. */
    ghost predicate Fine()
      reads this
    {
      Valid() && Settled() && refusals == 0
    }

    method ObserveNotice(f: Idle) returns (r: Seen)
      requires Fine() && f.id == None
      modifies this
      ensures Fine() && poisoned == (old(poisoned) || r.Error?) && !r.RefuseTool? && (old(poisoned) ==> r.Error?)
      ensures old(!poisoned) ==> frames == old(frames) + 1
      ensures r == Error(OverBudget) ==> old(TooMuch(f))
      ensures r.Notification? <==> old(!poisoned && !TooMuch(f) && Welcome(f))
      ensures r.Notification? ==> bytes == old(bytes) + f.size
    {
      hide Valid, Settled;
      r := Observe(f);
    }

    /** A refusal's reply was written in full. */
    method ConfirmResponse(key: Key) returns (ok: bool)
      requires Valid() && Settled()
      modifies `pending, `confirmed, `poisoned
      ensures Valid() && Settled()
      ensures ok <==> !old(poisoned) && key in old(pending)
      ensures ok ==> pending == old(pending) - {key} && confirmed == old(confirmed) + {key} && !poisoned
      ensures !ok ==> poisoned && pending == old(pending) && confirmed == old(confirmed)
    {
      ok := !poisoned && key in pending;
      if ok { ConfirmedBalance(seeds, seen, pending, confirmed, refusals, key); }
      hide Balanced;
      if ok { pending, confirmed := pending - {key}, confirmed + {key}; } else { poisoned := true; }
    }

    /** While nothing is poisoned, every request is accounted for. */
    lemma Ledger()
      requires Valid() && Settled() && !poisoned
      ensures seen == pending + confirmed && pending !! confirmed
      ensures |seen| == |seeds| + refusals <= RESPONDED_CAP + LATE_REFUSAL_CAP
      ensures forall k :: k in settled ==> k in confirmed && k !in pending
      ensures pending == {} ==> confirmed == seen
    {
    }
  }

  datatype Routed = Consumed | NotMine | Blocked

  class Registry {
    const purposes: set<Purpose>
    const common: IdleValidator
    var threads: map<Purpose, string>
    var validators: map<Purpose, IdleValidator>
    var frames: nat
    var bytes: nat
    var poisoned: bool

    ghost predicate Mine(v: IdleValidator)
      reads `poisoned, `frames, `bytes, v
    {
      v.Fine() && (!poisoned ==> v.frames <= frames && v.bytes <= bytes)
    }

    /** No validator has counted more than the registry has counted for all of them. */
    ghost predicate Valid()
      reads this, common, validators.Values
    {
      && Mine(common) && common !in validators.Values
      && (forall p :: p in validators ==> Mine(validators[p]) && p in threads)
      && (forall p, q :: p in validators && q in validators && p != q ==> validators[p] != validators[q])
      && (forall p, q :: p in threads && q in threads && p != q ==> threads[p] != threads[q])
      && (!poisoned ==> frames <= FRAME_COUNT && bytes <= BYTE_CAP)
    }

    constructor (three: bool)
      ensures Valid() && !poisoned && frames == 0 && bytes == 0 && threads == map[] && validators == map[] && fresh(common)
    {
      common := new IdleValidator({});
      purposes := if three then {Conversation, HistoryAnalysis, CommunityAssessment} else {Conversation, HistoryAnalysis};
      threads, validators, frames, bytes, poisoned := map[], map[], 0, 0, false;
    }

    /** Bind a thread to a purpose, once each. */
    method Start(p: Purpose, thread: string, identifier: bool) returns (ok: bool)
      requires Valid()
      modifies `threads, `poisoned
      ensures Valid() && poisoned == (old(poisoned) || !ok)
      ensures ok <==> !old(poisoned) && p in purposes && p !in old(threads) && identifier && thread !in old(threads).Values
      ensures ok ==> threads == old(threads)[p := thread]
    {
      hide IdleValidator.Fine;
      ok := !poisoned && p in purposes && p !in threads && identifier && thread !in threads.Values;
      if ok { threads := threads[p := thread]; } else { poisoned := true; }
    }

    /** A completed turn gets a fresh validator; the totals go on. Answered requests it cannot take
        are an error that leaves the registry as it was. */
    method Complete(p: Purpose, thread: string, identifier: bool, responded: seq<Key>) returns (ok: bool)
      requires Valid()
      modifies `validators, `poisoned
      ensures Valid() && poisoned == (old(poisoned) || !(p in threads && threads[p] == thread && identifier))
      ensures ok <==> !poisoned && |responded| <= RESPONDED_CAP && NoRepeats(responded)
      ensures ok ==> p in validators && fresh(validators[p]) && validators == old(validators)[p := validators[p]]
      ensures !ok ==> validators == old(validators)
    {
      hide IdleValidator.Fine, NoRepeats;
      ok := !poisoned && p in threads && threads[p] == thread && identifier;
      if !ok {
        poisoned := true;
        return;
      }
      var v := IdleValidator.Open(responded);
      if v == null { return false; }
      validators := validators[p := v];
    }

    /** Count a frame for everyone and let one validator observe it. Its own frame and byte
        budgets cannot be what refuses: the registry's refuse first. */
    method Charge(v: IdleValidator, f: Idle) returns (ok: bool)
      requires Valid() && !poisoned && (v == common || v in validators.Values) && f.id == None
      modifies `frames, `bytes, `poisoned, v
      ensures Valid() && poisoned == !ok && frames == old(frames) + 1 && bytes == old(bytes) + f.size
      ensures ok <==> frames <= FRAME_COUNT && bytes <= BYTE_CAP && old(!v.poisoned && v.Welcome(f))
    {
      hide IdleValidator.Fine;
      frames, bytes := frames + 1, bytes + f.size;
      ok := frames <= FRAME_COUNT && bytes <= BYTE_CAP;
      if ok {
        var r := v.ObserveNotice(f);
        if r == Error(OverBudget) { assert false; }
        ok := r.Notification?;
      }
      poisoned := !ok;
    }

    /** A frame is left to the engine of the active purpose: it names no thread, or that purpose's. */
    predicate LeftAlone(thread: Option<string>, active: Option<Purpose>, framed: bool)
      reads `poisoned, `threads
    {
      && !poisoned && framed && active.Some? && active.value in purposes
      && (thread == None || (active.value in threads && threads[active.value] == thread.value))
    }

    /** A frame without an id goes to a validator: while nothing is active one that names no thread goes
        to the common validator, and one that names a thread to the validator of its purpose. */
    ghost predicate Addressed(v: IdleValidator, f: Idle, thread: Option<string>, active: Option<Purpose>, framed: bool)
      reads `poisoned, `threads, `validators
    {
      && !poisoned && framed && f.id == None && (active.Some? ==> active.value in purposes)
      && match thread
         case None => active == None && v == common
         case Some(t) => exists p :: p in validators && p in threads && threads[p] == t && active != Some(p) && v == validators[p]
    }

    /** Where a frame belongs: to the active engine, to an idle validator, or nowhere. */
    method Target(f: Idle, thread: Option<string>, active: Option<Purpose>, framed: bool) returns (mine: bool, v: IdleValidator?)
      requires Valid()
      ensures mine <==> LeftAlone(thread, active, framed)
      ensures mine <==>
                && !poisoned && framed && active.Some? && active.value in purposes
                && (thread.Some? ==> active.value in threads && threads[active.value] == thread.value)
      ensures v != null && thread == None ==> v == common && active == None
      ensures v != null && thread.Some? ==> exists p :: p in validators && p in threads && threads[p] == thread.value && active != Some(p) && v == validators[p]
      ensures v != null ==> framed && (active.Some? ==> active.value in purposes)
      ensures !poisoned && framed && f.id == None && thread == None && active == None ==> v == common
      ensures !poisoned && framed && f.id == None && thread.Some? && (active.Some? ==> active.value in purposes) ==>
                forall p :: p in validators && p in threads && threads[p] == thread.value && active != Some(p) ==> v == validators[p]
      ensures v != null ==> !mine && Addressed(v, f, thread, active, framed) && (v == common || v in validators.Values)
      ensures (mine ==> !poisoned) && (v != null ==> !poisoned && f.id == None)
      ensures v == null ==> !Addressed(common, f, thread, active, framed) && forall u :: u in validators.Values ==> !Addressed(u, f, thread, active, framed)
    {
      hide Mine;
      mine, v := false, null;
      if poisoned || (active.Some? && active.value !in purposes) || !framed { return; }
      if thread == None {
        if active.Some? { return true, null; }
        return false, if f.id.Some? then null else common;
      }
      if thread.value !in threads.Values { return; }
      var p :| p in threads && threads[p] == thread.value;
      if active == Some(p) { return true, null; }
      if p !in validators || f.id.Some? { return; }
      v := validators[p];
    }

    /** Route one frame; one that belongs nowhere poisons the registry, and so does one that its
        validator `to` or the budget refuses. No other validator sees it. */
    method Route(f: Idle, thread: Option<string>, active: Option<Purpose>, framed: bool) returns (r: Routed, ghost to: IdleValidator?)
      requires Valid()
      modifies this, common, validators.Values
      ensures Valid() && (r.Blocked? <==> poisoned) && (old(poisoned) ==> r.Blocked?)
      ensures threads == old(threads) && validators == old(validators)
      ensures r.NotMine? <==> old(LeftAlone(thread, active, framed))
      ensures to != null ==> (to == common || to in validators.Values) && old(Addressed(to, f, thread, active, framed))
      ensures to == null ==> old(!Addressed(common, f, thread, active, framed) && forall u :: u in validators.Values ==> !Addressed(u, f, thread, active, framed))
      ensures r.Consumed? <==> to != null && old(frames) + 1 <= FRAME_COUNT && old(bytes) + f.size <= BYTE_CAP && old(!to.poisoned && to.Welcome(f))
      ensures if to == null then frames == old(frames) && bytes == old(bytes) else frames == old(frames) + 1 && bytes == old(bytes) + f.size
      ensures forall u :: (u == common || u in validators.Values) && u != to ==> unchanged(u)
    {
      hide IdleValidator.Fine, IdleValidator.Welcome, Addressed, LeftAlone;
      var mine, v := Target(f, thread, active, framed);
      to := v;
      if v != null {
        var ok := Charge(v, f);
        r := if ok then Consumed else Blocked;
      } else {
        r := if mine then NotMine else Blocked;
        if !mine { poisoned := true; }
      }
    }
  }
}
