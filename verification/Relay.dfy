/** The specialised egress relay: its connections as tasks that may fail or be cancelled at any
    point, and the counters its host demands identities of. */
module Relay {
  import opened Wrappers
  import opened Sets

  const AGGREGATE_BYTES := 1024 * 1024 * 1024
  const COUNTER_CAP := 1000000

  datatype Rejection = Closing | Concurrent | AcceptedLimit

  datatype Failure = InHeader | InDns | InConnect | InResponse | TunnelIdle | TunnelDuration | TunnelBytes | AggregateBytes | TunnelIo | TunnelOther

  /** Connections allowed in all and at once, from the number of workers. */
  function Limits(workers: nat): (nat, nat) {
    (8 + 8 * workers + 4 * 16 * (1 + 8 + 4), if 4 * workers > 8 then 4 * workers else 8)
  }

  datatype Stage = Header | Dns | Connect | Response | Tunnel(moved: nat) | Leaving

  // ---------- counters by kind

  type Tally<T(==)> = map<T, nat>

  function At<T(==)>(m: Tally<T>, k: T): nat { if k in m then m[k] else 0 }

  function Bump<T(==)>(m: Tally<T>, k: T): Tally<T> { m[k := At(m, k) + 1] }

  function SumOver<T(==)>(m: Tally<T>, keys: seq<T>): nat {
    if keys == [] then 0 else At(m, keys[0]) + SumOver(m, keys[1..])
  }

  lemma {:induction false} SumEmpty<T>(keys: seq<T>)
    ensures SumOver(map[], keys) == 0
  {
    if keys != [] { SumEmpty(keys[1..]); }
  }

  /** One more of a kind is one more in all. */
  lemma {:induction false} SumBump<T>(m: Tally<T>, keys: seq<T>, k: T)
    requires forall i, j :: 0 <= i < j < |keys| ==> keys[i] != keys[j]
    ensures SumOver(Bump(m, k), keys) == SumOver(m, keys) + if k in keys then 1 else 0
  {
    if keys != [] {
      SumBump(m, keys[1..], k);
      assert keys == [keys[0]] + keys[1..];
    }
  }

  lemma {:induction false} SumAtLeast<T>(m: Tally<T>, keys: seq<T>, k: T)
    requires k in keys
    ensures At(m, k) <= SumOver(m, keys)
  {
    if keys[0] != k {
      assert keys == [keys[0]] + keys[1..];
      SumAtLeast(m, keys[1..], k);
    }
  }

  const REJECTIONS := [Closing, Concurrent, AcceptedLimit]

  const FAILURES := [InHeader, InDns, InConnect, InResponse, TunnelIdle, TunnelDuration, TunnelBytes, AggregateBytes, TunnelIo, TunnelOther]

  lemma EveryRejection(k: Rejection)
    ensures k in REJECTIONS && forall i, j :: 0 <= i < j < |REJECTIONS| ==> REJECTIONS[i] != REJECTIONS[j]
  {
    var i := match k case Closing => 0 case Concurrent => 1 case AcceptedLimit => 2;
    assert REJECTIONS[i] == k;
  }

  lemma EveryFailure(k: Failure)
    ensures k in FAILURES && forall i, j :: 0 <= i < j < |FAILURES| ==> FAILURES[i] != FAILURES[j]
  {
    var i := match k
      case InHeader => 0 case InDns => 1 case InConnect => 2 case InResponse => 3 case TunnelIdle => 4
      case TunnelDuration => 5 case TunnelBytes => 6 case AggregateBytes => 7 case TunnelIo => 8 case TunnelOther => 9;
    assert FAILURES[i] == k;
  }

  function Rejections(m: Tally<Rejection>): nat { SumOver(m, REJECTIONS) }

  function Failures(m: Tally<Failure>): nat { SumOver(m, FAILURES) }

  lemma BumpRejection(m: Tally<Rejection>, k: Rejection)
    ensures Rejections(Bump(m, k)) == Rejections(m) + 1
  {
    hide Bump, SumOver;
    EveryRejection(k);
    SumBump(m, REJECTIONS, k);
  }

  lemma BumpFailure(m: Tally<Failure>, k: Failure)
    ensures Failures(Bump(m, k)) == Failures(m) + 1
  {
    hide Bump, SumOver;
    EveryFailure(k);
    SumBump(m, FAILURES, k);
  }

  // ---------- what the counters count

  datatype Counts = Counts(accepted: nat, overLimit: nat, refused: nat, connected: nat, completed: nat, failed: nat, cancelled: nat, internalError: nat)

  /** Which connections each counter stands for. */
  datatype Ids = Ids(accepted: set<nat>, refused: set<nat>, connected: set<nat>, completed: set<nat>, failed: set<nat>, cancelled: set<nat>, broken: set<nat>)

  /** A connection ends at most once, and is connected only if it was not refused. */
  predicate Apart(i: Ids) {
    && i.connected !! i.refused && i.completed <= i.connected
    && i.refused <= i.accepted && i.connected <= i.accepted && i.failed <= i.accepted && i.cancelled <= i.accepted && i.broken <= i.accepted
    && i.completed !! i.failed && i.completed !! i.refused && i.completed !! i.cancelled
    && i.failed !! i.refused && i.failed !! i.cancelled && i.refused !! i.cancelled
  }

  predicate Counted(c: Counts, i: Ids) {
    && c.accepted == |i.accepted| && c.refused == |i.refused| && c.connected == |i.connected| && c.completed == |i.completed|
    && c.failed == |i.failed| && c.cancelled == |i.cancelled| && c.internalError == |i.broken|
  }

  const NO_IDS := Ids({}, {}, {}, {}, {}, {}, {})

  lemma NoneYet()
    ensures Rejections(map[]) == 0 && Failures(map[]) == 0
    ensures Apart(NO_IDS) && Counted(Counts(0, 0, 0, 0, 0, 0, 0, 0), NO_IDS)
    ensures forall w :: Limits(w).0 > 0 && Limits(w).1 > 0
  {
    SumEmpty(REJECTIONS);
    SumEmpty(FAILURES);
  }

  /** The identities the host checks follow from what the counters count. */
  lemma Identities(c: Counts, i: Ids)
    requires Apart(i) && Counted(c, i)
    ensures c.completed <= c.connected && c.connected + c.refused <= c.accepted
    ensures c.completed + c.failed + c.refused + c.cancelled <= c.accepted
    ensures c.internalError <= c.accepted
  {
    Smaller(i.completed, i.connected);
    Smaller(i.connected + i.refused, i.accepted);
    assert |i.connected + i.refused| == |i.connected| + |i.refused|;
    var ended := i.completed + i.failed + i.refused + i.cancelled;
    assert |i.completed + i.failed| == |i.completed| + |i.failed|;
    assert |i.completed + i.failed + i.refused| == |i.completed + i.failed| + |i.refused|;
    assert |ended| == |i.completed + i.failed + i.refused| + |i.cancelled|;
    Smaller(ended, i.accepted);
    Smaller(i.broken, i.accepted);
  }

  /** A connection that has not ended yet. */
  predicate Running(i: Ids, id: nat) {
    id in i.accepted && id !in i.completed && id !in i.failed && id !in i.refused && id !in i.cancelled
  }

  /** Where a task is, and what the counters say of it. */
  predicate Placed(i: Ids, id: nat, s: Stage, reserved: nat) {
    && id in i.accepted && id !in i.broken
    && match s
       case Leaving => true
       case Tunnel(moved) => Running(i, id) && id in i.connected && moved <= reserved
       case _ => Running(i, id) && id !in i.connected
  }

  datatype Exit = ByCancel | Well | Early | Late

  /** How a task leaves, from its stage. */
  function ExitOf(s: Stage, failure: bool, cancelled: bool): Exit {
    if cancelled then ByCancel else if !failure then Well else if s.Response? || s.Tunnel? then Late else Early
  }

  function CountExit(c: Counts, e: Exit): Counts {
    match e
    case ByCancel => c.(cancelled := c.cancelled + 1)
    case Well => c.(completed := c.completed + 1)
    case Early => c.(refused := c.refused + 1)
    case Late => c.(failed := c.failed + 1)
  }

  function NoteExit(i: Ids, id: nat, e: Exit): Ids {
    match e
    case ByCancel => i.(cancelled := i.cancelled + {id})
    case Well => i.(completed := i.completed + {id})
    case Early => i.(refused := i.refused + {id})
    case Late => i.(failed := i.failed + {id})
  }

  /** A task that leaves is counted once, and disturbs no other. */
  lemma Exits(c: Counts, i: Ids, tasks: map<nat, Stage>, id: nat, e: Exit, reserved: nat)
    requires Apart(i) && Counted(c, i) && id in tasks && !tasks[id].Leaving?
    requires forall o :: o in tasks ==> Placed(i, o, tasks[o], reserved)
    requires (e.Well? ==> tasks[id].Tunnel?) && (e.Early? ==> !tasks[id].Tunnel? && !tasks[id].Response?)
    ensures Apart(NoteExit(i, id, e)) && Counted(CountExit(c, e), NoteExit(i, id, e))
    ensures forall o :: o in tasks ==> Placed(NoteExit(i, id, e), o, tasks[id := Leaving][o], reserved)
  {
    assert Placed(i, id, tasks[id], reserved);
    ExitCounted(c, i, id, e);
    ExitPlaced(i, id, e, id, Leaving, reserved);
    hide Apart, Counted, Placed, NoteExit;
    forall o | o in tasks && o != id ensures Placed(NoteExit(i, id, e), o, tasks[o], reserved) {
      ExitPlaced(i, id, e, o, tasks[o], reserved);
    }
  }

  lemma ExitPlaced(i: Ids, id: nat, e: Exit, o: nat, s: Stage, reserved: nat)
    requires if o == id then s.Leaving? && id in i.accepted && id !in i.broken else Placed(i, o, s, reserved)
    ensures Placed(NoteExit(i, id, e), o, s, reserved)
  {
  }

  lemma ExitCounted(c: Counts, i: Ids, id: nat, e: Exit)
    requires Apart(i) && Counted(c, i) && Running(i, id) && id in i.accepted && id !in i.broken
    requires (e.Well? ==> id in i.connected) && (e.Early? ==> id !in i.connected)
    ensures Apart(NoteExit(i, id, e)) && Counted(CountExit(c, e), NoteExit(i, id, e))
  {
  }

  // ---------- what the host accepts

  /** The host's check of a settled relay's counters and diagnostics. */
  predicate Normal(c: Counts, workers: nat, reserved: nat, rejections: Tally<Rejection>, failures: Tally<Failure>) {
    && c.accepted <= COUNTER_CAP && c.overLimit <= COUNTER_CAP && c.refused <= COUNTER_CAP && c.connected <= COUNTER_CAP
    && c.completed <= COUNTER_CAP && c.failed <= COUNTER_CAP && c.cancelled <= COUNTER_CAP && c.internalError <= COUNTER_CAP
    && 1 <= workers <= 8 && reserved <= AGGREGATE_BYTES && c.accepted <= Limits(workers).0
    && (forall k: Rejection :: At(rejections, k) <= COUNTER_CAP) && (forall k: Failure :: At(failures, k) <= COUNTER_CAP)
    && Rejections(rejections) == c.overLimit && Failures(failures) == c.failed + c.refused
    && c.completed <= c.connected && c.connected + c.refused <= c.accepted
    && c.completed + c.failed + c.refused + c.cancelled <= c.accepted
  }

  class Relay {
    const workers: nat
    var tasks: map<nat, Stage>
    var closing: bool
    var counts: Counts
    var reserved: nat
    var rejections: Tally<Rejection>
    var failures: Tally<Failure>
    /** Bytes written to either end of any tunnel. */
    ghost var forwarded: nat
    ghost var ids: Ids

    ghost predicate Tasks()
      reads `tasks, `ids, `reserved
    {
      forall id :: id in tasks ==> Placed(ids, id, tasks[id], reserved)
    }

    ghost predicate Valid()
      reads this
    {
      && 1 <= workers <= 8
      && Apart(ids) && Counted(counts, ids) && Tasks()
      && (forall id :: id in ids.accepted <==> 0 <= id < counts.accepted)
      && counts.accepted <= Limits(workers).0 && |tasks| <= Limits(workers).1
      && Rejections(rejections) == counts.overLimit && Failures(failures) == counts.failed + counts.refused
      && forwarded <= reserved <= AGGREGATE_BYTES
    }

    constructor (workers: nat)
      requires 1 <= workers <= 8
      ensures Valid() && !closing && counts == Counts(0, 0, 0, 0, 0, 0, 0, 0) && tasks == map[] && this.workers == workers
    {
      NoneYet();
      hide Rejections, Failures, Apart, Counted, Limits;
      this.workers := workers;
      tasks, closing, counts, reserved, forwarded := map[], false, Counts(0, 0, 0, 0, 0, 0, 0, 0), 0, 0;
      rejections, failures, ids := map[], map[], NO_IDS;
    }

    /** A connection arrives. */
    method Accept() returns (id: Option<nat>)
      requires Valid()
      modifies `tasks, `counts, `rejections, `ids
      ensures Valid()
      ensures id == None <==> closing || old(counts).accepted >= 840 + 8 * workers || (|old(tasks)| >= 8 && |old(tasks)| >= 4 * workers)
      ensures id == None ==>
                var reason := if closing then Closing else if old(counts).accepted >= 840 + 8 * workers then AcceptedLimit else Concurrent;
                rejections == old(rejections)[reason := if reason in old(rejections) then old(rejections)[reason] + 1 else 1]
      ensures id.Some? ==> rejections == old(rejections)
      ensures id == None ==> counts == old(counts).(overLimit := old(counts).overLimit + 1) && tasks == old(tasks)
      ensures id.Some? ==> counts == old(counts).(accepted := old(counts).accepted + 1) && id.value !in old(tasks) && tasks == old(tasks)[id.value := Header]
    {
      hide Rejections, Failures, Bump, Apart, Counted, Placed, Valid;
      var reason := if closing then Some(Closing) else if counts.accepted >= Limits(workers).0 then Some(AcceptedLimit)
                    else if |tasks| >= Limits(workers).1 then Some(Concurrent) else None;
      if reason.Some? {
        TurnAway(reason.value);
        return None;
      }
      var n := Place();
      id := Some(n);
    }

    /** Count a connection that is turned away, and why. */
    method TurnAway(reason: Rejection)
      requires Valid()
      modifies `counts, `rejections
      ensures Valid() && counts == old(counts).(overLimit := old(counts).overLimit + 1)
      ensures rejections == old(rejections)[reason := if reason in old(rejections) then old(rejections)[reason] + 1 else 1]
    {
      hide Rejections, Failures, Apart, Placed;
      BumpRejection(rejections, reason);
      rejections, counts := Bump(rejections, reason), counts.(overLimit := counts.overLimit + 1);
    }

    /** A connection gets a task of its own. */
    method Place() returns (n: nat)
      requires Valid() && counts.accepted < Limits(workers).0 && |tasks| < Limits(workers).1
      modifies `tasks, `counts, `ids
      ensures Valid() && counts == old(counts).(accepted := old(counts).accepted + 1) && n !in old(tasks) && tasks == old(tasks)[n := Header]
    {
      hide Rejections, Failures;
      n := counts.accepted;
      assert n !in tasks;
      counts, ids := counts.(accepted := n + 1), ids.(accepted := ids.accepted + {n});
      tasks := tasks[n := Header];
    }

    /** A task gets past its header, its lookup or its dial. */
    method Advance(id: nat)
      requires Valid() && id in tasks && (tasks[id].Header? || tasks[id].Dns? || tasks[id].Connect?)
      modifies `tasks
      ensures Valid() && tasks == old(tasks)[id := if old(tasks[id]).Header? then Dns else if old(tasks[id]).Dns? then Connect else Response]
    {
      hide Rejections, Failures, Bump;
      tasks := tasks[id := if tasks[id].Header? then Dns else if tasks[id].Dns? then Connect else Response];
    }

    /** The response went out: the tunnel begins. */
    method Establish(id: nat)
      requires Valid() && id in tasks && tasks[id].Response?
      modifies `tasks, `counts, `ids
      ensures Valid() && tasks == old(tasks)[id := Tunnel(0)] && counts == old(counts).(connected := old(counts).connected + 1)
    {
      hide Rejections, Failures, Bump;
      counts, ids := counts.(connected := counts.connected + 1), ids.(connected := ids.connected + {id});
      tasks := tasks[id := Tunnel(0)];
    }

    /** One chunk: its bytes are reserved before it is written, whether or not the write succeeds.
        A tunnel's own byte limit never decides: the reservation refuses first. */
    method Copy(id: nat, n: nat, written: nat) returns (ok: bool)
      requires Valid() && id in tasks && tasks[id].Tunnel? && 0 < n && written <= n
      modifies `tasks, `reserved, `forwarded
      ensures Valid()
      ensures ok <==> old(reserved) + n <= 1073741824
      ensures ok ==> reserved == old(reserved) + n && forwarded == old(forwarded) + written && tasks == old(tasks)[id := Tunnel(old(tasks[id]).moved + n)]
      ensures !ok ==> reserved == old(reserved) && forwarded == old(forwarded) && tasks == old(tasks)
    {
      hide Rejections, Failures, Bump;
      if reserved + n > AGGREGATE_BYTES { return false; }
      var moved := tasks[id].moved + n;
      if moved > AGGREGATE_BYTES { assert false; }
      reserved, forwarded := reserved + n, forwarded + written;
      tasks := tasks[id := Tunnel(moved)];
      ok := true;
    }

    /** The reason a failure is counted under. */
    function Reason(s: Stage, cause: Failure): Failure {
      match s
      case Header => InHeader
      case Dns => InDns
      case Connect => InConnect
      case Response => InResponse
      case _ => cause
    }

    /** A task ends: well, with a failure, or cancelled. Before the response it is refused, after it failed. */
    method End(id: nat, cause: Option<Failure>, cancelled: bool)
      requires Valid() && id in tasks && !tasks[id].Leaving? && (cause == None && !cancelled ==> tasks[id].Tunnel?)
      modifies `tasks, `counts, `failures, `ids
      ensures Valid() && tasks == old(tasks)[id := Leaving]
      ensures cancelled ==> counts == old(counts).(cancelled := old(counts).cancelled + 1)
      ensures !cancelled && cause == None ==> counts == old(counts).(completed := old(counts).completed + 1)
      ensures !cancelled && cause.Some? ==>
                var early := old(tasks[id]).Header? || old(tasks[id]).Dns? || old(tasks[id]).Connect?;
                counts == if early then old(counts).(refused := old(counts).refused + 1) else old(counts).(failed := old(counts).failed + 1)
      ensures cancelled || cause == None ==> failures == old(failures)
      ensures !cancelled && cause.Some? ==>
                var reason := if old(tasks[id]).Header? then InHeader else if old(tasks[id]).Dns? then InDns else if old(tasks[id]).Connect? then InConnect
                              else if old(tasks[id]).Response? then InResponse else cause.value;
                failures == old(failures)[reason := if reason in old(failures) then old(failures)[reason] + 1 else 1]
    {
      hide Rejections, Failures, Apart, Counted, Placed;
      var s := tasks[id];
      var exit := ExitOf(s, cause.Some?, cancelled);
      Exits(counts, ids, tasks, id, exit, reserved);
      if !cancelled && cause.Some? {
        BumpFailure(failures, Reason(s, cause.value));
        failures := Bump(failures, Reason(s, cause.value));
      }
      counts, ids := CountExit(counts, exit), NoteExit(ids, id, exit);
      tasks := tasks[id := Leaving];
    }

    /** A task is gone; what it left uncaught shows only as a count. It may go from any stage. */
    method Finished(id: nat, uncaught: bool)
      requires Valid() && id in tasks
      modifies `tasks, `counts, `ids
      ensures Valid() && tasks == old(tasks) - {id}
      ensures counts == old(counts).(internalError := old(counts).internalError + if uncaught then 1 else 0)
    {
      hide Rejections, Failures, Bump;
      tasks := tasks - {id};
      if uncaught {
        counts, ids := counts.(internalError := counts.internalError + 1), ids.(broken := ids.broken + {id});
      }
    }

    method Shut()
      requires Valid()
      modifies `closing
      ensures Valid() && closing
    {
      hide Rejections, Failures, Bump;
      closing := true;
    }

    /** At every point of every run the host's identities hold, so it accepts the counters exactly
        when no more than a million connections were turned away. */
    lemma NormalIff()
      requires Valid()
      ensures Normal(counts, workers, reserved, rejections, failures) <==> counts.overLimit <= 1000000
      ensures forwarded <= reserved <= 1073741824
    {
      hide SumOver, At;
      Identities(counts, ids);
      forall k: Rejection ensures At(rejections, k) <= counts.overLimit { EveryRejection(k); SumAtLeast(rejections, REJECTIONS, k); }
      forall k: Failure ensures At(failures, k) <= counts.failed + counts.refused { EveryFailure(k); SumAtLeast(failures, FAILURES, k); }
    }
  }

  /** A relay for one worker whose eight places are taken, and which then turns a million and one
      connections away: the host does not accept its counters. */
  method TurnsAwayTooMany() returns (r: Relay)
    ensures fresh(r) && r.Valid() && r.counts.accepted == 8 && r.counts.overLimit == 1000001
    ensures !Normal(r.counts, r.workers, r.reserved, r.rejections, r.failures)
  {
    hide Normal, Relay.Valid;
    r := new Relay(1);
    for i := 0 to 8
      invariant fresh(r) && r.Valid() && !r.closing && r.counts.accepted == |r.tasks| == i && r.counts.overLimit == 0
    {
      var id := r.Accept();
    }
    for i := 0 to COUNTER_CAP + 1
      invariant fresh(r) && r.Valid() && r.counts.accepted == |r.tasks| == 8 && r.counts.overLimit == i
    {
      var id := r.Accept();
    }
    r.NormalIff();
  }
}
