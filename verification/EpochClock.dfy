/** The supervisor's one clock: a window to prepare in, a window for the epoch, and one window to clean up in,
    which the first close opens and nothing renews. */
module EpochClock {
  import opened Wrappers

  const PREP_SECONDS := 120.0
  const EPOCH_SECONDS := 900.0
  const CLEANUP_SECONDS := 35.0
  const TOTAL_SECONDS := 1055.0

  function Min(a: real, b: real): real {
    if a <= b then a else b
  }

  datatype Clock = Clock(hardEnd: real, end: real, ready: bool, closing: bool)
  {
    /** There is time left. */
    predicate Left(now: real) {
      Min(end, hardEnd) - now > 0.0
    }

    /** The epoch begins, once, and not after a close. */
    function Admitted(now: real): Option<Clock> {
      if Left(now) && !ready && !closing then Some(this.(ready := true, end := Min(now + EPOCH_SECONDS, hardEnd - CLEANUP_SECONDS)))
      else None
    }

    /** The first close fixes when cleaning up must be over. */
    function Closed(now: real): Clock {
      if closing then this
      else this.(closing := true, end := Min(Min(now + CLEANUP_SECONDS, end + CLEANUP_SECONDS), hardEnd))
    }
  }

  function Opened(started: real): Clock {
    Clock(started + TOTAL_SECONDS, started + PREP_SECONDS, false, false)
  }

  /** The clock as the program keeps it. */
  class Budget {
    const hardEnd: real
    var end: real
    var ready: bool
    var closing: bool

    function State(): Clock
      reads this
    {
      Clock(hardEnd, end, ready, closing)
    }

    constructor (started: real)
      ensures State() == Opened(started)
    {
      hardEnd := started + TOTAL_SECONDS;
      end, ready, closing := started + PREP_SECONDS, false, false;
    }

    /** How long the caller may wait: at most what it asks for, and never past either end. */
    method Remaining(maximum: real, now: real) returns (r: Option<real>)
      ensures r.Some? <==> now < end && now < hardEnd
      ensures r.Some? ==> r.value <= maximum && now + r.value <= end && now + r.value <= hardEnd
      ensures r.Some? ==> r.value == maximum || now + r.value == end || now + r.value == hardEnd
    {
      var left := Min(end, hardEnd) - now;
      r := if left > 0.0 then Some(Min(maximum, left)) else None;
    }

    method AdmitEpoch(now: real) returns (ok: bool)
      modifies this
      ensures ok <==> now < old(end) && now < hardEnd && !old(ready) && !old(closing)
      ensures ok ==> ready && !closing && end <= now + 900.0 && end <= hardEnd - 35.0 && (end == now + 900.0 || end == hardEnd - 35.0)
      ensures old(State()).Admitted(now) == if ok then Some(State()) else None
      ensures !ok ==> State() == old(State())
    {
      var left := Remaining(PREP_SECONDS, now);
      if left == None || ready || closing { return false; }
      ready, end, ok := true, Min(now + EPOCH_SECONDS, hardEnd - CLEANUP_SECONDS), true;
    }

    method Close(now: real)
      modifies this
      ensures State() == old(State()).Closed(now)
      ensures closing && ready == old(ready) && (old(closing) ==> end == old(end))
      ensures !old(closing) ==> end <= now + 35.0 && end <= old(end) + 35.0 && end <= hardEnd
      ensures !old(closing) ==> end == now + 35.0 || end == old(end) + 35.0 || end == hardEnd
    {
      if !closing {
        closing, end := true, Min(Min(now + CLEANUP_SECONDS, end + CLEANUP_SECONDS), hardEnd);
      }
    }
  }

  /** What the clock sees of an event: when it came, and when the clock was read again while it was handled. */
  datatype Kind = Admits | Closes | Passes
  datatype Moment = Moment(kind: Kind, now: real, stamp: real)

  function Seen(c: Clock, m: Moment): Option<Clock> {
    if !c.Left(m.now) then None
    else match m.kind
      case Admits => c.Admitted(m.stamp)
      case Closes => Some(c.Closed(m.stamp))
      case Passes => Some(c)
  }

  function Watched(c: Clock, moments: seq<Moment>): Option<Clock> {
    if moments == [] then Some(c)
    else match Watched(c, moments[..|moments| - 1])
      case None => None
      case Some(d) => Seen(d, moments[|moments| - 1])
  }

  /** When the first event of a kind was handled. */
  function FirstStamp(moments: seq<Moment>, kind: Kind): Option<real> {
    if moments == [] then None
    else if moments[0].kind == kind then Some(moments[0].stamp)
    else FirstStamp(moments[1..], kind)
  }

  /** The window an event falls into: 120 seconds from the start until the epoch is admitted, then 900 seconds
      from there, and from the first close 35 seconds more. */
  function Deadline(started: real, past: seq<Moment>): real {
    var open := match FirstStamp(past, Admits)
      case None => started + 120.0
      case Some(c) => c + 900.0;
    match FirstStamp(past, Closes)
    case None => open
    case Some(k) => (if k < open then k else open) + 35.0
  }

  /** An event is in time; the one that admits the epoch is also in time when the clock is read again, and
      comes once and before any close. */
  predicate InTime(started: real, past: seq<Moment>, m: Moment) {
    && m.now < Deadline(started, past)
    && (m.kind == Admits ==> m.stamp < Deadline(started, past) && FirstStamp(past, Admits) == None && FirstStamp(past, Closes) == None)
  }

  predicate AllInTime(started: real, moments: seq<Moment>) {
    forall i :: 0 <= i < |moments| ==> InTime(started, moments[..i], moments[i])
  }

  lemma {:induction false} FirstStampMore(moments: seq<Moment>, m: Moment, kind: Kind)
    ensures FirstStamp(moments + [m], kind) ==
            match FirstStamp(moments, kind) case Some(t) => Some(t) case None => if m.kind == kind then Some(m.stamp) else None
  {
    if moments == [] {
      assert [m][1..] == [];
    } else {
      assert (moments + [m])[1..] == moments[1..] + [m];
      FirstStampMore(moments[1..], m, kind);
    }
  }

  /** What the clock holds after events that were all in time: no cap on a window ever decides. */
  predicate KeptTo(started: real, past: seq<Moment>, c: Clock) {
    && c.hardEnd == started + 1055.0
    && (c.ready <==> FirstStamp(past, Admits).Some?) && (c.closing <==> FirstStamp(past, Closes).Some?)
    && c.end == Deadline(started, past) <= c.hardEnd
    && (c.ready ==> FirstStamp(past, Admits).value < started + 120.0)
  }

  lemma OneMoreMoment(started: real, past: seq<Moment>, c: Clock, m: Moment)
    requires KeptTo(started, past, c)
    ensures Seen(c, m).Some? <==> InTime(started, past, m)
    ensures Seen(c, m).Some? ==> KeptTo(started, past + [m], Seen(c, m).value)
  {
    FirstStampMore(past, m, Admits);
    FirstStampMore(past, m, Closes);
  }

  /** The clock lets a run of events pass exactly when each is in time, and then ends where the last deadline is. */
  lemma {:induction false} WatchedIff(started: real, moments: seq<Moment>)
    ensures Watched(Opened(started), moments).Some? <==> AllInTime(started, moments)
    ensures Watched(Opened(started), moments).Some? ==> KeptTo(started, moments, Watched(Opened(started), moments).value)
    decreases |moments|
  {
    hide InTime, KeptTo, Seen;
    if moments == [] {
      OpenedAgrees(started);
    } else {
      var n := |moments| - 1;
      var before := moments[..n];
      WatchedIff(started, before);
      assert forall i :: 0 <= i < n ==> before[..i] == moments[..i] && before[i] == moments[i];
      assert before + [moments[n]] == moments;
      if Watched(Opened(started), before).Some? {
        OneMoreMoment(started, before, Watched(Opened(started), before).value, moments[n]);
      }
      if AllInTime(started, moments) {
        assert forall i :: 0 <= i < n ==> InTime(started, before[..i], before[i]);
      }
      if Watched(Opened(started), moments).Some? {
        forall i | 0 <= i < |moments| ensures InTime(started, moments[..i], moments[i]) {
          if i < n { assert InTime(started, before[..i], before[i]); }
        }
      }
    }
  }

  lemma OpenedAgrees(started: real)
    ensures KeptTo(started, [], Opened(started))
  {
  }

  /** Once closing has begun no later event moves the deadline. */
  lemma {:induction false} NothingRenews(c: Clock, moments: seq<Moment>)
    requires c.closing && Watched(c, moments).Some?
    ensures Watched(c, moments).value == c
    ensures forall i :: 0 <= i < |moments| ==> moments[i].now < c.end && moments[i].kind != Admits
    decreases |moments|
  {
    if moments != [] { NothingRenews(c, moments[..|moments| - 1]); }
  }
}
