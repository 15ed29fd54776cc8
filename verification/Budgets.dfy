/** One deadline and one set of budgets for every child of a pool: potential turns are
    reserved at admission, real ones counted at dispatch, bytes reserved before any I/O. */
module Budgets {
  import opened Vocabulary
  import opened Wrappers

  datatype Refusal = ClockUnknown | CancelledUnknown | DeadlineUnknown | ConfigRefused | BytesRefused | TurnsRefused | StateRefused

  datatype Admission = Admitted | NotAdmitted(time: bool) | Failed(refusal: Refusal)

  /** The two turn ledgers. */
  datatype Ledger = Ledger(limit: nat, reserve: nat, turns: nat, foregroundTurns: nat, admissions: nat, foregroundAdmissions: nat)
  {
    function Kept(used: nat): nat { if used < reserve then reserve - used else 0 }

    /** Where admission stops for a purpose. */
    function AdmitLimit(p: Purpose): int {
      if p == Conversation then limit else limit - Kept(foregroundAdmissions)
    }

    /** Where dispatch stops for a purpose. */
    function DispatchLimit(p: Purpose): int {
      if p == Conversation then limit else limit - Kept(foregroundTurns)
    }

    function Admit(p: Purpose): Ledger {
      this.(admissions := admissions + 1, foregroundAdmissions := foregroundAdmissions + if p == Conversation then 1 else 0)
    }

    function Dispatch(p: Purpose): Ledger {
      this.(turns := turns + 1, foregroundTurns := foregroundTurns + if p == Conversation then 1 else 0)
    }

    /** Admissions leave room for what is still reserved; nothing is dispatched unadmitted. */
    predicate Sound() {
      && 1 <= reserve < limit
      && foregroundAdmissions <= admissions
      && admissions + Kept(foregroundAdmissions) <= limit
      && foregroundTurns <= foregroundAdmissions
      && foregroundTurns <= turns
      && turns - foregroundTurns <= admissions - foregroundAdmissions
    }

    /** One admitted turn of this purpose has not been dispatched. */
    predicate Pending(p: Purpose) {
      if p == Conversation then foregroundTurns < foregroundAdmissions
      else turns - foregroundTurns < admissions - foregroundAdmissions
    }
  }

  lemma AdmitSound(l: Ledger, p: Purpose)
    requires l.Sound() && l.admissions < l.AdmitLimit(p)
    ensures l.Admit(p).Sound() && l.Admit(p).Pending(p)
  {
  }

  /** A dispatch of an admitted turn is never refused for lack of turns, though the two
      checks look at different counters. */
  lemma NeverShort(l: Ledger, p: Purpose)
    requires l.Sound() && l.Pending(p)
    ensures l.turns < l.DispatchLimit(p)
    ensures l.Dispatch(p).Sound()
  {
  }

  /** Background work can never take the reserved foreground turns. */
  lemma BackgroundBounded(l: Ledger)
    requires l.Sound()
    ensures l.admissions - l.foregroundAdmissions <= l.limit - l.reserve
    ensures l.turns - l.foregroundTurns <= l.limit - l.reserve
  {
  }

  /** Background work is refused for lack of turns only when none is left, or when every turn that is
      left is still owed to the foreground: what the foreground has used of its reserve is given back. */
  lemma BackgroundServed(l: Ledger, p: Purpose)
    requires l.Sound() && p != Conversation
    ensures l.admissions >= l.AdmitLimit(p) <==> l.limit - l.admissions <= 0 || l.limit - l.admissions <= l.reserve - l.foregroundAdmissions
    ensures l.turns >= l.DispatchLimit(p) <==> l.limit - l.turns <= 0 || l.limit - l.turns <= l.reserve - l.foregroundTurns
  {
  }

  /** The foreground is refused for lack of turns only after its whole reserve was used. */
  lemma ForegroundKept(l: Ledger)
    requires l.Sound() && l.admissions >= l.AdmitLimit(Conversation)
    ensures l.foregroundAdmissions >= l.reserve
  {
  }

  predicate Configured(seconds: real, turns: int, foregroundReserve: int, readCap: int, writeCap: int) {
    && 0.0 < seconds <= 900.0 && 2 <= turns <= 16 && 1 <= foregroundReserve < turns
    && 65536 <= readCap <= 2 * 1024 * 1024 * 1024 && 65536 <= writeCap <= 2 * 1024 * 1024 * 1024
  }

  class SharedBudget {
    const deadline: real
    const readLimit: nat
    const writeLimit: nat
    var lastObserved: real
    var closed: bool
    var readBytes: nat
    var writeBytes: nat
    var ledger: Ledger

    predicate Valid()
      reads this
    {
      ledger.Sound() && readBytes <= readLimit && writeBytes <= writeLimit
    }

    constructor (now: real, seconds: real, turns: nat, foregroundReserve: nat, readCap: nat, writeCap: nat)
      requires Configured(seconds, turns, foregroundReserve, readCap, writeCap)
      ensures Valid() && fresh(this) && !closed && ledger == Ledger(turns, foregroundReserve, 0, 0, 0, 0)
      ensures deadline == now + seconds && lastObserved == now && readLimit == readCap && writeLimit == writeCap
    {
      deadline, lastObserved, closed := now + seconds, now, false;
      readLimit, writeLimit, this.readBytes, this.writeBytes := readCap, writeCap, 0, 0;
      ledger := Ledger(turns, foregroundReserve, 0, 0, 0, 0);
    }

    /** A budget outside its limits is refused, as is one without a clock. */
    static method Open(clock: Option<real>, seconds: real, turns: int, foregroundReserve: int, readCap: int, writeCap: int)
      returns (refusal: Option<Refusal>, b: SharedBudget?)
      ensures refusal == None <==> clock.Some? && Configured(seconds, turns, foregroundReserve, readCap, writeCap)
      ensures refusal == Some(ConfigRefused) <==> !Configured(seconds, turns, foregroundReserve, readCap, writeCap)
      ensures b != null ==> 0.0 < seconds <= 900.0 && 2 <= turns <= 16 && 1 <= foregroundReserve < turns
                            && 65536 <= readCap <= 2147483648 && 65536 <= writeCap <= 2147483648
      ensures b == null ==> clock == None || seconds <= 0.0 || seconds > 900.0 || turns < 2 || turns > 16
                            || foregroundReserve < 1 || foregroundReserve >= turns
                            || readCap < 65536 || readCap > 2147483648 || writeCap < 65536 || writeCap > 2147483648
      ensures refusal == None <==> b != null
      ensures b != null ==> fresh(b) && b.Valid() && !b.closed && b.deadline == clock.value + seconds && b.ledger == Ledger(turns, foregroundReserve, 0, 0, 0, 0)
    {
      if !Configured(seconds, turns, foregroundReserve, readCap, writeCap) { return Some(ConfigRefused), null; }
      if clock == None { return Some(ClockUnknown), null; }
      b := new SharedBudget(clock.value, seconds, turns, foregroundReserve, readCap, writeCap);
      refusal := None;
    }

    /** Time left; a clock that goes backwards is a failure of its own. */
    method Remaining(clock: Option<real>) returns (refusal: Option<Refusal>)
      requires Valid()
      modifies `lastObserved
      ensures Valid() && lastObserved >= old(lastObserved)
      ensures lastObserved == if clock.Some? && clock.value >= old(lastObserved) then clock.value else old(lastObserved)
      ensures refusal in {None, Some(ClockUnknown), Some(CancelledUnknown), Some(DeadlineUnknown)}
      ensures refusal == None <==> clock.Some? && clock.value >= old(lastObserved) && !closed && clock.value < deadline
      ensures refusal == Some(CancelledUnknown) <==> clock.Some? && clock.value >= old(lastObserved) && closed
      ensures refusal == Some(DeadlineUnknown) <==> clock.Some? && clock.value >= old(lastObserved) && !closed && clock.value >= deadline
    {
      if clock == None || clock.value < lastObserved { return Some(ClockUnknown); }
      lastObserved := clock.value;
      if closed { return Some(CancelledUnknown); }
      refusal := if clock.value < deadline then None else Some(DeadlineUnknown);
    }

    /** Reserve bytes before they move; short transfers are not refunded. */
    method Reserve(clock: Option<real>, read: bool, count: int) returns (refusal: Option<Refusal>)
      requires Valid()
      modifies `lastObserved, `readBytes, `writeBytes
      ensures Valid()
      ensures refusal == None ==> readBytes == old(readBytes) + (if read then count else 0) && writeBytes == old(writeBytes) + if read then 0 else count
      ensures refusal != None ==> readBytes == old(readBytes) && writeBytes == old(writeBytes)
      ensures refusal == Some(BytesRefused) ==> if read then readBytes + count > readLimit else writeBytes + count > writeLimit
      ensures clock.Some? && old(lastObserved) <= clock.value < deadline && !closed
              ==> (refusal == None <==> count > 0 && if read then old(readBytes) + count <= readLimit else old(writeBytes) + count <= writeLimit)
    {
      refusal := Remaining(clock);
      if refusal.Some? { return; }
      if count <= 0 { return Some(ConfigRefused); }
      if read {
        if readBytes + count > readLimit { return Some(BytesRefused); }
        readBytes := readBytes + count;
      } else {
        if writeBytes + count > writeLimit { return Some(BytesRefused); }
        writeBytes := writeBytes + count;
      }
    }

    /** Reserve a potential turn. */
    method Admit(clock: Option<real>, p: Purpose) returns (r: Admission)
      requires Valid()
      modifies `lastObserved, `ledger
      ensures Valid()
      ensures r.Admitted? <==> (
                && !closed && clock.Some? && clock.value >= old(lastObserved)
                && deadline - clock.value >= (if p == CommunityAssessment then 30.0 else 300.0)
                && old(ledger).admissions < old(ledger).limit
                && (p == Conversation || old(ledger).limit - old(ledger).admissions > old(ledger).reserve - old(ledger).foregroundAdmissions))
      ensures r.Admitted? ==> ledger == old(ledger).Admit(p) && ledger.Pending(p)
      ensures !r.Admitted? ==> ledger == old(ledger)
      ensures r == NotAdmitted(false) ==>
                if p == Conversation then ledger.admissions >= ledger.limit
                else ledger.limit - ledger.admissions <= 0 || ledger.limit - ledger.admissions <= ledger.reserve - ledger.foregroundAdmissions
      ensures r.Failed? <==> closed || clock == None || clock.value < old(lastObserved)
      ensures r == NotAdmitted(true) ==> clock.Some? && deadline - clock.value < (if p == CommunityAssessment then 30.0 else 300.0)
    {
      if closed { return Failed(StateRefused); }
      if clock == None || clock.value < lastObserved { return Failed(ClockUnknown); }
      lastObserved := clock.value;
      if p != Conversation { BackgroundServed(ledger, p); }
      if deadline - clock.value < (if p == CommunityAssessment then 30.0 else 300.0) { return NotAdmitted(true); }
      if ledger.admissions >= ledger.AdmitLimit(p) { return NotAdmitted(false); }
      AdmitSound(ledger, p);
      ledger := ledger.Admit(p);
      r := Admitted;
    }

    /** Count a real turn, before the transport call it stands for. */
    method Dispatch(clock: Option<real>, p: Purpose) returns (refusal: Option<Refusal>)
      requires Valid()
      modifies `lastObserved, `ledger
      ensures refusal == None <==>
                && clock.Some? && old(lastObserved) <= clock.value < deadline && !closed && old(ledger).turns < old(ledger).limit
                && (p == Conversation || old(ledger).limit - old(ledger).turns > old(ledger).reserve - old(ledger).foregroundTurns)
      ensures refusal == None ==> ledger == old(ledger).Dispatch(p)
      ensures refusal != None ==> ledger == old(ledger) && Valid()
      ensures old(ledger).Pending(p) ==> Valid() && refusal != Some(TurnsRefused)
      ensures refusal == Some(TurnsRefused) ==> ledger.turns >= ledger.limit || (p != Conversation && ledger.limit - ledger.turns <= ledger.reserve - ledger.foregroundTurns)
    {
      refusal := Remaining(clock);
      if refusal.Some? { return; }
      if ledger.Pending(p) { NeverShort(ledger, p); }
      if p != Conversation { BackgroundServed(ledger, p); }
      if ledger.turns >= ledger.DispatchLimit(p) { return Some(TurnsRefused); }
      ledger := ledger.Dispatch(p);
    }

    method Close()
      requires Valid()
      modifies `closed
      ensures Valid() && closed
    {
      closed := true;
    }
  }
}
