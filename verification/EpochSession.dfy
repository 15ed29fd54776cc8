/** The single-pump session: a main thread that runs turns, a receiver thread that may queue
    one message, and a stop code either of them may set. Each method is one thread's step. */
module EpochSession {
  import opened Vocabulary
  import opened Wrappers

  /** What the host sends; `shaped` says whether the message has exactly its keys and types. */
  datatype Message =
    | Turn(ref: string, shaped: bool)
    | ToolResult(ref: string, callRef: string, shaped: bool)
    | Release(ref: string, delivery: Delivery, shaped: bool)
    | CloseRequest
    | Other

  datatype Phase = Idle | Queued | InTurn | Tool | Exporting | ReleasePhase | Closing

  /** Where the main thread is. */
  datatype Main =
    | Starting
    | AtRead
    | Got(m: Message)
    | Handing
    | Running
    | ToolWriting
    | ToolReading
    | ToolGot(m: Message)
    | Publishing(image: bool, frames: nat, bytes: nat)
    | Answering
    | Releasing(unknown: bool)
    | Refusing(reasonTurns: bool)
    | Ended(unreleased: bool)

  /** What a write comes to: out in time, in doubt or past its own deadline, or past the epoch's. */
  datatype Wire = Out | Doubtful | EpochOver

  /** What an actor's turn comes to, after the checks on its value. */
  datatype Outcome = NotAdmitted(turns: bool) | Observed(image: bool) | Bad(code: Code)

  /** What the thread needs next, were it to read a message now. */
  predicate Wants(main: Main, pending: bool, ref: Option<string>, call: Option<string>, m: Message) {
    match m
    case Turn(_, _) => (main.AtRead? || (main.Releasing? && !main.unknown)) && !pending
    case ToolResult(r, c, _) => (main.ToolWriting? || main.ToolReading?) && ref == Some(r) && call == Some(c)
    case Release(_, _, _) => (main.AtRead? || main.Answering?) && pending
    case _ => false
  }

  /** A turn is marked as outstanding, handed to the actor, released by the host, or proved not admitted. */
  datatype Event = Marked | Handed | Released | Proved

  predicate Resolves(e: Event) { e.Released? || e.Proved? }

  /** A turn is handed over only after its own mark, resolved only after it was handed over, and the
      next one is marked only then. */
  predicate Orderly(h: seq<Event>) {
    && (h != [] ==> h[0] == Marked)
    && forall i :: 0 <= i < |h| - 1 ==>
         match h[i]
         case Marked => h[i + 1] == Handed
         case Handed => Resolves(h[i + 1])
         case _ => h[i + 1] == Marked
  }

  /** The last turn has not been resolved. */
  predicate Standing(h: seq<Event>) { h != [] && !Resolves(h[|h| - 1]) }

  /** Some turn was marked, or handed over, and never resolved afterwards. */
  ghost predicate Never(h: seq<Event>, e: Event) {
    exists i :: 0 <= i < |h| && h[i] == e && forall j :: i < j < |h| ==> !Resolves(h[j])
  }

  lemma StandingIsLast(h: seq<Event>)
    requires Orderly(h)
    ensures Standing(h) <==> Never(h, Marked)
    ensures Standing(h) <==> Never(h, Handed) || (h != [] && h[|h| - 1] == Marked)
  {
    var n := |h| - 1;
    if Standing(h) {
      if h[n] == Handed {
        assert n > 0 && h[n - 1] == Marked;
      }
    }
    forall e | Never(h, e) && !Resolves(e) ensures Standing(h) {
      var i :| 0 <= i < |h| && h[i] == e && forall j :: i < j < |h| ==> !Resolves(h[j]);
      assert i == n || !Resolves(h[n]);
    }
  }

  class Session {
    /** Whether closing the actor and cancelling native work succeed when the first stop asks for them. */
    const closeOk: bool
    const cancelOk: bool
    var phase: Phase
    var mailbox: seq<Message>
    var stop: Option<Code>
    var currentRef: Option<string>
    var waitingCall: Option<string>
    var seenCalls: set<string>
    var pendingRelease: bool
    var outstanding: bool
    var inbound: nat
    var outbound: nat
    var main: Main
    /** What happened to turns, in order. */
    ghost var history: seq<Event>

    /** Which phases go with which place of the main thread. */
    ghost predicate InStep()
      reads this
    {
      match phase
      case Idle => mailbox == [] && !pendingRelease && (main.Starting? || main.AtRead? || (main.Releasing? && !main.unknown))
      case Tool => mailbox == [] && (main.ToolWriting? || main.ToolReading?)
      case ReleasePhase => mailbox == [] && pendingRelease && (main.AtRead? || main.Answering?)
      case Queued => if mailbox == [] then main.Got? || main.ToolGot? else Wants(main, pendingRelease, currentRef, waitingCall, mailbox[0])
      case InTurn => mailbox == [] && !pendingRelease && (main.Handing? || main.Running?)
      case Exporting => mailbox == [] && main.Publishing? && pendingRelease
      case Closing => mailbox == [] && (main.Refusing? || (main.Releasing? && main.unknown))
    }

    /** The actor runs, perhaps inside a tool callback. */
    predicate WithActor()
      reads `main
    {
      main.Running? || main.ToolWriting? || main.ToolReading? || main.ToolGot?
    }

    ghost predicate Valid()
      reads this
    {
      && |mailbox| <= 1 && (forall m :: m in mailbox ==> !m.CloseRequest?)
      && |seenCalls| <= CALLS && inbound <= WIRE_BYTES && outbound <= WIRE_BYTES
      && (!main.Ended? ==> InStep())
      && (main.Got? ==> if pendingRelease then main.m.Release? else main.m.Turn?)
      && (main.ToolWriting? || main.ToolReading? || main.ToolGot? ==> !pendingRelease && currentRef.Some? && waitingCall.Some?)
      && (main.ToolGot? ==> main.m.ToolResult? && Some(main.m.ref) == currentRef && Some(main.m.callRef) == waitingCall)
      && (main.Answering? ==> pendingRelease)
      && (main.Releasing? || main.Refusing? ==> !pendingRelease)
      && Orderly(history) && outstanding == Standing(history)
      && (!main.Ended? ==> outstanding == (pendingRelease || WithActor() || main.Handing?))
      && (!main.Ended? && outstanding ==> history[|history| - 1] == if main.Handing? then Marked else Handed)
      && (main.Ended? ==> main.unreleased == outstanding && stop.Some?)
    }

    constructor (closeOk: bool, cancelOk: bool)
      ensures Valid() && main == Starting && stop == None && !outstanding && mailbox == []
      ensures phase == Idle && !pendingRelease && history == [] && inbound == outbound == 0
      ensures this.closeOk == closeOk && this.cancelOk == cancelOk
    {
      this.closeOk, this.cancelOk := closeOk, cancelOk;
      phase, mailbox, stop, currentRef, waitingCall, seenCalls := Idle, [], None, None, None, {};
      pendingRelease, outstanding, inbound, outbound, main := false, false, 0, 0, Starting;
      history := [];
    }

    /** What the first request to stop leaves as the code. */
    function FirstStop(code: Code): Code {
      if !closeOk then InternalUnknown else if !cancelOk && code == Closed then IoUnknown else code
    }

    /** A stop for this cause: the first cause stays. */
    twostate predicate Stops(code: Code)
      reads `stop
    {
      stop == Some(if old(stop).Some? then old(stop.value) else FirstStop(code))
    }

    /** The first cause is what the session closes with, unless the actor could not be closed, or a close was
        asked for and native work could not be cancelled. */
    lemma Causes(code: Code)
      ensures closeOk && cancelOk ==> FirstStop(code) == code
      ensures !closeOk ==> FirstStop(code) == InternalUnknown
      ensures closeOk && !cancelOk ==> (code != Closed ==> FirstStop(code) == code) && (code == Closed ==> FirstStop(code) == IoUnknown)
    {
    }

    /** The first cause of a stop stays, unless closing or cancelling itself fails. */
    method RequestStop(code: Code)
      requires Valid()
      modifies `stop
      ensures Valid() && Stops(code)
    {
      if stop == None { stop := Some(FirstStop(code)); }
    }

    // ---------- the receiver thread

    /** One received message: a close stops the session, anything unexpected stops it too, and
        only what the main thread wants next is queued. */
    method Deliver(m: Message, size: nat, cap: nat) returns (queued: bool, code: Option<Code>)
      requires Valid() && !main.Starting?
      modifies `inbound, `phase, `mailbox
      ensures Valid()
      ensures queued <==>
                && size <= cap && old(inbound) + size <= 536870912 && stop == None && old(mailbox) == []
                && ((old(phase) == Idle && m.Turn?) || (old(phase) == ReleasePhase && m.Release?)
                    || (old(phase) == Tool && m.ToolResult? && Some(m.ref) == currentRef && Some(m.callRef) == waitingCall))
      ensures !queued ==> (code == (
                if size > cap || old(inbound) + size > 536870912 then Some(ProtocolRefused)
                else if m.CloseRequest? then Some(Closed) else if stop.Some? then None else Some(ProtocolRefused)))
      ensures queued ==> mailbox == [m] && phase == Queued && code == None
      ensures queued && !main.Ended? ==> Wants(main, pendingRelease, currentRef, waitingCall, m)
      ensures !queued ==> mailbox == old(mailbox) && phase == old(phase)
      ensures m.CloseRequest? ==> !queued && (code == Some(Closed) || code == Some(ProtocolRefused))
      ensures inbound == old(inbound) || inbound == old(inbound) + size
    {
      if size > cap || inbound + size > WIRE_BYTES { return false, Some(ProtocolRefused); }
      inbound := inbound + size;
      if m.CloseRequest? { return false, Some(Closed); }
      if stop.Some? { return false, None; }
      var expected := match phase
        case Idle => m.Turn?
        case Tool => m.ToolResult?
        case ReleasePhase => m.Release?
        case _ => false;
      if !expected || mailbox != [] { return false, Some(ProtocolRefused); }
      if phase == Tool && (Some(m.ref) != currentRef || Some(m.callRef) != waitingCall) { return false, Some(ProtocolRefused); }
      phase, mailbox := Queued, [m];
      return true, None;
    }

    // ---------- the main thread

    /** Whether a frame written now goes out. */
    predicate Goes(size: nat, w: Wire)
      reads `stop, `outbound
    {
      stop == None && size <= FRAME_BYTES && outbound + size <= WIRE_BYTES && w.Out?
    }

    /** Why a frame does not go out. */
    function Fault(size: nat, w: Wire): Code
      reads `stop, `outbound
      requires !Goes(size, w)
    {
      if stop.Some? then stop.value
      else if size > FRAME_BYTES || outbound + size > WIRE_BYTES then ProtocolRefused
      else if w.Doubtful? then IoUnknown else EpochLimit
    }

    /** Write one frame; an uncertain write is consumed and never retried. */
    method Write(size: nat, w: Wire) returns (code: Option<Code>)
      requires Valid()
      modifies `outbound
      ensures Valid()
      ensures code == None <==> old(Goes(size, w))
      ensures code == None <==> stop == None && size <= 3145728 && old(outbound) + size <= 536870912 && w.Out?
      ensures stop == None && (size > 3145728 || old(outbound) + size > 536870912) ==> code == Some(ProtocolRefused)
      ensures stop == None && size <= 3145728 && old(outbound) + size <= 536870912 && !w.Out? ==> code == Some(if w.Doubtful? then IoUnknown else EpochLimit)
      ensures code.Some? ==> code == Some(old(Fault(size, w))) && (stop.Some? ==> code == stop)
      ensures outbound == old(outbound) + if stop == None && size <= 3145728 && old(outbound) + size <= 536870912 then size else 0
    {
      if stop.Some? { return stop; }
      if size > FRAME_BYTES || outbound + size > WIRE_BYTES { return Some(ProtocolRefused); }
      outbound := outbound + size;
      code := if w.Out? then None else if w.Doubtful? then Some(IoUnknown) else Some(EpochLimit);
    }

    /** The main thread leaves its loop; what it still owes is what the closing facts will say. */
    method Finish(code: Code)
      requires Valid() && !main.Ended?
      modifies `stop, `main
      ensures Valid() && Stops(code)
      ensures main == Ended(Standing(history))
    {
      if stop == None { stop := Some(FirstStop(code)); }
      main := Ended(outstanding);
    }

    /** The ready frame is out and the receiver starts. */
    method Start(size: nat, w: Wire)
      requires Valid() && main.Starting?
      modifies `outbound, `stop, `main
      ensures Valid() && if old(Goes(size, w)) then main.AtRead? && stop == None else main.Ended? && Stops(old(Fault(size, w)))
    {
      var code := Write(size, w);
      if code.Some? { Finish(code.value); } else { main := AtRead; }
    }

    /** Take the queued message, if there is one; it is of the kind the thread handles next,
        so a close is never read here. */
    method Read(inTime: bool) returns (got: bool)
      requires Valid() && main.AtRead?
      modifies `mailbox, `main, `stop
      ensures Valid()
      ensures got <==> old(stop) == None && inTime && old(mailbox) != []
      ensures got ==> stop == None && mailbox == [] && main == Got(old(mailbox)[0]) && (if pendingRelease then main.m.Release? else main.m.Turn?)
      ensures old(stop) == None && inTime && !got ==> main.AtRead? && stop == None
      ensures old(stop).Some? || !inTime ==> main.Ended? && Stops(EpochLimit)
    {
      got := false;
      if stop.Some? || !inTime {
        Finish(EpochLimit);
        return;
      }
      if mailbox == [] { return; }
      if mailbox[0].CloseRequest? || mailbox[0].Other? { assert false; }
      got, main, mailbox := true, Got(mailbox[0]), mailbox[1..];
    }

    /** A turn: shaped and valid input, a clear native channel, and no stop. */
    method AcceptTurn(valid: bool, clear: bool) returns (ok: bool)
      requires Valid() && main.Got? && !pendingRelease
      modifies `phase, `currentRef, `main, `outstanding, `stop, `history
      ensures Valid()
      ensures ok <==> old(main.m).shaped && valid && clear && old(stop) == None
      ensures ok ==> main.Handing? && currentRef == Some(old(main.m).ref) && outstanding && history == old(history) + [Marked]
      ensures !ok ==> main.Ended? && outstanding == old(outstanding)
      ensures !ok ==> Stops(if !old(main.m).shaped then ProtocolRefused else if !valid then InputRefused else NativeUnknown)
    {
      var refusal := if !main.m.shaped then Some(ProtocolRefused) else if !valid then Some(InputRefused)
                     else if !clear then Some(NativeUnknown) else stop;
      if refusal.Some? { Finish(refusal.value); return false; }
      phase, currentRef, outstanding := InTurn, Some(main.m.ref), true;
      history := history + [Marked];
      main := Handing;
      ok := true;
    }

    /** The turn goes to the actor once its facts were read. */
    method Hand(factsOk: bool)
      requires Valid() && main.Handing?
      modifies `main, `stop, `history
      ensures Valid() && (if factsOk then main.Running? && history == old(history) + [Handed] else main == Ended(true) && history == old(history) && Stops(NativeUnknown))
    {
      if factsOk {
        main, history := Running, history + [Handed];
      } else {
        Finish(NativeUnknown);
      }
    }

    /** The actor calls for a tool. */
    method CallTool(callRef: string, proper: bool) returns (ok: bool)
      requires Valid() && main.Running? && currentRef.Some?
      modifies `phase, `waitingCall, `seenCalls, `main, `stop
      ensures Valid()
      ensures ok <==> proper && callRef !in old(seenCalls) && |old(seenCalls)| < 128
      ensures ok ==> main.ToolWriting? && waitingCall == Some(callRef) && seenCalls == old(seenCalls) + {callRef}
      ensures !ok ==> main.Ended? && seenCalls == old(seenCalls) && Stops(ProtocolRefused)
    {
      ok := proper && callRef !in seenCalls && |seenCalls| < CALLS;
      if !ok { Finish(ProtocolRefused); return; }
      seenCalls, waitingCall, phase, main := seenCalls + {callRef}, Some(callRef), Tool, ToolWriting;
    }

    method WriteTool(size: nat, w: Wire)
      requires Valid() && main.ToolWriting?
      modifies `outbound, `main, `stop
      ensures Valid() && if old(Goes(size, w)) then main.ToolReading? else main.Ended? && Stops(old(Fault(size, w)))
    {
      var code := Write(size, w);
      if code.Some? { Finish(code.value); } else { main := ToolReading; }
    }

    /** Wait for the result of this very call. */
    method ReadTool(inTime: bool, epochOver: bool) returns (got: bool)
      requires Valid() && main.ToolReading?
      modifies `mailbox, `main, `stop
      ensures Valid()
      ensures got <==> old(stop) == None && inTime && old(mailbox) != []
      ensures got ==> main == ToolGot(old(mailbox)[0]) && Some(main.m.ref) == currentRef && Some(main.m.callRef) == waitingCall
      ensures old(stop) == None && inTime && !got ==> main.ToolReading? && stop == None
      ensures old(stop).Some? || !inTime ==> main.Ended? && Stops(if epochOver then EpochLimit else IoUnknown)
    {
      got := false;
      if stop.Some? || !inTime {
        Finish(if epochOver then EpochLimit else IoUnknown);
        return;
      }
      if mailbox == [] { return; }
      got, main, mailbox := true, ToolGot(mailbox[0]), mailbox[1..];
    }

    /** Give the result to the actor. */
    method ReturnTool(resultOk: bool)
      requires Valid() && main.ToolGot?
      modifies `waitingCall, `phase, `main, `stop
      ensures Valid() && (if old(main.m).shaped && resultOk then main.Running? && waitingCall == None else main.Ended? && Stops(ProtocolRefused))
    {
      if main.m.ref != currentRef.value || main.m.callRef != waitingCall.value { assert false; }
      if !main.m.shaped || !resultOk { Finish(ProtocolRefused); return; }
      waitingCall, phase, main := None, InTurn, Running;
    }

    /** The actor's turn is over. A refusal counts as a proof only if no stop came first. */
    method EndTurn(outcome: Outcome)
      requires Valid() && main.Running?
      modifies `phase, `outstanding, `pendingRelease, `main, `stop, `history
      ensures Valid()
      ensures outcome.NotAdmitted? && old(stop) == None ==> !outstanding && history == old(history) + [Proved] && main == Refusing(outcome.turns) && phase == Closing
      ensures outcome.Observed? && old(stop) == None ==> pendingRelease && main == Publishing(outcome.image, 0, 0) && outstanding == old(outstanding)
      ensures old(stop).Some? || outcome.Bad? ==> main.Ended? && outstanding == old(outstanding) && stop == Some(if old(stop).Some? then old(stop.value) else FirstStop(outcome.code))
    {
      if stop.Some? { Finish(stop.value); return; }
      match outcome {
        case Bad(code) => Finish(code);
        case NotAdmitted(turns) => outstanding, history, phase, main := false, history + [Proved], Closing, Refusing(turns);
        case Observed(image) => pendingRelease, phase, main := true, Exporting, Publishing(image, 0, 0);
      }
    }

    /** The refusal is written, and the epoch ends either way. */
    method WriteRefusal(size: nat, w: Wire)
      requires Valid() && main.Refusing?
      modifies `outbound, `main, `stop
      ensures Valid() && main == Ended(outstanding)
      ensures old(Goes(size, w)) ==> stop == Some(FirstStop(if old(main).reasonTurns then TurnLimit else EpochLimit))
      ensures !old(Goes(size, w)) ==> Stops(old(Fault(size, w)))
    {
      var turns := main.reasonTurns;
      var code := Write(size, w);
      Finish(if code.Some? then code.value else if turns then TurnLimit else EpochLimit);
    }

    /** The scope, and for an image its frames within their bounds. */
    method WriteExport(first: bool, size: nat, w: Wire)
      requires Valid() && main.Publishing? && (first || main.image)
      modifies `outbound, `main, `stop
      ensures Valid() && (main.Publishing? || main.Ended?)
      ensures main.Publishing? <==> old(Goes(size, w)) && (first || (old(main).frames < 24 && old(main).bytes + size <= 12582912))
      ensures main.Publishing? ==> main == if first then old(main) else old(main).(frames := old(main).frames + 1, bytes := old(main).bytes + size)
      ensures main.Ended? && !first && (old(main).frames + 1 > 24 || old(main).bytes + size > 12582912) ==> Stops(NativeUnknown)
      ensures main.Ended? && (first || (old(main).frames + 1 <= 24 && old(main).bytes + size <= 12582912)) ==> !old(Goes(size, w)) && Stops(old(Fault(size, w)))
      ensures main.Publishing? && !first ==> main.frames <= IMAGE_FRAMES && main.bytes <= IMAGE_BYTES
    {
      var p := main;
      if !first && (p.frames + 1 > IMAGE_FRAMES || p.bytes + size > IMAGE_BYTES) { Finish(NativeUnknown); return; }
      var code := Write(size, w);
      if code.Some? { Finish(code.value); return; }
      if !first { main := p.(frames := p.frames + 1, bytes := p.bytes + size); }
    }

    /** From here on the host may release, even before the answer is out. */
    method OpenRelease()
      requires Valid() && main.Publishing?
      modifies `phase, `main
      ensures Valid() && main.Answering? && phase == ReleasePhase
    {
      phase, main := ReleasePhase, Answering;
    }

    method WriteAnswer(size: nat, w: Wire)
      requires Valid() && main.Answering?
      modifies `outbound, `main, `stop
      ensures Valid() && if old(Goes(size, w)) then main.AtRead? else main.Ended? && Stops(old(Fault(size, w)))
    {
      var code := Write(size, w);
      if code.Some? { Finish(code.value); } else { main := AtRead; }
    }

    /** The release the host sent, for this very turn. */
    method ApplyRelease(actorOk: bool)
      requires Valid() && main.Got? && pendingRelease
      modifies `phase, `pendingRelease, `outstanding, `main, `stop, `history
      ensures Valid()
      ensures old(main.m).shaped && Some(old(main.m).ref) == currentRef && actorOk
              ==> main == Releasing(old(main.m).delivery == UnknownDelivery) && history == old(history) + [Released] && !outstanding && !pendingRelease
      ensures !(old(main.m).shaped && Some(old(main.m).ref) == currentRef && actorOk) ==> main.Ended? && outstanding == old(outstanding)
      ensures !(old(main.m).shaped && Some(old(main.m).ref) == currentRef) ==> Stops(ProtocolRefused)
      ensures old(main.m).shaped && Some(old(main.m).ref) == currentRef && !actorOk ==> Stops(InternalUnknown)
    {
      var m := main.m;
      if !m.shaped || Some(m.ref) != currentRef { Finish(ProtocolRefused); return; }
      if !actorOk { Finish(InternalUnknown); return; }
      pendingRelease, outstanding, history := false, false, history + [Released];
      var unknown := m.delivery == UnknownDelivery;
      phase := if unknown then Closing else Idle;
      main := Releasing(unknown);
    }

    method WriteReleased(size: nat, w: Wire)
      requires Valid() && main.Releasing?
      modifies `outbound, `main, `stop
      ensures Valid() && if old(Goes(size, w)) && !old(main).unknown then main.AtRead? else main.Ended?
      ensures old(Goes(size, w)) && old(main).unknown ==> stop == Some(FirstStop(ReleaseUnknown))
      ensures !old(Goes(size, w)) ==> Stops(old(Fault(size, w)))
    {
      var unknown := main.unknown;
      var code := Write(size, w);
      if code.Some? { Finish(code.value); }
      else if unknown { Finish(ReleaseUnknown); }
      else { main := AtRead; }
    }

    /** In every interleaving the mailbox holds at most one message, never a close, and one that waits
        is of the kind, and for a tool of the call, that the main thread takes next. */
    lemma Mailbox()
      requires Valid()
      ensures |mailbox| <= 1 && CloseRequest !in mailbox
      ensures mailbox != [] && !main.Ended? ==> phase == Queued && Wants(main, pendingRelease, currentRef, waitingCall, mailbox[0])
    {
    }

    /** What the closing facts say: some turn was handed to the actor and afterwards neither released nor
        proved not admitted, or the last turn was marked and never reached the actor. */
    lemma Unreleased()
      requires Valid() && main.Ended?
      ensures main.unreleased <==> Never(history, Handed) || (history != [] && history[|history| - 1] == Marked)
      ensures main.unreleased <==> Never(history, Marked)
    {
      StandingIsLast(history);
    }
  }

  /** A session that marks a turn and then cannot read the actor's facts: the actor never gets the turn, and
      the closing facts report it as unreleased. */
  method MarkedNeverHanded(ref: string) returns (s: Session)
    ensures fresh(s) && s.Valid() && s.main == Ended(true) && s.history == [Marked]
  {
    hide Session.Valid;
    s := new Session(true, true);
    s.Start(100, Out);
    var queued, _ := s.Deliver(Turn(ref, true), 100, FRAME_BYTES);
    var got := s.Read(true);
    var ok := s.AcceptTurn(true, true);
    assert queued && got && ok;
    s.Hand(false);
  }
}
