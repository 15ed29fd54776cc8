/** The transport to the model child: one reader, one request in flight, frames deferred while
    a response is awaited and put back in order afterwards. Any doubt poisons it. What the
    pipes and the clock do is an input of every call. */
module NativeRpc {
  import opened Wrappers
  import opened RpcLedger
  import opened Sets
  import Json
  import L = Lines

  const FRAME_CAP := 3 * 1024 * 1024
  const QUEUE_BYTES := 8 * 1024 * 1024
  const IMAGE_FRAME_CAP := 12 * 1024 * 1024
  const IMAGE_QUEUE_BYTES := 32 * 1024 * 1024
  const QUEUE_COUNT := 64
  const SERVER_IDS := 4096
  const PENDING_COUNT := 32

  datatype Phase = Custody | Model | Poisoned | Shutdown

  datatype Code = ProtocolRefused | BoundsRefused | TransportUnknown | PhaseRefused | Closed

  /** What one non-blocking read finds. */
  datatype Read = NothingYet | ReadFailed | End | Data(bytes: seq<byte>)

  /** What one wait for readiness finds. */
  datatype Wake = Late | SelectorFailed | Ready(read: Option<Read>, writable: bool)

  /** What one non-blocking write does. */
  datatype Push = PushedNothing | PushFailed | Pushed(count: int)

  datatype Tick = Tick(wake: Wake, lateAfter: bool, push: Push)

  datatype Reply = Result(body: string) | ErrorCode(body: string) | Failed(code: Code)

  /** What a caller may ask of the peer: by phase, and only `initialize` before the handshake. */
  datatype Call = Initialize | Custodial | Modelling | Unknown

  datatype Next = Frame(frame: Frame) | Idle | Refused(code: Code)

  /** What has arrived and is not yet dealt with. */
  datatype Observed = Observed(partialBytes: nat, queuedFrames: nat, pendingRequests: nat, eof: bool)

  /** One turn of a poll: whether its budget has run out, before and after the wait. */
  datatype Poll = Poll(expired: bool, spent: bool, ready: bool, expiredAfter: bool, broken: bool, read: Read)

  /** The name of the n-th request of this connection. */
  function OwnId(prefix: string, n: nat): string {
    prefix + Json.Digits(n)
  }

  /** No two requests of one connection share a name. */
  lemma OwnIdsDiffer(prefix: string, m: nat, n: nat)
    requires m != n
    ensures OwnId(prefix, m) != OwnId(prefix, n)
  {
    if OwnId(prefix, m) == OwnId(prefix, n) {
      assert OwnId(prefix, m)[|prefix|..] == Json.Digits(m);
      assert OwnId(prefix, n)[|prefix|..] == Json.Digits(n);
      Json.DigitsInjective(m, n);
    }
  }

  /** How lines are read here: what they decode to, whether requests are allowed yet, and the caps. */
  datatype Terms = Terms(decode: Decoder, model: bool, frameCap: nat, queueCap: nat)

  /** Everything received so far and what became of it; `deferred` are the frames a running
      exchange has set aside. */
  datatype Books = Books(fed: seq<byte>, lines: seq<seq<byte>>, buffer: seq<byte>, arrivals: seq<Held>,
                         delivered: seq<Held>, taken: seq<Held>, answered: seq<Id>,
                         deferred: seq<Held>, queue: seq<Held>, seen: set<Id>, pending: map<Id, Stage>)
  {
    function Held(): seq<Held> { deferred + queue }

    function Past(): History { History(lines, buffer, arrivals, delivered, taken, Held()) }

    predicate Streamed(decode: Decoder) { Past().Of(decode, fed) }

    ghost predicate Accounted(custody: bool) {
      && Ledger(seen, pending, answered, delivered, Held())
      && |seen| <= SERVER_IDS && |pending| <= PENDING_COUNT
      && (custody ==> seen == {})
    }

    /** Count and bytes of everything held stay within the caps; only methods are deferred. */
    predicate Capped(bytes: nat) {
      && |Held()| <= QUEUE_COUNT
      && Bytes(deferred) + Bytes(queue) <= bytes
      && (forall i :: 0 <= i < |deferred| ==> deferred[i].frame.Method?())
    }

    ghost predicate Sound(decode: Decoder, custody: bool, bytes: nat) {
      Streamed(decode) && Accounted(custody) && Capped(bytes)
    }

    function Admitted(line: seq<byte>, h: Held): Books
      requires |line| <= |buffer|
    {
      this.(lines := lines + [line], buffer := buffer[|line|..], arrivals := arrivals + [h], queue := queue + [h],
            seen := if h.frame.Request? then seen + {h.frame.id} else seen,
            pending := if h.frame.Request? then pending[h.frame.id := Queued] else pending)
    }

    /** Why a decoded frame is not admitted, if it is not. */
    function Refused(t: Terms, frame: Frame, size: nat): Option<Code> {
      if frame.Request? && !t.model then Some(PhaseRefused)
      else if frame.Request? && frame.id in seen then Some(ProtocolRefused)
      else if frame.Request? && (|seen| >= SERVER_IDS || |pending| >= PENDING_COUNT) then Some(BoundsRefused)
      else if |queue| + |deferred| >= QUEUE_COUNT || Bytes(queue) + Bytes(deferred) + size > t.queueCap then Some(BoundsRefused)
      else None
    }

    /** Every whole line is taken off the buffer, unless one is refused or too long. */
    function Taken(t: Terms): Option<Books>
      decreases |buffer|
    {
      var n := L.FirstLine(buffer);
      if n == |buffer| then if n < t.frameCap then Some(this) else None
      else
        var line := buffer[..n + 1];
        if n + 1 > t.frameCap || t.decode(line) == None || Refused(t, t.decode(line).value, n + 1).Some? then None
        else Admitted(line, RpcLedger.Held.Held(t.decode(line).value, n + 1)).Taken(t)
    }

    /** What one read makes of the books, unless it fails. */
    function After(t: Terms, read: Read): Option<Books> {
      match read
      case NothingYet => Some(this)
      case ReadFailed => None
      case End => Some(this)
      case Data(data) => if data == [] then Some(this) else Fed(data).Taken(t)
    }

    /** The next frame is handed out. */
    function Popped(): Books
      requires queue != []
    {
      this.(queue := queue[1..], delivered := delivered + [queue[0]],
            pending := if queue[0].frame.Request? then pending[queue[0].frame.id := Delivered] else pending)
    }

    /** The next frame is set aside. */
    function Deferred(): Books
      requires queue != []
    {
      this.(queue := queue[1..], deferred := deferred + [queue[0]])
    }

    function Fed(data: seq<byte>): Books {
      this.(fed := fed + data, buffer := buffer + data)
    }

    function Responded(id: Id): Books {
      this.(pending := pending[id := Responding])
    }

    function Answered(id: Id): Books {
      this.(pending := pending - {id}, answered := answered + [id])
    }

    /** The response is taken and what was set aside goes back to the front. */
    function Restored(): Books
      requires queue != []
    {
      this.(queue := deferred + queue[1..], deferred := [], taken := taken + [queue[0]])
    }
  }

  lemma TakenStep(b: Books, t: Terms)
    ensures var n := L.FirstLine(b.buffer);
            if n == |b.buffer| then b.Taken(t) == if n < t.frameCap then Some(b) else None
            else
              var frame := t.decode(b.buffer[..n + 1]);
              if n + 1 > t.frameCap || frame == None || b.Refused(t, frame.value, n + 1).Some? then b.Taken(t) == None
              else
                var more := b.Admitted(b.buffer[..n + 1], RpcLedger.Held.Held(frame.value, n + 1));
                b.Taken(t) == more.Taken(t) && more.fed == b.fed
  {
    hide Books.Refused;
  }

  lemma AdmitStreams(b: Books, decode: Decoder, line: seq<byte>, h: Held)
    requires b.Streamed(decode) && L.IsLine(line) && line <= b.buffer && decode(line) == Some(h.frame) && h.size == |line|
    ensures b.Admitted(line, h).Streamed(decode)
  {
    hide InOrder;
    Arrive(b.arrivals, b.delivered, b.taken, b.Held(), h);
    Regroup(b.deferred, b.queue, [h]);
    L.JoinedMore(b.lines, line);
    Cut(L.Joined(b.lines), b.buffer, |line|);
  }

  lemma Cut(a: seq<byte>, b: seq<byte>, n: nat)
    requires n <= |b|
    ensures a + b == a + b[..n] + b[n..]
  {
  }

  lemma AdmitAccounts(b: Books, custody: bool, line: seq<byte>, h: Held)
    requires b.Accounted(custody) && |line| <= |b.buffer|
    requires h.frame.Request? ==> !custody && h.frame.id !in b.seen && |b.seen| < SERVER_IDS && |b.pending| < PENDING_COUNT
    ensures b.Admitted(line, h).Accounted(custody)
    ensures h.frame.Request? ==> h.frame.id !in b.pending
    ensures Answering(b.Admitted(line, h).pending) == Answering(b.pending)
  {
    hide Ledger, Answering;
    if h.frame.Request? {
      Unseen(b, h.frame.id);
      QueueOne(b.pending, h.frame.id);
    }
    LedgerArrive(b.seen, b.pending, b.answered, b.delivered, b.Held(), h);
    Regroup(b.deferred, b.queue, [h]);
  }

  lemma Unseen(b: Books, id: Id)
    requires Ledger(b.seen, b.pending, b.answered, b.delivered, b.Held()) && id !in b.seen
    ensures id !in b.pending
  {
  }

  lemma QueueOne(pending: map<Id, Stage>, id: Id)
    requires id !in pending
    ensures Answering(pending[id := Queued]) == Answering(pending)
    ensures |pending[id := Queued]| == |pending| + 1
  {
  }

  lemma AdmitCaps(b: Books, bytes: nat, line: seq<byte>, h: Held)
    requires b.Capped(bytes) && |line| <= |b.buffer|
    requires |b.queue| + |b.deferred| < QUEUE_COUNT && Bytes(b.queue) + Bytes(b.deferred) + h.size <= bytes
    ensures b.Admitted(line, h).Capped(bytes) && Bytes(b.queue + [h]) == Bytes(b.queue) + h.size
  {
    Concat(b.queue, [h]);
    Single(h);
  }

  lemma {:induction false} AdmitSound(b: Books, decode: Decoder, custody: bool, bytes: nat, line: seq<byte>, h: Held)
    requires b.Sound(decode, custody, bytes)
    requires L.IsLine(line) && line <= b.buffer && decode(line) == Some(h.frame) && h.size == |line|
    requires h.frame.Request? ==> !custody && h.frame.id !in b.seen && |b.seen| < SERVER_IDS && |b.pending| < PENDING_COUNT
    requires |b.queue| + |b.deferred| < QUEUE_COUNT && Bytes(b.queue) + Bytes(b.deferred) + h.size <= bytes
    ensures b.Admitted(line, h).Sound(decode, custody, bytes) && Bytes(b.queue + [h]) == Bytes(b.queue) + h.size
    ensures Answering(b.Admitted(line, h).pending) == Answering(b.pending)
    ensures h.frame.Request? ==> h.frame.id !in b.pending
  {
    hide Ledger, History.Of, InOrder, Decoded;
    AdmitStreams(b, decode, line, h);
    AdmitAccounts(b, custody, line, h);
    AdmitCaps(b, bytes, line, h);
  }

  /** The requests an answer is being written for. */
  function Answering(pending: map<Id, Stage>): set<Id> {
    set id | id in pending && pending[id] == Responding
  }

  lemma FedSound(b: Books, decode: Decoder, custody: bool, bytes: nat, data: seq<byte>)
    requires b.Sound(decode, custody, bytes)
    ensures b.Fed(data).Sound(decode, custody, bytes)
  {
    L.Associate(L.Joined(b.lines), b.buffer, data);
  }

  lemma Uncons<T>(s: seq<T>)
    requires s != []
    ensures s == [s[0]] + s[1..]
  {
  }

  lemma NoBytes()
    ensures Bytes([]) == 0
  {
  }

  lemma FirstBytes(queue: seq<Held>)
    requires queue != []
    ensures Bytes(queue) == queue[0].size + Bytes(queue[1..])
  {
    Uncons(queue);
    Concat([queue[0]], queue[1..]);
    Single(queue[0]);
  }

  lemma {:induction false} PoppedSound(b: Books, decode: Decoder, custody: bool, bytes: nat)
    requires b.Sound(decode, custody, bytes) && b.deferred == [] && b.queue != [] && b.queue[0].frame.Method?()
    ensures b.Popped().Sound(decode, custody, bytes)
    ensures b.queue[0].frame.Request? ==> b.queue[0].frame.id in b.pending && b.pending[b.queue[0].frame.id] == Queued
    ensures Answering(b.Popped().pending) == Answering(b.pending)
  {
    hide InOrder, Ledger, Decoded, Ids, Answering;
    PoppedHeld(b);
    Deliver(b.arrivals, b.delivered, b.taken, b.queue);
    PoppedAccounts(b, custody);
    FirstBytes(b.queue);
  }

  lemma PoppedAccounts(b: Books, custody: bool)
    requires b.Accounted(custody) && b.deferred == [] && b.queue != []
    ensures b.Popped().Accounted(custody)
    ensures b.queue[0].frame.Request? ==> b.queue[0].frame.id in b.pending && b.pending[b.queue[0].frame.id] == Queued
    ensures Answering(b.Popped().pending) == Answering(b.pending)
  {
    hide Ledger;
    PoppedHeld(b);
    LedgerDeliver(b.seen, b.pending, b.answered, b.delivered, b.queue);
    if b.queue[0].frame.Request? {
      assert b.Popped().pending.Keys == b.pending.Keys;
    }
  }

  lemma PoppedHeld(b: Books)
    requires b.deferred == [] && b.queue != []
    ensures b.Held() == b.queue && b.Popped().Held() == b.queue[1..]
  {
  }

  lemma DeferredHeld(b: Books)
    requires b.queue != []
    ensures b.Deferred().Held() == b.Held()
  {
    Uncons(b.queue);
    Regroup(b.deferred, [b.queue[0]], b.queue[1..]);
  }

  /** Setting a frame aside changes nothing that is held. */
  lemma DeferredSound(b: Books, decode: Decoder, custody: bool, bytes: nat)
    requires b.Sound(decode, custody, bytes) && b.queue != [] && b.queue[0].frame.Method?()
    ensures b.Deferred().Sound(decode, custody, bytes)
    ensures Bytes(b.deferred + [b.queue[0]]) == Bytes(b.deferred) + b.queue[0].size
    ensures Bytes(b.queue) == b.queue[0].size + Bytes(b.queue[1..])
  {
    hide InOrder, Ledger, Decoded, Books.Held;
    DeferredHeld(b);
    FirstBytes(b.queue);
    Concat(b.deferred, [b.queue[0]]);
    Single(b.queue[0]);
  }

  /** Taking the response and restoring what was set aside keeps every method's place. */
  lemma RestoredSound(b: Books, decode: Decoder, custody: bool, bytes: nat)
    requires b.Sound(decode, custody, bytes) && b.queue != [] && b.queue[0].frame.Response?
    ensures b.Restored().Sound(decode, custody, bytes)
    ensures Bytes(b.Restored().queue) == Bytes(b.deferred) + Bytes(b.queue) - b.queue[0].size
    ensures Bytes(b.queue) == b.queue[0].size + Bytes(b.queue[1..])
  {
    RestoredStreams(b, decode);
    RestoredAccounts(b, custody);
    FirstBytes(b.queue);
    Concat(b.deferred, b.queue[1..]);
  }

  lemma HeldAround(b: Books)
    requires b.queue != []
    ensures b.Held() == b.deferred + [b.queue[0]] + b.queue[1..]
    ensures b.Restored().Held() == b.deferred + b.queue[1..]
  {
    Uncons(b.queue);
    Regroup(b.deferred, [b.queue[0]], b.queue[1..]);
  }

  lemma RestoredStreams(b: Books, decode: Decoder)
    requires b.Streamed(decode) && b.queue != [] && b.queue[0].frame.Response?
    requires forall i :: 0 <= i < |b.deferred| ==> b.deferred[i].frame.Method?()
    ensures b.Restored().Streamed(decode)
  {
    hide InOrder;
    HeldAround(b);
    Take(b.arrivals, b.delivered, b.taken, b.deferred, b.queue[0], b.queue[1..]);
  }

  lemma RestoredAccounts(b: Books, custody: bool)
    requires b.Accounted(custody) && b.queue != [] && b.queue[0].frame.Response?
    ensures b.Restored().Accounted(custody)
  {
    hide Ledger;
    HeldAround(b);
    LedgerTake(b.seen, b.pending, b.answered, b.delivered, b.deferred, b.queue[0], b.queue[1..]);
  }

  lemma {:induction false} RespondedSound(b: Books, decode: Decoder, custody: bool, bytes: nat, id: Id)
    requires b.Sound(decode, custody, bytes) && id in b.pending && b.pending[id] == Delivered
    ensures b.Responded(id).Sound(decode, custody, bytes)
    ensures Answering(b.Responded(id).pending) == Answering(b.pending) + {id}
  {
    hide InOrder, Ledger;
    LedgerRespond(b.seen, b.pending, b.answered, b.delivered, b.Held(), id);
    assert b.pending[id := Responding].Keys == b.pending.Keys;
  }

  lemma {:induction false} AnsweredSound(b: Books, decode: Decoder, custody: bool, bytes: nat, id: Id)
    requires b.Sound(decode, custody, bytes) && id in b.pending && b.pending[id] == Responding
    ensures b.Answered(id).Sound(decode, custody, bytes)
    ensures Answering(b.Answered(id).pending) == Answering(b.pending) - {id}
  {
    hide InOrder, Ledger;
    LedgerAnswer(b.seen, b.pending, b.answered, b.delivered, b.Held(), id);
  }

  class NativeRpc {
    const decode: Decoder
    const prefix: string
    const frameCap: nat
    const queueCap: nat
    var phase: Phase
    var initialized: bool
    var initAck: bool
    var eof: bool
    var inputClosed: bool
    var closed: bool
    var buffer: seq<byte>
    var queue: seq<Held>
    var queuedBytes: nat
    var deferredCount: nat
    var deferredBytes: nat
    var seen: set<Id>
    var pending: map<Id, Stage>
    var serial: nat
    var readBytes: nat
    var responses: nat
    ghost var books: Books

    ghost predicate Live()
      reads `phase, `closed
    {
      !closed && (phase == Custody || phase == Model)
    }

    /** The fields say what the books say. */
    ghost predicate Kept(b: Books)
      reads `buffer, `queue, `seen, `pending, `readBytes, `responses, `queuedBytes, `deferredBytes, `deferredCount
    {
      && buffer == b.buffer && queue == b.queue && seen == b.seen && pending == b.pending
      && readBytes == |b.fed| && responses == |b.answered|
      && queuedBytes == Bytes(b.queue) && deferredBytes == Bytes(b.deferred) && deferredCount == |b.deferred|
    }

    /** What holds inside an operation that has not failed. */
    ghost predicate Holding()
      reads `phase, `closed, `books, `buffer, `queue, `seen, `pending, `readBytes, `responses, `queuedBytes, `deferredBytes, `deferredCount
    {
      Live() && books.Sound(decode, phase == Custody, queueCap) && Kept(books)
    }

    /** What holds between operations. */
    ghost predicate Valid()
      reads this
    {
      && (closed ==> inputClosed)
      && (Live() ==> Holding() && books.deferred == [] && L.LF !in buffer && Answering(pending) == {})
    }

    constructor (decode: Decoder, prefix: string, image: bool)
      ensures Valid() && phase == Custody && books == Books([], [], [], [], [], [], [], [], [], {}, map[])
      ensures this.decode == decode && this.prefix == prefix && queueCap >= frameCap >= FRAME_CAP
      ensures if image then frameCap == 12582912 && queueCap == 33554432 else frameCap == 3145728 && queueCap == 8388608
      ensures !initialized && !initAck && !eof && !inputClosed && serial == 0
    {
      this.decode, this.prefix := decode, prefix;
      frameCap := if image then IMAGE_FRAME_CAP else FRAME_CAP;
      queueCap := if image then IMAGE_QUEUE_BYTES else QUEUE_BYTES;
      phase, initialized, initAck, eof, inputClosed, closed := Custody, false, false, false, false, false;
      buffer, queue, queuedBytes, deferredCount, deferredBytes := [], [], 0, 0, 0;
      seen, pending, serial, readBytes, responses := {}, map[], 0, 0, 0;
      books := Books([], [], [], [], [], [], [], [], [], {}, map[]);
    }

    /** Only arrivals have happened: nothing was handed out, taken or answered. */
    twostate predicate OnlyReceived()
      reads this
    {
      && phase == old(phase) && old(queue) <= queue && old(books.fed) <= books.fed
      && books.deferred == old(books.deferred) && books.delivered == old(books.delivered)
      && books.taken == old(books.taken) && books.answered == old(books.answered)
      && Answering(pending) == Answering(old(pending))
      && (forall id :: id in old(pending) ==> id in pending && pending[id] == old(pending)[id])
    }

    ghost function Now(): Terms
      reads `phase
    {
      Terms(decode, phase == Model, frameCap, queueCap)
    }

    /** The books once a wake-up's read, if any, has been taken in. */
    ghost function Woken(wake: Wake): Option<Books>
      reads `phase, `books
    {
      if wake.Ready? && wake.read.Some? then books.After(Now(), wake.read.value) else Some(books)
    }

    /** A failure drops what was received and ends every later operation. */
    method Fail()
      modifies this`phase, this`queue, this`buffer, this`queuedBytes
      ensures phase == Poisoned && queue == [] && buffer == [] && queuedBytes == 0
    {
      phase, queue, buffer, queuedBytes := Poisoned, [], [], 0;
    }

    method Append(frame: Frame, size: nat, ghost b: Books, ghost line: seq<byte>)
      requires Kept(b) && size == |line| <= |buffer| && Bytes(b.queue + [Held(frame, size)]) == Bytes(b.queue) + size
      modifies this`queue, this`buffer, this`queuedBytes, this`seen, this`pending
      ensures Kept(b.Admitted(line, Held(frame, size)))
      ensures buffer == old(buffer)[size..] && queue == b.Admitted(line, Held(frame, size)).queue && pending == b.Admitted(line, Held(frame, size)).pending
    {
      if frame.Request? { seen, pending := seen + {frame.id}, pending[frame.id := Queued]; }
      buffer := buffer[size..];
      queue, queuedBytes := queue + [Held(frame, size)], queuedBytes + size;
    }

    /** A frame that is not refused fits the books. */
    lemma {:induction false} Fits(line: seq<byte>, h: Held)
      requires Holding() && L.IsLine(line) && line <= buffer && decode(line) == Some(h.frame) && h.size == |line|
      requires Refusal(h.frame, h.size).None?
      ensures books.Admitted(line, h).Sound(decode, phase == Custody, queueCap)
      ensures Kept(books) && Bytes(books.queue + [h]) == Bytes(books.queue) + h.size && |line| <= |books.buffer|
      ensures Answering(books.Admitted(line, h).pending) == Answering(books.pending)
      ensures h.frame.Request? ==> h.frame.id !in books.pending
      ensures queue == books.queue && pending == books.pending
    {
      hide Books.Sound;
      AdmitSound(books, decode, phase == Custody, queueCap, line, h);
    }

    /** One decoded frame joins the queue. */
    method Admit(frame: Frame, size: nat, ghost line: seq<byte>) returns (failed: Option<Code>)
      requires Holding() && L.IsLine(line) && decode(line) == Some(frame) && size == |line|
      requires line <= buffer
      modifies this`phase, this`queue, this`buffer, this`queuedBytes, this`seen, this`pending, this`books
      ensures failed == old(books.Refused(Now(), frame, size))
      ensures failed.None? <==>
                && (frame.Request? ==> old(phase) == Model && frame.id !in old(seen) && |old(seen)| < 4096 && |old(pending)| < 32)
                && |old(queue)| + deferredCount < 64 && old(queuedBytes) + deferredBytes + size <= queueCap
      ensures failed.None? ==> Holding() && OnlyReceived() && books == old(books).Admitted(line, Held(frame, size))
      ensures failed.None? ==> buffer == old(buffer)[size..]
      ensures failed.Some? ==> phase == Poisoned
    {
      hide Books.Sound, Kept, Books.Refused, L.IsLine;
      AsBooked(frame, size);
      failed := Refusal(frame, size);
      if failed.Some? {
        Fail();
      } else {
        Fits(line, Held(frame, size));
        Append(frame, size, books, line);
        books := books.Admitted(line, Held(frame, size));
      }
    }

    lemma AsBooked(frame: Frame, size: nat)
      requires Holding()
      ensures Refusal(frame, size) == books.Refused(Now(), frame, size) && buffer == books.buffer
    {
      hide Books.Sound;
    }

    function Refusal(frame: Frame, size: nat): Option<Code>
      reads this
    {
      if frame.Request? && phase != Model then Some(PhaseRefused)
      else if frame.Request? && frame.id in seen then Some(ProtocolRefused)
      else if frame.Request? && (|seen| >= SERVER_IDS || |pending| >= PENDING_COUNT) then Some(BoundsRefused)
      else if |queue| + deferredCount >= QUEUE_COUNT || queuedBytes + deferredBytes + size > queueCap then Some(BoundsRefused)
      else None
    }

    method Extend(data: seq<byte>)
      requires Holding()
      modifies `readBytes, `buffer, `books
      ensures Holding() && books == old(books).Fed(data) && buffer == old(buffer) + data
    {
      hide Books.Sound;
      FedSound(books, decode, phase == Custody, queueCap, data);
      readBytes, buffer := readBytes + |data|, buffer + data;
      books := books.Fed(data);
    }

    /** One read, and every whole line it completes. */
    method Ingest(read: Read) returns (failed: Option<Code>)
      requires Holding() && L.LF !in buffer
      modifies `phase, `eof, `buffer, `queue, `queuedBytes, `seen, `pending, `readBytes, `books
      ensures failed.None? ==> Holding() && OnlyReceived() && L.LF !in buffer
      ensures if failed.None? then Some(books) == old(books.After(Now(), read)) else old(books.After(Now(), read)) == None
      ensures failed.None? && !read.Data? ==> books == old(books)
      ensures failed.None? && read.Data? ==> books.fed == old(books.fed) + read.bytes
      ensures failed.None? ==> eof == (old(eof) || read.End? || (read.Data? && read.bytes == []))
      ensures read.ReadFailed? ==> failed == Some(TransportUnknown)
      ensures failed.Some? ==> phase == Poisoned
    {
      hide Books.Sound, Answering;
      match read {
        case NothingYet => return None;
        case ReadFailed => Fail(); return Some(TransportUnknown);
        case End => eof := true; return None;
        case Data(data) =>
          if data == [] {
            eof := true;
            assert books.fed + data == books.fed;
            return None;
          }
          Extend(data);
          failed := SplitLines();
      }
    }

    /** Take every whole line off the buffer. */
    method SplitLines() returns (failed: Option<Code>)
      requires Holding()
      modifies `phase, `buffer, `queue, `queuedBytes, `seen, `pending, `books
      ensures failed.None? ==> Holding() && OnlyReceived() && L.LF !in buffer && books.fed == old(books.fed)
      ensures if failed.None? then Some(books) == old(books.Taken(Now())) else old(books.Taken(Now())) == None
      ensures failed.Some? ==> phase == Poisoned
    {
      hide Books.Sound, Books.Refused, Books.Admitted, Books.Taken, Kept, Refusal, Answering;
      while true
        invariant Holding() && OnlyReceived() && books.fed == old(books.fed)
        invariant books.Taken(Now()) == old(books.Taken(Now()))
        decreases |buffer|
      {
        AsBooked(Notification(""), 0);
        TakenStep(books, Now());
        var n := L.FirstLine(buffer);
        if n == |buffer| {
          if |buffer| >= frameCap { Fail(); return Some(BoundsRefused); }
          return None;
        }
        if n + 1 > frameCap { Fail(); return Some(BoundsRefused); }
        var line := buffer[..n + 1];
        var frame := decode(line);
        if frame.None? { Fail(); return Some(ProtocolRefused); }
        L.HeadIsLine(buffer, n);
        failed := Admit(frame.value, n + 1, line);
        if failed.Some? { return; }
      }
    }

    /** Wait until something is ready; anything else is a failure. */
    method Wait(wake: Wake) returns (failed: Option<Code>, writable: bool)
      requires Holding() && L.LF !in buffer
      modifies `phase, `eof, `buffer, `queue, `queuedBytes, `seen, `pending, `readBytes, `books
      ensures failed.None? ==> Holding() && OnlyReceived() && L.LF !in buffer
      ensures failed.None? ==> wake.Ready? && !old(eof) && writable == wake.writable
      ensures failed.None? <==> !old(eof) && wake.Ready? && (wake.read.Some? || wake.writable) && old(Woken(wake)).Some?
      ensures failed.None? ==> Some(books) == old(Woken(wake))
      ensures failed.None? ==> (eof <==> Ends(wake))
      ensures failed.Some? ==> phase == Poisoned
    {
      writable := false;
      if eof || !wake.Ready? || (wake.read.None? && !wake.writable) {
        Fail();
        return Some(TransportUnknown), false;
      }
      failed := None;
      if wake.read.Some? { failed := Ingest(wake.read.value); }
      writable := wake.writable;
    }

    /** What is read on this wake-up says that the stream has ended. */
    static predicate Ends(wake: Wake) {
      wake.Ready? && (wake.read == Some(End) || wake.read == Some(Data([])))
    }

    /** One tick is enough for a line: the pipe takes all of it, and what is read meanwhile is good. */
    ghost predicate AtOnce(size: nat, ticks: seq<Tick>)
      reads `phase, `books, `eof
    {
      && 0 < size <= frameCap && !eof && |ticks| == 1
      && ticks[0].wake.Ready? && ticks[0].wake.writable && Woken(ticks[0].wake).Some?
      && !ticks[0].lateAfter && ticks[0].push.Pushed? && ticks[0].push.count >= size
    }

    /** Write one whole line while frames may keep arriving. */
    method Write(size: nat, ticks: seq<Tick>) returns (failed: Option<Code>, left: seq<Tick>)
      requires Holding() && L.LF !in buffer
      modifies `phase, `eof, `buffer, `queue, `queuedBytes, `seen, `pending, `readBytes, `books
      ensures failed.None? ==> Holding() && OnlyReceived() && L.LF !in buffer && size <= frameCap
      ensures failed.None? ==> phase == old(phase) && books.deferred == old(books.deferred) && SameOutcome()
      ensures failed.None? ==> Answering(pending) == Answering(old(pending))
      ensures failed.Some? ==> phase == Poisoned
      ensures old(AtOnce(size, ticks)) ==> failed.None? && left == [] && Some(books) == old(Woken(ticks[0].wake))
      ensures old(AtOnce(size, ticks)) ==> (eof <==> Ends(ticks[0].wake))
    {
      hide Books.Sound, Books.After, Kept, Answering, Woken;
      left := ticks;
      if size > frameCap { Fail(); return Some(BoundsRefused), left; }
      var offset := 0;
      while offset < size
        invariant Holding() && OnlyReceived() && L.LF !in buffer
        invariant old(AtOnce(size, ticks)) && offset == 0 ==> left == ticks && books == old(books) && eof == old(eof)
        invariant old(AtOnce(size, ticks)) && offset != 0 ==> offset >= size && left == [] && Some(books) == old(Woken(ticks[0].wake))
        invariant old(AtOnce(size, ticks)) && offset != 0 ==> (eof <==> Ends(ticks[0].wake))
        decreases |left|
      {
        if left == [] { Fail(); return Some(TransportUnknown), left; }
        var t := left[0];
        left := left[1..];
        var writable;
        failed, writable := Wait(t.wake);
        if failed.Some? { return; }
        if writable {
          if t.lateAfter { Fail(); return Some(TransportUnknown), left; }
          match t.push {
            case PushedNothing =>
            case PushFailed => Fail(); return Some(TransportUnknown), left;
            case Pushed(count) =>
              if count <= 0 { Fail(); return Some(TransportUnknown), left; }
              offset := offset + count;
          }
        }
      }
      if left != [] && left[0].wake == Late { Fail(); return Some(TransportUnknown), left; }
      failed := None;
    }

    /** Wait until a frame is queued. */
    method Await(ticks: seq<Tick>) returns (failed: Option<Code>, left: seq<Tick>)
      requires Holding() && L.LF !in buffer
      modifies `phase, `eof, `buffer, `queue, `queuedBytes, `seen, `pending, `readBytes, `books
      ensures failed.None? ==> Holding() && OnlyReceived() && L.LF !in buffer && queue != []
      ensures failed.None? ==> phase == old(phase) && books.deferred == old(books.deferred) && SameOutcome()
      ensures failed.None? ==> Answering(pending) == Answering(old(pending))
      ensures failed.Some? ==> phase == Poisoned
      ensures old(queue) != [] && (ticks == [] || ticks[0].wake != Late) ==> failed.None?
      ensures failed.None? && old(queue) != [] ==> books == old(books) && queue == old(queue) && eof == old(eof)
      ensures failed.None? && old(queue) == [] ==> |left| < |ticks|
      ensures |left| <= |ticks|
    {
      hide Books.Sound, Kept, Answering;
      left := ticks;
      while queue == []
        invariant Holding() && OnlyReceived() && L.LF !in buffer && |left| <= |ticks|
        invariant old(queue) != [] ==> left == ticks && books == old(books) && queue == old(queue) && eof == old(eof)
        invariant |left| == |ticks| ==> queue == old(queue)
        decreases |left|
      {
        if left == [] { Fail(); return Some(TransportUnknown), left; }
        var writable;
        failed, writable := Wait(left[0].wake);
        left := left[1..];
        if failed.Some? { return; }
      }
      if left != [] && left[0].wake == Late { Fail(); return Some(TransportUnknown), left; }
      failed := None;
    }

    /** Every operation starts here. */
    method Enter() returns (failed: Option<Code>)
      ensures failed.None? <==> Live() && !inputClosed
    {
      failed := if closed || inputClosed || phase == Poisoned || phase == Shutdown then Some(Closed) else None;
    }

    /** Set the next frame aside. */
    method Defer() returns (h: Held)
      requires Holding() && queue != [] && queue[0].frame.Method?()
      modifies `queue, `queuedBytes, `deferredCount, `deferredBytes, `books
      ensures Holding() && books == old(books).Deferred() && h == old(queue[0])
      ensures books.deferred == old(books.deferred) + [h] && Bytes(books.deferred) == Bytes(old(books.deferred)) + h.size
      ensures |queue| == |old(queue)| - 1 && SameOutcome()
    {
      hide Books.Sound;
      DeferredSound(books, decode, phase == Custody, queueCap);
      h, queue := queue[0], queue[1..];
      queuedBytes := queuedBytes - h.size;
      deferredCount, deferredBytes := deferredCount + 1, deferredBytes + h.size;
      books := books.Deferred();
    }

    /** The response leaves the queue, and what was set aside goes in front of the rest. */
    method PutBack(deferred: seq<Held>, bytes: nat, ghost b: Books) returns (h: Held)
      requires Kept(b) && queue != [] && deferred == b.deferred && bytes == Bytes(deferred)
      requires Bytes(b.Restored().queue) == bytes + queuedBytes - queue[0].size >= bytes
      modifies `queue, `queuedBytes, `deferredCount, `deferredBytes
      ensures Kept(b.Restored()) && h == old(queue[0])
    {
      h, queue := queue[0], queue[1..];
      queuedBytes := queuedBytes - h.size;
      queue, queuedBytes := deferred + queue, queuedBytes + bytes;
      deferredCount, deferredBytes := 0, 0;
      NoBytes();
    }

    lemma Restorable()
      requires Holding() && queue != [] && queue[0].frame.Response?
      ensures Kept(books) && books.queue != [] && books.Restored().Sound(decode, phase == Custody, queueCap)
      ensures Bytes(books.Restored().queue) == Bytes(books.deferred) + queuedBytes - queue[0].size >= Bytes(books.deferred)
      ensures books.Restored().deferred == [] && books.Restored().taken == books.taken + [queue[0]]
      ensures books.Restored().delivered == books.delivered && books.Restored().answered == books.answered
    {
      hide Books.Sound;
      RestoredSound(books, decode, phase == Custody, queueCap);
    }

    /** Take the response and put what was set aside back in front, in its order. */
    method Restore(deferred: seq<Held>, bytes: nat) returns (h: Held)
      requires Holding() && queue != [] && queue[0].frame.Response?
      requires deferred == books.deferred && bytes == Bytes(deferred)
      modifies `queue, `queuedBytes, `deferredCount, `deferredBytes, `books
      ensures Holding() && books == old(books).Restored() && h == old(queue[0])
      ensures books.deferred == [] && books.taken == old(books.taken) + [h]
      ensures books.delivered == old(books.delivered) && books.answered == old(books.answered)
    {
      hide Books.Sound, Books.Restored, Kept;
      Restorable();
      h := PutBack(deferred, bytes, books);
      books := books.Restored();
    }

    /** What may be asked for now. */
    predicate MayCall(call: Call)
      reads `phase, `initialized, `initAck, `serial
    {
      && (if phase == Custody then call == Initialize || call == Custodial else call == Modelling)
      && (if call == Initialize then !initAck && serial == 0 else initialized)
    }

    /** The tick that takes the request also brings its response, ahead of everything else. */
    ghost predicate AnsweredAtOnce(id: Id, size: nat, ticks: seq<Tick>)
      reads `phase, `books, `eof
    {
      && AtOnce(size, ticks)
      && var b := Woken(ticks[0].wake).value;
         b.queue != [] && b.queue[0].frame.Response? && b.queue[0].frame.id == id
    }

    /** Whether a request may be sent; it gets the next number. */
    method Ask(call: Call, proper: bool, timely: bool) returns (failed: Option<Code>)
      requires Valid()
      modifies `phase, `queue, `buffer, `queuedBytes, `serial
      ensures Valid() && (failed.None? <==> old(Live() && !inputClosed && MayCall(call)) && timely && proper)
      ensures failed.None? <==>
                && !closed && !inputClosed && timely && proper
                && ((old(phase) == Custody && ((call == Initialize && !initAck && old(serial) == 0) || (call == Custodial && initialized)))
                    || (old(phase) == Model && call == Modelling && initialized))
      ensures failed.None? ==> Live() && phase == old(phase) && serial == old(serial) + 1
      ensures old(!Live() || inputClosed) ==> failed == Some(Closed) && phase == old(phase)
      ensures failed.Some? && old(Live() && !inputClosed) ==> phase == Poisoned
      ensures failed.Some? ==> serial == old(serial)
    {
      hide Holding, Answering;
      failed := Enter();
      if failed.Some? { return Some(Closed); }
      if !timely { Fail(); return Some(BoundsRefused); }
      if !proper || !MayCall(call) { Fail(); return Some(PhaseRefused); }
      serial := serial + 1;
    }

    /** Send one request and take the one response that carries its name. */
    method Exchange(call: Call, proper: bool, timely: bool, size: nat, ticks: seq<Tick>) returns (r: Reply)
      requires Valid()
      modifies this
      ensures Valid()
      ensures old(!Live() || inputClosed) ==> r == Failed(Closed) && books == old(books) && phase == old(phase)
      ensures r.Failed? && old(Live() && !inputClosed) ==> phase == Poisoned
      ensures !r.Failed? ==>
                && phase == old(phase) && serial == old(serial) + 1 && inputClosed == old(inputClosed)
                && (call == Initialize || old(initialized)) && call == (if phase == Model then Modelling else if call == Initialize then Initialize else Custodial)
                && books.delivered == old(books.delivered) && books.answered == old(books.answered)
                && TookOwn(old(books.taken), books.taken, Text(OwnId(prefix, serial)), r)
      ensures initialized == old(initialized)
      ensures !r.Failed? ==> |books.taken| > 0 && books.taken[|books.taken| - 1].frame.Response?
      ensures !r.Failed? ==>
                var f := books.taken[|books.taken| - 1].frame;
                if f.failed then r == ErrorCode(f.body) else r == Result(f.body)
      ensures r.Failed? ==> initAck == old(initAck)
      ensures !r.Failed? ==> initAck == (old(initAck) || (call == Initialize && !books.taken[|books.taken| - 1].frame.failed))
      ensures old(Live() && !inputClosed && MayCall(call) && AnsweredAtOnce(Text(OwnId(prefix, serial + 1)), size, ticks)) && timely && proper ==>
                var b := old(Woken(ticks[0].wake)).value;
                r == Answer(b.queue[0].frame) && books == b.Restored() && (eof <==> Ends(ticks[0].wake))
    {
      hide Holding, Answering, OwnId, AnsweredAtOnce, Woken, Ends, Books.Restored, Kept, Books.Sound, L.IsLine;
      var failed := Ask(call, proper, timely);
      if failed.Some? { return Failed(failed.value); }
      var h;
      failed, h := Transact(Text(OwnId(prefix, serial)), size, ticks);
      if failed.Some? { return Failed(failed.value); }
      r := Answer(h.frame);
      if h.frame.failed { return; }
      if call == Initialize { initAck := true; }
    }

    /** Write a request, wait for its response, and put everything else back in order. */
    method Transact(id: Id, size: nat, ticks: seq<Tick>) returns (failed: Option<Code>, h: Held)
      requires Live() && Valid()
      modifies `phase, `eof, `buffer, `queue, `queuedBytes, `seen, `pending, `readBytes, `books, `deferredCount, `deferredBytes
      ensures Valid()
      ensures failed.Some? ==> phase == Poisoned
      ensures failed.None? ==> phase == old(phase) && h.frame.Response? && h.frame.id == id
      ensures failed.None? ==> books.taken == old(books.taken) + [h]
      ensures failed.None? ==> books.delivered == old(books.delivered) && books.answered == old(books.answered)
      ensures old(AnsweredAtOnce(id, size, ticks)) ==>
                var b := old(Woken(ticks[0].wake)).value;
                failed.None? && h == b.queue[0] && books == b.Restored() && (eof <==> Ends(ticks[0].wake))
    {
      hide Holding, Answering, OnlyReceived, Books.Restored, Bytes, AtOnce, Woken, Ends;
      h := Held(Response(id, "", false), 0);
      var left, deferred, bytes;
      failed, left := Write(size, ticks);
      if failed.Some? { return; }
      AsHeld();
      failed, deferred, bytes := SetAside(left);
      if failed.None? { AsHeld(); }
      if failed.None? && queue[0].frame.id != id {
        Fail();
        failed := Some(ProtocolRefused);
      }
      if failed.Some? {
        deferredCount, deferredBytes := 0, 0;
        return;
      }
      h := Restore(deferred, bytes);
    }

    lemma AsHeld()
      requires Holding()
      ensures queue == books.queue
    {
      hide Books.Sound;
    }

    /** Set frames aside, in order, until a response comes. */
    method SetAside(ticks: seq<Tick>) returns (failed: Option<Code>, deferred: seq<Held>, bytes: nat)
      requires Holding() && L.LF !in buffer && books.deferred == [] && Answering(pending) == {}
      modifies `phase, `eof, `buffer, `queue, `queuedBytes, `seen, `pending, `readBytes, `books, `deferredCount, `deferredBytes
      ensures failed.None? ==> Holding() && L.LF !in buffer && phase == old(phase) && Answering(pending) == {}
      ensures failed.None? ==> queue != [] && queue[0].frame.Response? && deferred == books.deferred && bytes == Bytes(deferred)
      ensures failed.None? ==> SameOutcome()
      ensures failed.Some? ==> phase == Poisoned
      ensures old(queue != [] && queue[0].frame.Response?) && ticks == [] ==> failed.None? && books == old(books) && eof == old(eof)
    {
      hide Holding, Answering, OnlyReceived, Books.Deferred, Bytes;
      deferred, bytes := [], 0;
      NoBytes();
      var left := ticks;
      while true
        invariant Holding() && L.LF !in buffer && Answering(pending) == {} && phase == old(phase)
        invariant deferred == books.deferred && bytes == Bytes(deferred)
        invariant SameOutcome()
        invariant old(queue != [] && queue[0].frame.Response?) && ticks == [] ==> left == [] && books == old(books) && queue == old(queue) && eof == old(eof)
        decreases |left|, |queue|
      {
        failed, left := Await(left);
        if failed.Some? { return; }
        if queue[0].frame.Response? { return; }
        var h := Defer();
        deferred, bytes := deferred + [h], bytes + h.size;
        DeferredFits();
        if |deferred| + |queue| > QUEUE_COUNT || bytes + queuedBytes > queueCap { assert false; }
      }
    }

    twostate predicate SameOutcome()
      reads this
    {
      books.delivered == old(books.delivered) && books.taken == old(books.taken) && books.answered == old(books.answered)
    }

    /** Setting frames aside cannot break the caps: what is held was counted when it arrived. */
    lemma DeferredFits()
      requires Holding()
      ensures |books.deferred| + |queue| <= QUEUE_COUNT && Bytes(books.deferred) + queuedBytes <= queueCap
    {
    }

    /** The handshake's second half. */
    method Initialized(timely: bool, size: nat, ticks: seq<Tick>) returns (failed: Option<Code>)
      requires Valid()
      modifies this
      ensures Valid()
      ensures failed.None? ==> phase == Custody && old(initAck && !initialized) && initialized && SameOutcome()
      ensures failed.None? || (phase == old(phase) && !old(Live() && !inputClosed)) || phase == Poisoned
      ensures serial == old(serial) && initAck == old(initAck)
      ensures old(phase == Custody && !inputClosed && initAck && !initialized && AtOnce(size, ticks)) && timely ==>
                failed.None? && Some(books) == old(Woken(ticks[0].wake)) && (eof <==> Ends(ticks[0].wake))
      ensures inputClosed == old(inputClosed)
    {
      hide Holding, Answering, OnlyReceived, AtOnce, Woken, Ends;
      failed := Enter();
      if failed.Some? { return; }
      if phase != Custody || !initAck || initialized { Fail(); return Some(PhaseRefused); }
      if !timely { Fail(); return Some(BoundsRefused); }
      var left;
      failed, left := Write(size, ticks);
      if failed.None? { initialized := true; }
    }

    /** Requests may come from the peer only from here on; there are none before. */
    method AdmitModel() returns (failed: Option<Code>)
      requires Valid()
      modifies `phase, `queue, `buffer, `queuedBytes
      ensures Valid()
      ensures failed.None? <==> old(phase == Custody && initialized && !inputClosed)
      ensures failed.None? ==> phase == Model && pending == map[] && books == old(books) && queue == old(queue)
      ensures failed.None? || (phase == old(phase) && !old(Live() && !inputClosed)) || phase == Poisoned
    {
      failed := Enter();
      if failed.Some? { return; }
      if phase != Custody || !initialized { Fail(); return Some(PhaseRefused); }
      CustodyHasNone();
      if pending != map[] { assert false; }
      hide Ledger, History.Of;
      phase := Model;
    }

    lemma CustodyHasNone()
      requires Holding() && phase == Custody
      ensures pending == map[]
    {
      assert pending.Keys <= books.seen;
    }

    /** Hand out the frame at the front of the queue. */
    method HandOut() returns (failed: Option<Code>, frame: Frame)
      requires Valid() && Live() && phase == Model && queue != []
      modifies `phase, `buffer, `queue, `queuedBytes, `pending, `books
      ensures Valid() && frame == old(queue[0].frame)
      ensures failed.None? <==> old(queue[0].frame.Method?())
      ensures failed.None? ==> phase == Model && books == old(books).Popped() && frame == books.delivered[|books.delivered| - 1].frame
      ensures failed.Some? ==> phase == Poisoned
    {
      hide Books.Sound;
      frame := queue[0].frame;
      failed := None;
      if frame.Response? {
        Fail();
        failed := Some(ProtocolRefused);
      } else {
        PoppedSound(books, decode, false, queueCap);
        FirstBytes(queue);
        queuedBytes := queuedBytes - queue[0].size;
        queue := queue[1..];
        if frame.Request? {
          if frame.id !in pending || pending[frame.id] != Queued { assert false; }
          pending := pending[frame.id := Delivered];
        }
        books := books.Popped();
      }
    }

    /** Wait for one frame that carries a method. */
    method NextFrame(timely: bool, ticks: seq<Tick>) returns (r: Next)
      requires Valid()
      modifies this
      ensures Valid()
      ensures r.Frame? ==> phase == Model && r.frame.Method?() && DeliveredOne(old(books), books, r.frame)
      ensures !r.Idle?
      ensures r.Refused? ==> phase == Poisoned || (!old(Live() && !inputClosed) && books == old(books) && phase == old(phase))
      ensures old(phase == Model && !inputClosed && queue != [] && queue[0].frame.Method?()) && timely && ticks == []
              ==> r == Frame(old(queue[0].frame)) && books == old(books).Popped()
    {
      hide Holding, Answering, OnlyReceived, Books.Popped;
      var failed := Enter();
      if failed.Some? { return Refused(Closed); }
      if phase != Model { Fail(); return Refused(PhaseRefused); }
      if !timely { Fail(); return Refused(BoundsRefused); }
      var left, frame;
      failed, left := Await(ticks);
      if failed.Some? { return Refused(failed.value); }
      ghost var before := books;
      QueueKept();
      failed, frame := HandOut();
      PoppedOne(before);
      r := if failed.Some? then Refused(failed.value) else Frame(frame);
    }

    lemma QueueKept()
      requires Holding()
      ensures queue == books.queue
    {
    }

    /** Answer one delivered request; it is spent before the first byte. */
    method Respond(id: Id, proper: bool, timely: bool, size: nat, ticks: seq<Tick>) returns (failed: Option<Code>)
      requires Valid()
      modifies this
      ensures Valid()
      ensures failed.None? ==> phase == Model && proper && timely && id in old(pending) && old(pending)[id] == Delivered
      ensures failed.None? ==> id !in pending && id in seen && responses == old(responses) + 1
      ensures failed.None? ==> books.answered == old(books.answered) + [id]
      ensures failed.None? ==> books.delivered == old(books.delivered) && books.taken == old(books.taken)
      ensures failed.Some? ==> phase == Poisoned || (!old(Live() && !inputClosed) && books == old(books) && phase == old(phase))
      ensures old(phase == Model && !inputClosed && !eof && id in pending && pending[id] == Delivered) && proper && timely && 0 < size <= frameCap ==>
                (ticks == [Tick(Ready(None, true), false, Pushed(size))] ==> failed.None?)
    {
      hide Holding, Answering, OnlyReceived;
      failed := Enter();
      if failed.Some? { return; }
      if phase != Model || !proper { Fail(); return Some(PhaseRefused); }
      if id !in pending || pending[id] != Delivered { Fail(); return Some(ProtocolRefused); }
      BeginAnswer(id);
      if !timely { Fail(); return Some(BoundsRefused); }
      var left;
      failed, left := Write(size, ticks);
      if failed.Some? { return; }
      EndAnswer(id);
    }

    method BeginAnswer(id: Id)
      requires Holding() && id in pending && pending[id] == Delivered
      modifies `pending, `books
      ensures Holding() && books == old(books).Responded(id)
      ensures Answering(pending) == Answering(old(pending)) + {id}
    {
      hide Books.Sound;
      RespondedSound(books, decode, phase == Custody, queueCap, id);
      pending := pending[id := Responding];
      books := books.Responded(id);
    }

    method EndAnswer(id: Id)
      requires Holding() && id in Answering(pending)
      modifies `pending, `books, `responses
      ensures Holding() && books == old(books).Answered(id) && responses == old(responses) + 1
      ensures id !in pending && id in seen
      ensures Answering(pending) == Answering(old(pending)) - {id}
    {
      hide Books.Sound, Answering, Ledger, Ids;
      AnsweredSeen(id);
      AnsweredSound(books, decode, phase == Custody, queueCap, id);
      pending := pending - {id};
      responses := responses + 1;
      books := books.Answered(id);
    }

    lemma AnsweredSeen(id: Id)
      requires Holding() && id in Answering(pending)
      ensures id in pending && pending[id] == Responding && id in seen
    {
    }

    /** One frame, or none yet: an ordinary idle wait changes nothing but what arrived. After the end
        of the stream a poll fails, whatever is still queued. */
    method PollFrame(timely: bool, polls: seq<Poll>) returns (r: Next)
      requires Valid()
      modifies this
      ensures Valid()
      ensures r.Frame? ==> phase == Model && r.frame.Method?() && DeliveredOne(old(books), books, r.frame)
      ensures old(phase == Model && !inputClosed && eof) && polls != [] ==> r.Refused? && phase == Poisoned && queue == [] && books == old(books)
      ensures old(phase == Model && !inputClosed && !eof && queue != [] && queue[0].frame.Method?()) && timely && polls != [] && !polls[0].broken && !polls[0].expired
              ==> r == Next.Frame(old(queue[0].frame))
      ensures r.Idle? ==> phase == Model && SameOutcome() && pending.Keys >= old(pending).Keys && old(queue) <= queue
      ensures r.Refused? ==> phase == Poisoned || (!old(Live() && !inputClosed) && books == old(books) && phase == old(phase))
    {
      hide Holding, Answering, Books.Popped;
      var failed := Enter();
      if failed.Some? { return Refused(Closed); }
      if phase != Model { Fail(); return Refused(PhaseRefused); }
      if !timely { Fail(); return Refused(BoundsRefused); }
      var attempted := false;
      for i := 0 to |polls|
        invariant Valid() && Live() && phase == Model && Holding() && L.LF !in buffer && OnlyReceived()
        invariant if i == 0 then eof == old(eof) && queue == old(queue) && books == old(books) else !old(eof) && old(queue) == []
      {
        var p := polls[i];
        if eof || p.broken { Fail(); return Refused(TransportUnknown); }
        if p.expired { return Idle; }
        if queue != [] {
          ghost var before := books;
          QueueKept();
          var frame;
          failed, frame := HandOut();
          PoppedOne(before);
          return if failed.Some? then Refused(failed.value) else Frame(frame);
        }
        if attempted && p.spent { return Idle; }
        if p.expiredAfter || !p.ready { return Idle; }
        failed := Ingest(p.read);
        if failed.Some? { return Refused(failed.value); }
        attempted := true;
      }
      r := Idle;
    }

    /** What a caller may observe between polls. With nothing queued and no line begun, every byte read so far
        has been handed out or answered for; more may still come. */
    method IdleState() returns (r: Option<Observed>)
      requires Valid()
      modifies `phase, `queue, `buffer, `queuedBytes
      ensures Valid() && (r.Some? <==> old(phase == Model && !inputClosed))
      ensures r.Some? ==> phase == Model && queue == old(queue) && buffer == old(buffer)
      ensures r.Some? ==> r.value == Observed(|buffer|, |queue|, |pending|, eof)
      ensures r.Some? && r.value.partialBytes == 0 && r.value.queuedFrames == 0 ==> readBytes == Bytes(books.delivered) + Bytes(books.taken)
      ensures r.None? ==> phase == Poisoned || (!old(Live() && !inputClosed) && phase == old(phase))
    {
      var failed := Enter();
      if failed.Some? { return None; }
      if phase != Model { Fail(); return None; }
      hide Books.Sound, Bytes, Ledger, History.Of, Answering;
      r := Some(Observed(|buffer|, |queue|, |pending|, eof));
      NothingHeld();
    }

    lemma NothingHeld()
      requires Valid() && Live()
      ensures buffer == [] && queue == [] ==> readBytes == Bytes(books.delivered) + Bytes(books.taken)
    {
      hide Bytes, History.Of;
      if buffer == [] && queue == [] {
        BytesConserved(decode, books.fed, books.Past());
        assert books.Held() == [];
        NoBytes();
      }
    }

    method CloseInput()
      requires Valid()
      modifies `inputClosed
      ensures Valid() && inputClosed
    {
      hide Holding, Answering;
      inputClosed := true;
    }

    /** Both pipes are closed: whatever was held is gone, the ledger of requests is forgotten, and no
        operation or drain does anything from here on. */
    method Close()
      requires Valid()
      modifies `inputClosed, `closed, `buffer, `queue, `queuedBytes, `seen, `pending
      ensures Valid() && closed && inputClosed && !Live()
      ensures buffer == [] && queue == [] && queuedBytes == 0 && seen == {} && pending == map[]
    {
      inputClosed, closed := true, true;
      buffer, queue, queuedBytes, seen, pending := [], [], 0, {}, map[];
    }

    /** After the input is closed the rest is discarded, counted, and nothing resumes. */
    method DrainToEof(timely: bool, drained: nat, chunks: seq<Read>) returns (refused: bool, done: bool, total: nat)
      requires Valid()
      modifies `phase, `buffer, `queue, `queuedBytes, `eof
      ensures Valid() && (refused <==> !inputClosed || closed)
      ensures refused ==> phase == old(phase) && !done && total == drained
      ensures !refused ==> phase == Shutdown && queue == [] && buffer == []
      ensures done ==> eof
      ensures !refused ==> total >= drained + old(|buffer| + queuedBytes)
      ensures !refused && !timely ==> total == drained + old(|buffer| + queuedBytes)
    {
      if !inputClosed || closed { return true, false, drained; }
      refused, phase := false, Shutdown;
      total := drained + |buffer| + queuedBytes;
      buffer, queue, queuedBytes := [], [], 0;
      if !timely { return false, false, total; }
      var i := 0;
      while !eof && i < |chunks|
        invariant phase == Shutdown && queue == [] && buffer == []
        invariant 0 <= i <= |chunks| && total >= drained + old(|buffer| + queuedBytes)
        decreases |chunks| - i
      {
        match chunks[i] {
          case NothingYet =>
          case ReadFailed => return false, false, total;
          case End => eof := true;
          case Data(data) => total := total + |data|;
        }
        i := i + 1;
      }
      done := eof;
    }
  }

  /** One frame was handed out and it was the oldest not yet handed out. */
  predicate DeliveredOne(before: Books, after: Books, frame: Frame) {
    && |after.delivered| == |before.delivered| + 1 && before.delivered <= after.delivered
    && after.delivered[|before.delivered|].frame == frame
    && after.taken == before.taken && after.answered == before.answered
  }

  lemma PoppedOne(b: Books)
    requires b.queue != []
    ensures b.Popped().delivered == b.delivered + [b.queue[0]]
    ensures b.Popped().taken == b.taken && b.Popped().answered == b.answered
  {
  }

  /** What a response says to the caller. */
  function Answer(f: Frame): Reply
    requires f.Response?
  {
    if f.failed then ErrorCode(f.body) else Result(f.body)
  }

  /** The one frame taken is the response to this request, and it is what the caller gets. */
  predicate TookOwn(before: seq<Held>, after: seq<Held>, id: Id, r: Reply) {
    && |after| == |before| + 1 && before <= after
    && after[|before|].frame.Response? && after[|before|].frame.id == id
    && r == Answer(after[|before|].frame)
  }

  /** Between operations of a live connection: methods come out in arrival order, none lost or repeated;
      every request seen is pending or was answered once, after it was delivered; exactly the queued ones
      are still held; what is held is within the caps; and no byte is unaccounted for. */
  lemma EveryState(r: NativeRpc)
    requires r.Valid() && r.Live()
    ensures Methods(r.books.arrivals) == r.books.delivered + Methods(r.queue)
    ensures |r.seen| == |r.pending| + r.responses && r.seen == r.pending.Keys + Elements(r.books.answered)
    ensures forall id :: id in Ids(r.queue) <==> id in r.pending && r.pending[id] == Queued
    ensures NoRepeats(r.books.answered) && forall id :: id in r.books.answered ==> id in Ids(r.books.delivered) && id !in Ids(r.queue)
    ensures |r.queue| <= 64 && r.queuedBytes <= r.queueCap && |r.seen| <= 4096 && |r.pending| <= 32
    ensures r.readBytes == Bytes(r.books.delivered) + Bytes(r.books.taken) + r.queuedBytes + |r.buffer|
  {
    hide Ids, Elements, Methods, Responses, Decoded;
    var b := r.books;
    assert b.Held() == r.queue;
    LedgerCount(b.seen, b.pending, b.answered, b.delivered, b.Held());
    BytesConserved(r.decode, b.fed, b.Past());
  }

  /** Two connections fed the same bytes, however these were cut into reads and however the calls were
      interleaved, have received the same frames, and one has handed out a prefix of the other's. */
  lemma AnyTwoRuns(a: NativeRpc, b: NativeRpc)
    requires a.Valid() && a.Live() && b.Valid() && b.Live()
    requires a.decode == b.decode && a.books.fed == b.books.fed
    ensures a.books.arrivals == b.books.arrivals && a.buffer == b.buffer
    ensures a.books.delivered + Methods(a.queue) == b.books.delivered + Methods(b.queue)
    ensures a.books.delivered <= b.books.delivered || b.books.delivered <= a.books.delivered
  {
    hide Methods, Responses, Ledger, History.Of;
    assert a.books.Held() == a.queue && b.books.Held() == b.queue;
    CutIndependent(a.decode, a.books.fed, a.books.Past(), b.books.Past());
  }

  lemma LineInFront(line: seq<byte>, rest: seq<byte>)
    requires L.IsLine(line)
    ensures L.FirstLine(line + rest) == |line| - 1 && (line + rest)[..|line|] == line && (line + rest)[|line|..] == rest
  {
    var all, n := line + rest, L.FirstLine(line + rest);
    assert all[|line| - 1] == L.LF;
    assert forall i :: 0 <= i < n ==> all[..n][i] == all[i];
    assert forall i :: 0 <= i < |line| - 1 ==> line[..|line| - 1][i] == all[i];
  }

  lemma LineTaken(b: Books, t: Terms, line: seq<byte>, rest: seq<byte>, frame: Frame)
    requires b.buffer == line + rest && L.IsLine(line) && |line| <= t.frameCap && t.decode(line) == Some(frame)
    requires b.Refused(t, frame, |line|) == None
    ensures b.Taken(t) == b.Admitted(line, RpcLedger.Held.Held(frame, |line|)).Taken(t)
    ensures b.Admitted(line, RpcLedger.Held.Held(frame, |line|)).buffer == rest
  {
    hide Books.Taken, Books.Refused;
    LineInFront(line, rest);
    TakenStep(b, t);
  }

  const NO_BOOKS := Books([], [], [], [], [], [], [], [], [], {}, map[])

  /** Two lines in one read, a response and a notification, on a connection that has read nothing. */
  lemma TwoLines(t: Terms, answer: seq<byte>, note: seq<byte>, a: Frame, n: Frame)
    requires L.IsLine(answer) && L.IsLine(note) && |answer| + |note| <= t.frameCap <= t.queueCap
    requires t.decode(answer) == Some(a) && t.decode(note) == Some(n) && a.Response? && n.Notification?
    ensures var b := NO_BOOKS.After(t, Data(answer + note));
            b.Some? && b.value.queue == [RpcLedger.Held.Held(a, |answer|), RpcLedger.Held.Held(n, |note|)] && b.value.deferred == []
  {
    hide Books.Taken;
    NoBytes();
    var b0 := NO_BOOKS.Fed(answer + note);
    LineTaken(b0, t, answer, note, a);
    LastLine(b0.Admitted(answer, RpcLedger.Held.Held(a, |answer|)), t, RpcLedger.Held.Held(a, |answer|), note, n);
  }

  lemma LastLine(b: Books, t: Terms, h: Held, note: seq<byte>, n: Frame)
    requires L.IsLine(note) && h.size + |note| <= t.frameCap <= t.queueCap && t.decode(note) == Some(n) && n.Notification?
    requires b.buffer == note && b.queue == [h] && b.deferred == []
    ensures b.Taken(t).Some? && b.Taken(t).value.queue == [h, RpcLedger.Held.Held(n, |note|)] && b.Taken(t).value.deferred == []
  {
    hide Books.Taken;
    NoBytes();
    Single(h);
    assert note == note + [];
    LineTaken(b, t, note, [], n);
    TakenStep(b.Admitted(note, RpcLedger.Held.Held(n, |note|)), t);
  }

  lemma Answers(rpc: NativeRpc, answer: seq<byte>, note: seq<byte>, a: Frame, n: Frame)
    requires rpc.books == NO_BOOKS && !rpc.eof && 100 <= rpc.frameCap <= rpc.queueCap
    requires L.IsLine(answer) && L.IsLine(note) && |answer| + |note| <= rpc.frameCap
    requires rpc.decode(answer) == Some(a) && rpc.decode(note) == Some(n) && a.Response? && n.Notification?
    ensures rpc.AnsweredAtOnce(a.id, 100, [Brings(Data(answer + note))])
    ensures rpc.Woken(Brings(Data(answer + note)).wake).value.queue[0].frame == a
    ensures rpc.Woken(Brings(Data(answer + note)).wake).value.Restored().queue == [RpcLedger.Held.Held(n, |note|)]
  {
    hide Books.After;
    TwoLines(rpc.Now(), answer, note, a, n);
  }

  lemma Closes(rpc: NativeRpc)
    requires !rpc.eof && 100 <= rpc.frameCap
    ensures rpc.AtOnce(100, [Brings(End)]) && rpc.Woken(Brings(End).wake) == Some(rpc.books) && NativeRpc.Ends(Brings(End).wake)
  {
  }

  /** A hundred bytes go out while something is read. */
  function Brings(read: Read): Tick {
    Tick(Ready(Some(read), true), false, Pushed(100))
  }

  /** A connection whose stream ends during the handshake while a whole notification is queued: in the model
      phase the first poll fails, and the notification is dropped without having been handed out. */
  method QueuedBehindTheEnd(decode: Decoder, answer: seq<byte>, note: seq<byte>, text: string)
    returns (rpc: NativeRpc, ghost queued: seq<Held>, r: Next)
    requires L.IsLine(answer) && L.IsLine(note) && |answer| + |note| <= FRAME_CAP
    requires decode(answer) == Some(Response(Text(OwnId("rpc-", 1)), "", false)) && decode(note) == Some(Notification(text))
    ensures fresh(rpc) && queued == [RpcLedger.Held.Held(Notification(text), |note|)]
    ensures r.Refused? && rpc.phase == Poisoned && rpc.queue == [] && rpc.books.queue == queued && rpc.books.delivered == []
  {
    hide OwnId, NativeRpc.Valid, NativeRpc.Holding, NativeRpc.AnsweredAtOnce, NativeRpc.AtOnce, NativeRpc.Woken, Books.Restored, L.IsLine;
    rpc := new NativeRpc(decode, "rpc-", false);
    Answers(rpc, answer, note, Response(Text(OwnId("rpc-", 1)), "", false), Notification(text));
    var reply := rpc.Exchange(Initialize, true, true, 100, [Brings(Data(answer + note))]);
    Closes(rpc);
    var failed := rpc.Initialized(true, 100, [Brings(End)]);
    failed := rpc.AdmitModel();
    queued := rpc.books.queue;
    r := rpc.PollFrame(true, [Poll(false, false, true, false, false, NothingYet)]);
  }
}
