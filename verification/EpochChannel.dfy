/** The reader and the writer of one epoch wire. What the kernel and the clock do between
    two steps is an input: any read, any short write, any delay, any concurrent close. */
module EpochChannel {
  import opened Wrappers
  import opened Json
  import opened JsonOrder
  import opened EpochWire
  import L = Lines

  datatype Code = ClosedWire | FrameRefused | Bounds | ReadFailed | WriteFailed | PartialEof | WriteTimeout

  /** What the pipe offers a reader: nothing now, an error, its end, or bytes. */
  datatype Pipe = Blocked(timedOut: bool) | Broken | Ended | Offers(bytes: seq<byte>)

  /** One turn of the reading loop, as the outside decides it. */
  datatype Tick = Tick(closing: bool, expired: bool, lateDecode: bool, pipe: Pipe)

  datatype Received = Message(value: Value) | Idle | EndOfStream | Refused(code: Code)

  type Decoder = seq<byte> -> Option<Value>

  /** Each value is what its line decodes to. */
  predicate Decoded(decode: Decoder, lines: seq<seq<byte>>, values: seq<Value>) {
    && |lines| == |values|
    && forall i :: 0 <= i < |lines| ==> decode(lines[i]) == Some(values[i])
  }

  class Reader {
    const decode: Decoder
    var closed: bool
    var fault: Option<Code>
    var eof: bool
    var buffer: seq<byte>
    var readBytes: nat
    var readFrames: nat
    /** Every byte the pipe has yielded, the lines taken off it, and the value of each. */
    ghost var taken: seq<byte>
    ghost var lines: seq<seq<byte>>
    ghost var delivered: seq<Value>

    ghost predicate Live()
      reads this
    {
      !closed && fault.None?
    }

    /** No byte is lost or read twice: the lines taken off, then the buffer, are the stream. */
    ghost predicate Valid()
      reads this
    {
      && readBytes == |taken| && readFrames == |delivered|
      && Decoded(decode, lines, delivered)
      && L.Joined(lines) <= taken
      && (Live() ==>
            && L.Joined(lines) + buffer == taken
            && readBytes <= TOTAL_BYTES
            && |buffer| <= INPUT_FRAME_BYTES + 1
            && (LF !in buffer ==> |buffer| <= INPUT_FRAME_BYTES))
    }

    constructor (decode: Decoder)
      ensures Valid() && Live() && taken == [] && delivered == [] && !eof && this.decode == decode
    {
      this.decode := decode;
      closed, fault, eof, buffer, readBytes, readFrames := false, None, false, [], 0, 0;
      taken, lines, delivered := [], [], [];
    }

    method Fail(code: Code)
      modifies this`fault
      ensures fault == if old(fault).None? then Some(code) else old(fault)
    {
      if fault.None? { fault := Some(code); }
    }

    /** One read never asks for nothing, so an empty answer is the end of the stream. */
    method Read(pipe: Pipe) returns (data: seq<byte>)
      requires Valid() && Live() && LF !in buffer && (pipe.Ended? || (pipe.Offers? && pipe.bytes != []))
      modifies this`readBytes, this`taken
      ensures data == [] <==> pipe.Ended?
      ensures |data| <= READ_BYTES && |data| <= INPUT_FRAME_BYTES + 1 - |buffer|
      ensures pipe.Offers? ==> data <= pipe.bytes && (data == pipe.bytes || |data| == 65536 || |data| == 12582913 - |buffer|)
      ensures taken == old(taken) + data && readBytes == old(readBytes) + |data|
    {
      var room := INPUT_FRAME_BYTES + 1 - |buffer|;
      var ask := if READ_BYTES < room then READ_BYTES else room;
      data := if pipe.Ended? then [] else if |pipe.bytes| <= ask then pipe.bytes else pipe.bytes[..ask];
      readBytes := readBytes + |data|;
      taken := taken + data;
    }

    /** Hand out the first line of the buffer. */
    method Take(n: nat, late: bool) returns (r: Received)
      requires Valid() && Live() && n == L.FirstLine(buffer) < |buffer|
      modifies this`buffer, this`fault, this`readFrames, this`delivered, this`lines
      ensures Valid()
      ensures r == match decode(old(buffer)[..n + 1])
                   case None => Refused(FrameRefused)
                   case Some(v) => if late then Idle else Message(v)
      ensures r.Message? ==> Live() && delivered == old(delivered) + [r.value] && buffer == old(buffer)[n + 1..]
      ensures !r.Message? ==> delivered == old(delivered) && buffer == old(buffer)
      ensures r.Refused? <==> fault.Some?
    {
      var value := decode(buffer[..n + 1]);
      if value.None? {
        Fail(FrameRefused);
        r := Refused(FrameRefused);
      } else if late {
        r := Idle;
      } else {
        L.JoinedMore(lines, buffer[..n + 1]);
        Rejoin(L.Joined(lines), buffer, n + 1);
        lines := lines + [buffer[..n + 1]];
        buffer := buffer[n + 1..];
        readFrames := readFrames + 1;
        delivered := delivered + [value.value];
        r := Message(value.value);
      }
    }

    /** Read once and keep what arrived. */
    method Fill(pipe: Pipe) returns (r: Received)
      requires Valid() && Live() && LF !in buffer && !eof && (pipe.Ended? || (pipe.Offers? && pipe.bytes != []))
      modifies this`readBytes, this`taken, this`fault, this`eof, this`buffer
      ensures Valid() && old(taken) <= taken
      ensures r.Refused? <==> fault.Some?
      ensures r.Idle? || r.Refused?
      ensures eof ==> pipe.Ended?
      ensures r.Refused? <==> readBytes > 536870912 || (|buffer| > 12582912 && LF !in buffer)
      ensures readBytes == |taken| && (r.Idle? ==> eof == pipe.Ended? && |old(taken)| <= |taken| && buffer == old(buffer) + taken[|old(taken)|..])
      ensures pipe.Offers? ==>
                var data := taken[|old(taken)|..];
                data <= pipe.bytes && (data == pipe.bytes || |data| == 65536 || |data| == 12582913 - |old(buffer)|)
    {
      var data := Read(pipe);
      r := Idle;
      if readBytes > TOTAL_BYTES {
        Fail(Bounds);
        r := Refused(Bounds);
      } else {
        Extend(L.Joined(lines), buffer, data);
        eof := data == [];
        buffer := buffer + data;
        if |buffer| > INPUT_FRAME_BYTES && LF !in buffer {
          Fail(Bounds);
          r := Refused(Bounds);
        }
      }
    }

    /** One turn of the loop; it goes on only while nothing is decided. */
    method Step(t: Tick) returns (done: bool, r: Received)
      requires Valid() && (t.pipe.Offers? ==> t.pipe.bytes != [])
      modifies this
      ensures Valid() && old(taken) <= taken
      ensures r.Message? ==> Live() && delivered == old(delivered) + [r.value]
      ensures !r.Message? ==> delivered == old(delivered)
      ensures r.EndOfStream? ==> Live() && eof && buffer == []
      ensures r.Refused? <==> !Live()
      ensures !done ==> r.Idle?
      ensures old(!Live()) ==> r.Refused? && taken == old(taken)
      ensures old(Live()) && t.closing ==> done && r == Refused(ClosedWire)
      ensures old(Live()) && !t.closing && LF in old(buffer) ==>
                && done && taken == old(taken)
                && r == (if t.expired then Idle
                         else match decode(old(buffer)[..L.FirstLine(old(buffer)) + 1])
                              case None => Refused(FrameRefused)
                              case Some(v) => if t.lateDecode then Idle else Message(v))
      ensures old(Live() && eof) && !t.closing && LF !in old(buffer) ==>
                done && taken == old(taken) && r == (if old(buffer) == [] then EndOfStream else Refused(PartialEof))
      ensures old(Live() && !eof) && !t.closing && LF !in old(buffer) ==>
                if t.expired then done && r.Idle? && taken == old(taken)
                else match t.pipe
                     case Blocked(timedOut) => done == timedOut && r.Idle? && taken == old(taken)
                     case Broken => done && r == Refused(ReadFailed)
                     case _ => (r.Idle? ==> !done && eof == t.pipe.Ended? && |old(taken)| <= |taken| && buffer == old(buffer) + taken[|old(taken)|..])
                               && (r.Refused? <==> |taken| > 536870912 || (|buffer| > 12582912 && LF !in buffer))
                               && (t.pipe.Offers? ==> taken != old(taken))
    {
      closed := closed || t.closing;
      if closed || fault.Some? {
        return true, Refused(if fault.Some? then fault.value else ClosedWire);
      }
      var n := L.FirstLine(buffer);
      if eof && n == |buffer| {
        if buffer == [] { return true, EndOfStream; }
        Fail(PartialEof);
        return true, Refused(PartialEof);
      }
      if t.expired { return true, Idle; }
      if n < |buffer| {
        r := Take(n, t.lateDecode);
        return true, r;
      }
      assert buffer[..n] == buffer;
      match t.pipe {
        case Blocked(timedOut) => return timedOut, Idle;
        case Broken =>
          Fail(ReadFailed);
          return true, Refused(ReadFailed);
        case _ =>
          r := Fill(t.pipe);
          done := r.Refused?;
      }
    }

    /** Receive within a deadline; running out of ticks is running out of time. */
    method Receive(ticks: seq<Tick>) returns (r: Received)
      requires Valid()
      requires forall i :: 0 <= i < |ticks| && ticks[i].pipe.Offers? ==> ticks[i].pipe.bytes != []
      modifies this
      ensures Valid() && old(taken) <= taken
      ensures r.Message? ==> Live() && delivered == old(delivered) + [r.value]
      ensures !r.Message? ==> delivered == old(delivered)
      ensures r.EndOfStream? ==> Live() && eof && buffer == [] && L.Joined(lines) == taken
      ensures r.Refused? <==> !Live()
      ensures r.Refused? ==> buffer == []
      ensures old(!Live()) ==> taken == old(taken)
    {
      var done := false;
      r := if closed || fault.Some? then Refused(if fault.Some? then fault.value else ClosedWire) else Idle;
      for i := 0 to |ticks|
        invariant Valid() && old(taken) <= taken && !done
        invariant r.Refused? <==> !Live()
        invariant r.Refused? || r.Idle?
        invariant delivered == old(delivered)
        invariant old(!Live()) ==> !Live() && taken == old(taken)
      {
        done, r := Step(ticks[i]);
        if done { break; }
      }
      if closed || fault.Some? { buffer := []; }
    }

    /** Close revokes; it does not wait for a reader. */
    method Close()
      requires Valid()
      modifies this
      ensures Valid() && closed && buffer == [] && taken == old(taken) && delivered == old(delivered) && fault == old(fault)
    {
      closed, buffer := true, [];
    }
  }

  lemma Extend(wire: seq<byte>, buffer: seq<byte>, data: seq<byte>)
    ensures wire + (buffer + data) == wire + buffer + data
    ensures data == [] ==> buffer + data == buffer
  {
  }

  lemma Rejoin(a: seq<byte>, b: seq<byte>, n: nat)
    requires n <= |b|
    ensures a + b[..n] + b[n..] == a + b
  {
  }

  /** One turn of the writing loop: what the outside does. */
  datatype WriteTick = WriteTick(closing: bool, expired: bool, outcome: Wrote)

  datatype Wrote = Stalled(timedOut: bool) | WriteBroken | Took(count: int)

  datatype Emitted = Sent | NotSent(code: Code)

  class Writer {
    var closed: bool
    var fault: Option<Code>
    var reserved: nat
    var writtenBytes: nat
    var writtenFrames: nat
    /** Every byte the pipe took, the lines reported as written, and the line a failure interrupted. */
    ghost var sent: seq<byte>
    ghost var lines: seq<seq<byte>>
    ghost var attempt: seq<byte>

    ghost predicate Live()
      reads this
    {
      !closed && fault.None?
    }

    /** The pipe holds whole lines and then, only after a failure, part or all of one more. */
    ghost predicate Valid()
      reads this
    {
      && writtenBytes == |sent| <= reserved <= TOTAL_BYTES
      && writtenFrames == |lines|
      && L.Joined(lines) <= sent <= L.Joined(lines) + attempt
      && (Live() ==> sent == L.Joined(lines) && attempt == [])
    }

    constructor ()
      ensures Valid() && Live() && sent == [] && lines == [] && attempt == []
    {
      closed, fault, reserved, writtenBytes, writtenFrames := false, None, 0, 0, 0;
      sent, lines, attempt := [], [], [];
    }

    method Fail(code: Code)
      modifies this`fault
      ensures fault == if old(fault).None? then Some(code) else old(fault)
    {
      if fault.None? { fault := Some(code); }
    }

    /** Emit one frame; the budget is reserved whole before the first byte. */
    method Emit(value: Value, ticks: seq<WriteTick>) returns (r: Emitted)
      requires Valid()
      modifies this
      ensures Valid() && old(sent) <= sent
      ensures r.Sent? ==> EncodeFrame(value, false, false).Line? && lines == old(lines) + [EncodeFrame(value, false, false).bytes]
      ensures r.Sent? ==> old(Live()) && sent == old(sent) + EncodeFrame(value, false, false).bytes
      ensures r.NotSent? ==> lines == old(lines)
      ensures attempt == [] || (!old(Live()) && attempt == old(attempt)) || (r.NotSent? && EncodeFrame(value, false, false) == Line(attempt))
      ensures r.NotSent? && Live() ==> sent == old(sent) && !EncodeFrame(value, false, false).Line?
      ensures old(Live()) && EncodeFrame(value, false, false).TooLarge? ==> r == NotSent(Bounds) && Live()
      ensures old(Live()) && EncodeFrame(value, false, false).Malformed? ==> r == NotSent(FrameRefused) && Live()
      ensures old(Live()) && EncodeFrame(value, false, false).Line? ==>
                var n := |EncodeFrame(value, false, false).bytes|;
                && (old(reserved) + n > 536870912 ==> r == NotSent(Bounds) && !Live() && sent == old(sent))
                && (old(reserved) + n <= 536870912 ==> reserved == old(reserved) + n && (ticks == [WriteTick(false, false, Took(n))] ==> r.Sent?))
      ensures !old(Live()) ==> r.NotSent? && reserved == old(reserved)
    {
      if closed || fault.Some? {
        return NotSent(if fault.Some? then fault.value else ClosedWire);
      }
      var encoded := EncodeFrame(value, false, false);
      if !encoded.Line? {
        return NotSent(if encoded.TooLarge? then Bounds else FrameRefused);
      }
      var frame := encoded.bytes;
      if reserved + |frame| > TOTAL_BYTES {
        Fail(Bounds);
        return NotSent(Bounds);
      }
      reserved := reserved + |frame|;
      r := WriteAll(frame, ticks);
    }

    /** The writing loop over a reserved line. */
    method WriteAll(frame: seq<byte>, ticks: seq<WriteTick>) returns (r: Emitted)
      requires Valid() && Live() && writtenBytes + |frame| <= reserved
      modifies this
      ensures Valid() && old(sent) <= sent
      ensures r.Sent? ==> lines == old(lines) + [frame] && sent == old(sent) + frame && attempt == []
      ensures r.NotSent? ==> lines == old(lines) && !Live() && attempt == frame
      ensures reserved == old(reserved) && (ticks == [WriteTick(false, false, Took(|frame|))] ==> r.Sent?)
    {
      var offset, i := 0, 0;
      assert sent + frame[..0] == sent;
      attempt := frame;
      while offset < |frame|
        invariant 0 <= offset <= |frame| && 0 <= i <= |ticks|
        invariant Live() && lines == old(lines) && writtenFrames == |lines|
        invariant sent == old(sent) + frame[..offset] && writtenBytes == |sent|
        invariant reserved == old(reserved) && attempt == frame
        invariant ticks == [WriteTick(false, false, Took(|frame|))] ==> i == if offset == 0 then 0 else 1
        invariant ticks == [WriteTick(false, false, Took(|frame|))] ==> offset == 0 || offset == |frame|
        decreases |ticks| - i
      {
        if i == |ticks| || ticks[i].expired {
          Fail(WriteTimeout);
          return NotSent(WriteTimeout);
        }
        var t := ticks[i];
        i := i + 1;
        if t.closing {
          closed := true;
          return NotSent(ClosedWire);
        }
        match t.outcome {
          case Stalled(timedOut) =>
            if timedOut {
              Fail(WriteTimeout);
              return NotSent(WriteTimeout);
            }
          case WriteBroken =>
            Fail(WriteFailed);
            return NotSent(WriteFailed);
          case Took(count) =>
            if count <= 0 {
              Fail(WriteFailed);
              return NotSent(WriteFailed);
            }
            // A pipe takes at most what it is offered.
            var n := if count > |frame| - offset then |frame| - offset else count;
            AppendPart(old(sent), frame, offset, n);
            sent := sent + frame[offset..offset + n];
            writtenBytes := writtenBytes + n;
            offset := offset + n;
        }
      }
      assert frame[..offset] == frame;
      L.JoinedMore(lines, frame);
      if i < |ticks| && ticks[i].expired {
        Fail(WriteTimeout);
        return NotSent(WriteTimeout);
      }
      if i < |ticks| && ticks[i].closing {
        closed := true;
        return NotSent(ClosedWire);
      }
      lines, attempt := lines + [frame], [];
      writtenFrames := writtenFrames + 1;
      assert sent + [] == sent;
      return Sent;
    }
  }

  lemma AppendPart(before: seq<byte>, frame: seq<byte>, offset: nat, n: nat)
    requires offset + n <= |frame|
    ensures before + frame[..offset] + frame[offset..offset + n] == before + frame[..offset + n]
  {
  }

  // ---------- both ends together

  /** A decoded line is the text of its value. */
  lemma {:induction false} DecodedText(line: seq<byte>, v: Value, parallel: bool)
    requires DecodeFrame(line, parallel) == Some(v)
    ensures line == Text(v) + [LF] && Proper(v) && Canon(ArrayIndexFirst, v) == v
  {
    DecodesExactly(line, v, parallel);
  }

  lemma EmittedText(v: Value, line: seq<byte>)
    requires EncodeFrame(v, false, false) == Line(line)
    ensures line == Text(v) + [LF]
  {
  }

  lemma TextIsLine(v: Value, line: seq<byte>)
    requires line == Text(v) + [LF]
    ensures L.IsLine(line)
  {
    NoLineFeed(v);
    assert line[..|line| - 1] == Text(v);
  }

  lemma SameText(d: Value, v: Value, line: seq<byte>)
    requires Proper(d) && Proper(v) && Canon(ArrayIndexFirst, d) == d
    requires line == Text(d) + [LF] && line == Text(v) + [LF]
    ensures d == Canon(ArrayIndexFirst, v)
  {
    assert Text(d) == line[..|line| - 1] == Text(v);
    TextInjective(d, v);
  }

  /** However reads and writes are cut, a reader hands out exactly what the writer emitted,
      in order, none lost, none repeated, each the same dictionary. `sent` are the writer's
      lines; `lines` and `delivered` are the reader's. */
  lemma {:induction false} InOrder(values: seq<Value>, sent: seq<seq<byte>>, lines: seq<seq<byte>>, delivered: seq<Value>, rest: seq<byte>, parallel: bool)
    requires |values| == |sent|
    requires forall i :: 0 <= i < |values| ==> Proper(values[i]) && EncodeFrame(values[i], false, false) == Line(sent[i])
    requires Decoded(line => DecodeFrame(line, parallel), lines, delivered)
    requires L.Joined(lines) + rest <= L.Joined(sent)
    ensures |delivered| <= |values|
    ensures forall i :: 0 <= i < |delivered| ==> delivered[i] == Canon(ArrayIndexFirst, values[i])
  {
    forall i | 0 <= i < |values| ensures sent[i] == Text(values[i]) + [LF] && L.IsLine(sent[i]) {
      EmittedText(values[i], sent[i]);
      TextIsLine(values[i], sent[i]);
    }
    forall i | 0 <= i < |lines|
      ensures lines[i] == Text(delivered[i]) + [LF] && Proper(delivered[i]) && Canon(ArrayIndexFirst, delivered[i]) == delivered[i]
      ensures L.IsLine(lines[i])
    {
      DecodedText(lines[i], delivered[i], parallel);
      TextIsLine(delivered[i], lines[i]);
    }
    assert L.Joined(sent) == L.Joined(sent) + [];
    L.FirstLines(lines, rest, sent, []);
    forall i | 0 <= i < |delivered| ensures delivered[i] == Canon(ArrayIndexFirst, values[i]) {
      SameText(delivered[i], values[i], lines[i]);
    }
  }

  /** A reader on a writer's pipe, in any state of either, failed or not: what was handed out so far
      is what was emitted first, each the same dictionary in canonical order, and beyond that at most
      the one value whose writing a failure interrupted. */
  lemma {:induction false} EndToEnd(w: Writer, r: Reader, values: seq<Value>, last: Value, parallel: bool)
    requires w.Valid() && r.Valid() && r.taken <= w.sent
    requires forall line :: r.decode(line) == DecodeFrame(line, parallel)
    requires |values| == |w.lines|
    requires forall i :: 0 <= i < |values| ==> Proper(values[i]) && EncodeFrame(values[i], false, false) == Line(w.lines[i])
    requires w.attempt != [] ==> Proper(last) && EncodeFrame(last, false, false) == Line(w.attempt)
    ensures var all := values + if w.attempt == [] then [] else [last];
      && |r.delivered| <= |all| && (|r.delivered| > |values| ==> !w.Live())
      && forall i :: 0 <= i < |r.delivered| ==> r.delivered[i] == Canon(ArrayIndexFirst, all[i]) && Same(all[i], r.delivered[i])
  {
    hide DecodeFrame, EncodeFrame, Canon, Same, Proper;
    var more := if w.attempt == [] then [] else [last];
    var all := values + more;
    var sent := w.lines + if w.attempt == [] then [] else [w.attempt];
    if w.attempt != [] { L.JoinedMore(w.lines, w.attempt); }
    assert w.attempt == [] ==> L.Joined(w.lines) + w.attempt == L.Joined(w.lines) && sent == w.lines;
    assert L.Joined(r.lines) + [] == L.Joined(r.lines);
    InOrder(all, sent, r.lines, r.delivered, [], parallel);
    forall i | 0 <= i < |r.delivered| ensures Same(all[i], r.delivered[i]) { CanonSame(ArrayIndexFirst, all[i]); }
  }
}
