/** The stateful ends of the pipe: cutting a byte stream into frames, and the two
    sequence-numbered directions of one session. */
module PipeSession {
  import opened Wrappers
  import opened Dictionary
  import opened Json
  import opened JsonOrder
  import opened PipeCodec
  import opened BigEndian
  import L = Lines

  /** Reading as many whole frames as the bytes hold, ignoring the limits on one push. */
  datatype Cut = Refused | Cut(frames: seq<Value>, rest: seq<byte>)

  type Decoder = seq<byte> -> Option<Value>

  function CutFrames(decode: Decoder, data: seq<byte>): (c: Cut)
    ensures c.Cut? ==> |c.rest| <= |data| && |c.rest| <= MAX_FRAME_BYTES + 3
    decreases |data|
  {
    if |data| < 4 then Cut([], data)
    else
      var size := Get32(data[..4]);
      if !(0 < size <= MAX_FRAME_BYTES) then Refused
      else if |data| < size + 4 then Cut([], data)
      else match decode(data[..size + 4])
        case None => Refused
        case Some(f) => Prepend([f], CutFrames(decode, data[size + 4..]))
  }

  function Prepend(frames: seq<Value>, c: Cut): Cut {
    match c
    case Refused => Refused
    case Cut(more, rest) => Cut(frames + more, rest)
  }

  /** One push: what was read and what is left over, unless it refuses. */
  function Pushed(decode: Decoder, pending: seq<byte>, chunk: seq<byte>): Option<(seq<Value>, seq<byte>)> {
    if |pending| + |chunk| > MAX_PUSH_BYTES then None
    else match CutFrames(decode, pending + chunk)
      case Refused => None
      case Cut(frames, rest) => if |frames| > MAX_PUSH_FRAMES then None else Some((frames, rest))
  }

  /** The loop of one push: at most so many frames, and the bytes after them. */
  method ReadFrames(decode: Decoder, data: seq<byte>) returns (r: Option<seq<Value>>, rest: seq<byte>)
    ensures r.Some? ==> CutFrames(decode, data) == Cut(r.value, rest) && |r.value| <= MAX_PUSH_FRAMES
    ensures r.None? ==> rest == [] && (CutFrames(decode, data).Cut? ==> |CutFrames(decode, data).frames| > MAX_PUSH_FRAMES)
  {
    hide CutFrames, ReadSoFar, Get32;
    var frames, offset := [], 0;
    ReadNothing(decode, data);
    while |data| - offset >= 4
      invariant 0 <= offset <= |data| && |frames| <= MAX_PUSH_FRAMES
      invariant ReadSoFar(decode, data, frames, offset)
    {
      ReadOne(decode, data, frames, offset);
      var size := Get32(data[offset..offset + 4]);
      if !(0 < size <= MAX_FRAME_BYTES) { return None, []; }
      if |data| - offset < size + 4 { break; }
      var f := decode(data[offset..offset + 4 + size]);
      if |frames| >= MAX_PUSH_FRAMES || f.None? { return None, []; }
      frames := frames + [f.value];
      offset := offset + size + 4;
    }
    ReadNoMore(decode, data, frames, offset);
    return Some(frames), data[offset..];
  }

  /** The frames read and those still to be cut are all the frames. */
  ghost predicate ReadSoFar(decode: Decoder, data: seq<byte>, frames: seq<Value>, offset: nat) {
    offset <= |data| && CutFrames(decode, data) == Prepend(frames, CutFrames(decode, data[offset..]))
  }

  lemma ReadNothing(decode: Decoder, data: seq<byte>)
    ensures ReadSoFar(decode, data, [], 0)
  {
    NothingToPrepend(CutFrames(decode, data));
    assert data[0..] == data;
  }

  lemma ReadOne(decode: Decoder, data: seq<byte>, frames: seq<Value>, offset: nat)
    requires ReadSoFar(decode, data, frames, offset) && offset + 4 <= |data|
    ensures var size := Get32(data[offset..offset + 4]);
      if !(0 < size <= MAX_FRAME_BYTES) then CutFrames(decode, data).Refused?
      else |data| - offset >= size + 4 ==>
        match decode(data[offset..offset + 4 + size])
        case None => CutFrames(decode, data).Refused?
        case Some(f) =>
          && ReadSoFar(decode, data, frames + [f], offset + size + 4)
          && (CutFrames(decode, data).Cut? ==> |CutFrames(decode, data).frames| > |frames|)
  {
    CutAt(decode, data, offset);
    var size := Get32(data[offset..offset + 4]);
    if 0 < size <= MAX_FRAME_BYTES && |data| - offset >= size + 4 && decode(data[offset..offset + 4 + size]).Some? {
      var f := decode(data[offset..offset + 4 + size]).value;
      PrependTwice(frames, [f], CutFrames(decode, data[offset + size + 4..]));
    }
  }

  lemma ReadNoMore(decode: Decoder, data: seq<byte>, frames: seq<Value>, offset: nat)
    requires ReadSoFar(decode, data, frames, offset)
    requires |data| - offset < 4 || (var size := Get32(data[offset..offset + 4]); 0 < size <= MAX_FRAME_BYTES && |data| - offset < size + 4)
    ensures CutFrames(decode, data) == Cut(frames, data[offset..])
  {
    if offset + 4 <= |data| { CutAt(decode, data, offset); }
    assert CutFrames(decode, data[offset..]) == Cut([], data[offset..]);
    assert frames + [] == frames;
  }

  /** The first frame that is cut from a stream stands where its first four bytes, most significant
      first, say; the next cut begins behind it. */
  lemma {:induction false} CutWherePrefixSays(data: seq<byte>, size: nat)
    requires |data| >= 4 && size == data[0] as int * 16777216 + data[1] as int * 65536 + data[2] as int * 256 + data[3] as int
    requires CutFrames(DecodeFrame, data).Cut?
    ensures 1 <= size <= 3145728
    ensures CutFrames(DecodeFrame, data).frames == [] <==> |data| < size + 4
    ensures |data| >= size + 4 ==>
              && DecodeFrame(data[..size + 4]) == Some(CutFrames(DecodeFrame, data).frames[0])
              && CutFrames(DecodeFrame, data[size + 4..]) == Cut(CutFrames(DecodeFrame, data).frames[1..], CutFrames(DecodeFrame, data).rest)
  {
    hide DecodeFrame;
    assert Get32(data[..4]) == size;
    if |data| >= size + 4 { Peeled(DecodeFrame(data[..size + 4]).value, CutFrames(DecodeFrame, data[size + 4..])); }
  }

  lemma Peeled(f: Value, c: Cut)
    requires c.Cut?
    ensures Prepend([f], c).frames[0] == f && Prepend([f], c).frames[1..] == c.frames && Prepend([f], c).rest == c.rest
  {
  }

  class Framer {
    const decode: Decoder
    var pending: seq<byte>
    var closed: bool
    var poisoned: bool

    constructor ()
      ensures pending == [] && !closed && !poisoned && decode == DecodeFrame
    {
      pending, closed, poisoned, decode := [], false, false, DecodeFrame;
    }

    method Push(chunk: seq<byte>) returns (r: Option<seq<Value>>)
      modifies this
      ensures closed == old(closed)
      ensures r.Some? <==> !old(closed) && !old(poisoned) && Pushed(decode, old(pending), chunk).Some?
      ensures r.Some? ==> (r.value, pending) == Pushed(decode, old(pending), chunk).value && !poisoned
      ensures r.None? ==> poisoned && pending == []
      ensures r.Some? <==>
              && !old(closed) && !old(poisoned) && |old(pending)| + |chunk| <= 8388608
              && CutFrames(decode, old(pending) + chunk).Cut? && |CutFrames(decode, old(pending) + chunk).frames| <= 32
      ensures r.Some? ==> CutFrames(decode, old(pending) + chunk) == Cut(r.value, pending)
    {
      if closed || poisoned || |pending| + |chunk| > MAX_PUSH_BYTES {
        pending, poisoned := [], true;
        return None;
      }
      r, pending := ReadFrames(decode, pending + chunk);
      poisoned := r.None?;
    }

    /** A stream may only end between frames. */
    method End() returns (ok: bool)
      modifies this
      ensures closed && pending == []
      ensures ok <==> !old(closed) && !old(poisoned) && old(pending) == []
      ensures poisoned == (old(poisoned) || !ok)
    {
      ok := !closed && !poisoned && pending == [];
      closed := true;
      if !ok { pending, poisoned := [], true; }
    }
  }

  /** One step of cutting, from an offset into all the bytes. */
  lemma CutAt(decode: Decoder, data: seq<byte>, offset: nat)
    requires offset + 4 <= |data|
    ensures var size := Get32(data[offset..offset + 4]);
      CutFrames(decode, data[offset..]) ==
        if !(0 < size <= MAX_FRAME_BYTES) then Refused
        else if |data| - offset < size + 4 then Cut([], data[offset..])
        else match decode(data[offset..offset + 4 + size])
          case None => Refused
          case Some(f) => Prepend([f], CutFrames(decode, data[offset + 4 + size..]))
  {
    var tail := data[offset..];
    assert tail[..4] == data[offset..offset + 4];
    var size := Get32(tail[..4]);
    if |tail| >= size + 4 {
      assert tail[..size + 4] == data[offset..offset + 4 + size];
      assert tail[size + 4..] == data[offset + 4 + size..];
    }
  }

  lemma NothingToPrepend(c: Cut)
    ensures Prepend([], c) == c
  {
    if c.Cut? { assert [] + c.frames == c.frames; }
  }

  lemma PrependTwice(a: seq<Value>, b: seq<Value>, c: Cut)
    ensures Prepend(a, Prepend(b, c)) == Prepend(a + b, c)
  {
    if c.Cut? { assert a + (b + c.frames) == a + b + c.frames; }
  }

  // ---------- how the stream is cut does not matter

  /** Bytes that arrive later only add frames after those already read. */
  lemma {:induction false} CutAppend(decode: Decoder, a: seq<byte>, b: seq<byte>)
    requires CutFrames(decode, a).Cut?
    ensures CutFrames(decode, a + b) == Prepend(CutFrames(decode, a).frames, CutFrames(decode, CutFrames(decode, a).rest + b))
    decreases |a|
  {
    if |a| < 4 || |a| < Get32(a[..4]) + 4 {
      assert CutFrames(decode, a) == Cut([], a);
      NothingToPrepend(CutFrames(decode, a + b));
    } else {
      var size := Get32(a[..4]);
      var x, rest := decode(a[..size + 4]).value, a[size + 4..];
      assert (a + b)[..4] == a[..4] && (a + b)[..size + 4] == a[..size + 4];
      assert (a + b)[size + 4..] == rest + b;
      CutAppend(decode, rest, b);
      PrependTwice([x], CutFrames(decode, rest).frames, CutFrames(decode, CutFrames(decode, rest).rest + b));
    }
  }

  /** A leftover holds no whole frame. */
  lemma {:induction false} CutRest(decode: Decoder, data: seq<byte>)
    requires CutFrames(decode, data).Cut?
    ensures CutFrames(decode, CutFrames(decode, data).rest) == Cut([], CutFrames(decode, data).rest)
    decreases |data|
  {
    if !(|data| < 4 || |data| < Get32(data[..4]) + 4) {
      CutRest(decode, data[Get32(data[..4]) + 4..]);
    }
  }

  /** Pushing chunk after chunk: everything read, and the final leftover. */
  function PushedAll(decode: Decoder, pending: seq<byte>, chunks: seq<seq<byte>>): Option<(seq<Value>, seq<byte>)>
    decreases |chunks|
  {
    if chunks == [] then Some(([], pending))
    else match Pushed(decode, pending, chunks[0])
      case None => None
      case Some((frames, rest)) =>
        match PushedAll(decode, rest, chunks[1..])
        case None => None
        case Some((more, end)) => Some((frames + more, end))
  }

  /** However the bytes arrive, the frames and the leftover are those of the whole stream. */
  lemma {:induction false} PushedIsCut(decode: Decoder, pending: seq<byte>, chunks: seq<seq<byte>>)
    requires CutFrames(decode, pending) == Cut([], pending)
    requires PushedAll(decode, pending, chunks).Some?
    ensures var (frames, rest) := PushedAll(decode, pending, chunks).value;
      CutFrames(decode, pending + L.Joined(chunks)) == Cut(frames, rest)
    decreases |chunks|
  {
    if chunks == [] {
      assert pending + [] == pending;
    } else {
      var (frames, rest) := Pushed(decode, pending, chunks[0]).value;
      CutRest(decode, pending + chunks[0]);
      PushedIsCut(decode, rest, chunks[1..]);
      assert pending + L.Joined(chunks) == (pending + chunks[0]) + L.Joined(chunks[1..]);
      CutAppend(decode, pending + chunks[0], L.Joined(chunks[1..]));
    }
  }

  /** Two ways of cutting one stream, neither refused, read the same frames. */
  lemma CutIndependent(decode: Decoder, a: seq<seq<byte>>, b: seq<seq<byte>>)
    requires L.Joined(a) == L.Joined(b)
    requires PushedAll(decode, [], a).Some? && PushedAll(decode, [], b).Some?
    ensures PushedAll(decode, [], a) == PushedAll(decode, [], b)
  {
    PushedIsCut(decode, [], a);
    PushedIsCut(decode, [], b);
    assert [] + L.Joined(a) == L.Joined(a) && [] + L.Joined(b) == L.Joined(b);
  }

  type Encoder = Value -> Option<seq<byte>>

  /** The bytes of frames, each encoded again; nothing where one cannot be. */
  function Reencoded(encode: Encoder, frames: seq<Value>): Option<seq<byte>> {
    if frames == [] then Some([])
    else match (encode(frames[0]), Reencoded(encode, frames[1..]))
      case (Some(a), Some(b)) => Some(a + b)
      case _ => None
  }

  /** Every byte of a frame list and of the leftover. */
  predicate Whole(encode: Encoder, c: Cut, data: seq<byte>) {
    c.Cut? && match Reencoded(encode, c.frames)
              case None => false
              case Some(bytes) => bytes + c.rest == data
  }

  lemma WholeMore(encode: Encoder, f: Value, head: seq<byte>, c: Cut, tail: seq<byte>)
    requires Whole(encode, c, tail) && encode(f) == Some(head)
    ensures Whole(encode, Prepend([f], c), head + tail)
  {
    var all := [f] + c.frames;
    assert all[0] == f && all[1..] == c.frames;
    var bytes := Reencoded(encode, c.frames).value;
    assert head + bytes + c.rest == head + (bytes + c.rest);
  }

  lemma NothingCut(encode: Encoder, data: seq<byte>)
    ensures Whole(encode, Cut([], data), data)
  {
    assert [] + data == data;
  }

  lemma {:induction false} CutLosesNothing(decode: Decoder, encode: Encoder, data: seq<byte>)
    requires forall b :: decode(b).Some? ==> encode(decode(b).value) == Some(b)
    requires CutFrames(decode, data).Cut?
    ensures Whole(encode, CutFrames(decode, data), data)
    decreases |data|
  {
    hide Whole, Prepend;
    NothingCut(encode, data);
    if |data| >= 4 && |data| >= Get32(data[..4]) + 4 {
      var n := Get32(data[..4]) + 4;
      var c := CutFrames(decode, data[n..]);
      PrependCut(decode(data[..n]).value, c);
      CutLosesNothing(decode, encode, data[n..]);
      WholeMore(encode, decode(data[..n]).value, data[..n], c, data[n..]);
      assert data == data[..n] + data[n..];
    }
  }

  lemma PrependCut(f: Value, c: Cut)
    ensures Prepend([f], c).Cut? <==> c.Cut?
  {
  }

  /** Frames encoded again, with the leftover, are the bytes pushed. */
  lemma {:induction false} PushedLosesNothing(chunks: seq<seq<byte>>)
    requires PushedAll(DecodeFrame, [], chunks).Some?
    ensures var (frames, rest) := PushedAll(DecodeFrame, [], chunks).value;
      Reencoded(EncodeFrame, frames).Some? && Reencoded(EncodeFrame, frames).value + rest == L.Joined(chunks)
  {
    PushedIsCut(DecodeFrame, [], chunks);
    assert [] + L.Joined(chunks) == L.Joined(chunks);
    forall b | DecodeFrame(b).Some? ensures EncodeFrame(DecodeFrame(b).value) == Some(b) {
      EncodeDecode(b);
    }
    CutLosesNothing(DecodeFrame, EncodeFrame, L.Joined(chunks));
  }

  // ---------- sequence numbers

  function FrameOf(session: string, sequence: nat, kind: string, body: Value): Value {
    Obj([Field("version", Num(1)), Field("sessionId", Str(session)), Field("sequence", Num(sequence)),
         Field("kind", Str(kind)), Field("body", body)])
  }

  predicate Expected(fs: seq<Field>, session: string, sequence: nat, kinds: set<string>) {
    && Lookup(fs, "sessionId") == Some(Str(session))
    && Lookup(fs, "sequence") == Some(Num(sequence))
    && (match Lookup(fs, "kind") case Some(Str(k)) => k in kinds case _ => false)
  }

  /** A frame taken through its wire form, so that later changes to it do not matter. */
  function Snapshot(f: Value): Option<Value> {
    match EncodeFrame(f)
    case None => None
    case Some(wire) => DecodeFrame(wire)
  }

  lemma {:induction false} SnapshotIsCanon(f: Value)
    requires Proper(f)
    ensures Snapshot(f) == if EncodeFrame(f).Some? then Some(Canon(Lexical, f)) else None
    ensures Snapshot(f).Some? ==> f.Obj? && Canon(Lexical, f).Obj?
  {
    if EncodeFrame(f).Some? { DecodeEncode(f); }
  }

  /** A frame is the next one in a session's direction. */
  predicate IsNext(f: Value, session: string, sequence: nat, kinds: set<string>) {
    match Snapshot(f)
    case Some(Obj(fs)) => Expected(fs, session, sequence, kinds)
    case _ => false
  }

  predicate KindsOk(kinds: seq<string>) {
    kinds != [] && Distinct(kinds) && forall k :: k in kinds ==> k in KINDS
  }

  lemma KindsWhen(kinds: seq<string>)
    ensures KindsOk(kinds) <==>
            && |kinds| > 0 && (forall i, j :: 0 <= i < j < |kinds| ==> kinds[i] != kinds[j])
            && forall i :: 0 <= i < |kinds| ==> kinds[i] in {"start", "ready", "turn", "tool", "tool-result", "answer", "stop", "closed"}
  {
    if KindsOk(kinds) {
      forall i | 0 <= i < |kinds| ensures kinds[i] in KINDS { assert kinds[i] in kinds; }
    }
  }

  class SessionCodec {
    const session: string
    const sendKinds: set<string>
    const receiveKinds: set<string>
    var sent: nat
    var received: nat
    var poisoned: bool

    constructor (session: string, sendKinds: set<string>, receiveKinds: set<string>)
      requires SessionOk(session) && sendKinds <= KINDS && receiveKinds <= KINDS
      ensures this.session == session && this.sendKinds == sendKinds && this.receiveKinds == receiveKinds
      ensures sent == received == 0 && !poisoned
    {
      this.session, this.sendKinds, this.receiveKinds := session, sendKinds, receiveKinds;
      sent, received, poisoned := 0, 0, false;
    }

    /** The configuration is refused unless the kinds are known, distinct and at least one each way. */
    static method Open(session: string, sendKinds: seq<string>, receiveKinds: seq<string>) returns (codec: SessionCodec?)
      ensures codec != null <==> SessionOk(session) && KindsOk(sendKinds) && KindsOk(receiveKinds)
      ensures codec != null <==>
                && |session| == 32 && (forall i :: 0 <= i < 32 ==> session[i] in "0123456789abcdef")
                && |sendKinds| > 0 && |receiveKinds| > 0
                && (forall i, j :: 0 <= i < j < |sendKinds| ==> sendKinds[i] != sendKinds[j])
                && (forall i, j :: 0 <= i < j < |receiveKinds| ==> receiveKinds[i] != receiveKinds[j])
                && (forall i :: 0 <= i < |sendKinds| ==> sendKinds[i] in {"start", "ready", "turn", "tool", "tool-result", "answer", "stop", "closed"})
                && (forall i :: 0 <= i < |receiveKinds| ==> receiveKinds[i] in {"start", "ready", "turn", "tool", "tool-result", "answer", "stop", "closed"})
      ensures codec != null ==>
                && fresh(codec) && codec.session == session && codec.sent == codec.received == 0 && !codec.poisoned
                && codec.sendKinds == (set k | k in sendKinds) && codec.receiveKinds == (set k | k in receiveKinds)
    {
      forall i | 0 <= i < |session| { HexCharacter(session[i]); }
      KindsWhen(sendKinds);
      KindsWhen(receiveKinds);
      hide UnHex, KindsOk;
      if !SessionOk(session) || !KindsOk(sendKinds) || !KindsOk(receiveKinds) { return null; }
      codec := new SessionCodec(session, set k | k in sendKinds, set k | k in receiveKinds);
    }

    method Encode(kind: string, body: Value) returns (r: Option<seq<byte>>)
      modifies this`sent, this`poisoned
      ensures r == if !old(poisoned) && kind in sendKinds then EncodeFrame(FrameOf(session, old(sent) + 1, kind, body)) else None
      ensures sent == old(sent) + if r.Some? then 1 else 0
      ensures poisoned <==> old(poisoned) || r.None?
    {
      if poisoned || kind !in sendKinds {
        poisoned := true;
        return None;
      }
      r := EncodeFrame(FrameOf(session, sent + 1, kind, body));
      if r.None? { poisoned := true; } else { sent := sent + 1; }
    }

    method Accept(frame: Value) returns (r: Option<Value>)
      modifies this`received, this`poisoned
      ensures r == if !old(poisoned) && IsNext(frame, session, old(received) + 1, receiveKinds) then Snapshot(frame) else None
      ensures received == old(received) + if r.Some? then 1 else 0
      ensures poisoned <==> old(poisoned) || r.None?
    {
      if !poisoned {
        r := Snapshot(frame);
        if r.Some? && r.value.Obj? && Expected(r.value.fields, session, received + 1, receiveKinds) {
          received := received + 1;
          return;
        }
      }
      poisoned := true;
      r := None;
    }
  }

  /** Canonical order does not change which frame it is. */
  lemma CanonNext(f: Value, session: string, sequence: nat, kinds: set<string>)
    requires Proper(f) && EncodeFrame(f).Some?
    ensures f.Obj? && Canon(Lexical, f).Obj?
    ensures Expected(f.fields, session, sequence, kinds) <==> Expected(Canon(Lexical, f).fields, session, sequence, kinds)
  {
    CanonLookup(f.fields, "sessionId");
    CanonLookup(f.fields, "sequence");
    CanonLookup(f.fields, "kind");
  }

  /** How a receiver judges a frame for a given number. */
  type Judge = (Value, nat) -> bool

  /** How many of the frames presented in order a receiver accepts before it poisons. */
  function Accepted(next: Judge, presented: seq<Value>, received: nat): nat {
    if presented == [] || !next(presented[0], received + 1) then 0
    else 1 + Accepted(next, presented[1..], received + 1)
  }

  /** The i-th frame sent is judged to be number i + 1, and no other. */
  ghost predicate Numbered(next: Judge, sent: seq<Value>) {
    forall i, n: nat :: 0 <= i < |sent| ==> (next(sent[i], n) <==> n == i + 1)
  }

  /** Whatever order, repetition or loss: of frames drawn from what a peer sent, those
      accepted are exactly a gapless run of what was sent, up to the first deviation. */
  lemma {:induction false} GaplessRun(next: Judge, sent: seq<Value>, presented: seq<Value>, received: nat)
    requires Numbered(next, sent) && received <= |sent|
    requires forall i :: 0 <= i < |presented| ==> presented[i] in sent
    ensures var n := Accepted(next, presented, received);
      && n <= |presented| && received + n <= |sent|
      && presented[..n] == sent[received..received + n]
      && (n < |presented| ==> received + n == |sent| || presented[n] != sent[received + n])
    decreases |presented|
  {
    if presented != [] {
      var j :| 0 <= j < |sent| && sent[j] == presented[0];
      if next(presented[0], received + 1) {
        assert j == received;
        GaplessRun(next, sent, presented[1..], received + 1);
        var n := Accepted(next, presented[1..], received + 1);
        assert presented[..n + 1] == [presented[0]] + presented[1..][..n];
        assert sent[received..received + 1 + n] == [sent[received]] + sent[received + 1..received + 1 + n];
      }
    }
  }

  /** A session's judge, as the codec applies it. */
  function JudgeOf(session: string, kinds: set<string>): Judge {
    (f, n) => n >= 0 && IsNext(f, session, n, kinds)
  }

  /** A frame that a codec of this session may have encoded as its n-th. */
  ghost predicate Produced(session: string, kinds: set<string>, f: Value, n: nat) {
    EncodeFrame(f).Some? && exists kind, body :: f == FrameOf(session, n, kind, body) && kind in kinds && Proper(body)
  }

  ghost predicate AllProduced(session: string, kinds: set<string>, sent: seq<Value>) {
    forall i :: 0 <= i < |sent| ==> Produced(session, kinds, sent[i], i + 1)
  }

  /** What one codec sends carries its number for the peer: same session, matching kinds. */
  lemma {:induction false} ProducedIsNext(session: string, kinds: set<string>, f: Value, m: nat, n: nat)
    requires Produced(session, kinds, f, n)
    ensures IsNext(f, session, m, kinds) <==> m == n
  {
    var kind, body :| f == FrameOf(session, n, kind, body) && kind in kinds && Proper(body);
    FrameFields(session, n, kind, body);
    FrameProper(session, n, kind, body);
    SnapshotIsCanon(f);
    CanonNext(f, session, m, kinds);
  }

  lemma FrameProper(session: string, n: nat, kind: string, body: Value)
    requires Proper(body)
    ensures Proper(FrameOf(session, n, kind, body))
  {
    var fs := FrameOf(session, n, kind, body).fields;
    assert Keys(fs) == ["version", "sessionId", "sequence", "kind", "body"];
    assert |"version"| == 7 && |"sessionId"| == 9 && |"sequence"| == 8 && |"kind"| == 4 && |"body"| == 4 && "kind"[0] != "body"[0];
  }

  lemma FrameFields(session: string, n: nat, kind: string, body: Value)
    ensures var fs := FrameOf(session, n, kind, body).fields;
      Lookup(fs, "sessionId") == Some(Str(session)) && Lookup(fs, "sequence") == Some(Num(n)) && Lookup(fs, "kind") == Some(Str(kind))
  {
    var fs := FrameOf(session, n, kind, body).fields;
    assert |"version"| == 7 && |"sessionId"| == 9 && |"sequence"| == 8 && |"kind"| == 4;
    assert Lookup(fs, "sessionId") == Lookup(fs[1..], "sessionId");
    assert Lookup(fs, "sequence") == Lookup(fs[1..], "sequence") == Lookup(fs[1..][1..], "sequence");
    assert Lookup(fs, "kind") == Lookup(fs[1..], "kind") == Lookup(fs[1..][1..], "kind") == Lookup(fs[1..][1..][1..], "kind");
  }

  /** What a frame is once it has crossed the wire is what it stays: its keys are in canonical order. */
  lemma SnapshotAgain(f: Value)
    requires Snapshot(f).Some?
    ensures Snapshot(Snapshot(f).value) == Snapshot(f)
  {
    EncodeDecode(EncodeFrame(f).value);
  }

  lemma NextBySnapshot(f: Value, session: string, n: nat, kinds: set<string>)
    requires Snapshot(f).Some?
    ensures IsNext(f, session, n, kinds) <==> IsNext(Snapshot(f).value, session, n, kinds)
  {
    hide Snapshot, Expected;
    SnapshotAgain(f);
  }

  /** The frames sent, as a peer reads them off the wire. */
  ghost predicate Wired(sent: seq<Value>, wired: seq<Value>) {
    |wired| == |sent| && forall i :: 0 <= i < |sent| ==> Snapshot(sent[i]) == Some(wired[i])
  }

  /** Judges that agree frame by frame accept equally many. */
  lemma {:induction false} AcceptedAlike(next: Judge, a: seq<Value>, b: seq<Value>, received: nat)
    requires |a| == |b| && forall i, n: nat :: 0 <= i < |a| ==> next(a[i], n) == next(b[i], n)
    ensures Accepted(next, a, received) == Accepted(next, b, received)
    decreases |a|
  {
    if a != [] {
      assert next(a[0], received + 1) == next(b[0], received + 1);
      AcceptedAlike(next, a[1..], b[1..], received + 1);
    }
  }

  /** What crosses the wire is judged by its number too. */
  lemma {:induction false} WiredNumbered(session: string, kinds: set<string>, sent: seq<Value>, wired: seq<Value>)
    requires AllProduced(session, kinds, sent) && Wired(sent, wired)
    ensures Numbered(JudgeOf(session, kinds), wired)
  {
    hide Snapshot, Produced, IsNext;
    var next := JudgeOf(session, kinds);
    forall i, n: nat | 0 <= i < |wired| ensures next(wired[i], n) <==> n == i + 1 {
      ProducedIsNext(session, kinds, sent[i], n, i + 1);
      NextBySnapshot(sent[i], session, n, kinds);
    }
  }

  /** What a receiver reads of the frames presented to it. */
  lemma {:induction false} SnapshotsOf(presented: seq<Value>, wired: seq<Value>) returns (read: seq<Value>)
    requires forall i :: 0 <= i < |presented| ==> Snapshot(presented[i]).Some? && Snapshot(presented[i]).value in wired
    ensures |read| == |presented|
    ensures forall i :: 0 <= i < |read| ==> Snapshot(presented[i]) == Some(read[i]) && read[i] in wired
  {
    hide Snapshot;
    read := seq(|presented|, i requires 0 <= i < |presented| => Snapshot(presented[i]).value);
    forall i | 0 <= i < |read| ensures read[i] in wired {
      var j :| 0 <= j < |wired| && Snapshot(presented[i]) == Some(wired[j]);
    }
  }

  lemma {:induction false} SameJudgement(session: string, kinds: set<string>, presented: seq<Value>, read: seq<Value>)
    requires |read| == |presented| && forall i :: 0 <= i < |read| ==> Snapshot(presented[i]) == Some(read[i])
    ensures Accepted(JudgeOf(session, kinds), presented, 0) == Accepted(JudgeOf(session, kinds), read, 0)
  {
    hide Snapshot, IsNext, Accepted;
    var next := JudgeOf(session, kinds);
    forall i, n: nat | 0 <= i < |presented| ensures next(presented[i], n) == next(read[i], n) {
      NextBySnapshot(presented[i], session, n, kinds);
    }
    AcceptedAlike(next, presented, read, 0);
  }

  /** Frames presented as sent, encoded or not, read as what crossed the wire. */
  lemma {:induction false} AsSent(sent: seq<Value>, wired: seq<Value>)
    requires Wired(sent, wired)
    ensures |wired| == |sent|
    ensures forall i :: 0 <= i < |sent| ==> Snapshot(sent[i]) == Some(wired[i]) && Snapshot(wired[i]) == Some(wired[i])
  {
    hide Snapshot;
    forall i | 0 <= i < |sent| ensures Snapshot(wired[i]) == Some(wired[i]) { SnapshotAgain(sent[i]); }
  }

  /** Two complementary codecs: from any frames with the content of what one sent (decoded from the
      wire, or not yet encoded; lost, repeated or out of order), the other hands out exactly a
      prefix of it, up to the first deviation; when all arrive as sent, all of it. */
  lemma {:induction false} GaplessPrefix(session: string, kinds: set<string>, sent: seq<Value>, wired: seq<Value>, presented: seq<Value>)
    requires AllProduced(session, kinds, sent) && Wired(sent, wired)
    requires forall i :: 0 <= i < |presented| ==> Snapshot(presented[i]).Some? && Snapshot(presented[i]).value in wired
    ensures var n := Accepted(JudgeOf(session, kinds), presented, 0);
      && n <= |presented| && n <= |sent|
      && (forall i :: 0 <= i < n ==> Snapshot(presented[i]) == Some(wired[i]))
      && (n < |presented| ==> n == |sent| || Snapshot(presented[n]) != Some(wired[n]))
      && (presented == wired || presented == sent ==> n == |sent|)
  {
    hide *;
    var read := SnapshotsOf(presented, wired);
    WiredNumbered(session, kinds, sent, wired);
    SameJudgement(session, kinds, presented, read);
    AsSent(sent, wired);
    GaplessRun(JudgeOf(session, kinds), wired, read, 0);
    var n := Accepted(JudgeOf(session, kinds), read, 0);
    assert wired[0..0 + n] == wired[..n];
    assert forall i :: 0 <= i < n ==> read[i] == read[..n][i] == wired[..n][i];
  }

  /** A fresh codec given frames one after another: what it hands out before it poisons itself is
      what its judge accepts, frame by frame. */
  method AcceptAll(codec: SessionCodec, presented: seq<Value>) returns (taken: seq<Value>)
    requires !codec.poisoned && codec.received == 0
    modifies codec
    ensures |taken| == Accepted(JudgeOf(codec.session, codec.receiveKinds), presented, 0) <= |presented|
    ensures forall i :: 0 <= i < |taken| ==> Snapshot(presented[i]) == Some(taken[i])
    ensures codec.poisoned <==> |taken| < |presented|
  {
    hide Snapshot, IsNext;
    ghost var next := JudgeOf(codec.session, codec.receiveKinds);
    taken := [];
    var i := 0;
    assert presented[0..] == presented;
    while i < |presented|
      invariant 0 <= i == |taken| == codec.received <= |presented| && !codec.poisoned
      invariant Accepted(next, presented, 0) == i + Accepted(next, presented[i..], i)
      invariant forall j :: 0 <= j < i ==> Snapshot(presented[j]) == Some(taken[j])
    {
      assert presented[i..][0] == presented[i] && presented[i..][1..] == presented[i + 1..];
      IsNextReads(presented[i], codec.session, i + 1, codec.receiveKinds);
      var r := codec.Accept(presented[i]);
      if r.None? { return; }
      taken, i := taken + [r.value], i + 1;
    }
  }

  lemma IsNextReads(f: Value, session: string, n: nat, kinds: set<string>)
    ensures IsNext(f, session, n, kinds) ==> Snapshot(f).Some?
  {
  }

  function Encodings(sent: seq<Value>): seq<seq<byte>> {
    seq(|sent|, i requires 0 <= i < |sent| => match EncodeFrame(sent[i]) case Some(b) => b case None => [])
  }

  /** One encoded frame in front of more bytes is read as it was meant. */
  lemma {:induction false} CutEncoded(f: Value, rest: seq<byte>)
    requires Snapshot(f).Some?
    ensures CutFrames(DecodeFrame, EncodeFrame(f).value + rest) == Prepend([Snapshot(f).value], CutFrames(DecodeFrame, rest))
  {
    hide Envelope, Print, Parse, Canon, Canonical;
    var e := EncodeFrame(f).value;
    var data := e + rest;
    assert 4 <= |e| && |e| == Get32(e[..4]) + 4 && 0 < Get32(e[..4]) <= MAX_FRAME_BYTES;
    assert data[..4] == e[..4] && data[..|e|] == e && data[|e|..] == rest;
  }

  /** The bytes one codec sends, one after another, hold exactly its frames and nothing else. */
  lemma {:induction false} StreamIsWired(sent: seq<Value>, wired: seq<Value>)
    requires Wired(sent, wired)
    ensures CutFrames(DecodeFrame, L.Joined(Encodings(sent))) == Cut(wired, [])
  {
    hide Snapshot, EncodeFrame, DecodeFrame;
    if sent != [] {
      assert Encodings(sent)[1..] == Encodings(sent[1..]);
      StreamIsWired(sent[1..], wired[1..]);
      EncodedWhenWired(sent[0]);
      CutEncoded(sent[0], L.Joined(Encodings(sent[1..])));
      assert [wired[0]] + wired[1..] == wired;
    }
  }

  lemma EncodedWhenWired(f: Value)
    requires Snapshot(f).Some?
    ensures EncodeFrame(f).Some?
  {
  }
}
