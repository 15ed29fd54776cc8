/** The newline-delimited epoch wire: its canonical codec, and the reader and writer that
    own one pipe each. */
module EpochWire {
  import opened Wrappers
  import opened Json
  import opened JsonCost
  import opened JsonOrder
  import Utf8

  type byte = Utf8.byte

  const FRAME_BYTES := 3 * 1024 * 1024
  const INPUT_FRAME_BYTES := 12 * 1024 * 1024
  const TOTAL_BYTES := 512 * 1024 * 1024
  const READ_BYTES := 65536
  const SAFE_INTEGER := 0x1F_FFFF_FFFF_FFFF
  const MAX_DEPTH := 64
  const LF: byte := 10

  // ---------- the codec

  predicate SafeNumbers(v: Value)
    decreases v
  {
    match v
    case Num(n) => -SAFE_INTEGER <= n <= SAFE_INTEGER
    case Arr(items) => forall i :: 0 <= i < |items| ==> SafeNumbers(items[i])
    case Obj(fs) => forall i :: 0 <= i < |fs| ==> SafeNumbers(fs[i].value)
    case _ => true
  }

  predicate Encodable(v: Value) {
    v.Obj? && SafeNumbers(v) && Height(v) <= MAX_DEPTH
  }

  function Text(v: Value): seq<byte> {
    Utf8.Encode(Print(Canon(ArrayIndexFirst, v)))
  }

  predicate Has(fs: seq<Field>, key: string) {
    exists i :: 0 <= i < |fs| && fs[i].key == key
  }

  predicate HasValue(fs: seq<Field>, key: string, v: Value) {
    exists i :: 0 <= i < |fs| && fs[i].key == key && fs[i].value == v
  }

  predicate HasObject(fs: seq<Field>, key: string) {
    exists i :: 0 <= i < |fs| && fs[i].key == key && fs[i].value.Obj?
  }

  /** Host frames that carry images may be larger; in a pool they are one level down. */
  predicate Visual(v: Value, parallel: bool)
    requires v.Obj?
  {
    if parallel && |v.fields| == 2 && HasText(v.fields, "workerId") && HasObject(v.fields, "frame") then
      exists i :: 0 <= i < |v.fields| && v.fields[i].key == "frame" && v.fields[i].value.Obj?
        && var inner := v.fields[i].value.fields;
          HasValue(inner, "kind", Str("turn")) && HasValue(inner, "purpose", Str("conversation")) && Has(inner, "images")
    else HasValue(v.fields, "kind", Str("turn")) && Has(v.fields, "images")
  }

  predicate HasText(fs: seq<Field>, key: string) {
    exists i :: 0 <= i < |fs| && fs[i].key == key && fs[i].value.Str?
  }

  function Cap(v: Value, incoming: bool, parallel: bool): nat
    requires v.Obj?
  {
    if incoming && Visual(v, parallel) then INPUT_FRAME_BYTES else FRAME_BYTES
  }

  datatype Encoded = Line(bytes: seq<byte>) | TooLarge | Malformed

  function EncodeFrame(v: Value, incoming: bool, parallel: bool): Encoded {
    if !Encodable(v) then Malformed
    else if 1 <= |Text(v)| <= Cap(v, incoming, parallel) then Line(Text(v) + [LF])
    else TooLarge
  }

  /** Decoding with a given JSON parser: the value must re-serialise to the same line. */
  function DecodeWith(parse: string -> Option<Value>, line: seq<byte>, parallel: bool): Option<Value> {
    if !(2 <= |line| <= INPUT_FRAME_BYTES + 1 && line[|line| - 1] == LF) then None
    else match Utf8.Decode(line[..|line| - 1])
      case None => None
      case Some(text) =>
        match parse(text)
        case None => None
        case Some(v) => if EncodeFrame(v, true, parallel) == Line(line) then Some(v) else None
  }

  function DecodeFrame(line: seq<byte>, parallel: bool): Option<Value> {
    DecodeWith(Parse, line, parallel)
  }

  lemma {:induction false} CanonSafe(v: Value)
    requires SafeNumbers(v)
    ensures SafeNumbers(Canon(ArrayIndexFirst, v))
  {
    match v
    case Arr(items) => forall i | 0 <= i < |items| { CanonSafe(items[i]); }
    case Obj(fs) =>
      var r := Canon(ArrayIndexFirst, v).fields;
      forall i | 0 <= i < |r| ensures SafeNumbers(r[i].value) {
        var j := ArrangedField(ArrayIndexFirst, fs, i);
        CanonSafe(fs[j].value);
      }
    case _ =>
  }

  /** The canonical form is encodable and has the same text. */
  lemma {:induction false} CanonEncodable(v: Value)
    requires Encodable(v)
    ensures Encodable(Canon(ArrayIndexFirst, v)) && Text(Canon(ArrayIndexFirst, v)) == Text(v)
  {
    CanonSafe(v);
    CanonHeight(ArrayIndexFirst, v);
    CanonIdempotent(ArrayIndexFirst, v);
  }

  lemma {:induction false} ReadBack(v: Value)
    requires Proper(v)
    ensures Utf8.Decode(Text(v)) == Some(Print(Canon(ArrayIndexFirst, v)))
    ensures Parse(Print(Canon(ArrayIndexFirst, v))) == Some(Canon(ArrayIndexFirst, v))
  {
    Utf8.RoundTrip(Print(Canon(ArrayIndexFirst, v)));
    CanonProper(ArrayIndexFirst, v);
    ParsePrint(Canon(ArrayIndexFirst, v));
  }

  /** A frame this side emits is read back by a peer as the same dictionary, with its keys
      in JavaScript order at every depth. */
  lemma {:induction false} DecodeEncode(v: Value, parallel: bool, peerParallel: bool)
    requires Proper(v) && EncodeFrame(v, false, parallel).Line?
    ensures DecodeFrame(EncodeFrame(v, false, parallel).bytes, peerParallel) == Some(Canon(ArrayIndexFirst, v))
    ensures Same(v, Canon(ArrayIndexFirst, v))
  {
    var c := Canon(ArrayIndexFirst, v);
    var line := Text(v) + [LF];
    assert line[..|line| - 1] == Text(v);
    ReadBack(v);
    CanonEncodable(v);
    assert EncodeFrame(c, true, peerParallel) == Line(line);
    CanonSame(ArrayIndexFirst, v);
  }

  /** A line decodes to a value exactly when it is that value's frame and the value, a dictionary
      without repeated keys, is already in canonical order: each value has one line, each line one value. */
  lemma DecodesExactly(line: seq<byte>, v: Value, parallel: bool)
    ensures DecodeFrame(line, parallel) == Some(v) <==>
            Proper(v) && Canon(ArrayIndexFirst, v) == v && EncodeFrame(v, true, parallel) == Line(line)
  {
    hide Canon, Proper, Parse, Print, Utf8.Decode, Encodable;
    if EncodeFrame(v, true, parallel) == Line(line) {
      assert line[..|line| - 1] == Text(v);
      if DecodeFrame(line, parallel) == Some(v) {
        ParseProper(Utf8.Decode(line[..|line| - 1]).value);
      }
      if Proper(v) { ReadBack(v); }
    }
  }

  /** A turn that carries images; `v` has each key once. */
  predicate ImageTurn(v: Value) {
    v.Obj? && Field("kind", Str("turn")) in v.fields && exists x: Field :: x in v.fields && x.key == "images"
  }

  /** What a side encodes: a dictionary of safe integers at most 64 deep, whose text is at most 3 MiB, or at most
      12 MiB if it comes from the host and is a turn with images; with parallel sessions such a turn comes wrapped,
      next to the name of its worker, and must be for the conversation. */
  lemma {:induction false} EncodesWhen(v: Value, incoming: bool, parallel: bool)
    ensures !(v.Obj? && SafeNumbers(v) && Height(v) <= 64) <==> EncodeFrame(v, incoming, parallel) == Malformed
    ensures EncodeFrame(v, incoming, parallel).Line? <==> v.Obj? && SafeNumbers(v) && Height(v) <= 64 && |Text(v)| <= LargestText(v, incoming, parallel)
    ensures EncodeFrame(v, incoming, parallel).Line? ==> EncodeFrame(v, incoming, parallel).bytes == Text(v) + [10]
  {
    hide Canon, Proper, SafeNumbers, Print, Utf8.Encode, Height;
    if v.Obj? {
      VisualWhen(v, parallel);
      TextNotEmpty(v);
    }
  }

  ghost function LargestText(v: Value, incoming: bool, parallel: bool): nat
    requires v.Obj?
  {
    if incoming && (if parallel && Wrapped(v) then exists w: Value :: Field("frame", w) in v.fields && ImageTurn(w) && Field("purpose", Str("conversation")) in w.fields
                    else ImageTurn(v))
    then 12582912 else 3145728
  }

  /** A worker's name and a dictionary, and nothing else. */
  ghost predicate Wrapped(v: Value) {
    && v.Obj? && |v.fields| == 2
    && (exists s: string :: Field("workerId", Str(s)) in v.fields)
    && (exists w: Value :: Field("frame", w) in v.fields && w.Obj?)
  }

  lemma InFields(fs: seq<Field>, key: string)
    ensures Has(fs, key) <==> exists x: Field :: x in fs && x.key == key
    ensures forall v :: HasValue(fs, key, v) <==> Field(key, v) in fs
    ensures HasText(fs, key) <==> exists s: string :: Field(key, Str(s)) in fs
    ensures HasObject(fs, key) <==> exists w: Value :: Field(key, w) in fs && w.Obj?
  {
    if Has(fs, key) { var i :| 0 <= i < |fs| && fs[i].key == key; assert fs[i] in fs; }
    if HasText(fs, key) { var i :| 0 <= i < |fs| && fs[i].key == key && fs[i].value.Str?; assert Field(key, Str(fs[i].value.s)) == fs[i]; }
    if HasObject(fs, key) { var i :| 0 <= i < |fs| && fs[i].key == key && fs[i].value.Obj?; assert Field(key, fs[i].value) == fs[i]; }
    forall v ensures HasValue(fs, key, v) <==> Field(key, v) in fs {
      if HasValue(fs, key, v) { var i :| 0 <= i < |fs| && fs[i].key == key && fs[i].value == v; assert Field(key, v) == fs[i]; }
    }
  }

  lemma {:induction false} VisualWhen(v: Value, parallel: bool)
    requires v.Obj?
    ensures Cap(v, true, parallel) == LargestText(v, true, parallel) && Cap(v, false, parallel) == LargestText(v, false, parallel)
  {
    hide Has, HasValue, HasText, HasObject;
    InFields(v.fields, "workerId");
    InFields(v.fields, "frame");
    InFields(v.fields, "kind");
    InFields(v.fields, "images");
    forall w: Value | w.Obj?
      ensures ImageTurn(w) && Field("purpose", Str("conversation")) in w.fields <==>
              HasValue(w.fields, "kind", Str("turn")) && HasValue(w.fields, "purpose", Str("conversation")) && Has(w.fields, "images")
    {
      InFields(w.fields, "kind");
      InFields(w.fields, "purpose");
      InFields(w.fields, "images");
    }
    if parallel && Wrapped(v) {
      if Visual(v, parallel) {
        var i :| 0 <= i < |v.fields| && v.fields[i].key == "frame" && v.fields[i].value.Obj? && (var inner := v.fields[i].value.fields;
          HasValue(inner, "kind", Str("turn")) && HasValue(inner, "purpose", Str("conversation")) && Has(inner, "images"));
        assert Field("frame", v.fields[i].value) == v.fields[i];
      }
    }
  }

  lemma TextNotEmpty(v: Value)
    requires v.Obj?
    ensures |Text(v)| >= 1
  {
    var c := Canon(ArrayIndexFirst, v);
    assert Print(c) != "" by { assert c.Obj?; }
  }

  // ---------- any parser

  /** A parser that reads the canonical text of what can be encoded, and repeats no key. */
  ghost predicate Reader(parse: string -> Option<Value>) {
    && (forall v :: Proper(v) && Encodable(v) ==> parse(Print(v)) == Some(v))
    && (forall s :: parse(s).Some? ==> Proper(parse(s).value))
  }

  /** What one such parser decodes every such parser decodes. */
  lemma {:induction false} DecodedAlike(p: string -> Option<Value>, q: string -> Option<Value>, line: seq<byte>, parallel: bool)
    requires Reader(p) && Reader(q) && DecodeWith(p, line, parallel).Some?
    ensures DecodeWith(q, line, parallel) == DecodeWith(p, line, parallel)
  {
    var v := DecodeWith(p, line, parallel).value;
    var c := Canon(ArrayIndexFirst, v);
    assert Encodable(v) && line[..|line| - 1] == Text(v);
    assert Proper(v);
    hide Canon, Proper, Print, Utf8.Decode, Encodable;
    ReadBack(v);
    CanonProper(ArrayIndexFirst, v);
    CanonEncodable(v);
    assert p(Print(c)) == Some(c) && q(Print(c)) == Some(c);
  }

  lemma ParserReads()
    ensures Reader(Parse)
  {
    forall v | Proper(v) && Encodable(v) ensures Parse(Print(v)) == Some(v) { ParsePrint(v); }
    forall s | Parse(s).Some? ensures Proper(Parse(s).value) { ParseProper(s); }
  }

  /** Which lines decode, and to what, does not depend on what else a JSON library reads. */
  lemma {:induction false} ParserIndependent(parse: string -> Option<Value>, line: seq<byte>, parallel: bool)
    requires Reader(parse)
    ensures DecodeWith(parse, line, parallel) == DecodeFrame(line, parallel)
  {
    ParserReads();
    hide Reader, DecodeWith;
    if DecodeWith(parse, line, parallel).Some? {
      DecodedAlike(parse, Parse, line, parallel);
    } else if DecodeFrame(line, parallel).Some? {
      DecodedAlike(Parse, parse, line, parallel);
    }
  }

  /** The text of a frame holds no line feed, so lines and frames are the same thing. */
  lemma NoLineFeed(v: Value)
    ensures LF !in Text(v)
  {
    PrintClean(Canon(ArrayIndexFirst, v));
    Utf8.NoControlBytes(Print(Canon(ArrayIndexFirst, v)));
  }

  /** Frames with the same text are the same dictionary. */
  lemma TextInjective(v: Value, w: Value)
    requires Proper(v) && Proper(w) && Text(v) == Text(w)
    ensures Canon(ArrayIndexFirst, v) == Canon(ArrayIndexFirst, w)
  {
    ReadBack(v);
    ReadBack(w);
  }
}
