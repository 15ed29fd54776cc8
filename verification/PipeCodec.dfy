/** The length-prefixed canonical codec of the supervisor's private pipes. */
module PipeCodec {
  import opened Wrappers
  import opened Dictionary
  import opened Json
  import opened JsonCost
  import opened JsonOrder
  import opened BigEndian
  import Utf8

  type byte = Utf8.byte

  const MAX_FRAME_BYTES := 3 * 1024 * 1024
  const MAX_PUSH_BYTES := 8 * 1024 * 1024
  const MAX_PUSH_FRAMES := 32
  const MAX_DEPTH := 16
  const MAX_VALUES := 4096
  const MAX_SAFE_INTEGER := 0x1F_FFFF_FFFF_FFFF
  const KINDS := {"start", "ready", "turn", "tool", "tool-result", "answer", "stop", "closed"}
  const FIELDS := {"version", "sessionId", "sequence", "kind", "body"}

  predicate Letter(c: char) {
    'A' <= c <= 'Z' || 'a' <= c <= 'z'
  }

  predicate KeyOk(k: string) {
    && 0 < |k| <= 64
    && Letter(k[0])
    && (forall i :: 0 <= i < |k| ==> Letter(k[i]) || IsDigit(k[i]) || k[i] == '_')
    && k !in {"constructor", "prototype", "__proto__"}
  }

  predicate SessionOk(s: string) {
    |s| == 32 && forall i :: 0 <= i < 32 ==> UnHex(s[i]).Some?
  }

  lemma HexCharacter(c: char)
    ensures c in "0123456789abcdef" <==> UnHex(c).Some?
  {
    var n := c as int;
    if 48 <= n <= 57 { assert "0123456789abcdef"[n - 48] == c; }
    if 97 <= n <= 102 { assert "0123456789abcdef"[n - 87] == c; }
  }

  /** Safe integers and well-formed keys, at every depth. */
  predicate Shape(v: Value)
    decreases v
  {
    match v
    case Num(n) => -MAX_SAFE_INTEGER <= n <= MAX_SAFE_INTEGER
    case Arr(items) => forall i :: 0 <= i < |items| ==> Shape(items[i])
    case Obj(fs) => forall i :: 0 <= i < |fs| ==> KeyOk(fs[i].key) && Shape(fs[i].value)
    case _ => true
  }

  predicate Fits(c: Cost) {
    c.values <= MAX_VALUES && c.bytes <= MAX_FRAME_BYTES
  }

  /** What validation promises of a value met at a depth after others were counted. */
  predicate Admissible(v: Value, depth: nat, before: Cost) {
    Sound(v, depth) && Fits(before.Plus(CostOf(v)))
  }

  predicate Sound(v: Value, depth: nat) {
    Shape(v) && depth + Height(v) <= MAX_DEPTH
  }

  class Counter {
    var values: nat
    var bytes: nat

    constructor ()
      ensures values == bytes == 0
    {
      values, bytes := 0, 0;
    }

    function Spent(): Cost
      reads this
    {
      Cost(values, bytes)
    }

    method Budget(size: nat) returns (ok: bool)
      modifies this
      ensures values == old(values) && bytes == old(bytes) + size
      ensures ok == (bytes <= MAX_FRAME_BYTES)
    {
      bytes := bytes + size;
      ok := bytes <= MAX_FRAME_BYTES;
    }
  }

  /** Every value counts one and takes at least a byte. */
  lemma CostPositive(v: Value)
    ensures CostOf(v).values > 0 && CostOf(v).bytes > 0
  {
    if v.Str? { QuotedLength(v.s); }
  }

  /** The code's incremental walk accepts exactly the admissible values, and what it has
      counted by then is the exact cost of the value. */
  method Validate(v: Value, depth: nat, count: Counter) returns (ok: bool)
    modifies count
    ensures ok <==> Admissible(v, depth, old(count.Spent()))
    ensures ok ==> count.Spent() == old(count.Spent()).Plus(CostOf(v))
    decreases v
  {
    ghost var before := count.Spent();
    CostPositive(v);
    count.values := count.values + 1;
    if depth > MAX_DEPTH || count.values > MAX_VALUES {
      return false;
    }
    match v {
      case Null => ok := count.Budget(4);
      case Bool(b) => ok := count.Budget(if b then 4 else 5);
      case Num(n) =>
        if !(-MAX_SAFE_INTEGER <= n <= MAX_SAFE_INTEGER) { return false; }
        ok := count.Budget(|Decimal(n)|);
      case Str(s) =>
        QuotedLength(s);
        Utf8.EncodeLength(s);
        if |s| > MAX_FRAME_BYTES || |Utf8.Encode(s)| > MAX_FRAME_BYTES { return false; }
        ok := count.Budget(QuotedBytes(s));
      case Arr(items) =>
        ok := count.Budget(Frame(|items|));
        if !ok { return; }
        ok := ValidateItems(items, depth, count);
        ItemsAdmissible(items, depth, before);
      case Obj(fs) =>
        ok := count.Budget(Frame(|fs|));
        if !ok { return; }
        ok := ValidateFields(fs, depth, count);
        FieldsAdmissible(fs, depth, before);
    }
  }

  method ValidateItems(items: seq<Value>, depth: nat, count: Counter) returns (ok: bool)
    requires Fits(count.Spent()) && depth <= MAX_DEPTH
    modifies count
    ensures ok <==> ItemsOk(items, depth, old(count.Spent()))
    ensures ok ==> count.Spent() == old(count.Spent()).Plus(Total(ItemCosts(items)))
    decreases items
  {
    ghost var before := count.Spent();
    ItemsOkStart(items, depth, before);
    for i := 0 to |items|
      invariant ItemsOkTo(items, i, depth, before)
      invariant count.Spent() == SpentOnItems(items, i, before)
    {
      ItemsOkStep(items, i, depth, before);
      ok := Validate(items[i], depth + 1, count);
      if !ok { return; }
    }
    ItemsOkEnd(items, depth, before);
    ok := true;
  }

  method ValidateFields(fs: seq<Field>, depth: nat, count: Counter) returns (ok: bool)
    requires Fits(count.Spent()) && depth <= MAX_DEPTH
    modifies count
    ensures ok <==> FieldsOk(fs, depth, old(count.Spent()))
    ensures ok ==> count.Spent() == old(count.Spent()).Plus(Total(FieldCosts(fs)))
    decreases fs
  {
    ghost var before := count.Spent();
    FieldsOkStart(fs, depth, before);
    for i := 0 to |fs|
      invariant FieldsOkTo(fs, i, depth, before)
      invariant count.Spent() == SpentOnFields(fs, i, before)
    {
      FieldsOkStep(fs, i, depth, before);
      if !KeyOk(fs[i].key) { return false; }
      PlainBytes(fs[i].key);
      ok := count.Budget(|fs[i].key| + 3);
      if !ok { return; }
      ok := Validate(fs[i].value, depth + 1, count);
      if !ok { return; }
    }
    FieldsOkEnd(fs, depth, before);
    ok := true;
  }

  ghost function SpentOnItems(items: seq<Value>, i: nat, before: Cost): Cost
    requires i <= |items|
  {
    before.Plus(Total(ItemCosts(items)[..i]))
  }

  ghost predicate ItemsOkTo(items: seq<Value>, i: nat, depth: nat, before: Cost)
    requires i <= |items|
  {
    (forall k :: 0 <= k < i ==> Sound(items[k], depth + 1)) && Fits(SpentOnItems(items, i, before))
  }

  lemma ItemsOkStart(items: seq<Value>, depth: nat, before: Cost)
    requires Fits(before)
    ensures ItemsOkTo(items, 0, depth, before) && SpentOnItems(items, 0, before) == before
  {
  }

  lemma ItemsOkEnd(items: seq<Value>, depth: nat, before: Cost)
    ensures ItemsOkTo(items, |items|, depth, before) <==> ItemsOk(items, depth, before)
    ensures SpentOnItems(items, |items|, before) == before.Plus(Total(ItemCosts(items)))
  {
    assert ItemCosts(items)[..|items|] == ItemCosts(items);
  }

  lemma ItemsOkStep(items: seq<Value>, i: nat, depth: nat, before: Cost)
    requires i < |items| && ItemsOkTo(items, i, depth, before)
    ensures var ok := Admissible(items[i], depth + 1, SpentOnItems(items, i, before));
      && (ok ==> ItemsOkTo(items, i + 1, depth, before))
      && (ok ==> SpentOnItems(items, i + 1, before) == SpentOnItems(items, i, before).Plus(CostOf(items[i])))
      && (!ok ==> !ItemsOk(items, depth, before))
  {
    var cs := ItemCosts(items);
    assert cs[i] == CostOf(items[i]);
    TotalTo(cs, i);
    if Sound(items[i], depth + 1) && !Fits(SpentOnItems(items, i, before).Plus(cs[i])) {
      OverBudget(cs, i, before);
    }
  }

  ghost function SpentOnFields(fs: seq<Field>, i: nat, before: Cost): Cost
    requires i <= |fs|
  {
    before.Plus(Total(FieldCosts(fs)[..i]))
  }

  ghost predicate FieldsOkTo(fs: seq<Field>, i: nat, depth: nat, before: Cost)
    requires i <= |fs|
  {
    && (forall k :: 0 <= k < i ==> KeyOk(fs[k].key) && Sound(fs[k].value, depth + 1))
    && Fits(SpentOnFields(fs, i, before))
  }

  lemma FieldsOkStart(fs: seq<Field>, depth: nat, before: Cost)
    requires Fits(before)
    ensures FieldsOkTo(fs, 0, depth, before) && SpentOnFields(fs, 0, before) == before
  {
  }

  lemma FieldsOkEnd(fs: seq<Field>, depth: nat, before: Cost)
    ensures FieldsOkTo(fs, |fs|, depth, before) <==> FieldsOk(fs, depth, before)
    ensures SpentOnFields(fs, |fs|, before) == before.Plus(Total(FieldCosts(fs)))
  {
    assert FieldCosts(fs)[..|fs|] == FieldCosts(fs);
  }

  /** A field is charged for its quoted key and colon first, then for its value. */
  lemma FieldsOkStep(fs: seq<Field>, i: nat, depth: nat, before: Cost)
    requires i < |fs| && FieldsOkTo(fs, i, depth, before)
    ensures var key := Cost(0, QuotedBytes(fs[i].key) + 1);
      var ok := KeyOk(fs[i].key) && Admissible(fs[i].value, depth + 1, SpentOnFields(fs, i, before).Plus(key));
      && (ok ==> FieldsOkTo(fs, i + 1, depth, before))
      && (ok ==> SpentOnFields(fs, i + 1, before) == SpentOnFields(fs, i, before).Plus(key).Plus(CostOf(fs[i].value)))
      && (!ok ==> !FieldsOk(fs, depth, before))
  {
    var cs := FieldCosts(fs);
    assert cs[i] == FieldCost(fs[i]);
    TotalTo(cs, i);
    if KeyOk(fs[i].key) && Sound(fs[i].value, depth + 1) && !Fits(SpentOnFields(fs, i, before).Plus(cs[i])) {
      OverBudget(cs, i, before);
    }
  }

  lemma OverBudget(cs: seq<Cost>, i: nat, before: Cost)
    requires i < |cs| && !Fits(before.Plus(Total(cs[..i])).Plus(cs[i]))
    ensures !Fits(before.Plus(Total(cs)))
  {
    TotalReaches(cs, i);
  }

  predicate ItemsOk(items: seq<Value>, depth: nat, before: Cost) {
    && (forall k :: 0 <= k < |items| ==> Sound(items[k], depth + 1))
    && Fits(before.Plus(Total(ItemCosts(items))))
  }

  predicate FieldsOk(fs: seq<Field>, depth: nat, before: Cost) {
    && (forall k :: 0 <= k < |fs| ==> KeyOk(fs[k].key) && Sound(fs[k].value, depth + 1))
    && Fits(before.Plus(Total(FieldCosts(fs))))
  }

  lemma ItemsAdmissible(items: seq<Value>, depth: nat, before: Cost)
    requires depth <= MAX_DEPTH
    ensures Admissible(Arr(items), depth, before) <==> ItemsOk(items, depth, before.Plus(Cost(1, Frame(|items|))))
  {
    ItemsHeight(items, depth);
    assert CostOf(Arr(items)) == Cost(1, Frame(|items|)).Plus(Total(ItemCosts(items)));
    assert Shape(Arr(items)) <==> forall k :: 0 <= k < |items| ==> Shape(items[k]);
    hide Height, Shape, CostOf, Total, ItemCosts;
  }

  lemma {:induction false} ItemsHeight(items: seq<Value>, depth: nat)
    requires depth <= MAX_DEPTH
    ensures depth + Height(Arr(items)) <= MAX_DEPTH <==> forall k :: 0 <= k < |items| ==> depth + 1 + Height(items[k]) <= MAX_DEPTH
  {
    var hs := seq(|items|, i requires 0 <= i < |items| => 1 + Height(items[i]));
    assert Height(Arr(items)) == Highest(hs);
    hide Height, Highest;
    assert forall k :: 0 <= k < |items| ==> hs[k] == 1 + Height(items[k]);
  }

  lemma FieldsAdmissible(fs: seq<Field>, depth: nat, before: Cost)
    requires depth <= MAX_DEPTH
    ensures Admissible(Obj(fs), depth, before) <==> FieldsOk(fs, depth, before.Plus(Cost(1, Frame(|fs|))))
  {
    FieldsHeight(fs, depth);
    assert CostOf(Obj(fs)) == Cost(1, Frame(|fs|)).Plus(Total(FieldCosts(fs)));
    assert Shape(Obj(fs)) <==> forall k :: 0 <= k < |fs| ==> KeyOk(fs[k].key) && Shape(fs[k].value);
    hide Height, Shape, CostOf, Total, FieldCosts, KeyOk;
  }

  lemma {:induction false} FieldsHeight(fs: seq<Field>, depth: nat)
    requires depth <= MAX_DEPTH
    ensures depth + Height(Obj(fs)) <= MAX_DEPTH <==> forall k :: 0 <= k < |fs| ==> depth + 1 + Height(fs[k].value) <= MAX_DEPTH
  {
    var hs := seq(|fs|, i requires 0 <= i < |fs| => 1 + Height(fs[i].value));
    assert Height(Obj(fs)) == Highest(hs);
    hide Height, Highest;
    assert forall k :: 0 <= k < |fs| ==> hs[k] == 1 + Height(fs[k].value);
  }

  // ---------- frames

  /** The envelope around a validated body. */
  predicate Envelope(f: Value) {
    && Admissible(f, 0, Cost(0, 0))
    && f.Obj?
    && (set k | k in Keys(f.fields)) == FIELDS
    && Lookup(f.fields, "version") == Some(Num(1))
    && (match Lookup(f.fields, "sessionId") case Some(Str(s)) => SessionOk(s) case _ => false)
    && (match Lookup(f.fields, "sequence") case Some(Num(n)) => 1 <= n <= MAX_SAFE_INTEGER case _ => false)
    && (match Lookup(f.fields, "kind") case Some(Str(s)) => s in KINDS case _ => false)
    && (match Lookup(f.fields, "body") case Some(Obj(_)) => true case _ => false)
  }

  function Payload(f: Value): seq<byte> {
    Utf8.Encode(Print(Canon(Lexical, f)))
  }

  function Canonical(f: Value): Option<seq<byte>> {
    if Envelope(f) && 0 < |Payload(f)| <= MAX_FRAME_BYTES then Some(Payload(f)) else None
  }

  function EncodeFrame(f: Value): (r: Option<seq<byte>>)
    ensures r.Some? ==> |r.value| <= MAX_FRAME_BYTES + 4
  {
    match Canonical(f)
    case None => None
    case Some(p) => Some(Put32(|p|) + p)
  }

  /** Decoding with a given JSON parser: the value must re-serialise to the same bytes. */
  function DecodeWith(parse: string -> Option<Value>, data: seq<byte>): Option<Value> {
    if !(4 <= |data| <= MAX_FRAME_BYTES + 4) then None
    else
      var size := Get32(data[..4]);
      if !(0 < size <= MAX_FRAME_BYTES && |data| == size + 4) then None
      else match Utf8.Decode(data[4..])
        case None => None
        case Some(text) =>
          match parse(text)
          case None => None
          case Some(v) => if Canonical(v) == Some(data[4..]) then Some(v) else None
  }

  function DecodeFrame(data: seq<byte>): Option<Value> {
    DecodeWith(Parse, data)
  }

  /** A validated frame always fits: the cap on the serialised payload never decides. */
  lemma {:induction false} PayloadCapImplied(f: Value)
    ensures |Payload(f)| == CostOf(f).bytes > 0
    ensures Envelope(f) ==> Canonical(f) == Some(Payload(f))
  {
    PrintedBytes(Canon(Lexical, f));
    CanonCost(Lexical, f);
    CostPositive(f);
  }

  // ---------- the canonical form of a frame is a frame

  lemma {:induction false} CanonShape(v: Value)
    requires Shape(v)
    ensures Shape(Canon(Lexical, v))
  {
    match v
    case Arr(items) => forall i | 0 <= i < |items| { CanonShape(items[i]); }
    case Obj(fs) =>
      var r := Canon(Lexical, v).fields;
      forall i | 0 <= i < |r| ensures KeyOk(r[i].key) && Shape(r[i].value) {
        var j := ArrangedField(Lexical, fs, i);
        CanonShape(fs[j].value);
      }
    case _ =>
  }

  lemma CanonKeys(fs: seq<Field>)
    requires Distinct(Keys(fs))
    ensures Distinct(Keys(Arrange(Lexical, CanonFields(Lexical, fs))))
  {
    var c := CanonFields(Lexical, fs);
    var r := Arrange(Lexical, c);
    ArrangePermutes(Lexical, c);
    MultisetKeys(r, c);
    assert Keys(c) == Keys(fs);
    DistinctPermuted(Keys(c), Keys(r));
  }

  lemma {:induction false} CanonField(fs: seq<Field>, i: nat)
    requires i < |fs| && Distinct(Keys(fs))
    ensures Lookup(Arrange(Lexical, CanonFields(Lexical, fs)), fs[i].key) == Some(Canon(Lexical, fs[i].value))
  {
    var c := CanonFields(Lexical, fs);
    var r := Arrange(Lexical, c);
    var x := Field(fs[i].key, Canon(Lexical, fs[i].value));
    ArrangePermutes(Lexical, c);
    assert c[i] == x && x in multiset(c) && x in multiset(r);
    var j :| 0 <= j < |r| && r[j] == x;
    CanonKeys(fs);
    FieldAt(r, j);
  }

  lemma CanonKeySet(fs: seq<Field>)
    ensures (set k | k in Keys(Arrange(Lexical, CanonFields(Lexical, fs)))) == (set k | k in Keys(fs))
  {
    var c := CanonFields(Lexical, fs);
    var r := Arrange(Lexical, c);
    ArrangePermutes(Lexical, c);
    MultisetKeys(r, c);
    assert Keys(c) == Keys(fs);
    forall k ensures k in Keys(r) <==> k in Keys(fs) {
      assert k in Keys(r) <==> k in multiset(Keys(r));
      assert k in Keys(c) <==> k in multiset(Keys(c));
    }
  }

  lemma CanonLookup(fs: seq<Field>, key: string)
    requires Distinct(Keys(fs)) && Lookup(fs, key).Some?
    ensures Lookup(Arrange(Lexical, CanonFields(Lexical, fs)), key) == Some(Canon(Lexical, Lookup(fs, key).value))
  {
    var i := LookupIndex(fs, key);
    CanonField(fs, i);
    FieldAt(fs, i);
  }

  lemma {:induction false} LookupIndex(fs: seq<Field>, key: string) returns (i: nat)
    requires Lookup(fs, key).Some?
    ensures i < |fs| && fs[i].key == key
  {
    if fs[0].key == key {
      i := 0;
    } else {
      i := LookupIndex(fs[1..], key);
      i := i + 1;
    }
  }

  lemma CanonEnvelope(f: Value)
    requires Proper(f) && Envelope(f)
    ensures Envelope(Canon(Lexical, f))
  {
    CanonShape(f);
    CanonHeight(Lexical, f);
    CanonCost(Lexical, f);
    CanonKeySet(f.fields);
    forall k | k in {"version", "sessionId", "sequence", "kind", "body"}
      ensures Lookup(Canon(Lexical, f).fields, k) == Some(Canon(Lexical, Lookup(f.fields, k).value))
    {
      CanonLookup(f.fields, k);
    }
  }

  // ---------- round trips

  lemma {:induction false} CanonicalAgain(f: Value)
    requires Proper(f) && Envelope(f)
    ensures Canonical(Canon(Lexical, f)) == Some(Payload(f))
  {
    CanonIdempotent(Lexical, f);
    CanonEnvelope(f);
    PayloadCapImplied(f);
  }

  lemma {:induction false} ReadBack(f: Value)
    requires Proper(f)
    ensures Utf8.Decode(Payload(f)) == Some(Print(Canon(Lexical, f)))
    ensures Parse(Print(Canon(Lexical, f))) == Some(Canon(Lexical, f))
  {
    Utf8.RoundTrip(Print(Canon(Lexical, f)));
    CanonProper(Lexical, f);
    ParsePrint(Canon(Lexical, f));
  }

  lemma Unframe(p: seq<byte>)
    requires |p| <= MAX_FRAME_BYTES
    ensures var data := Put32(|p|) + p; data[4..] == p && Get32(data[..4]) == |p|
  {
    GetPut(|p|);
    assert (Put32(|p|) + p)[..4] == Put32(|p|);
  }

  /** Decoding an encoded frame gives the same dictionary, in canonical key order. */
  lemma {:induction false} DecodeEncode(f: Value)
    requires Proper(f) && EncodeFrame(f).Some?
    ensures DecodeFrame(EncodeFrame(f).value) == Some(Canon(Lexical, f))
    ensures Same(f, Canon(Lexical, f))
  {
    hide Payload, Envelope, Same, Canon, Proper, Put32, Get32, Parse, Print, Utf8.Decode;
    Unframe(Payload(f));
    ReadBack(f);
    CanonicalAgain(f);
    CanonSame(Lexical, f);
  }

  /** What decoding accepts is exactly what encoding produces. */
  lemma EncodeDecode(data: seq<byte>)
    requires DecodeFrame(data).Some?
    ensures EncodeFrame(DecodeFrame(data).value) == Some(data)
  {
    PutGet(data[..4]);
    assert data == data[..4] + data[4..];
  }

  /** The prefix of a frame is the length of what follows it, most significant byte first. */
  ghost predicate LengthFirst(data: seq<byte>) {
    |data| > 4 && data[0] as int * 16777216 + data[1] as int * 65536 + data[2] as int * 256 + data[3] as int == |data| - 4 <= 3145728
  }

  /** So it is in everything that is encoded, and in everything that decodes. */
  lemma {:induction false} Prefixed(f: Value, data: seq<byte>)
    ensures EncodeFrame(f).Some? ==> LengthFirst(EncodeFrame(f).value)
    ensures DecodeFrame(data).Some? ==> LengthFirst(data)
  {
    hide Envelope, Payload, Put32;
    if EncodeFrame(f).Some? {
      Unframe(Payload(f));
      assert EncodeFrame(f).value[..4] == Put32(|Payload(f)|);
    }
  }

  // ---------- any parser

  /** A parser that reads the canonical text of any envelope, and repeats no key. */
  ghost predicate Reader(parse: string -> Option<Value>) {
    && (forall v :: Proper(v) && Envelope(v) ==> parse(Print(v)) == Some(v))
    && (forall s :: parse(s).Some? ==> Proper(parse(s).value))
  }

  /** What one such parser decodes every such parser decodes. */
  lemma {:induction false} DecodedAlike(p: string -> Option<Value>, q: string -> Option<Value>, data: seq<byte>)
    requires Reader(p) && Reader(q) && DecodeWith(p, data).Some?
    ensures DecodeWith(q, data) == DecodeWith(p, data)
  {
    var v := DecodeWith(p, data).value;
    var c := Canon(Lexical, v);
    assert Envelope(v) && Payload(v) == data[4..];
    assert Proper(v);
    hide Canon, Proper, Print, Utf8.Decode, Envelope, Payload;
    ReadBack(v);
    CanonProper(Lexical, v);
    CanonEnvelope(v);
    CanonicalAgain(v);
    assert p(Print(c)) == Some(c) && q(Print(c)) == Some(c);
  }

  lemma ParserReads()
    ensures Reader(Parse)
  {
    forall v | Proper(v) && Envelope(v) ensures Parse(Print(v)) == Some(v) { ParsePrint(v); }
    forall s | Parse(s).Some? ensures Proper(Parse(s).value) { ParseProper(s); }
  }

  /** Which frames decode, and to what, does not depend on what else a JSON library reads. */
  lemma {:induction false} ParserIndependent(parse: string -> Option<Value>, data: seq<byte>)
    requires Reader(parse)
    ensures DecodeWith(parse, data) == DecodeFrame(data)
  {
    ParserReads();
    hide Reader, DecodeWith;
    if DecodeWith(parse, data).Some? {
      DecodedAlike(parse, Parse, data);
    } else if DecodeFrame(data).Some? {
      DecodedAlike(Parse, parse, data);
    }
  }

  /** A number the code's integer hook takes: at most 17 characters, and safe. */
  predicate Readable(n: int) {
    |Decimal(n)| <= 17 && -MAX_SAFE_INTEGER <= n <= MAX_SAFE_INTEGER
  }

  predicate AllReadable(v: Value)
    decreases v
  {
    match v
    case Num(n) => Readable(n)
    case Arr(items) => forall i :: 0 <= i < |items| ==> AllReadable(items[i])
    case Obj(fs) => forall i :: 0 <= i < |fs| ==> AllReadable(fs[i].value)
    case _ => true
  }

  /** The parser with the code's integer hook. */
  function HookedParse(text: string): Option<Value> {
    match Parse(text)
    case None => None
    case Some(v) => if AllReadable(v) then Some(v) else None
  }

  lemma SafeIsReadable(n: int)
    requires -MAX_SAFE_INTEGER <= n <= MAX_SAFE_INTEGER
    ensures Readable(n)
  {
    assert Ten(4) == 10000;
    assert Ten(8) == 1_0000_0000;
    assert Ten(12) == 1_0000_0000_0000;
    assert Ten(16) == 1_0000_0000_0000_0000;
    DigitsShort(if n < 0 then -n else n, 16, Ten(16));
  }

  lemma {:induction false} ShapeReadable(v: Value)
    requires Shape(v)
    ensures AllReadable(v)
  {
    match v
    case Num(n) => SafeIsReadable(n);
    case Arr(items) => forall i | 0 <= i < |items| { ShapeReadable(items[i]); }
    case Obj(fs) => forall i | 0 <= i < |fs| { ShapeReadable(fs[i].value); }
    case _ =>
  }

  /** The hook changes nothing: whatever it refuses is no frame anyway. */
  lemma {:induction false} HookChangesNothing(data: seq<byte>)
    ensures DecodeWith(HookedParse, data) == DecodeFrame(data)
  {
    forall v | Proper(v) && Envelope(v) ensures HookedParse(Print(v)) == Some(v) {
      hide Parse, Print, Proper, AllReadable, Shape;
      ParsePrint(v);
      ShapeReadable(v);
    }
    forall s | HookedParse(s).Some? ensures Proper(HookedParse(s).value) { ParseProper(s); }
    ParserIndependent(HookedParse, data);
  }
}
