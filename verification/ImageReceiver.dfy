/** The host's end of an image export: it checks frame after frame and puts the image together. What it
    receives whole is exactly what an exporter sends, as long as both ends agree on what an identifier is. */
module ImageReceiver {
  import opened Wrappers
  import opened Json
  import opened JsonCost
  import opened Dictionary
  import opened ImageExport
  import L = Lines
  import Png
  import JsonText
  import PipeCodec
  import Utf8

  /** Base64, SHA-256 in hexadecimal digits and CRC-32, which both ends compute in the same way. */
  datatype Codec = Codec(base64: Base64, decode: string -> seq<byte>, digest: seq<byte> -> string, crc: Png.Checksum)
  {
    ghost predicate Sound() {
      && base64.Sound() && (forall data :: decode(base64.text(data)) == data) && (forall data :: DigestShape(digest(data)))
    }
  }

  predicate Hexadecimal(s: string) {
    forall i :: 0 <= i < |s| ==> '0' <= s[i] <= '9' || 'a' <= s[i] <= 'f'
  }

  predicate DigestShape(s: string) { |s| == 64 && Hexadecimal(s) }

  predicate RefShape(s: string) { |s| == 52 && s[..4] == "img_" && Hexadecimal(s[4..]) }

  // ---------- identifiers at both ends

  /** The length of a string in JavaScript: a character beyond the first 65536 takes two units. */
  function Units(s: string): nat {
    if s == "" then 0 else (if s[0] as int >= 0x1_0000 then 2 else 1) + Units(s[1..])
  }

  predicate Visible(s: string) {
    forall i :: 0 <= i < |s| ==> s[i] as int > 32 && s[i] as int != 127
  }

  /** What the host takes for an identifier: 256 units at most. */
  predicate HostId(s: string) { 1 <= Units(s) <= 256 && Visible(s) }

  /** What the collector takes for one: 256 characters at most, and a kilobyte. */
  predicate NativeId(s: string) { 1 <= |s| <= 256 && Visible(s) && |Utf8.Encode(s)| <= 1024 }

  datatype Scope = Scope(requestRef: string, threadId: string, turnId: string)

  // ---------- the three kinds of frames, told by their keys

  predicate Text(v: Value, key: string, s: string) { Get(v, key) == Some(Str(s)) }

  predicate Number(v: Value, key: string, n: int) { Get(v, key) == Some(Num(n)) }

  /** What the first frame says of the image to come. */
  datatype Begun = Begun(ref: string, item: string, bytes: int, digest: string, width: int, height: int)

  function Part(v: Value, key: string): Value {
    match Get(v, key) case Some(x) => x case None => Null
  }

  predicate Opens(scope: Scope, v: Value, b: Begun) {
    && KeysAre(v, ["kind", "artifact"]) && Text(v, "kind", "imageBegin")
    && var a := Part(v, "artifact");
    && KeysAre(a, ["schema", "ref", "origin", "mimeType", "byteLength", "sha256", "width", "height"])
    && Text(a, "schema", "neurobro-generated-image-artifact-v1") && Text(a, "ref", b.ref) && Text(a, "mimeType", "image/png")
    && Number(a, "byteLength", b.bytes) && Text(a, "sha256", b.digest) && Number(a, "width", b.width) && Number(a, "height", b.height)
    && var o := Part(a, "origin");
    && KeysAre(o, ["requestRef", "threadId", "turnId", "itemId"])
    && Text(o, "requestRef", scope.requestRef) && Text(o, "threadId", scope.threadId) && Text(o, "turnId", scope.turnId) && Text(o, "itemId", b.item)
  }

  predicate Carries(c: Codec, b: Begun, v: Value, n: nat, data: seq<byte>) {
    && KeysAre(v, ["kind", "artifactRef", "sequence", "dataBase64"]) && Text(v, "kind", "imageChunk")
    && Text(v, "artifactRef", b.ref) && Number(v, "sequence", n) && Text(v, "dataBase64", c.base64.text(data))
  }

  predicate Finishes(b: Begun, v: Value, count: nat) {
    && KeysAre(v, ["kind", "artifactRef", "chunkCount", "byteLength", "sha256"]) && Text(v, "kind", "imageEnd")
    && Text(v, "artifactRef", b.ref) && Number(v, "chunkCount", count) && Number(v, "byteLength", b.bytes) && Text(v, "sha256", b.digest)
  }

  // ---------- the receiver

  /** How far a reception has come; any refusal closes it and forgets what was held. */
  datatype State = Empty | Receiving(begun: Begun, chunks: seq<seq<byte>>) | Received(begun: Begun, image: seq<byte>) | Closed

  function TextAt(v: Value, key: string): string {
    match Get(v, key) case Some(Str(s)) => s case _ => ""
  }

  function NumberAt(v: Value, key: string): int {
    match Get(v, key) case Some(Num(n)) => n case _ => -1
  }

  function Claimed(v: Value): Begun {
    var a := Part(v, "artifact");
    Begun(TextAt(a, "ref"), TextAt(Part(a, "origin"), "itemId"), NumberAt(a, "byteLength"), TextAt(a, "sha256"), NumberAt(a, "width"), NumberAt(a, "height"))
  }

  predicate Plausible(b: Begun) {
    && HostId(b.item) && RefShape(b.ref) && DigestShape(b.digest)
    && 57 <= b.bytes <= 8388608 && 1 <= b.width <= 8192 && 1 <= b.height <= 8192 && b.width * b.height <= 16777216
  }

  predicate Short(v: Value) { CostOf(v).bytes <= 786432 }

  function Smaller(a: int, b: int): int { if a <= b then a else b }

  /** The next chunk of an image of which so many bytes have come. */
  predicate NextChunk(c: Codec, b: Begun, v: Value, n: nat, total: nat) {
    var text := TextAt(v, "dataBase64");
    var data := c.decode(text);
    && Carries(c, b, v, n, data) && 0 < |text| <= 524288 && |text| % 4 == 0 && Short(v)
    && data != [] && |data| == Smaller(393216, b.bytes - total)
  }

  ghost predicate LastFrame(c: Codec, b: Begun, v: Value, n: nat, image: seq<byte>) {
    && Finishes(b, v, n) && n > 0 && |image| == b.bytes && Short(v)
    && c.digest(image) == b.digest && Measures(c, image, b)
  }

  ghost predicate Measures(c: Codec, image: seq<byte>, b: Begun) {
    b.width >= 0 && b.height >= 0 && Png.Reads(c.crc, image, (b.width, b.height))
  }

  ghost function Next(c: Codec, scope: Scope, s: State, v: Value): State {
    match s
    case Empty =>
      var b := Claimed(v);
      if Opens(scope, v, b) && Plausible(b) && Short(v) then Receiving(b, []) else Closed
    case Receiving(b, chunks) =>
      if NextChunk(c, b, v, |chunks|, |L.Joined(chunks)|) then Receiving(b, chunks + [c.decode(TextAt(v, "dataBase64"))])
      else if LastFrame(c, b, v, |chunks|, L.Joined(chunks)) then Received(b, L.Joined(chunks))
      else Closed
    case _ => Closed
  }

  ghost function Run(c: Codec, scope: Scope, vs: seq<Value>): State {
    if vs == [] then Empty else Next(c, scope, Run(c, scope, vs[..|vs| - 1]), vs[|vs| - 1])
  }

  datatype Phase = IsEmpty | IsReceiving | IsComplete | IsClosed

  /** The receiver as the program keeps it. */
  class Receiver {
    const codec: Codec
    const scope: Scope
    var phase: Phase
    var begin: Option<Begun>
    var chunks: seq<seq<byte>>
    var total: nat
    var result: Option<seq<byte>>

    ghost predicate Valid()
      reads this
    {
      && total == |L.Joined(chunks)|
      && (phase == IsReceiving ==> begin.Some?) && (phase == IsComplete ==> begin.Some? && result.Some?)
      && (phase != IsReceiving ==> chunks == []) && (phase != IsComplete ==> result == None)
    }

    ghost function State(): State
      reads this
      requires Valid()
    {
      match phase
      case IsEmpty => Empty
      case IsReceiving => Receiving(begin.value, chunks)
      case IsComplete => Received(begin.value, result.value)
      case IsClosed => Closed
    }

    constructor (codec: Codec, scope: Scope)
      ensures Valid() && State() == Empty && this.codec == codec && this.scope == scope
    {
      this.codec, this.scope := codec, scope;
      phase, begin, chunks, total, result := IsEmpty, None, [], 0, None;
    }

    /** Only a scope of three identifiers can be received for. */
    static method Open(codec: Codec, scope: Scope) returns (r: Receiver?)
      ensures r != null <==> HostId(scope.requestRef) && HostId(scope.threadId) && HostId(scope.turnId)
      ensures r != null ==> fresh(r) && r.Valid() && r.State() == Empty && r.codec == codec && r.scope == scope
    {
      r := null;
      if HostId(scope.requestRef) && HostId(scope.threadId) && HostId(scope.turnId) { r := new Receiver(codec, scope); }
    }

    /** Any refusal closes the receiver. */
    method Close()
      modifies this
      ensures Valid() && State() == Closed
    {
      phase, begin, chunks, total, result := IsClosed, None, [], 0, None;
    }

    /** One frame. */
    method Accept(v: Value) returns (ok: bool)
      requires Valid()
      modifies this
      ensures Valid() && State() == Next(codec, scope, old(State()), v)
      ensures ok <==> !State().Closed?
    {
      hide Opens, Plausible, Short, Carries, Finishes, Png.Reads, L.Joined;
      ok := false;
      if phase == IsEmpty {
        var b := Claimed(v);
        ok := Opens(scope, v, b) && Plausible(b) && Short(v);
        if ok { phase, begin := IsReceiving, Some(b); }
      } else if phase == IsReceiving {
        if NextChunk(codec, begin.value, v, |chunks|, total) {
          L.JoinedMore(chunks, codec.decode(TextAt(v, "dataBase64")));
          chunks, total := chunks + [codec.decode(TextAt(v, "dataBase64"))], total + |codec.decode(TextAt(v, "dataBase64"))|;
          return true;
        }
        ok := Complete(v);
        if ok { return; }
      }
      if !ok { Close(); }
    }

    /** The last frame: the chunks are joined and the image is looked at as a whole. */
    method Complete(v: Value) returns (ok: bool)
      requires Valid() && phase == IsReceiving
      modifies this
      ensures ok <==> LastFrame(codec, old(begin).value, v, |old(chunks)|, L.Joined(old(chunks)))
      ensures ok ==> Valid() && State() == Received(old(begin).value, L.Joined(old(chunks)))
    {
      hide Finishes, Short, Png.Reads;
      var b := begin.value;
      if !Finishes(b, v, |chunks|) || chunks == [] || total != b.bytes || !Short(v) { return false; }
      var image := L.Joined(chunks);
      if codec.digest(image) != b.digest { return false; }
      var size := Png.Dimensions(codec.crc, image);
      ok := size.Some? && size.value.0 == b.width && size.value.1 == b.height;
      assert ok <==> Measures(codec, image, b) by {
        if b.width >= 0 && b.height >= 0 { assert size == Some((b.width, b.height)) <==> Png.Reads(codec.crc, image, (b.width, b.height)); }
      }
      if ok { phase, chunks, total, result := IsComplete, [], 0, Some(image); }
    }
  }

  // ---------- what a complete reception is

  /** The artifact a collector makes of the image. */
  function ArtifactOf(scope: Scope, b: Begun): Artifact
    requires b.bytes >= 0 && b.width >= 0 && b.height >= 0
  {
    Artifact(b.ref, OriginOf(scope, b), b.digest, b.bytes, b.width, b.height)
  }

  function OriginOf(scope: Scope, b: Begun): seq<Field> {
    [Field("requestRef", Str(scope.requestRef)), Field("threadId", Str(scope.threadId)), Field("turnId", Str(scope.turnId)), Field("itemId", Str(b.item))]
  }

  /** One frame of an export as the receiver reads it. */
  predicate Told(c: Codec, scope: Scope, b: Begun, f: Frame, v: Value) {
    && CostOf(v).bytes <= 786432
    && match f
       case Begin(_) => Opens(scope, v, b)
       case Chunk(n, data) => Carries(c, b, v, n, data)
       case Finish(n) => Finishes(b, v, n)
  }

  /** What the first frame says is true of the image. */
  ghost predicate True(c: Codec, b: Begun, image: seq<byte>) {
    && RefShape(b.ref) && b.bytes == |image| <= 8388608 && b.digest == c.digest(image)
    && Measures(c, image, b)
  }

  /** All frames of the image, in order and none twice; the keys of each may come in any order. */
  ghost predicate Exports(c: Codec, scope: Scope, b: Begun, image: seq<byte>, vs: seq<Value>)
    requires True(c, b, image)
  {
    var a := ArtifactOf(scope, b);
    var fs := Frames(a, image);
    |vs| == |fs| && forall i :: 0 <= i < |vs| ==> CostOf(vs[i]).bytes <= 786432 && Same(Wire(c.base64, a, fs[i]), vs[i])
  }

  // ---------- what is read of a frame is the whole frame

  /** The values of these keys are these. */
  predicate Holds(fs: seq<Field>, keys: seq<string>, v: Value)
    requires |fs| == |keys|
  {
    forall i :: 0 <= i < |fs| ==> Get(v, keys[i]) == Some(fs[i].value)
  }

  /** A dictionary of texts and numbers is the same only as one of the same keys and values. */
  lemma LeavesOnly(fs: seq<Field>, keys: seq<string>, v: Value)
    requires Keys(fs) == keys && Distinct(keys) && forall i :: 0 <= i < |fs| ==> fs[i].value.Str? || fs[i].value.Num?
    ensures Same(Obj(fs), v) <==> KeysAre(v, keys) && Holds(fs, keys, v)
  {
    hide Get, Distinct;
    SameRecord(fs, v);
    assert forall i :: 0 <= i < |fs| ==> keys[i] == fs[i].key;
  }

  lemma AllOf(fs: seq<Field>, keys: seq<string>, v: Value)
    requires |fs| == |keys| <= 5
    ensures Holds(fs, keys, v) <==>
            && (|fs| > 0 ==> Get(v, keys[0]) == Some(fs[0].value)) && (|fs| > 1 ==> Get(v, keys[1]) == Some(fs[1].value))
            && (|fs| > 2 ==> Get(v, keys[2]) == Some(fs[2].value)) && (|fs| > 3 ==> Get(v, keys[3]) == Some(fs[3].value))
            && (|fs| > 4 ==> Get(v, keys[4]) == Some(fs[4].value))
  {
    hide Get;
  }

  lemma SameChunk(c: Codec, b: Begun, a: Artifact, v: Value, n: nat, data: seq<byte>)
    requires a.ref == b.ref
    ensures Carries(c, b, v, n, data) <==> Same(Wire(c.base64, a, Chunk(n, data)), v)
  {
    var fs, keys := Wire(c.base64, a, Chunk(n, data)).fields, ["kind", "artifactRef", "sequence", "dataBase64"];
    assert Keys(fs) == keys && Distinct(keys);
    hide Get, Same, KeysAre, Distinct, Holds;
    LeavesOnly(fs, keys, v);
    assert keys[0] == "kind" && keys[1] == "artifactRef" && keys[2] == "sequence" && keys[3] == "dataBase64";
    AllOf(fs, keys, v);
  }

  lemma EndKeys()
    ensures Distinct(["kind", "artifactRef", "chunkCount", "byteLength", "sha256"])
  {
    assert "chunkCount"[0] != "byteLength"[0];
  }

  lemma SameEnd(c: Codec, b: Begun, a: Artifact, v: Value, n: nat)
    requires a.ref == b.ref && a.bytes == b.bytes && a.digest == b.digest
    ensures Finishes(b, v, n) <==> Same(Wire(c.base64, a, Finish(n)), v)
  {
    var fs, keys := Wire(c.base64, a, Finish(n)).fields, ["kind", "artifactRef", "chunkCount", "byteLength", "sha256"];
    EndKeys();
    assert Keys(fs) == keys;
    hide Get, Same, KeysAre, Distinct, Holds;
    LeavesOnly(fs, keys, v);
    assert keys[0] == "kind" && keys[1] == "artifactRef" && keys[2] == "chunkCount" && keys[3] == "byteLength" && keys[4] == "sha256";
    AllOf(fs, keys, v);
  }

  /** The same with one value, at k, that may be a dictionary itself. */
  predicate HoldsBut(fs: seq<Field>, keys: seq<string>, v: Value, k: nat)
    requires |fs| == |keys|
  {
    forall i :: 0 <= i < |fs| && i != k ==> Get(v, keys[i]) == Some(fs[i].value)
  }

  lemma LeavesBut(fs: seq<Field>, keys: seq<string>, v: Value, k: nat)
    requires Keys(fs) == keys && Distinct(keys) && k < |fs|
    requires forall i :: 0 <= i < |fs| && i != k ==> fs[i].value.Str? || fs[i].value.Num?
    ensures Same(Obj(fs), v) <==> KeysAre(v, keys) && HoldsBut(fs, keys, v, k) && Same(fs[k].value, Part(v, keys[k]))
  {
    hide Get, Distinct;
    SameRecord(fs, v);
    assert forall i :: 0 <= i < |fs| ==> keys[i] == fs[i].key;
  }

  lemma SameOrigin(scope: Scope, b: Begun, o: Value)
    ensures Same(Obj(OriginOf(scope, b)), o) <==>
            && KeysAre(o, ["requestRef", "threadId", "turnId", "itemId"])
            && Text(o, "requestRef", scope.requestRef) && Text(o, "threadId", scope.threadId) && Text(o, "turnId", scope.turnId) && Text(o, "itemId", b.item)
  {
    var fs, keys := OriginOf(scope, b), ["requestRef", "threadId", "turnId", "itemId"];
    assert Keys(fs) == keys && Distinct(keys) by { assert "turnId"[0] != "itemId"[0]; }
    hide Get, Same, KeysAre, Distinct, Holds;
    LeavesOnly(fs, keys, o);
    assert keys[0] == "requestRef" && keys[1] == "threadId" && keys[2] == "turnId" && keys[3] == "itemId";
    AllOf(fs, keys, o);
  }

  lemma SameArtifact(a: Artifact, r: Value)
    ensures Same(Record(a), r) <==>
            && KeysAre(r, ["schema", "ref", "origin", "mimeType", "byteLength", "sha256", "width", "height"])
            && Text(r, "schema", "neurobro-generated-image-artifact-v1") && Text(r, "ref", a.ref) && Text(r, "mimeType", "image/png")
            && Number(r, "byteLength", a.bytes) && Text(r, "sha256", a.digest) && Number(r, "width", a.width) && Number(r, "height", a.height)
            && Same(Obj(a.origin), Part(r, "origin"))
  {
    var fs, keys := Record(a).fields, ["schema", "ref", "origin", "mimeType", "byteLength", "sha256", "width", "height"];
    assert Keys(fs) == keys && Distinct(keys) by {
      assert "schema"[1] == 'c' && "origin"[1] == 'r' && "sha256"[1] == 'h' && "height"[1] == 'e';
    }
    hide Get, Same, KeysAre, Distinct, HoldsBut;
    LeavesBut(fs, keys, r, 2);
    assert keys[0] == "schema" && keys[1] == "ref" && keys[2] == "origin" && keys[3] == "mimeType"
        && keys[4] == "byteLength" && keys[5] == "sha256" && keys[6] == "width" && keys[7] == "height";
    AllButOne(fs, keys, r);
  }

  lemma AllButOne(fs: seq<Field>, keys: seq<string>, v: Value)
    requires |fs| == |keys| == 8
    ensures HoldsBut(fs, keys, v, 2) <==>
            && Get(v, keys[0]) == Some(fs[0].value) && Get(v, keys[1]) == Some(fs[1].value) && Get(v, keys[3]) == Some(fs[3].value)
            && Get(v, keys[4]) == Some(fs[4].value) && Get(v, keys[5]) == Some(fs[5].value) && Get(v, keys[6]) == Some(fs[6].value)
            && Get(v, keys[7]) == Some(fs[7].value)
  {
    hide Get;
  }

  lemma SameBegin(c: Codec, scope: Scope, b: Begun, v: Value)
    requires b.bytes >= 0 && b.width >= 0 && b.height >= 0
    ensures Opens(scope, v, b) <==> Same(Wire(c.base64, ArtifactOf(scope, b), Begin(ArtifactOf(scope, b))), v)
  {
    var a := ArtifactOf(scope, b);
    var fs, keys := Wire(c.base64, a, Begin(a)).fields, ["kind", "artifact"];
    assert Keys(fs) == keys && Distinct(keys);
    hide Get, Same, KeysAre, Distinct, Record, HoldsBut;
    LeavesBut(fs, keys, v, 1);
    assert keys[0] == "kind" && keys[1] == "artifact";
    assert HoldsBut(fs, keys, v, 1) <==> Text(v, "kind", "imageBegin") by { OneLeaf(fs, keys, v); }
    SameArtifact(a, Part(v, "artifact"));
    SameOrigin(scope, b, Part(Part(v, "artifact"), "origin"));
  }

  lemma OneLeaf(fs: seq<Field>, keys: seq<string>, v: Value)
    requires |fs| == |keys| == 2
    ensures HoldsBut(fs, keys, v, 1) <==> Get(v, keys[0]) == Some(fs[0].value)
  {
  }

  /** A frame is read as a frame of the export exactly when it is that frame, its keys in any order. */
  lemma ToldIff(c: Codec, scope: Scope, b: Begun, image: seq<byte>, i: nat, v: Value)
    requires True(c, b, image) && i < |Frames(ArtifactOf(scope, b), image)|
    ensures var a := ArtifactOf(scope, b);
            Told(c, scope, b, Frames(a, image)[i], v) <==> CostOf(v).bytes <= 786432 && Same(Wire(c.base64, a, Frames(a, image)[i]), v)
  {
    hide Opens, Carries, Finishes, Same, Wire, CostOf, Png.Reads, RefShape, Chunks;
    var a := ArtifactOf(scope, b);
    match Frames(a, image)[i] {
      case Begin(_) => SameBegin(c, scope, b, v);
      case Chunk(n, data) => SameChunk(c, b, a, v, n, data);
      case Finish(n) => SameEnd(c, b, a, v, n);
    }
  }

  /** Where a chunk ends: it is as large as allowed, unless the image ends first. */
  lemma {:induction false} ChunkFits(image: seq<byte>, from: nat, k: nat)
    requires from <= |image| && k < |Chunks(image, from)|
    ensures from + |L.Joined(Chunks(image, from)[..k])| <= |image|
    ensures 0 < |Chunks(image, from)[k]| == Smaller(393216, |image| - from - |L.Joined(Chunks(image, from)[..k])|)
    decreases k
  {
    var all := Chunks(image, from);
    if k > 0 {
      var to := Least(from + CHUNK_BYTES, |image|);
      ChunkFits(image, to, k - 1);
      assert all[1..] == Chunks(image, to);
      assert all[..k][1..] == all[1..][..k - 1];
    }
  }

  /** Chunks that are as large as allowed are the chunks of what they make together. */
  lemma {:induction false} ChunksAre(chunks: seq<seq<byte>>, image: seq<byte>, k: nat)
    requires k <= |chunks| && image == L.Joined(chunks) && Full(chunks, |image|)
    ensures |L.Joined(chunks[..k])| <= |image|
    ensures Chunks(image, |L.Joined(chunks[..k])|) == chunks[k..]
    decreases |chunks| - k
  {
    JoinedAt(chunks, k);
    var from := |L.Joined(chunks[..k])|;
    if k == |chunks| {
      assert chunks[..k] == chunks;
    } else {
      ChunksAre(chunks, image, k + 1);
      JoinedAt(chunks, k + 1);
      assert chunks[..k + 1] == chunks[..k] + [chunks[k]];
      L.JoinedMore(chunks[..k], chunks[k]);
      assert Least(from + CHUNK_BYTES, |image|) == from + |chunks[k]|;
      assert image[from..] == L.Joined(chunks[k..]) == chunks[k] + L.Joined(chunks[k + 1..]) by { assert chunks[k..][1..] == chunks[k + 1..]; }
      assert ChunkAt(image, from) == image[from..][..|chunks[k]|];
      assert chunks[k..] == [chunks[k]] + chunks[k + 1..];
    }
  }

  lemma {:induction false} JoinedAt(chunks: seq<seq<byte>>, k: nat)
    requires k <= |chunks|
    ensures L.Joined(chunks) == L.Joined(chunks[..k]) + L.Joined(chunks[k..])
  {
    if k == 0 {
      assert chunks[..0] == [] && chunks[0..] == chunks;
    } else {
      JoinedAt(chunks[1..], k - 1);
      assert chunks[1..][..k - 1] == chunks[..k][1..] && chunks[1..][k - 1..] == chunks[k..];
    }
  }

  predicate Full(chunks: seq<seq<byte>>, n: int) {
    forall i :: 0 <= i < |chunks| ==> 0 < |chunks[i]| == Smaller(393216, n - |L.Joined(chunks[..i])|)
  }

  lemma ClaimedIs(scope: Scope, v: Value, b: Begun)
    requires Opens(scope, v, b)
    ensures Claimed(v) == b
  {
    hide KeysAre;
  }

  /** The first frames of an export of these chunks. */
  predicate Coming(c: Codec, scope: Scope, b: Begun, chunks: seq<seq<byte>>, vs: seq<Value>) {
    && |vs| == |chunks| + 1 && Plausible(b) && Opens(scope, vs[0], b) && Full(chunks, b.bytes)
    && (forall i :: 0 <= i < |chunks| ==> Carries(c, b, vs[i + 1], i, chunks[i]))
    && (forall i :: 0 <= i < |vs| ==> Short(vs[i]))
  }

  lemma FullMore(chunks: seq<seq<byte>>, data: seq<byte>, n: int)
    requires Full(chunks, n) && 0 < |data| == Smaller(393216, n - |L.Joined(chunks)|)
    ensures Full(chunks + [data], n)
  {
    hide L.Joined;
    var all := chunks + [data];
    forall i | 0 <= i < |all| ensures 0 < |all[i]| == Smaller(393216, n - |L.Joined(all[..i])|) {
      assert all[..i] == chunks[..i];
      if i == |chunks| { assert chunks[..i] == chunks; }
    }
  }

  lemma ComingMore(c: Codec, scope: Scope, b: Begun, chunks: seq<seq<byte>>, vs: seq<Value>, v: Value)
    requires Coming(c, scope, b, chunks, vs) && NextChunk(c, b, v, |chunks|, |L.Joined(chunks)|)
    ensures Coming(c, scope, b, chunks + [c.decode(TextAt(v, "dataBase64"))], vs + [v])
  {
    hide Opens, Plausible, Carries, Short, Full, L.Joined;
    FullMore(chunks, c.decode(TextAt(v, "dataBase64")), b.bytes);
  }

  /** Where a reception that goes on came from. */
  lemma StepFrom(c: Codec, scope: Scope, s: State, v: Value)
    requires Next(c, scope, s, v).Receiving?
    ensures var t := Next(c, scope, s, v);
            || (s == Empty && t.chunks == [] && Opens(scope, v, t.begun) && Plausible(t.begun) && Short(v))
            || (s.Receiving? && t == Receiving(s.begun, s.chunks + [c.decode(TextAt(v, "dataBase64"))]) && NextChunk(c, s.begun, v, |s.chunks|, |L.Joined(s.chunks)|))
  {
    hide Opens, Plausible, Short, NextChunk, LastFrame, L.Joined;
  }

  /** Exactly which first frames are taken: of a chosen image, its keys in any order, with every number in its bounds. */
  lemma BeginsWhen(c: Codec, scope: Scope, v: Value, b: Begun)
    ensures Next(c, scope, Empty, v) == Receiving(b, []) <==>
            && HostId(b.item) && RefShape(b.ref) && DigestShape(b.digest)
            && 57 <= b.bytes <= 8388608 && 1 <= b.width <= 8192 && 1 <= b.height <= 8192 && b.width * b.height <= 16777216
            && CostOf(v).bytes <= 786432 && Same(Wire(c.base64, ArtifactOf(scope, b), Begin(ArtifactOf(scope, b))), v)
  {
    hide Opens, HostId, RefShape, DigestShape, CostOf, Wire, Same, Claimed;
    if Opens(scope, v, b) { ClaimedIs(scope, v, b); }
    if b.bytes >= 0 && b.width >= 0 && b.height >= 0 { SameBegin(c, scope, b, v); }
  }

  /** Frames that are being received are the first frames of an export. */
  lemma {:induction false} Halfway(c: Codec, scope: Scope, vs: seq<Value>)
    requires Run(c, scope, vs).Receiving?
    ensures Coming(c, scope, Run(c, scope, vs).begun, Run(c, scope, vs).chunks, vs)
    decreases |vs|
  {
    hide Next, NextChunk, Opens, Plausible, Carries, Short, L.Joined;
    var before, v := vs[..|vs| - 1], vs[|vs| - 1];
    var s := Run(c, scope, before);
    StepFrom(c, scope, s, v);
    assert vs == before + [v];
    if s.Receiving? {
      Halfway(c, scope, before);
      ComingMore(c, scope, s.begun, s.chunks, before, v) by { hide *; }
    } else {
      OnlyStart(c, scope, before);
    }
  }

  lemma OnlyStart(c: Codec, scope: Scope, vs: seq<Value>)
    requires Run(c, scope, vs).Empty?
    ensures vs == []
  {
    hide Opens, Plausible, Carries, Short, LastFrame, L.Joined, NextChunk;
  }

  /** A chunk of an export is what the receiver waits for. */
  lemma Expected(c: Codec, b: Begun, v: Value, n: nat, total: nat, data: seq<byte>)
    requires c.Sound() && Carries(c, b, v, n, data) && Short(v) && 0 < |data| == Smaller(393216, b.bytes - total)
    ensures NextChunk(c, b, v, n, total) && c.decode(TextAt(v, "dataBase64")) == data
  {
    hide KeysAre, Short, Plain;
    assert |c.base64.text(data)| == 4 * ((|data| + 2) / 3);
  }

  lemma RunMore(c: Codec, scope: Scope, vs: seq<Value>, k: nat)
    requires k < |vs|
    ensures Run(c, scope, vs[..k + 1]) == Next(c, scope, Run(c, scope, vs[..k]), vs[k])
  {
    hide Next;
    assert vs[..k + 1][..k] == vs[..k];
  }

  lemma NothingRead(c: Codec, scope: Scope)
    ensures Run(c, scope, []) == Empty
  {
  }

  lemma Starts(c: Codec, scope: Scope, b: Begun, v: Value)
    requires Opens(scope, v, b) && Plausible(b) && Short(v)
    ensures Next(c, scope, Empty, v) == Receiving(b, [])
  {
    hide Opens, Plausible, Short;
    ClaimedIs(scope, v, b);
  }

  /** A chunk of an export is taken. */
  lemma Continues(c: Codec, scope: Scope, b: Begun, chunks: seq<seq<byte>>, v: Value, data: seq<byte>)
    requires c.Sound() && Carries(c, b, v, |chunks|, data) && Short(v) && 0 < |data| == Smaller(393216, b.bytes - |L.Joined(chunks)|)
    ensures Next(c, scope, Receiving(b, chunks), v) == Receiving(b, chunks + [data])
  {
    hide Carries, Short, L.Joined, NextChunk;
    Expected(c, b, v, |chunks|, |L.Joined(chunks)|, data);
  }

  lemma ExportLength(c: Codec, scope: Scope, b: Begun, image: seq<byte>, vs: seq<Value>)
    requires True(c, b, image) && Exports(c, scope, b, image, vs)
    ensures |vs| == |Chunks(image, 0)| + 2
  {
    hide Same, CostOf, Chunks, Png.Reads;
  }

  lemma ToldAt(c: Codec, scope: Scope, b: Begun, image: seq<byte>, vs: seq<Value>, k: nat)
    requires True(c, b, image) && Exports(c, scope, b, image, vs) && k < |vs|
    ensures var chunks := Chunks(image, 0);
            && Short(vs[k])
            && |vs| == |chunks| + 2 && (k == 0 ==> Opens(scope, vs[0], b))
            && (0 < k <= |chunks| ==> Carries(c, b, vs[k], k - 1, chunks[k - 1]))
            && (k == |chunks| + 1 ==> Finishes(b, vs[k], |chunks|))
  {
    hide Opens, Carries, Finishes, Png.Reads, Chunks, Same, CostOf, Wire;
    ToldIff(c, scope, b, image, k, vs[k]);
  }

  /** An export under way is being received. */
  lemma {:induction false} Onward(c: Codec, scope: Scope, b: Begun, image: seq<byte>, vs: seq<Value>, k: nat)
    requires c.Sound() && True(c, b, image) && Plausible(b) && Exports(c, scope, b, image, vs) && k <= |Chunks(image, 0)|
    ensures |vs| == |Chunks(image, 0)| + 2 && Run(c, scope, vs[..k + 1]) == Receiving(b, Chunks(image, 0)[..k])
    decreases k
  {
    hide *;
    hide Opens, Plausible, Carries, Exports, True, L.Joined, Next, Chunks;
    var chunks := Chunks(image, 0);
    ExportLength(c, scope, b, image, vs);
    ToldAt(c, scope, b, image, vs, 0);
    ToldAt(c, scope, b, image, vs, k);
    RunMore(c, scope, vs, k);
    if k == 0 {
      assert vs[..0] == [] && chunks[..0] == [];
      NothingRead(c, scope);
      Starts(c, scope, b, vs[0]);
    } else {
      Onward(c, scope, b, image, vs, k - 1);
      ChunkFits(image, 0, k - 1);
      TrueBytes(c, b, image);
      Continues(c, scope, b, chunks[..k - 1], vs[k], chunks[k - 1]);
      assert chunks[..k] == chunks[..k - 1] + [chunks[k - 1]];
    }
  }

  lemma TrueBytes(c: Codec, b: Begun, image: seq<byte>)
    requires True(c, b, image)
    ensures b.bytes == |image| <= 8388608
  {
  }

  /** What is true of an image with an identifier the host takes is plausible. */
  lemma TruthIsPlausible(c: Codec, b: Begun, image: seq<byte>)
    requires c.Sound() && True(c, b, image) && HostId(b.item)
    ensures Plausible(b) && |image| >= 57
  {
    hide Png.Reads, RefShape, HostId;
    Png.Declares(c.crc, image, (b.width, b.height));
    assert DigestShape(c.digest(image));
  }

  /** What is received whole is exactly an export whose first frame told the truth, of an item the host takes. */
  lemma {:induction false} ReceivedIff(c: Codec, scope: Scope, vs: seq<Value>, b: Begun, image: seq<byte>)
    requires c.Sound()
    ensures Run(c, scope, vs) == Received(b, image) <==>
            HostId(b.item) && True(c, b, image) && Exports(c, scope, b, image, vs)
  {
    hide *;
    if HostId(b.item) && True(c, b, image) && Exports(c, scope, b, image, vs) {
      EveryExport(c, scope, b, image, vs);
    }
    if Run(c, scope, vs) == Received(b, image) {
      OnlyExports(c, scope, b, image, vs);
    }
  }

  lemma EveryExport(c: Codec, scope: Scope, b: Begun, image: seq<byte>, vs: seq<Value>)
    requires c.Sound() && HostId(b.item) && True(c, b, image) && Exports(c, scope, b, image, vs)
    ensures Run(c, scope, vs) == Received(b, image)
  {
    hide *;
    var chunks := Chunks(image, 0);
    var n := |chunks|;
    TruthIsPlausible(c, b, image);
    Onward(c, scope, b, image, vs, n);
    ToldAt(c, scope, b, image, vs, n + 1);
    RunMore(c, scope, vs, n + 1);
    ChunksPartition(image, 0);
    assert chunks[..n] == chunks && vs[..n + 2] == vs && image[0..] == image;
    Ends(c, scope, b, chunks, vs[n + 1], image);
  }

  lemma Ends(c: Codec, scope: Scope, b: Begun, chunks: seq<seq<byte>>, v: Value, image: seq<byte>)
    requires Finishes(b, v, |chunks|) && Short(v) && True(c, b, image) && L.Joined(chunks) == image && image != []
    ensures Next(c, scope, Receiving(b, chunks), v) == Received(b, image)
  {
    hide Short, Measures, RefShape, L.Joined;
    KindsApart();
    NoChunks();
  }

  lemma NoChunks()
    ensures L.Joined([]) == []
  {
  }

  lemma KindsApart()
    ensures "imageEnd" != "imageChunk" && "imageBegin" != "imageChunk"
  {
    assert "imageBegin"[5] != "imageChunk"[5];
  }

  lemma OnlyExports(c: Codec, scope: Scope, b: Begun, image: seq<byte>, vs: seq<Value>)
    requires c.Sound() && Run(c, scope, vs) == Received(b, image)
    ensures HostId(b.item) && True(c, b, image) && Exports(c, scope, b, image, vs)
  {
    hide *;
    var n := |vs| - 1;
    var chunks := ReceivedFrom(c, scope, vs, b, image);
    Halfway(c, scope, vs[..n]);
    ComingTells(c, scope, b, chunks, vs, n);
    LastTells(c, b, vs[n], chunks, image);
    ChunksAre(chunks, image, 0);
    NoChunks();
    assert chunks[..0] == [] && chunks[0..] == chunks;
    AllTold(c, scope, b, image, vs, chunks);
  }

  lemma ComingTells(c: Codec, scope: Scope, b: Begun, chunks: seq<seq<byte>>, vs: seq<Value>, n: nat)
    requires n < |vs| && Coming(c, scope, b, chunks, vs[..n])
    ensures n == |chunks| + 1 && Plausible(b) && Opens(scope, vs[0], b) && Full(chunks, b.bytes)
    ensures forall i :: 0 <= i < |chunks| ==> Carries(c, b, vs[i + 1], i, chunks[i])
    ensures forall i :: 0 <= i < n ==> Short(vs[i])
  {
    hide Opens, Plausible, Carries, Short, Full;
    assert forall i :: 0 <= i < n ==> vs[..n][i] == vs[i];
  }

  lemma ReceivedFrom(c: Codec, scope: Scope, vs: seq<Value>, b: Begun, image: seq<byte>) returns (chunks: seq<seq<byte>>)
    requires Run(c, scope, vs) == Received(b, image)
    ensures vs != [] && Run(c, scope, vs[..|vs| - 1]) == Receiving(b, chunks)
    ensures LastFrame(c, b, vs[|vs| - 1], |chunks|, L.Joined(chunks)) && image == L.Joined(chunks)
  {
    hide Opens, Plausible, NextChunk, Short, LastFrame, L.Joined;
    chunks := Run(c, scope, vs[..|vs| - 1]).chunks;
  }

  lemma LastTells(c: Codec, b: Begun, v: Value, chunks: seq<seq<byte>>, image: seq<byte>)
    requires LastFrame(c, b, v, |chunks|, image) && Plausible(b)
    ensures HostId(b.item) && True(c, b, image) && Finishes(b, v, |chunks|) && Short(v) && b.bytes == |image|
  {
    hide Measures, Finishes, Short, HostId, RefShape, DigestShape;
  }

  lemma AllTold(c: Codec, scope: Scope, b: Begun, image: seq<byte>, vs: seq<Value>, chunks: seq<seq<byte>>)
    requires True(c, b, image) && Chunks(image, 0) == chunks && |vs| == |chunks| + 2
    requires Opens(scope, vs[0], b) && Finishes(b, vs[|chunks| + 1], |chunks|)
    requires forall i :: 0 <= i < |chunks| ==> Carries(c, b, vs[i + 1], i, chunks[i])
    requires forall i :: 0 <= i < |vs| ==> Short(vs[i])
    ensures Exports(c, scope, b, image, vs)
  {
    hide Opens, Carries, Finishes, Png.Reads, RefShape, Chunks, Same, CostOf, Wire;
    var a := ArtifactOf(scope, b);
    var fs := Frames(a, image);
    forall i | 0 <= i < |vs| ensures CostOf(vs[i]).bytes <= 786432 && Same(Wire(c.base64, a, fs[i]), vs[i]) {
      assert Short(vs[i]);
      if 0 < i <= |chunks| { assert Carries(c, b, vs[i - 1 + 1], i - 1, chunks[i - 1]); }
      ToldIff(c, scope, b, image, i, vs[i]);
    }
  }

  // ---------- what an exporter sends

  /** The frames as they are serialised. */
  function Sent(c: Codec, a: Artifact, image: seq<byte>): (vs: seq<Value>)
    ensures |vs| == |Frames(a, image)|
  {
    var fs := Frames(a, image);
    seq(|fs|, i requires 0 <= i < |fs| => Wire(c.base64, a, fs[i]))
  }

  /** A chunk frame as it is printed. */
  lemma ChunkWords(b: Base64, a: Artifact, n: nat, data: seq<byte>)
    ensures Print(Wire(b, a, Chunk(n, data))) ==
            ['{'] + ((Quote("kind") + [':'] + Quote("imageChunk")) + [','] + (Quote("artifactRef") + [':'] + Quote(a.ref)) + [',']
            + (Quote("sequence") + [':'] + Decimal(n)) + [','] + (Quote("dataBase64") + [':'] + Quote(b.text(data)))) + ['}']
  {
    hide Print, Quote, Decimal;
    LeafWords("imageChunk", n); LeafWords(a.ref, 0); LeafWords(b.text(data), 0);
    JsonText.FourFieldsText(Field("kind", Str("imageChunk")), Field("artifactRef", Str(a.ref)), Field("sequence", Num(n)), Field("dataBase64", Str(b.text(data))));
  }

  /** The last frame as it is printed. */
  lemma EndWords(b: Base64, a: Artifact, count: nat)
    ensures Print(Wire(b, a, Finish(count))) ==
            ['{'] + ((Quote("kind") + [':'] + Quote("imageEnd")) + [','] + ((Quote("artifactRef") + [':'] + Quote(a.ref)) + [',']
            + (Quote("chunkCount") + [':'] + Decimal(count)) + [','] + (Quote("byteLength") + [':'] + Decimal(a.bytes)) + [',']
            + (Quote("sha256") + [':'] + Quote(a.digest)))) + ['}']
  {
    hide Print, Quote, Decimal;
    LeafWords("imageEnd", count); LeafWords(a.ref, a.bytes); LeafWords(a.digest, 0);
    JsonText.FiveFieldsText(Field("kind", Str("imageEnd")), Field("artifactRef", Str(a.ref)), Field("chunkCount", Num(count)), Field("byteLength", Num(a.bytes)), Field("sha256", Str(a.digest)));
  }

  lemma LeafWords(s: string, n: nat)
    ensures Print(Str(s)) == Quote(s) && Print(Num(n)) == Decimal(n)
  {
  }

  /** What a collector holds: the scope and the item are identifiers as it takes them, and the rest is true of the image. */
  ghost predicate Collected(c: Codec, scope: Scope, b: Begun, image: seq<byte>) {
    && NativeId(scope.requestRef) && NativeId(scope.threadId) && NativeId(scope.turnId) && NativeId(b.item)
    && True(c, b, image)
  }

  /** What is sent of a true image is an export, each frame under its cap. */
  lemma SentExports(c: Codec, scope: Scope, b: Begun, image: seq<byte>)
    requires c.Sound() && Collected(c, scope, b, image)
    ensures Exports(c, scope, b, image, Sent(c, ArtifactOf(scope, b), image))
  {
    hide Wire, Made, CostOf, Same, Png.Reads, RefShape, DigestShape, NativeId, Chunks;
    var a := ArtifactOf(scope, b);
    var fs, vs := Frames(a, image), Sent(c, a, image);
    CollectedIsMade(c, scope, b, image);
    ExportFits(c.base64, a, image);
    forall i | 0 <= i < |vs| ensures CostOf(vs[i]).bytes <= 786432 && Same(Wire(c.base64, a, fs[i]), vs[i]) {
      assert CostOf(Wire(c.base64, a, fs[i])).bytes <= 786432;
      SameItself(vs[i]);
    }
  }

  lemma CollectedIsMade(c: Codec, scope: Scope, b: Begun, image: seq<byte>)
    requires c.Sound() && Collected(c, scope, b, image)
    ensures Made(ArtifactOf(scope, b), image)
  {
    hide Png.Reads, Utf8.Encode;
    var a := ArtifactOf(scope, b);
    Png.Declares(c.crc, image, (b.width, b.height));
    HexPlain(c.digest(image));
    HexPlain(b.ref[4..]);
    assert b.ref == b.ref[..4] + b.ref[4..];
    forall i | 0 <= i < 4 ensures Plain(a.origin[i].key) && |a.origin[i].key| <= 10 && a.origin[i].value.Str? && Identifier(a.origin[i].value.s) {
    }
  }

  lemma HexPlain(s: string)
    requires Hexadecimal(s)
    ensures Plain(s)
  {
  }

  /** Every image a collector holds reaches the host whole, unless its item's name is longer than 256 units in
      JavaScript; then nothing of it does. */
  lemma ExportReceived(c: Codec, scope: Scope, b: Begun, image: seq<byte>)
    requires c.Sound() && Collected(c, scope, b, image)
    ensures Run(c, scope, Sent(c, ArtifactOf(scope, b), image)) == if Units(b.item) <= 256 then Received(b, image) else Closed
  {
    hide *;
    CollectedItem(c, scope, b, image);
    var vs := Sent(c, ArtifactOf(scope, b), image);
    SentExports(c, scope, b, image);
    HostTakes(b.item);
    if Units(b.item) <= 256 {
      ReceivedIff(c, scope, vs, b, image);
    } else {
      ToldAt(c, scope, b, image, vs, 0);
      RunMore(c, scope, vs, 0);
      assert vs[..0] == [] && vs[..1] == vs[..0 + 1];
      NothingRead(c, scope);
      Refused(c, scope, b, vs[0]);
      StaysClosed(c, scope, vs, 1);
      assert vs[..|vs|] == vs;
    }
  }

  lemma CollectedItem(c: Codec, scope: Scope, b: Begun, image: seq<byte>)
    requires Collected(c, scope, b, image)
    ensures NativeId(b.item) && True(c, b, image) && b.bytes >= 0 && b.width >= 0 && b.height >= 0
  {
  }

  /** The two ends disagree on nothing but how they measure length, and what the host takes the collector takes too. */
  lemma {:induction false} HostTakes(s: string)
    ensures HostId(s) <==> NativeId(s) && Units(s) <= 256
  {
    hide Utf8.Encode;
    AtLeastOneUnit(s);
    AtMostFourBytes(s);
  }

  lemma {:induction false} AtLeastOneUnit(s: string)
    ensures |s| <= Units(s)
  {
    if s != "" { AtLeastOneUnit(s[1..]); }
  }

  lemma {:induction false} AtMostFourBytes(s: string)
    ensures |Utf8.Encode(s)| <= 4 * |s|
  {
    if s != "" { AtMostFourBytes(s[1..]); }
  }

  /** What the collector takes, outright: 256 characters, the kilobyte never decides. */
  lemma NativeIdWhen(s: string)
    ensures NativeId(s) <==> s != "" && |s| <= 256 && forall c :: c in s ==> 33 <= c as int && c as int != 127
  {
    hide Utf8.Encode;
    AtMostFourBytes(s);
    assert forall i :: 0 <= i < |s| ==> s[i] in s;
  }

  /** One more character is one more unit, or two beyond the first 65536. */
  lemma {:induction false} UnitsMore(s: string, c: char)
    ensures Units("") == 0
    ensures Units(s + [c]) == Units(s) + if c as int <= 65535 then 1 else 2
  {
    if s == "" {
      assert [c][1..] == "";
      assert s + [c] == [c];
    } else {
      assert (s + [c])[1..] == s[1..] + [c];
      UnitsMore(s[1..], c);
    }
  }

  lemma HexadecimalWhen(s: string)
    ensures Hexadecimal(s) <==> forall c :: c in s ==> c in "0123456789abcdef"
  {
    forall i | 0 <= i < |s| ensures s[i] in s && (s[i] in "0123456789abcdef" <==> '0' <= s[i] <= '9' || 'a' <= s[i] <= 'f') {
      PipeCodec.HexCharacter(s[i]);
    }
  }

  lemma Refused(c: Codec, scope: Scope, b: Begun, v: Value)
    requires Opens(scope, v, b) && !HostId(b.item)
    ensures Next(c, scope, Empty, v) == Closed
  {
    hide Opens, HostId, Short;
    ClaimedIs(scope, v, b);
  }

  lemma {:induction false} StaysClosed(c: Codec, scope: Scope, vs: seq<Value>, k: nat)
    requires k <= |vs| && Run(c, scope, vs[..k]) == Closed
    ensures Run(c, scope, vs) == Closed
    decreases |vs| - k
  {
    if k == |vs| {
      assert vs[..k] == vs;
    } else {
      RunMore(c, scope, vs, k);
      StaysClosed(c, scope, vs, k + 1);
    }
  }

  lemma {:induction false} WideUnits(n: nat)
    ensures Units(Wide(n)) == 2 * n && |Utf8.Encode(Wide(n))| == 4 * n
  {
    if n > 0 {
      WideUnits(n - 1);
      assert Wide(n)[1..] == Wide(n - 1);
    }
  }

  /** A name of framed pictures, each a character beyond the first 65536. */
  function Wide(n: nat): string {
    seq(n, _ => 0x1_F5BC as char)
  }

  /** Such a name: 129 characters, which the collector takes and the host does not. */
  lemma TooWide()
    ensures NativeId(Wide(129)) && !HostId(Wide(129))
  {
    WideUnits(129);
  }
}
