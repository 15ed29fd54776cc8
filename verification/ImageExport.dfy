/** Exporting a generated image as frames, and the lease that ties an export to one turn. */
module ImageExport {
  import opened Vocabulary
  import opened Wrappers
  import opened Json
  import opened JsonCost
  import L = Lines
  import Utf8

  type byte = Utf8.byte

  const CHUNK_BYTES := 384 * 1024

  /** Base64: four plain characters for every three bytes begun. */
  datatype Base64 = Base64(text: seq<byte> -> string)
  {
    ghost predicate Sound() {
      forall data: seq<byte> :: |text(data)| == 4 * ((|data| + 2) / 3) && Plain(text(data))
    }
  }

  // ---------- the chunks

  function Least(a: nat, b: nat): nat { if a <= b then a else b }

  /** The chunk that starts at an offset. */
  function ChunkAt(data: seq<byte>, offset: nat): seq<byte>
    requires offset <= |data|
  {
    data[offset..Least(offset + CHUNK_BYTES, |data|)]
  }

  function ChunkCount(n: nat): nat { (n + CHUNK_BYTES - 1) / CHUNK_BYTES }

  function Chunks(data: seq<byte>, from: nat): (r: seq<seq<byte>>)
    requires from <= |data|
    decreases |data| - from
  {
    if from == |data| then [] else [ChunkAt(data, from)] + Chunks(data, Least(from + CHUNK_BYTES, |data|))
  }

  /** The chunks are the image, in order, each full but perhaps the last. */
  lemma {:induction false} ChunksPartition(data: seq<byte>, from: nat)
    requires from <= |data|
    ensures L.Joined(Chunks(data, from)) == data[from..]
    ensures |Chunks(data, from)| == ChunkCount(|data| - from)
    ensures forall i :: 0 <= i < |Chunks(data, from)| ==> 0 < |Chunks(data, from)[i]| <= CHUNK_BYTES
    ensures forall i :: 0 <= i < |Chunks(data, from)| - 1 ==> |Chunks(data, from)[i]| == CHUNK_BYTES
    decreases |data| - from
  {
    if from < |data| {
      var to := Least(from + CHUNK_BYTES, |data|);
      ChunksPartition(data, to);
      assert data[from..] == ChunkAt(data, from) + data[to..];
      var all := Chunks(data, from);
      assert all[1..] == Chunks(data, to);
    }
  }

  // ---------- the frames

  datatype Artifact = Artifact(ref: string, origin: seq<Field>, digest: string, bytes: nat, width: nat, height: nat)

  datatype Frame = Begin(artifact: Artifact) | Chunk(sequence: nat, data: seq<byte>) | Finish(count: nat)

  /** The frames of one image, in the order they are yielded. */
  function Frames(a: Artifact, data: seq<byte>): (r: seq<Frame>)
    ensures |r| == |Chunks(data, 0)| + 2
    ensures r[0] == Begin(a) && r[|r| - 1] == Finish(|Chunks(data, 0)|)
    ensures forall i :: 0 <= i < |Chunks(data, 0)| ==> r[i + 1] == Chunk(i, Chunks(data, 0)[i])
  {
    var chunks := Chunks(data, 0);
    [Begin(a)] + seq(|chunks|, i requires 0 <= i < |chunks| => Chunk(i, chunks[i])) + [Finish(|chunks|)]
  }

  /** A frame as it is serialised. */
  function Wire(b: Base64, a: Artifact, f: Frame): Value {
    match f
    case Begin(art) => Obj([Field("kind", Str("imageBegin")), Field("artifact", Record(art))])
    case Chunk(n, data) => Obj([Field("kind", Str("imageChunk")), Field("artifactRef", Str(a.ref)), Field("sequence", Num(n)), Field("dataBase64", Str(b.text(data)))])
    case Finish(n) => Obj([Field("kind", Str("imageEnd")), Field("artifactRef", Str(a.ref)), Field("chunkCount", Num(n)), Field("byteLength", Num(a.bytes)), Field("sha256", Str(a.digest))])
  }

  function Record(a: Artifact): Value {
    Obj([Field("schema", Str("neurobro-generated-image-artifact-v1")), Field("ref", Str(a.ref)), Field("origin", Obj(a.origin)),
         Field("mimeType", Str("image/png")), Field("byteLength", Num(a.bytes)), Field("sha256", Str(a.digest)), Field("width", Num(a.width)), Field("height", Num(a.height))])
  }

  /** An artifact as the collector makes one. */
  predicate Made(a: Artifact, data: seq<byte>) {
    && |a.ref| == 52 && Plain(a.ref) && |a.digest| == 64 && Plain(a.digest)
    && a.bytes == |data| <= 8388608 && a.width <= 8192 && a.height <= 8192
    && |a.origin| == 4 && (forall i :: 0 <= i < 4 ==> Plain(a.origin[i].key) && |a.origin[i].key| <= 10 && a.origin[i].value.Str? && Identifier(a.origin[i].value.s))
  }

  /** At most a kilobyte of text without controls. */
  predicate Identifier(s: string) {
    |Utf8.Encode(s)| <= 1024 && Tame(s)
  }

  lemma IdentifierBytes(s: string)
    requires Identifier(s)
    ensures QuotedBytes(s) <= 2050
  {
    QuotedLength(s);
    EscapeAtMostDoubles(s);
  }

  lemma ShortNumber(n: nat)
    requires n < 10000000
    ensures CostOf(Num(n)).bytes <= 7
  {
    assert Ten(7) == 10000000 by { assert Ten(2) == 100; assert Ten(4) == 10000; }
    DigitsShort(n, 7, 10000000);
  }

  /** An object's length: its brackets and separators, and each field. */
  lemma {:induction false} FieldsBytes(fs: seq<Field>, caps: seq<nat>)
    requires |fs| == |caps| && forall i :: 0 <= i < |fs| ==> QuotedBytes(fs[i].key) + 1 + CostOf(fs[i].value).bytes <= caps[i]
    ensures Total(FieldCosts(fs)).bytes <= Sum(caps)
  {
    if fs != [] {
      FieldsBytes(fs[1..], caps[1..]);
      assert FieldCosts(fs)[1..] == FieldCosts(fs[1..]);
    }
  }

  function Sum(caps: seq<nat>): nat { if caps == [] then 0 else caps[0] + Sum(caps[1..]) }

  lemma ObjectAtMost(fs: seq<Field>, caps: seq<nat>)
    requires |fs| == |caps| && forall i :: 0 <= i < |fs| ==> QuotedBytes(fs[i].key) + 1 + CostOf(fs[i].value).bytes <= caps[i]
    ensures CostOf(Obj(fs)).bytes <= JsonCost.Frame(|fs|) + Sum(caps)
  {
    FieldsBytes(fs, caps);
  }

  lemma ChunkWire(b: Base64, a: Artifact, image: seq<byte>, n: nat, data: seq<byte>)
    requires b.Sound() && Made(a, image) && n < 10000000 && |data| <= CHUNK_BYTES
    ensures CostOf(Wire(b, a, Chunk(n, data))).bytes <= 524288 + 125 < 786432
  {
    hide CostOf, QuotedBytes;
    var text := b.text(data);
    PlainBytes(a.ref); PlainBytes(text);
    PlainBytes("kind"); PlainBytes("imageChunk"); PlainBytes("artifactRef"); PlainBytes("sequence"); PlainBytes("dataBase64");
    LeafBytes(true, "imageChunk"); LeafBytes(true, a.ref); LeafBytes(true, text);
    ShortNumber(n);
    ObjectAtMost(Wire(b, a, Chunk(n, data)).fields, [19, 68, 18, 15 + |text|]);
    assert Sum([19, 68, 18, 15 + |text|]) == 120 + |text| by { SumOfFour(19, 68, 18, 15 + |text|); }
  }

  lemma SumOfFour(a: nat, b: nat, c: nat, d: nat)
    ensures Sum([a, b, c, d]) == a + b + c + d
  {
    var all := [a, b, c, d];
    assert all[1..] == [b, c, d] && all[2..] == [c, d] && all[3..] == [d];
    assert Sum([d]) == d && Sum([c, d]) == c + Sum([c, d][1..]) && [c, d][1..] == [d];
    assert Sum([b, c, d]) == b + Sum([b, c, d][1..]) && [b, c, d][1..] == [c, d];
  }

  lemma SumOfFive(a: nat, b: nat, c: nat, d: nat, e: nat)
    ensures Sum([a, b, c, d, e]) == a + b + c + d + e
  {
    assert [a, b, c, d, e][1..] == [b, c, d, e];
    SumOfFour(b, c, d, e);
  }

  lemma FinishWire(b: Base64, a: Artifact, image: seq<byte>, n: nat)
    requires Made(a, image) && n < 10000000
    ensures CostOf(Wire(b, a, Finish(n))).bytes <= 206
  {
    hide CostOf, QuotedBytes;
    PlainBytes(a.ref); PlainBytes(a.digest);
    PlainBytes("kind"); PlainBytes("imageEnd"); PlainBytes("artifactRef"); PlainBytes("chunkCount"); PlainBytes("byteLength"); PlainBytes("sha256");
    LeafBytes(true, "imageEnd"); LeafBytes(true, a.ref); LeafBytes(true, a.digest);
    ShortNumber(n); ShortNumber(a.bytes);
    ObjectAtMost(Wire(b, a, Finish(n)).fields, [17, 68, 20, 20, 75]);
    SumOfFive(17, 68, 20, 20, 75);
  }

  lemma OriginWire(a: Artifact, image: seq<byte>)
    requires Made(a, image)
    ensures CostOf(Obj(a.origin)).bytes <= 8257
  {
    hide CostOf, QuotedBytes;
    forall i | 0 <= i < 4 ensures QuotedBytes(a.origin[i].key) + 1 + CostOf(a.origin[i].value).bytes <= 2063 {
      PlainBytes(a.origin[i].key);
      IdentifierBytes(a.origin[i].value.s);
      LeafBytes(true, a.origin[i].value.s);
    }
    ObjectAtMost(a.origin, [2063, 2063, 2063, 2063]);
    SumOfFour(2063, 2063, 2063, 2063);
  }

  lemma RecordWire(a: Artifact, image: seq<byte>)
    requires Made(a, image)
    ensures CostOf(Record(a)).bytes <= 8540
  {
    hide CostOf, QuotedBytes, Made;
    RecordFields(a, image);
    var caps := [47, 60, 8266, 24, 20, 75, 15, 16];
    ObjectAtMost(Record(a).fields, caps);
    assert caps[1..] == [60, 8266, 24, 20, 75, 15, 16] && caps[1..][1..] == [8266, 24, 20, 75, 15, 16] && caps[1..][1..][1..] == [24, 20, 75, 15, 16];
    SumOfFive(24, 20, 75, 15, 16);
    assert Sum(caps) == 47 + (60 + (8266 + 150));
  }

  lemma {:induction false} RecordFields(a: Artifact, image: seq<byte>)
    requires Made(a, image)
    ensures var fs, caps := Record(a).fields, [47, 60, 8266, 24, 20, 75, 15, 16];
            forall i :: 0 <= i < 8 ==> QuotedBytes(fs[i].key) + 1 + CostOf(fs[i].value).bytes <= caps[i]
  {
    hide CostOf, QuotedBytes;
    OriginWire(a, image);
    PlainBytes(a.ref); PlainBytes(a.digest);
    ShortNumber(a.bytes); ShortNumber(a.width); ShortNumber(a.height);
    PlainBytes("schema"); PlainBytes("neurobro-generated-image-artifact-v1"); PlainBytes("ref"); PlainBytes("origin");
    PlainBytes("mimeType"); PlainBytes("image/png"); PlainBytes("byteLength"); PlainBytes("sha256"); PlainBytes("width"); PlainBytes("height");
    LeafBytes(true, "neurobro-generated-image-artifact-v1"); LeafBytes(true, a.ref); LeafBytes(true, "image/png"); LeafBytes(true, a.digest);
  }

  lemma BeginWire(b: Base64, a: Artifact, image: seq<byte>)
    requires Made(a, image)
    ensures CostOf(Wire(b, a, Begin(a))).bytes <= 8573
  {
    hide CostOf, QuotedBytes;
    RecordWire(a, image);
    PlainBytes("kind"); PlainBytes("imageBegin"); PlainBytes("artifact");
    LeafBytes(true, "imageBegin");
    TwoFields("kind", Str("imageBegin"), "artifact", Record(a));
  }

  /** What a session counts for an export: each frame and its line feed. */
  function ExportBytes(b: Base64, a: Artifact, fs: seq<Frame>): nat {
    if fs == [] then 0 else ExportBytes(b, a, fs[..|fs| - 1]) + CostOf(Wire(b, a, fs[|fs| - 1])).bytes + 1
  }

  /** The lines of an export, each its text and a line feed, take just that. */
  lemma {:induction false} ExportLines(b: Base64, a: Artifact, fs: seq<Frame>, lines: seq<seq<byte>>)
    requires |lines| == |fs| && forall i :: 0 <= i < |fs| ==> lines[i] == Utf8.Encode(Print(Wire(b, a, fs[i]))) + [10]
    ensures |L.Joined(lines)| == ExportBytes(b, a, fs)
    decreases |fs|
  {
    hide Print, Wire, CostOf, Utf8.Encode;
    if fs != [] {
      var n := |fs| - 1;
      ExportLines(b, a, fs[..n], lines[..n]);
      assert lines == lines[..n] + [lines[n]];
      L.JoinedMore(lines[..n], lines[n]);
      PrintedBytes(Wire(b, a, fs[n]));
    }
  }

  lemma {:induction false} ExportPrefix(b: Base64, a: Artifact, image: seq<byte>, n: nat)
    requires b.Sound() && Made(a, image) && 1 <= n <= |Chunks(image, 0)| + 1
    ensures ExportBytes(b, a, Frames(a, image)[..n]) <= 8574 + (n - 1) * 524414
  {
    hide CostOf, Made, Wire;
    var fs := Frames(a, image);
    assert fs[..n][..n - 1] == fs[..n - 1];
    ChunksPartition(image, 0);
    ImageSmall(a, image);
    if n == 1 {
      BeginWire(b, a, image);
    } else {
      ExportPrefix(b, a, image, n - 1);
      ChunkWire(b, a, image, n - 2, Chunks(image, 0)[n - 2]);
    }
  }

  lemma ImageSmall(a: Artifact, image: seq<byte>)
    requires Made(a, image)
    ensures ChunkCount(|image|) <= 22
  {
  }

  /** Every admitted image exports within the sessions' bounds: they can never trip. */
  lemma ExportFits(b: Base64, a: Artifact, image: seq<byte>)
    requires b.Sound() && Made(a, image)
    ensures |Frames(a, image)| <= 24 && ExportBytes(b, a, Frames(a, image)) < 12582912
    ensures forall i :: 0 <= i < |Frames(a, image)| ==> CostOf(Wire(b, a, Frames(a, image)[i])).bytes <= 786432
  {
    hide CostOf, Made, Wire;
    ChunksPartition(image, 0);
    ImageSmall(a, image);
    var fs := Frames(a, image);
    var n := |fs| - 1;
    ExportPrefix(b, a, image, n);
    FinishWire(b, a, image, n - 1);
    forall i | 0 <= i < |fs| ensures CostOf(Wire(b, a, fs[i])).bytes <= 786432 {
      if i == 0 { BeginWire(b, a, image); }
      else if i < n { ChunkWire(b, a, image, i - 1, Chunks(image, 0)[i - 1]); }
    }
  }

  // ---------- the lease

  /** A turn's collector: its image, once the turn ended well with one. */
  datatype Collector = Collector(artifact: Artifact, image: seq<byte>)

  /** An export in progress: the generation it was opened in, the collector it was opened on,
      and how far it has come. */
  class Lease {
    const generation: nat
    const collector: Collector
    var position: nat

    constructor (generation: nat, collector: Collector)
      ensures this.generation == generation && this.collector == collector && position == 0
    {
      this.generation, this.collector, position := generation, collector, 0;
    }
  }

  datatype Admission = Admitted | NotAdmitted(turns: bool, admitted: nat) | Declined

  datatype Yield = Frame(frame: Frame) | Exhausted | ExportRefused

  class ImageEpoch {
    const deadline: real
    const turnSeconds: real
    var attempts: nat
    var running: bool
    var awaitingRelease: bool
    var poisoned: bool
    var closed: bool
    var imageReady: bool
    var scoped: bool
    var generation: nat
    var requestRef: Option<string>
    var seenRefs: set<string>
    var collector: Option<Collector>
    /** The collector each generation's exports were opened on. */
    ghost var leased: map<nat, Collector>

    predicate Exportable()
      reads this
    {
      !closed && !poisoned && !running && awaitingRelease && scoped && imageReady
    }

    ghost predicate Valid()
      reads this
    {
      && attempts == |seenRefs| <= TURNS
      && !(running && awaitingRelease)
      && (imageReady ==> collector.Some? && !closed && !poisoned && !running && awaitingRelease)
      && (closed ==> !awaitingRelease && !imageReady)
      && (running || awaitingRelease ==> requestRef.Some?)
      && (forall g :: g in leased ==> g <= generation)
      && (generation in leased && imageReady ==> collector == Some(leased[generation]))
      && (running || (awaitingRelease && !imageReady) ==> generation !in leased)
    }

    constructor (now: real, community: bool)
      ensures Valid() && !closed && !running && attempts == 0 && generation == 0 && leased == map[]
    {
      deadline, turnSeconds := now + 900.0, if community then 30.0 else 300.0;
      attempts, running, awaitingRelease, poisoned, closed, imageReady, scoped := 0, false, false, false, false, false, false;
      generation, requestRef, seenRefs, collector, leased := 0, None, {}, None, map[];
    }

    /** Admit a turn, or say exactly why it was not admitted. */
    method Turn(ref: string, proper: bool, now: real) returns (r: Admission)
      requires Valid()
      modifies `requestRef, `scoped, `seenRefs, `attempts, `running, `imageReady, `collector, `generation
      ensures Valid()
      ensures r.Declined? <==> old(closed) || old(running) || old(poisoned) || old(awaitingRelease) || ref in old(seenRefs) || !proper
      ensures r.NotAdmitted? <==> !r.Declined? && (old(attempts) == 16 || deadline - now < turnSeconds)
      ensures r.Admitted? ==> running && generation == old(generation) + 1 && attempts == old(attempts) + 1 && ref in seenRefs && requestRef == Some(ref)
      ensures r.NotAdmitted? ==> (r.turns <==> old(attempts) == 16) && r.admitted == old(attempts)
      ensures !r.Admitted? ==> attempts == old(attempts) && running == old(running) && generation == old(generation) && awaitingRelease == old(awaitingRelease) && seenRefs == old(seenRefs)
    {
      if closed || running || poisoned || awaitingRelease || ref in seenRefs || !proper { return Admission.Declined; }
      if attempts >= TURNS || deadline - now < turnSeconds { return NotAdmitted(attempts >= TURNS, attempts); }
      requestRef, scoped, seenRefs := Some(ref), false, seenRefs + {ref};
      attempts, running, imageReady, collector, generation := attempts + 1, true, false, None, generation + 1;
      r := Admitted;
    }

    /** The native turn ended; `made` is the collector's image if there is one. A close that came
        first turns even a success into an unknown. */
    method EndTurn(observed: bool, made: Option<Collector>) returns (ok: bool)
      requires Valid() && running
      modifies this
      ensures Valid() && !running && leased == old(leased) && generation == old(generation)
      ensures ok <==> observed && !old(closed) && !old(poisoned)
      ensures ok ==> awaitingRelease && scoped && imageReady == made.Some? && collector == made
      ensures !ok ==> poisoned && !awaitingRelease && !imageReady
    {
      running := false;
      ok := observed && !closed && !poisoned;
      if ok {
        awaitingRelease, scoped, collector, imageReady := true, true, made, made.Some?;
      } else {
        poisoned, imageReady, awaitingRelease := true, false, false;
      }
    }

    /** Open an export: the lease is taken now, not when its first frame is asked for. */
    method ImageFrames(now: real) returns (lease: Option<Lease>)
      requires Valid()
      modifies `leased
      ensures Valid() && (lease.Some? <==> !closed && !poisoned && !running && awaitingRelease && scoped && imageReady && now < deadline)
      ensures lease.Some? ==> fresh(lease.value) && lease.value.generation == generation && collector == Some(lease.value.collector) && lease.value.position == 0
      ensures lease.Some? ==> leased == old(leased)[generation := lease.value.collector]
      ensures lease == None ==> leased == old(leased)
    {
      if !Exportable() || now >= deadline { return None; }
      var l := new Lease(generation, collector.value);
      leased := leased[generation := collector.value];
      lease := Some(l);
    }

    /** The next frame of an export, while its turn is neither released nor closed. Every frame an
        export ever yields is of the one image its lease was taken on. */
    method Next(lease: Lease, now: real) returns (r: Yield)
      requires Valid() && lease.generation in leased && leased[lease.generation] == lease.collector
      modifies lease
      ensures Valid()
      ensures !r.ExportRefused? <==>
                && !closed && !poisoned && !running && awaitingRelease && scoped && imageReady
                && now < deadline && lease.generation == generation
      ensures r.Exhausted? <==> !r.ExportRefused? && old(lease.position) >= |Frames(lease.collector.artifact, lease.collector.image)|
      ensures !r.ExportRefused? ==> collector == Some(lease.collector)
      ensures r.Frame? ==> old(lease.position) < |Frames(lease.collector.artifact, lease.collector.image)|
      ensures r.Frame? ==> r.frame == Frames(lease.collector.artifact, lease.collector.image)[old(lease.position)] && lease.position == old(lease.position) + 1
      ensures !r.Frame? ==> lease.position == old(lease.position)
    {
      if !Exportable() || now >= deadline || lease.generation != generation { return ExportRefused; }
      var frames := Frames(lease.collector.artifact, lease.collector.image);
      if lease.position >= |frames| { return Exhausted; }
      r := Frame(frames[lease.position]);
      lease.position := lease.position + 1;
    }

    /** A release ends every lease of its turn. */
    method ReleaseTurn(ref: string, unknownDelivery: bool, proper: bool) returns (ok: bool)
      requires Valid()
      modifies this
      ensures Valid() && leased == old(leased)
      ensures ok <==> !old(closed) && !old(running) && old(awaitingRelease) && old(requestRef) == Some(ref) && proper
      ensures ok ==> generation == old(generation) + 1 && !awaitingRelease && collector == None && poisoned == (old(poisoned) || unknownDelivery)
      ensures !ok ==> generation == old(generation) && awaitingRelease == old(awaitingRelease)
    {
      ok := !closed && !running && awaitingRelease && requestRef == Some(ref) && proper;
      if !ok { return; }
      collector, imageReady, awaitingRelease, requestRef, scoped, generation := None, false, false, None, false, generation + 1;
      if unknownDelivery { poisoned := true; }
    }

    method Close()
      requires Valid()
      modifies this
      ensures Valid() && closed && leased == old(leased) && generation == old(generation) + 1 && running == old(running) && (running ==> poisoned)
    {
      closed, imageReady, scoped, generation := true, false, false, generation + 1;
      if running { poisoned := true; } else { collector := None; }
      awaitingRelease := false;
    }

    /** In every state: sixteen turns at most, a turn that runs awaits no release, and an image is there only for
        the turn that awaits its release. */
    lemma EveryState()
      requires Valid()
      ensures attempts == |seenRefs| <= 16 && !(running && awaitingRelease) && (closed ==> !awaitingRelease)
      ensures imageReady ==> collector.Some? && awaitingRelease && !running && !closed && !poisoned
    {
    }

    /** A generation that has passed never comes back, so a stale lease yields nothing for good. */
    lemma StaleForever(lease: Lease)
      requires Valid() && lease.generation in leased && lease.generation != generation
      ensures lease.generation < generation
    {
    }
  }

  /** What may happen to an epoch next. */
  datatype Act =
    | StartTurn(ref: string, proper: bool, now: real)
    | FinishTurn(observed: bool, made: Option<Collector>)
    | OpenExport(now: real)
    | ReleaseIt(ref: string, unknownDelivery: bool, proper: bool)
    | CloseIt

  /** Once its turn is released or closed an export yields nothing, whatever turns, exports, releases
      and closes come after. */
  method StaleYieldsNothing(epoch: ImageEpoch, lease: Lease, acts: seq<Act>, now: real) returns (r: Yield)
    requires epoch.Valid() && lease.generation in epoch.leased && epoch.leased[lease.generation] == lease.collector
    requires lease.generation != epoch.generation
    modifies epoch, lease
    ensures epoch.Valid() && epoch.generation >= old(epoch.generation)
    ensures r.ExportRefused? && lease.position == old(lease.position)
  {
    epoch.StaleForever(lease);
    hide ImageEpoch.Valid, ImageEpoch.Exportable;
    for i := 0 to |acts|
      invariant epoch.Valid() && epoch.generation >= old(epoch.generation) > lease.generation && lease.position == old(lease.position)
      invariant lease.generation in epoch.leased && epoch.leased[lease.generation] == lease.collector
    {
      match acts[i] {
        case StartTurn(ref, proper, at) => var _ := epoch.Turn(ref, proper, at);
        case FinishTurn(observed, made) => if epoch.running { var _ := epoch.EndTurn(observed, made); }
        case OpenExport(at) => var _ := epoch.ImageFrames(at);
        case ReleaseIt(ref, unknownDelivery, proper) => var _ := epoch.ReleaseTurn(ref, unknownDelivery, proper);
        case CloseIt => epoch.Close();
      }
    }
    r := epoch.Next(lease, now);
  }
}
