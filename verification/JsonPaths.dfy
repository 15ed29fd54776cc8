/** What the two codecs ask of a whole tree, told place by place: a place is the list of turns that leads to it. */
module JsonPaths {
  import opened Wrappers
  import opened Json
  import opened JsonCost
  import PipeCodec
  import EpochWire

  type Path = seq<nat>

  /** What stands at a place. */
  function At(v: Value, p: Path): Option<Value>
    decreases |p|
  {
    if p == [] then Some(v)
    else match v
      case Arr(items) => if p[0] < |items| then At(items[p[0]], p[1..]) else None
      case Obj(fs) => if p[0] < |fs| then At(fs[p[0]].value, p[1..]) else None
      case _ => None
  }

  // ---------- depth

  lemma {:induction false} NoDeeper(v: Value, p: Path)
    requires At(v, p).Some?
    ensures |p| <= Height(v)
    decreases |p|
  {
    if p != [] {
      match v
      case Arr(items) =>
        NoDeeper(items[p[0]], p[1..]);
        var hs := seq(|items|, i requires 0 <= i < |items| => 1 + Height(items[i]));
        assert hs[p[0]] <= Highest(hs);
      case Obj(fs) =>
        NoDeeper(fs[p[0]].value, p[1..]);
        var hs := seq(|fs|, i requires 0 <= i < |fs| => 1 + Height(fs[i].value));
        assert hs[p[0]] <= Highest(hs);
    }
  }

  lemma {:induction false} Deepest(v: Value) returns (p: Path)
    ensures At(v, p).Some? && |p| == Height(v)
    decreases v
  {
    hide Highest;
    p := [];
    match v
    case Arr(items) =>
      var hs := seq(|items|, i requires 0 <= i < |items| => 1 + Height(items[i]));
      if Highest(hs) != 0 {
        var i :| 0 <= i < |hs| && hs[i] == Highest(hs);
        var q := Deepest(items[i]);
        p := Down(v, i, items[i], q);
      }
    case Obj(fs) =>
      var hs := seq(|fs|, i requires 0 <= i < |fs| => 1 + Height(fs[i].value));
      if Highest(hs) != 0 {
        var i :| 0 <= i < |hs| && hs[i] == Highest(hs);
        var q := Deepest(fs[i].value);
        p := Down(v, i, fs[i].value, q);
      }
    case _ =>
  }

  /** A place below a child is one turn further from the root. */
  lemma Down(v: Value, i: nat, child: Value, q: Path) returns (p: Path)
    requires (v.Arr? && i < |v.items| && v.items[i] == child) || (v.Obj? && i < |v.fields| && v.fields[i].value == child)
    requires At(child, q).Some?
    ensures p == [i] + q && At(v, p) == At(child, q)
  {
    p := [i] + q;
    assert p[1..] == q;
  }

  /** A tree is at most so high exactly when no place in it is further from the root. */
  lemma {:induction false} HeightWhen(v: Value, n: nat)
    ensures Height(v) <= n <==> forall p: Path :: At(v, p).Some? ==> |p| <= n
  {
    hide At, Height;
    forall p: Path | At(v, p).Some? ensures |p| <= Height(v) { NoDeeper(v, p); }
    var q := Deepest(v);
  }

  // ---------- numbers and keys

  predicate Keyed(v: Value) {
    v.Obj? ==> forall i :: 0 <= i < |v.fields| ==> PipeCodec.KeyOk(v.fields[i].key)
  }

  predicate Small(v: Value) {
    v.Num? ==> -9007199254740991 <= v.n <= 9007199254740991
  }

  lemma {:induction false} SafeAt(v: Value, p: Path)
    requires EpochWire.SafeNumbers(v) && At(v, p).Some?
    ensures Small(At(v, p).value)
    decreases |p|
  {
    if p != [] {
      match v
      case Arr(items) => SafeAt(items[p[0]], p[1..]);
      case Obj(fs) => SafeAt(fs[p[0]].value, p[1..]);
    }
  }

  lemma {:induction false} UnsafeAt(v: Value) returns (p: Path)
    requires !EpochWire.SafeNumbers(v)
    ensures At(v, p).Some? && !Small(At(v, p).value)
    decreases v
  {
    match v
    case Num(_) => p := [];
    case Arr(items) =>
      var i :| 0 <= i < |items| && !EpochWire.SafeNumbers(items[i]);
      var q := UnsafeAt(items[i]);
      p := Down(v, i, items[i], q);
    case Obj(fs) =>
      var i :| 0 <= i < |fs| && !EpochWire.SafeNumbers(fs[i].value);
      var q := UnsafeAt(fs[i].value);
      p := Down(v, i, fs[i].value, q);
  }

  /** The session codec asks of every number in a tree that JavaScript holds it exactly. */
  lemma {:induction false} SafeWhen(v: Value)
    ensures EpochWire.SafeNumbers(v) <==> forall p: Path :: At(v, p).Some? ==> Small(At(v, p).value)
  {
    hide At, Small, EpochWire.SafeNumbers;
    if EpochWire.SafeNumbers(v) {
      forall p: Path | At(v, p).Some? ensures Small(At(v, p).value) { SafeAt(v, p); }
    } else {
      var q := UnsafeAt(v);
    }
  }

  lemma {:induction false} ShapeAt(v: Value, p: Path)
    requires PipeCodec.Shape(v) && At(v, p).Some?
    ensures Small(At(v, p).value) && Keyed(At(v, p).value)
    decreases |p|
  {
    hide PipeCodec.KeyOk;
    if p != [] {
      match v
      case Arr(items) => ShapeAt(items[p[0]], p[1..]);
      case Obj(fs) => ShapeAt(fs[p[0]].value, p[1..]);
    }
  }

  lemma {:induction false} MisshapenAt(v: Value) returns (p: Path)
    requires !PipeCodec.Shape(v)
    ensures At(v, p).Some? && !(Small(At(v, p).value) && Keyed(At(v, p).value))
    decreases v
  {
    hide PipeCodec.KeyOk;
    p := [];
    match v
    case Num(_) =>
    case Arr(items) =>
      var i :| 0 <= i < |items| && !PipeCodec.Shape(items[i]);
      var q := MisshapenAt(items[i]);
      p := Down(v, i, items[i], q);
    case Obj(fs) =>
      if Keyed(v) {
        var i :| 0 <= i < |fs| && !PipeCodec.Shape(fs[i].value);
        var q := MisshapenAt(fs[i].value);
        p := Down(v, i, fs[i].value, q);
      }
  }

  /** The pipe codec asks that, and a good name of every key, whatever dictionary it stands in. */
  lemma {:induction false} ShapeWhen(v: Value)
    ensures PipeCodec.Shape(v) <==> forall p: Path :: At(v, p).Some? ==> Small(At(v, p).value) && Keyed(At(v, p).value)
  {
    hide At, Small, Keyed, PipeCodec.Shape;
    if PipeCodec.Shape(v) {
      forall p: Path | At(v, p).Some? ensures Small(At(v, p).value) && Keyed(At(v, p).value) { ShapeAt(v, p); }
    } else {
      var q := MisshapenAt(v);
    }
  }

  predicate Digits17(v: Value) {
    v.Num? ==> |Decimal(v.n)| <= 17 && -9007199254740991 <= v.n <= 9007199254740991
  }

  lemma {:induction false} ReadableAt(v: Value, p: Path)
    requires PipeCodec.AllReadable(v) && At(v, p).Some?
    ensures Digits17(At(v, p).value)
    decreases |p|
  {
    hide Decimal;
    if p != [] {
      match v
      case Arr(items) => ReadableAt(items[p[0]], p[1..]);
      case Obj(fs) => ReadableAt(fs[p[0]].value, p[1..]);
    }
  }

  lemma {:induction false} UnreadableAt(v: Value) returns (p: Path)
    requires !PipeCodec.AllReadable(v)
    ensures At(v, p).Some? && !Digits17(At(v, p).value)
    decreases v
  {
    hide Decimal;
    match v
    case Num(_) => p := [];
    case Arr(items) =>
      var i :| 0 <= i < |items| && !PipeCodec.AllReadable(items[i]);
      var q := UnreadableAt(items[i]);
      p := Down(v, i, items[i], q);
    case Obj(fs) =>
      var i :| 0 <= i < |fs| && !PipeCodec.AllReadable(fs[i].value);
      var q := UnreadableAt(fs[i].value);
      p := Down(v, i, fs[i].value, q);
  }

  /** What the integer hook lets pass: numbers of at most 17 characters in the safe range, wherever they stand. */
  lemma {:induction false} ReadableWhen(v: Value)
    ensures PipeCodec.AllReadable(v) <==> forall p: Path :: At(v, p).Some? ==> Digits17(At(v, p).value)
  {
    hide At, Digits17, PipeCodec.AllReadable;
    if PipeCodec.AllReadable(v) {
      forall p: Path | At(v, p).Some? ensures Digits17(At(v, p).value) { ReadableAt(v, p); }
    } else {
      var q := UnreadableAt(v);
    }
  }

  // ---------- how many values

  function Behind(i: nat, ps: seq<Path>): (r: seq<Path>)
    ensures |r| == |ps| && forall j :: 0 <= j < |ps| ==> r[j] == [i] + ps[j]
  {
    seq(|ps|, j requires 0 <= j < |ps| => [i] + ps[j])
  }

  function Gather(parts: seq<seq<Path>>, from: nat): seq<Path> {
    if parts == [] then [] else Behind(from, parts[0]) + Gather(parts[1..], from + 1)
  }

  /** All places of a tree. */
  function Places(v: Value): seq<Path>
    decreases v
  {
    match v
    case Arr(items) => [[]] + Gather(seq(|items|, i requires 0 <= i < |items| => Places(items[i])), 0)
    case Obj(fs) => [[]] + Gather(seq(|fs|, i requires 0 <= i < |fs| => Places(fs[i].value)), 0)
    case _ => [[]]
  }

  predicate Once(ps: seq<Path>) {
    forall i, j :: 0 <= i < j < |ps| ==> ps[i] != ps[j]
  }

  lemma BehindHas(i: nat, ps: seq<Path>, p: Path)
    ensures p in Behind(i, ps) <==> p != [] && p[0] == i && p[1..] in ps
  {
    if p in Behind(i, ps) {
      var j :| 0 <= j < |ps| && Behind(i, ps)[j] == p;
      assert p[1..] == ps[j];
    }
    if p != [] && p[0] == i && p[1..] in ps {
      var j :| 0 <= j < |ps| && ps[j] == p[1..];
      assert p == [i] + p[1..] == Behind(i, ps)[j];
    }
  }

  lemma {:induction false} GatherHas(parts: seq<seq<Path>>, from: nat, p: Path)
    ensures p in Gather(parts, from) <==> p != [] && from <= p[0] < from + |parts| && p[1..] in parts[p[0] - from]
  {
    hide Behind;
    if parts != [] {
      BehindHas(from, parts[0], p);
      GatherHas(parts[1..], from + 1, p);
    }
  }

  lemma BehindOnce(i: nat, ps: seq<Path>)
    requires Once(ps)
    ensures Once(Behind(i, ps))
  {
    forall j, k | 0 <= j < k < |ps| ensures Behind(i, ps)[j] != Behind(i, ps)[k] {
      assert Behind(i, ps)[j][1..] == ps[j] && Behind(i, ps)[k][1..] == ps[k];
    }
  }

  lemma OnceConcat(a: seq<Path>, b: seq<Path>)
    requires Once(a) && Once(b) && forall p :: p in a ==> p !in b
    ensures Once(a + b)
  {
    forall i, j | 0 <= i < j < |a + b| ensures (a + b)[i] != (a + b)[j] {
      if i < |a| <= j { assert a[i] in a && b[j - |a|] in b; }
    }
  }

  lemma {:induction false} GatherOnce(parts: seq<seq<Path>>, from: nat)
    requires forall i :: 0 <= i < |parts| ==> Once(parts[i])
    ensures Once(Gather(parts, from))
  {
    hide Behind, Once;
    if parts == [] {
      NoneOnce();
    } else {
      BehindOnce(from, parts[0]);
      GatherOnce(parts[1..], from + 1);
      forall p | p in Behind(from, parts[0]) ensures p !in Gather(parts[1..], from + 1) {
        BehindHas(from, parts[0], p);
        GatherHas(parts[1..], from + 1, p);
      }
      OnceConcat(Behind(from, parts[0]), Gather(parts[1..], from + 1));
    }
  }

  lemma NoneOnce()
    ensures Once([])
  {
  }

  lemma {:induction false} GatherCount(parts: seq<seq<Path>>, from: nat, cs: seq<Cost>)
    requires |parts| == |cs| && forall i :: 0 <= i < |parts| ==> |parts[i]| == cs[i].values
    ensures |Gather(parts, from)| == Total(cs).values
  {
    if parts != [] { GatherCount(parts[1..], from + 1, cs[1..]); }
  }

  /** The root, and the places below it. */
  lemma RootAndBelow(parts: seq<seq<Path>>)
    requires forall i :: 0 <= i < |parts| ==> Once(parts[i])
    ensures var ps := [[]] + Gather(parts, 0);
            Once(ps) && forall p: Path :: p in ps <==> p == [] || (p[0] < |parts| && p[1..] in parts[p[0]])
  {
    hide Gather, Once;
    GatherOnce(parts, 0);
    forall p: Path { GatherHas(parts, 0, p); }
    assert Once([[]]) by { OnlyRoot(); }
    OnceConcat([[]], Gather(parts, 0));
  }

  lemma OnlyRoot()
    ensures Once([[]])
  {
  }

  /** What is counted as values is the places of the tree, each once. */
  lemma {:induction false} ValuesAre(v: Value)
    ensures |Places(v)| == CostOf(v).values && Once(Places(v))
    ensures forall p: Path :: p in Places(v) <==> At(v, p).Some?
    decreases v
  {
    hide Once, Gather, Total;
    match v
    case Arr(items) =>
      var parts := seq(|items|, i requires 0 <= i < |items| => Places(items[i]));
      forall i | 0 <= i < |items| ensures Once(parts[i]) && |parts[i]| == ItemCosts(items)[i].values && forall p: Path :: p in parts[i] <==> At(items[i], p).Some? { ValuesAre(items[i]); }
      GatherCount(parts, 0, ItemCosts(items));
      RootAndBelow(parts);
    case Obj(fs) =>
      var parts := seq(|fs|, i requires 0 <= i < |fs| => Places(fs[i].value));
      forall i | 0 <= i < |fs| ensures Once(parts[i]) && |parts[i]| == FieldCosts(fs)[i].values && forall p: Path :: p in parts[i] <==> At(fs[i].value, p).Some? { ValuesAre(fs[i].value); }
      GatherCount(parts, 0, FieldCosts(fs));
      RootAndBelow(parts);
    case _ =>
      OnlyRoot();
  }
}
