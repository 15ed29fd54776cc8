/** Which frames can be sent at all, told in the values a caller gives. */
module PipeEnvelope {
  import opened Wrappers
  import opened Dictionary
  import opened Json
  import opened JsonCost
  import opened PipeCodec
  import opened PipeSession
  import Sets

  /** Which keys a body may use: a letter, then letters, digits and underscores, 64 at most, and no name that
      JavaScript objects have anyway. */
  lemma KeyNames(k: string)
    ensures KeyOk(k) <==>
            && 1 <= |k| <= 64
            && (forall i :: 0 <= i < |k| ==>
                  var n := k[i] as int;
                  65 <= n <= 90 || 97 <= n <= 122 || (i > 0 && (48 <= n <= 57 || n == 95)))
            && k != "constructor" && k != "prototype" && k != "__proto__"
  {
  }

  /** What can be sent: a session of 32 hexadecimal digits, a number up to 2^53 - 1, one of the eight kinds, and a
      dictionary of safe integers and good keys that with its envelope has at most 4096 values, 16 levels and 3 MiB. */
  lemma {:induction false} EncodesWhen(session: string, n: nat, kind: string, body: Value)
    ensures EncodeFrame(FrameOf(session, n, kind, body)).Some? <==>
            && |session| == 32 && (forall i :: 0 <= i < 32 ==> session[i] in "0123456789abcdef")
            && 1 <= n <= 9007199254740991
            && kind in {"start", "ready", "turn", "tool", "tool-result", "answer", "stop", "closed"}
            && body.Obj? && Shape(body) && Height(body) <= 15
            && CostOf(body).values <= 4091 && CostOf(FrameOf(session, n, kind, body)).bytes <= 3145728
  {
    var f := FrameOf(session, n, kind, body);
    PayloadCapImplied(f);
    EnvelopeKeys(session, n, kind, body);
    EnvelopeCost(session, n, kind, body);
    EnvelopeShape(session, n, kind, body);
    EnvelopeHeight(session, n, kind, body);
    hide CostOf, Height, Shape, Payload, Lookup, KeyOk, UnHex;
    forall i | 0 <= i < |session| { HexCharacter(session[i]); }
  }

  lemma EnvelopeKeys(session: string, n: nat, kind: string, body: Value)
    ensures var fs := FrameOf(session, n, kind, body).fields;
            && (set k | k in Keys(fs)) == FIELDS
            && Lookup(fs, "version") == Some(Num(1)) && Lookup(fs, "sessionId") == Some(Str(session)) && Lookup(fs, "sequence") == Some(Num(n))
            && Lookup(fs, "kind") == Some(Str(kind)) && Lookup(fs, "body") == Some(body)
  {
    var fs := FrameOf(session, n, kind, body).fields;
    FieldNames();
    var ks := Keys(fs);
    assert ks == ["version", "sessionId", "sequence", "kind", "body"];
    hide Distinct, Lookup;
    FieldAt(fs, 0); FieldAt(fs, 1); FieldAt(fs, 2); FieldAt(fs, 3); FieldAt(fs, 4);
    assert ks[0] in ks && ks[1] in ks && ks[2] in ks && ks[3] in ks && ks[4] in ks;
  }

  lemma FieldNames()
    ensures Distinct(["version", "sessionId", "sequence", "kind", "body"])
  {
    assert "sessionId"[2] != "sequence"[2];
  }

  lemma EnvelopeCost(session: string, n: nat, kind: string, body: Value)
    ensures CostOf(FrameOf(session, n, kind, body)).values == 5 + CostOf(body).values
  {
    var fs := FrameOf(session, n, kind, body).fields;
    assert fs[4].value == body && forall i :: 0 <= i < 4 ==> !fs[i].value.Obj? && !fs[i].value.Arr?;
    ObjectValues(fs);
    hide CostOf, FieldCosts, FieldCost, Total;
    LeavesFirst(fs);
  }

  lemma ObjectValues(fs: seq<Field>)
    ensures CostOf(Obj(fs)).values == 1 + Total(FieldCosts(fs)).values
  {
  }

  /** Each value that is neither list nor dictionary counts one. */
  lemma {:induction false} LeavesFirst(fs: seq<Field>)
    requires fs != [] && forall i :: 0 <= i < |fs| - 1 ==> !fs[i].value.Obj? && !fs[i].value.Arr?
    ensures Total(FieldCosts(fs)).values == |fs| - 1 + CostOf(fs[|fs| - 1].value).values
  {
    FieldsFirst(fs);
    LeafValues(fs[0].value);
    hide CostOf, FieldCosts, Total;
    if |fs| > 1 { LeavesFirst(fs[1..]); }
  }

  lemma LeafValues(v: Value)
    ensures !v.Obj? && !v.Arr? ==> CostOf(v).values == 1
  {
  }

  lemma FieldsFirst(fs: seq<Field>)
    requires fs != []
    ensures Total(FieldCosts(fs)).values == CostOf(fs[0].value).values + if |fs| == 1 then 0 else Total(FieldCosts(fs[1..])).values
  {
    hide CostOf;
    assert FieldCosts(fs)[1..] == FieldCosts(fs[1..]);
  }

  lemma EnvelopeShape(session: string, n: nat, kind: string, body: Value)
    ensures Shape(FrameOf(session, n, kind, body)) <==> n <= 9007199254740991 && Shape(body)
  {
    GoodNames();
    hide KeyOk, Shape;
    FiveShapes(FrameOf(session, n, kind, body).fields);
  }

  lemma EnvelopeHeight(session: string, n: nat, kind: string, body: Value)
    ensures Height(FrameOf(session, n, kind, body)) <= 16 <==> Height(body) <= 15
  {
    var fs := FrameOf(session, n, kind, body).fields;
    LeafHeight(fs[0].value); LeafHeight(fs[1].value); LeafHeight(fs[2].value); LeafHeight(fs[3].value);
    hide Height;
    FiveHeights(fs);
  }

  lemma FiveHeights(fs: seq<Field>)
    requires |fs| == 5 && Height(fs[0].value) == Height(fs[1].value) == Height(fs[2].value) == Height(fs[3].value) == 0
    ensures Height(Obj(fs)) <= 16 <==> Height(fs[4].value) <= 15
  {
    hide Height;
    FieldsHeight(fs, 0);
  }

  lemma LeafHeight(v: Value)
    ensures !v.Obj? && !v.Arr? ==> Height(v) == 0
  {
  }

  lemma FiveShapes(fs: seq<Field>)
    requires |fs| == 5 && fs[0].value == Num(1) && fs[1].value.Str? && fs[2].value.Num? && fs[2].value.n >= 0 && fs[3].value.Str?
    requires KeyOk(fs[0].key) && KeyOk(fs[1].key) && KeyOk(fs[2].key) && KeyOk(fs[3].key) && KeyOk(fs[4].key)
    ensures Shape(Obj(fs)) <==> fs[2].value.n <= 9007199254740991 && Shape(fs[4].value)
  {
    hide KeyOk;
  }

  lemma GoodNames()
    ensures KeyOk("version") && KeyOk("sessionId") && KeyOk("sequence") && KeyOk("kind") && KeyOk("body")
  {
    assert "version"[0] == 'v' && "sessionId"[0] == 's' && "sequence"[0] == 's' && "kind"[0] == 'k' && "body"[0] == 'b';
  }

  /** Exactly which dictionaries a session takes next: the frame of its own next number, of a kind it receives and
      of any body that can be sent at all, with its keys in whatever order. */
  lemma {:induction false} NextWhen(f: Value, session: string, n: nat, kinds: set<string>)
    requires Proper(f)
    ensures IsNext(f, session, n, kinds) <==>
            EncodeFrame(f).Some? && exists kind: string, body: Value :: kind in kinds && Same(FrameOf(session, n, kind, body), f)
  {
    hide Proper, EncodeFrame, IsNext, Same, Lookup;
    if EncodeFrame(f).Some? {
      NextReads(f, session, n, kinds);
      if IsNext(f, session, n, kinds) {
        var kind, body := Lookup(f.fields, "kind").value.s, Lookup(f.fields, "body").value;
        SentIsSame(f, session, n, kind, body);
      }
      if kind: string, body: Value :| kind in kinds && Same(FrameOf(session, n, kind, body), f) {
        SameIsSent(f, session, n, kind, body);
      }
    } else {
      NoneNext(f, session, n, kinds);
    }
  }

  lemma NoneNext(f: Value, session: string, n: nat, kinds: set<string>)
    requires EncodeFrame(f).None?
    ensures !IsNext(f, session, n, kinds)
  {
    hide EncodeFrame;
  }

  lemma NextReads(f: Value, session: string, n: nat, kinds: set<string>)
    requires Proper(f) && EncodeFrame(f).Some?
    ensures f.Obj? && Lookup(f.fields, "version") == Some(Num(1)) && Lookup(f.fields, "body").Some?
    ensures Distinct(Keys(f.fields)) && (set k | k in Keys(f.fields)) == FIELDS
    ensures IsNext(f, session, n, kinds) <==>
            && Lookup(f.fields, "sessionId") == Some(Str(session)) && Lookup(f.fields, "sequence") == Some(Num(n))
            && Lookup(f.fields, "kind").Some? && Lookup(f.fields, "kind").value.Str? && Lookup(f.fields, "kind").value.s in kinds
  {
    EncodedIsEnvelope(f);
    SnapshotIsCanon(f);
    CanonNext(f, session, n, kinds);
  }

  lemma EncodedIsEnvelope(f: Value)
    requires EncodeFrame(f).Some?
    ensures Envelope(f)
  {
    hide Envelope, Payload;
  }

  lemma SentIsSame(f: Value, session: string, n: nat, kind: string, body: Value)
    requires f.Obj? && Distinct(Keys(f.fields)) && (set k | k in Keys(f.fields)) == FIELDS
    requires Lookup(f.fields, "version") == Some(Num(1)) && Lookup(f.fields, "sessionId") == Some(Str(session)) && Lookup(f.fields, "sequence") == Some(Num(n))
    requires Lookup(f.fields, "kind") == Some(Str(kind)) && Lookup(f.fields, "body") == Some(body)
    ensures Same(FrameOf(session, n, kind, body), f)
  {
    var fs := FrameOf(session, n, kind, body).fields;
    FieldNames();
    assert Keys(fs) == ["version", "sessionId", "sequence", "kind", "body"];
    FiveKeys(f.fields);
    hide Distinct, Lookup, Same;
    forall i | 0 <= i < 5 ensures Get(f, fs[i].key) == Some(fs[i].value) && Same(fs[i].value, fs[i].value) { SameItself(fs[i].value); }
    SameRecord(fs, f);
  }

  lemma FiveKeys(fs: seq<Field>)
    requires Distinct(Keys(fs)) && (set k | k in Keys(fs)) == FIELDS
    ensures |fs| == 5
  {
    var ks := ["version", "sessionId", "sequence", "kind", "body"];
    FieldNames();
    hide Distinct;
    Sets.ElementCount(ks) by { NoneTwice(ks); }
    Sets.ElementCount(Keys(fs)) by { NoneTwice(Keys(fs)); }
    assert Sets.Elements(ks) == FIELDS by {
      assert ks[0] in ks && ks[1] in ks && ks[2] in ks && ks[3] in ks && ks[4] in ks;
    }
    assert Sets.Elements(Keys(fs)) == FIELDS;
  }

  lemma NoneTwice(ks: seq<string>)
    requires Distinct(ks)
    ensures Sets.NoRepeats(ks)
  {
  }

  lemma SameIsSent(f: Value, session: string, n: nat, kind: string, body: Value)
    requires Same(FrameOf(session, n, kind, body), f)
    ensures f.Obj? && Lookup(f.fields, "sessionId") == Some(Str(session)) && Lookup(f.fields, "sequence") == Some(Num(n)) && Lookup(f.fields, "kind") == Some(Str(kind))
  {
    var fs := FrameOf(session, n, kind, body).fields;
    FieldNames();
    assert Keys(fs) == ["version", "sessionId", "sequence", "kind", "body"];
    hide Distinct, Lookup;
    SameRecord(fs, f);
    assert fs[1] == Field("sessionId", Str(session)) && fs[2] == Field("sequence", Num(n)) && fs[3] == Field("kind", Str(kind));
  }
}
