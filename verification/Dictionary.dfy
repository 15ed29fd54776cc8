/** Dictionaries read and changed by key; the first entry of a key decides. */
module Dictionary {
  import opened Wrappers
  import opened Json
  import Sets

  function Find(fs: seq<Field>, key: string): (r: Option<nat>)
    ensures r.Some? ==> r.value < |fs| && fs[r.value].key == key
    ensures r == None ==> forall i :: 0 <= i < |fs| ==> fs[i].key != key
  {
    if fs == [] then None
    else if fs[0].key == key then Some(0)
    else match Find(fs[1..], key) case None => None case Some(i) => Some(i + 1)
  }

  function Lookup(fs: seq<Field>, key: string): Option<Value> {
    if fs == [] then None else if fs[0].key == key then Some(fs[0].value) else Lookup(fs[1..], key)
  }

  lemma {:induction false} LookupFinds(fs: seq<Field>, key: string)
    ensures Lookup(fs, key) == match Find(fs, key) case None => None case Some(i) => Some(fs[i].value)
  {
    if fs != [] { LookupFinds(fs[1..], key); }
  }

  /** What a dictionary holds under a key; anything else holds nothing. */
  function Get(v: Value, key: string): (r: Option<Value>)
    ensures r.Some? ==> v.Obj? && Find(v.fields, key).Some? && r.value == v.fields[Find(v.fields, key).value].value
    ensures r == None <==> !v.Obj? || forall i :: 0 <= i < |v.fields| ==> v.fields[i].key != key
  {
    if v.Obj? then
      LookupFinds(v.fields, key);
      Lookup(v.fields, key)
    else None
  }

  function Set(v: Value, key: string, x: Value): Value
    requires Get(v, key).Some?
  {
    var i := Find(v.fields, key).value;
    Obj(v.fields[i := Field(key, x)])
  }

  lemma {:induction false} FindSet(fs: seq<Field>, key: string, other: string, x: Value)
    requires Find(fs, key).Some?
    ensures Find(fs[Find(fs, key).value := Field(key, x)], other) == Find(fs, other)
  {
    var i := Find(fs, key).value;
    var gs := fs[i := Field(key, x)];
    if fs[0].key == key {
      assert gs[1..] == fs[1..];
    } else {
      FindSet(fs[1..], key, other, x);
      assert gs[1..] == fs[1..][i - 1 := Field(key, x)];
    }
  }

  /** Replacing one field changes that field and no other. */
  lemma GetSet(v: Value, key: string, other: string, x: Value)
    requires Get(v, key).Some?
    ensures Get(Set(v, key, x), other) == if other == key then Some(x) else Get(v, other)
  {
    FindSet(v.fields, key, other, x);
    FindSet(v.fields, key, key, x);
  }

  /** The entry of a key is found wherever it stands. */
  lemma {:induction false} FieldAt(fs: seq<Field>, i: nat)
    requires i < |fs| && Distinct(Keys(fs))
    ensures Lookup(fs, fs[i].key) == Some(fs[i].value)
  {
    if i > 0 {
      assert Keys(fs)[0] != Keys(fs)[i];
      assert Keys(fs[1..]) == Keys(fs)[1..];
      FieldAt(fs[1..], i - 1);
    }
  }

  /** A dictionary of exactly these keys. */
  predicate KeysAre(v: Value, keys: seq<string>) {
    v.Obj? && |v.fields| == |keys| && forall i :: 0 <= i < |keys| ==> Get(v, keys[i]).Some?
  }

  lemma {:induction false} SameItself(v: Value)
    ensures Same(v, v)
    decreases v
  {
    match v
    case Arr(items) => forall i | 0 <= i < |items| ensures Same(items[i], items[i]) { SameItself(items[i]); }
    case Obj(fs) => forall i | 0 <= i < |fs| ensures SomeSame(fs[i], fs) { SameItself(fs[i].value); }
    case _ =>
  }

  /** A dictionary that holds as many keys as another, and all of its, repeats none. */
  lemma KeysOnce(a: seq<Field>, b: seq<Field>)
    requires Distinct(Keys(a)) && |a| == |b| && forall i :: 0 <= i < |a| ==> a[i].key in Keys(b)
    ensures Distinct(Keys(b))
  {
    var x, y := Sets.Elements(Keys(a)), Sets.Elements(Keys(b));
    Sets.ElementCount(Keys(a));
    Sets.CountedOnce(Keys(b));
    assert x <= y;
    Sets.Smaller(x, y);
  }

  /** What is the same as a list, and as a text, a number or a word. */
  lemma SameWhen(v: Value, w: Value)
    ensures v.Arr? ==> (Same(v, w) <==> w.Arr? && |w.items| == |v.items| && forall i :: 0 <= i < |v.items| ==> Same(v.items[i], w.items[i]))
    ensures !v.Arr? && !v.Obj? ==> (Same(v, w) <==> v == w)
    ensures v.Obj? && Same(v, w) ==> w.Obj? && |w.fields| == |v.fields|
  {
  }

  /** The same dictionary, told by its keys. */
  lemma {:induction false} SameRecord(a: seq<Field>, v: Value)
    requires Distinct(Keys(a))
    ensures Same(Obj(a), v) <==>
            && v.Obj? && |v.fields| == |a|
            && forall i :: 0 <= i < |a| ==> Get(v, a[i].key).Some? && Same(a[i].value, Get(v, a[i].key).value)
  {
    hide Lookup, Distinct;
    if Same(Obj(a), v) {
      var b := v.fields;
      forall i | 0 <= i < |a| ensures a[i].key in Keys(b) {
        assert SomeSame(a[i], b);
        var j :| 0 <= j < |b| && a[i].key == b[j].key;
        assert Keys(b)[j] == b[j].key;
      }
      KeysOnce(a, b);
      forall i | 0 <= i < |a| ensures Get(v, a[i].key).Some? && Same(a[i].value, Get(v, a[i].key).value) {
        assert SomeSame(a[i], b);
        var j :| 0 <= j < |b| && a[i].key == b[j].key && Same(a[i].value, b[j].value);
        FieldAt(b, j);
        assert Get(v, b[j].key) == Lookup(b, b[j].key);
      }
    }
    if v.Obj? && |v.fields| == |a| && forall i :: 0 <= i < |a| ==> Get(v, a[i].key).Some? && Same(a[i].value, Get(v, a[i].key).value) {
      forall i | 0 <= i < |a| ensures SomeSame(a[i], v.fields) {
        var j := Find(v.fields, a[i].key).value;
        assert v.fields[j].key == a[i].key && Same(a[i].value, v.fields[j].value);
      }
    }
  }
}
