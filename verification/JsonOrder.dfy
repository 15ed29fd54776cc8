/** The two canonical key orders. The pipe codec sorts keys by code point. The epoch wire
    puts array-index keys first, ascending, and keeps the others as inserted (the key
    order of section 10.1.11.1 of ECMA-262). Both are permutations at every depth. */
module JsonOrder {
  import opened Wrappers
  import opened Json
  import opened JsonCost
  import opened Permutation

  datatype Order = Lexical | ArrayIndexFirst

  /** Code-point order of texts. */
  predicate TextLeq(a: string, b: string) {
    a == "" || (b != "" && (a[0] < b[0] || (a[0] == b[0] && TextLeq(a[1..], b[1..]))))
  }

  /** The value of a key that names an array index: canonical decimal below 2^32 - 1. */
  function ArrayIndex(key: string): Option<nat> {
    if key == "0" then Some(0)
    else if 0 < |key| <= 10 && DigitRun(key) == |key| && key[0] != '0' && NatOf(key) < 0xFFFF_FFFF then
      Some(NatOf(key))
    else None
  }

  /** How keys compare while sorting; under the second order any plain key comes last. */
  predicate Leq(o: Order, a: string, b: string) {
    match o
    case Lexical => TextLeq(a, b)
    case ArrayIndexFirst =>
      match (ArrayIndex(a), ArrayIndex(b))
      case (Some(i), Some(j)) => i <= j
      case (_, None) => true
      case (None, Some(_)) => false
  }

  function Insert(o: Order, x: Field, fs: seq<Field>): seq<Field> {
    if fs == [] || Leq(o, x.key, fs[0].key) then [x] + fs else [fs[0]] + Insert(o, x, fs[1..])
  }

  /** A stable sort by key. */
  function Sort(o: Order, fs: seq<Field>): seq<Field> {
    if fs == [] then [] else Insert(o, fs[0], Sort(o, fs[1..]))
  }

  /** The fields whose key is (or is not) an array index, in their own order. */
  function Select(fs: seq<Field>, indexed: bool): seq<Field> {
    if fs == [] then []
    else (if ArrayIndex(fs[0].key).Some? == indexed then [fs[0]] else []) + Select(fs[1..], indexed)
  }

  function Arrange(o: Order, fs: seq<Field>): seq<Field> {
    match o
    case Lexical => Sort(o, fs)
    case ArrayIndexFirst => Sort(o, Select(fs, true)) + Select(fs, false)
  }

  function Canon(o: Order, v: Value): Value
    decreases v, 1
  {
    match v
    case Arr(items) => Arr(seq(|items|, i requires 0 <= i < |items| => Canon(o, items[i])))
    case Obj(fs) => Obj(Arrange(o, CanonFields(o, fs)))
    case _ => v
  }

  function CanonFields(o: Order, fs: seq<Field>): (r: seq<Field>)
    ensures |r| == |fs|
    decreases fs, 0
  {
    seq(|fs|, i requires 0 <= i < |fs| => Field(fs[i].key, Canon(o, fs[i].value)))
  }

  predicate Sorted(o: Order, fs: seq<Field>) {
    forall i, j :: 0 <= i < j < |fs| ==> Leq(o, fs[i].key, fs[j].key)
  }

  // ---------- the comparison is a total preorder

  lemma {:induction false} TextTotal(a: string, b: string)
    ensures TextLeq(a, b) || TextLeq(b, a)
  {
    if a != "" && b != "" && a[0] == b[0] {
      TextTotal(a[1..], b[1..]);
    }
  }

  lemma {:induction false} TextTransitive(a: string, b: string, c: string)
    requires TextLeq(a, b) && TextLeq(b, c)
    ensures TextLeq(a, c)
  {
    if a != "" && a[0] == b[0] == c[0] {
      TextTransitive(a[1..], b[1..], c[1..]);
    }
  }

  lemma LeqTotal(o: Order, a: string, b: string)
    ensures Leq(o, a, b) || Leq(o, b, a)
  {
    TextTotal(a, b);
  }

  lemma LeqTransitive(o: Order, a: string, b: string, c: string)
    requires Leq(o, a, b) && Leq(o, b, c)
    ensures Leq(o, a, c)
  {
    if o == Lexical {
      TextTransitive(a, b, c);
    }
  }

  // ---------- sorting

  lemma {:induction false} InsertPermutes(o: Order, x: Field, fs: seq<Field>)
    ensures multiset(Insert(o, x, fs)) == multiset{x} + multiset(fs)
  {
    if fs != [] && !Leq(o, x.key, fs[0].key) {
      InsertPermutes(o, x, fs[1..]);
      assert fs == [fs[0]] + fs[1..];
    }
  }

  lemma {:induction false} SortPermutes(o: Order, fs: seq<Field>)
    ensures multiset(Sort(o, fs)) == multiset(fs)
  {
    if fs != [] {
      SortPermutes(o, fs[1..]);
      InsertPermutes(o, fs[0], Sort(o, fs[1..]));
      assert fs == [fs[0]] + fs[1..];
    }
  }

  lemma {:induction false} InsertSorts(o: Order, x: Field, fs: seq<Field>)
    requires Sorted(o, fs)
    ensures Sorted(o, Insert(o, x, fs))
  {
    if fs != [] {
      if Leq(o, x.key, fs[0].key) {
        forall j | 0 <= j < |fs| ensures Leq(o, x.key, fs[j].key) {
          if j > 0 { LeqTransitive(o, x.key, fs[0].key, fs[j].key); }
        }
      } else {
        var rest := Insert(o, x, fs[1..]);
        InsertSorts(o, x, fs[1..]);
        InsertPermutes(o, x, fs[1..]);
        LeqTotal(o, x.key, fs[0].key);
        forall j | 0 <= j < |rest| ensures Leq(o, fs[0].key, rest[j].key) {
          assert rest[j] in multiset(rest);
        }
      }
    }
  }

  lemma {:induction false} SortSorts(o: Order, fs: seq<Field>)
    ensures Sorted(o, Sort(o, fs))
  {
    if fs != [] {
      SortSorts(o, fs[1..]);
      InsertSorts(o, fs[0], Sort(o, fs[1..]));
    }
  }

  lemma {:induction false} SortedStays(o: Order, fs: seq<Field>)
    requires Sorted(o, fs)
    ensures Sort(o, fs) == fs
  {
    if fs != [] {
      SortedStays(o, fs[1..]);
      assert |fs| > 1 ==> Leq(o, fs[0].key, fs[1].key);
    }
  }

  lemma {:induction false} SelectPermutes(fs: seq<Field>)
    ensures multiset(Select(fs, true)) + multiset(Select(fs, false)) == multiset(fs)
  {
    if fs != [] {
      SelectPermutes(fs[1..]);
      assert fs == [fs[0]] + fs[1..];
    }
  }

  lemma {:induction false} SelectKind(fs: seq<Field>, indexed: bool)
    ensures forall i :: 0 <= i < |Select(fs, indexed)| ==> ArrayIndex(Select(fs, indexed)[i].key).Some? == indexed
  {
    if fs != [] {
      SelectKind(fs[1..], indexed);
    }
  }

  lemma {:induction false} SelectNone(fs: seq<Field>)
    requires forall i :: 0 <= i < |fs| ==> ArrayIndex(fs[i].key).None?
    ensures Select(fs, true) == [] && Select(fs, false) == fs
  {
    if fs != [] {
      SelectNone(fs[1..]);
    }
  }

  lemma {:induction false} SelectSorted(fs: seq<Field>)
    requires Sorted(ArrayIndexFirst, fs)
    ensures Select(fs, true) + Select(fs, false) == fs
    ensures Sorted(ArrayIndexFirst, Select(fs, true))
  {
    if fs != [] {
      if ArrayIndex(fs[0].key).Some? {
        SelectSorted(fs[1..]);
        var rest := Select(fs[1..], true);
        assert fs == [fs[0]] + fs[1..];
        forall j | 0 <= j < |rest| ensures Leq(ArrayIndexFirst, fs[0].key, rest[j].key) {
          assert fs[1..][j] == rest[j];
        }
      } else {
        forall i | 0 <= i < |fs| ensures ArrayIndex(fs[i].key).None? {
          assert i > 0 ==> Leq(ArrayIndexFirst, fs[0].key, fs[i].key);
        }
        SelectNone(fs);
      }
    }
  }

  /** Arranging moves fields about and nothing else. */
  lemma ArrangePermutes(o: Order, fs: seq<Field>)
    ensures multiset(Arrange(o, fs)) == multiset(fs)
    ensures |Arrange(o, fs)| == |fs|
  {
    if o == Lexical {
      SortPermutes(o, fs);
    } else {
      SelectPermutes(fs);
      SortPermutes(o, Select(fs, true));
    }
    assert |multiset(Arrange(o, fs))| == |multiset(fs)|;
  }

  lemma ArrangeSorts(o: Order, fs: seq<Field>)
    ensures Sorted(o, Arrange(o, fs))
  {
    if o == Lexical {
      SortSorts(o, fs);
    } else {
      var a, b := Sort(o, Select(fs, true)), Select(fs, false);
      SortSorts(o, Select(fs, true));
      SelectKind(fs, false);
      var r := a + b;
      forall i, j | 0 <= i < j < |r| ensures Leq(o, r[i].key, r[j].key) {
      }
    }
  }

  /** What is already in order stays as it is. */
  lemma ArrangeStays(o: Order, fs: seq<Field>)
    requires Sorted(o, fs)
    ensures Arrange(o, fs) == fs
  {
    if o == Lexical {
      SortedStays(o, fs);
    } else {
      SelectSorted(fs);
      SortedStays(o, Select(fs, true));
    }
  }

  /** Index keys ascend in front; the plain keys follow exactly in insertion order. */
  lemma ArrayIndexOrder(fs: seq<Field>)
    ensures var r, n := Arrange(ArrayIndexFirst, fs), |Select(fs, true)|;
      && n <= |r| == |fs|
      && (forall i :: 0 <= i < n ==> ArrayIndex(r[i].key).Some?)
      && (forall i, j :: 0 <= i < j < n ==> ArrayIndex(r[i].key).value <= ArrayIndex(r[j].key).value)
      && r[n..] == Select(fs, false)
  {
    var a := Select(fs, true);
    SortPermutes(ArrayIndexFirst, a);
    assert |multiset(Sort(ArrayIndexFirst, a))| == |multiset(a)|;
    SortSorts(ArrayIndexFirst, a);
    SelectKind(fs, true);
    SelectPermutes(fs);
    assert |multiset(fs)| == |multiset(a)| + |multiset(Select(fs, false))|;
    var r := Sort(ArrayIndexFirst, a);
    forall i | 0 <= i < |r| ensures ArrayIndex(r[i].key).Some? {
      assert r[i] in multiset(a);
    }
    forall i, j | 0 <= i < j < |r| ensures ArrayIndex(r[i].key).value <= ArrayIndex(r[j].key).value {
      assert Leq(ArrayIndexFirst, r[i].key, r[j].key);
    }
  }

  // ---------- canonical trees

  lemma MultisetKeys(a: seq<Field>, b: seq<Field>)
    requires multiset(a) == multiset(b)
    ensures multiset(Keys(a)) == multiset(Keys(b))
  {
    var key := (f: Field) => f.key;
    MapPermuted(key, a, b);
    assert Map(key, a) == Keys(a) && Map(key, b) == Keys(b);
  }

  lemma DistinctPermuted(a: seq<string>, b: seq<string>)
    requires multiset(a) == multiset(b) && Distinct(a)
    ensures Distinct(b)
  {
    forall i, j | 0 <= i < j < |b| ensures b[i] != b[j] {
      if b[i] == b[j] {
        assert b == b[..i] + [b[i]] + b[i + 1..j] + [b[j]] + b[j + 1..];
        assert multiset(b)[b[i]] >= 2;
        OnceIfDistinct(a, b[i]);
      }
    }
  }

  lemma {:induction false} OnceIfDistinct(a: seq<string>, x: string)
    requires Distinct(a)
    ensures multiset(a)[x] <= 1
  {
    if a != [] {
      assert a == [a[0]] + a[1..];
      OnceIfDistinct(a[1..], x);
      if a[0] == x {
        forall i | 0 <= i < |a[1..]| ensures a[1..][i] != x { assert a[i + 1] != a[0]; }
        assert x !in multiset(a[1..]);
      }
    }
  }

  /** Every field of a canonical object comes from one of the object's own fields. */
  lemma ArrangedField(o: Order, fs: seq<Field>, i: nat) returns (j: nat)
    requires i < |Arrange(o, CanonFields(o, fs))|
    ensures j < |fs| && Arrange(o, CanonFields(o, fs))[i] == Field(fs[j].key, Canon(o, fs[j].value))
  {
    var c := CanonFields(o, fs);
    var r := Arrange(o, c);
    ArrangePermutes(o, c);
    assert r[i] in multiset(c);
    j :| 0 <= j < |c| && c[j] == r[i];
  }

  lemma {:induction false} CanonProper(o: Order, v: Value)
    requires Proper(v)
    ensures Proper(Canon(o, v))
  {
    match v
    case Arr(items) => forall i | 0 <= i < |items| { CanonProper(o, items[i]); }
    case Obj(fs) =>
      var c := CanonFields(o, fs);
      var r := Arrange(o, c);
      ArrangePermutes(o, c);
      MultisetKeys(r, c);
      assert Keys(c) == Keys(fs);
      DistinctPermuted(Keys(c), Keys(r));
      forall i | 0 <= i < |r| ensures Proper(r[i].value) {
        var j := ArrangedField(o, fs, i);
        CanonProper(o, fs[j].value);
      }
    case _ =>
  }

  /** Putting a canonical tree in canonical order again changes nothing. */
  lemma {:induction false} CanonIdempotent(o: Order, v: Value)
    ensures Canon(o, Canon(o, v)) == Canon(o, v)
  {
    match v
    case Arr(items) =>
      forall i | 0 <= i < |items| ensures Canon(o, Canon(o, items[i])) == Canon(o, items[i]) {
        CanonIdempotent(o, items[i]);
      }
    case Obj(fs) =>
      var r := Arrange(o, CanonFields(o, fs));
      forall i | 0 <= i < |r| ensures Field(r[i].key, Canon(o, r[i].value)) == r[i] {
        var j := ArrangedField(o, fs, i);
        CanonIdempotent(o, fs[j].value);
      }
      FixedFields(o, r);
      ArrangeSorts(o, CanonFields(o, fs));
      ArrangeStays(o, r);
    case _ =>
  }

  lemma FixedFields(o: Order, r: seq<Field>)
    requires forall i :: 0 <= i < |r| ==> Field(r[i].key, Canon(o, r[i].value)) == r[i]
    ensures CanonFields(o, r) == r
  {
  }

  /** The canonical tree is the same dictionary. */
  lemma {:induction false} CanonSame(o: Order, v: Value)
    ensures Same(v, Canon(o, v))
  {
    match v
    case Arr(items) => forall i | 0 <= i < |items| { CanonSame(o, items[i]); }
    case Obj(fs) =>
      var c := CanonFields(o, fs);
      var r := Arrange(o, c);
      ArrangePermutes(o, c);
      forall i | 0 <= i < |fs| ensures SomeSame(fs[i], r) {
        CanonSame(o, fs[i].value);
        assert c[i] in multiset(c) && c[i] in multiset(r);
        var j :| 0 <= j < |r| && r[j] == c[i];
      }
    case _ =>
  }

  lemma FieldCostsPermuted(a: seq<Field>, b: seq<Field>)
    requires multiset(a) == multiset(b)
    ensures multiset(FieldCosts(a)) == multiset(FieldCosts(b))
  {
    MapPermuted(FieldCost, a, b);
    assert Map(FieldCost, a) == FieldCosts(a) && Map(FieldCost, b) == FieldCosts(b);
  }

  /** Neither order changes how many values or bytes a tree takes. */
  lemma {:induction false} CanonCost(o: Order, v: Value)
    ensures CostOf(Canon(o, v)) == CostOf(v)
  {
    match v
    case Arr(items) =>
      forall i | 0 <= i < |items| ensures CostOf(Canon(o, items[i])) == CostOf(items[i]) {
        CanonCost(o, items[i]);
      }
      assert ItemCosts(Canon(o, v).items) == ItemCosts(items);
    case Obj(fs) =>
      var c := CanonFields(o, fs);
      var r := Arrange(o, c);
      forall i | 0 <= i < |fs| ensures FieldCost(c[i]) == FieldCost(fs[i]) {
        CanonCost(o, fs[i].value);
      }
      assert FieldCosts(c) == FieldCosts(fs);
      ArrangePermutes(o, c);
      FieldCostsPermuted(r, c);
      TotalPermuted(FieldCosts(r), FieldCosts(c));
    case _ =>
  }

  /** Nor how deep it is. */
  lemma {:induction false} CanonHeight(o: Order, v: Value)
    ensures Height(Canon(o, v)) <= Height(v)
  {
    match v
    case Arr(items) =>
      forall i | 0 <= i < |items| { CanonHeight(o, items[i]); }
      ItemsLower(Canon(o, v).items, items);
    case Obj(fs) =>
      var r := Canon(o, v).fields;
      forall i | 0 <= i < |r|
        ensures Under(r[i].value, fs)
      {
        var j := ArrangedField(o, fs, i);
        CanonHeight(o, fs[j].value);
        assert Height(r[i].value) <= Height(fs[j].value);
      }
      FieldsLower(r, fs);
    case _ =>
  }

  /** Some field is at least as deep. */
  predicate Under(v: Value, fs: seq<Field>) {
    exists j :: 0 <= j < |fs| && Height(v) <= Height(fs[j].value)
  }

  lemma ItemsLower(a: seq<Value>, b: seq<Value>)
    requires |a| == |b| && forall i :: 0 <= i < |a| ==> Height(a[i]) <= Height(b[i])
    ensures Height(Arr(a)) <= Height(Arr(b))
  {
    var ha := seq(|a|, i requires 0 <= i < |a| => 1 + Height(a[i]));
    var hb := seq(|b|, i requires 0 <= i < |b| => 1 + Height(b[i]));
    assert Height(Arr(a)) == Highest(ha) && Height(Arr(b)) == Highest(hb);
    if Highest(ha) != 0 {
      var i :| 0 <= i < |ha| && ha[i] == Highest(ha);
      assert ha[i] <= hb[i];
    }
  }

  lemma {:induction false} FieldsLower(a: seq<Field>, b: seq<Field>)
    requires forall i :: 0 <= i < |a| ==> Under(a[i].value, b)
    ensures Height(Obj(a)) <= Height(Obj(b))
  {
    var ha := seq(|a|, i requires 0 <= i < |a| => 1 + Height(a[i].value));
    var hb := seq(|b|, i requires 0 <= i < |b| => 1 + Height(b[i].value));
    assert Height(Obj(a)) == Highest(ha) && Height(Obj(b)) == Highest(hb);
    if Highest(ha) != 0 {
      var i :| 0 <= i < |ha| && ha[i] == Highest(ha);
      assert Under(a[i].value, b);
      var j :| 0 <= j < |b| && Height(a[i].value) <= Height(b[j].value);
      assert ha[i] <= hb[j];
    }
  }
}
