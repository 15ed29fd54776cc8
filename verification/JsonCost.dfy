/** What a tree costs: how many values it holds, how deep it is, and exactly how many
    bytes it takes on the wire. */
module JsonCost {
  import opened Json
  import opened Permutation
  import opened Utf8

  /** The number of values (keys do not count) and of bytes. */
  datatype Cost = Cost(values: nat, bytes: nat) {
    function Plus(c: Cost): Cost {
      Cost(values + c.values, bytes + c.bytes)
    }
  }

  function Total(cs: seq<Cost>): Cost {
    if cs == [] then Cost(0, 0) else cs[0].Plus(Total(cs[1..]))
  }

  function Highest(hs: seq<nat>): (h: nat)
    ensures forall i :: 0 <= i < |hs| ==> hs[i] <= h
    ensures h == 0 || h in hs
  {
    if hs == [] then 0
    else
      var h := Highest(hs[1..]);
      if hs[0] < h then h else hs[0]
  }

  function QuotedBytes(s: string): nat {
    |Encode(Quote(s))|
  }

  /** Brackets and separators around n children. */
  function Frame(n: nat): nat {
    2 + if n == 0 then 0 else n - 1
  }

  function CostOf(v: Value): Cost
    decreases v, 1
  {
    match v
    case Null => Cost(1, 4)
    case Bool(b) => Cost(1, if b then 4 else 5)
    case Num(n) => Cost(1, |Decimal(n)|)
    case Str(s) => Cost(1, QuotedBytes(s))
    case Arr(items) => Cost(1, Frame(|items|)).Plus(Total(ItemCosts(items)))
    case Obj(fs) => Cost(1, Frame(|fs|)).Plus(Total(FieldCosts(fs)))
  }

  function ItemCosts(items: seq<Value>): (r: seq<Cost>)
    ensures |r| == |items|
    decreases items, 0
  {
    seq(|items|, i requires 0 <= i < |items| => CostOf(items[i]))
  }

  function FieldCost(f: Field): Cost
    decreases f, 0
  {
    CostOf(f.value).Plus(Cost(0, QuotedBytes(f.key) + 1))
  }

  function FieldCosts(fs: seq<Field>): (r: seq<Cost>)
    ensures |r| == |fs|
    decreases fs, 0
  {
    seq(|fs|, i requires 0 <= i < |fs| => FieldCost(fs[i]))
  }

  /** Depth below the root. */
  function Height(v: Value): nat
    decreases v
  {
    match v
    case Arr(items) => Highest(seq(|items|, i requires 0 <= i < |items| => 1 + Height(items[i])))
    case Obj(fs) => Highest(seq(|fs|, i requires 0 <= i < |fs| => 1 + Height(fs[i].value)))
    case _ => 0
  }

  lemma {:induction false} TotalConcat(a: seq<Cost>, b: seq<Cost>)
    ensures Total(a + b) == Total(a).Plus(Total(b))
  {
    if a == [] {
      assert a + b == b;
    } else {
      assert (a + b)[1..] == a[1..] + b;
      TotalConcat(a[1..], b);
    }
  }

  /** The total up to and including the i-th part. */
  lemma TotalTo(cs: seq<Cost>, i: nat)
    requires i < |cs|
    ensures Total(cs[..i + 1]) == Total(cs[..i]).Plus(cs[i])
  {
    assert cs[..i + 1] == cs[..i] + [cs[i]];
    TotalConcat(cs[..i], [cs[i]]);
    assert [cs[i]][1..] == [];
  }

  /** A total never falls below what was counted on the way. */
  lemma TotalReaches(cs: seq<Cost>, i: nat)
    requires i < |cs|
    ensures Total(cs).values >= Total(cs[..i]).values + cs[i].values
    ensures Total(cs).bytes >= Total(cs[..i]).bytes + cs[i].bytes
  {
    hide Total;
    TotalTo(cs, i);
    assert cs == cs[..i + 1] + cs[i + 1..];
    TotalConcat(cs[..i + 1], cs[i + 1..]);
  }

  lemma TotalMiddle(left: seq<Cost>, x: Cost, right: seq<Cost>)
    ensures Total(left + ([x] + right)) == x.Plus(Total(left + right))
  {
    TotalConcat(left, [x] + right);
    TotalConcat(left, right);
    assert ([x] + right)[1..] == right;
  }

  lemma TotalWithout(b: seq<Cost>, j: nat)
    requires j < |b|
    ensures Total(b) == b[j].Plus(Total(Without(b, j)))
  {
    TotalMiddle(b[..j], b[j], b[j + 1..]);
    Around(b, j);
  }

  /** A total does not depend on the order of its parts. */
  lemma {:induction false} TotalPermuted(a: seq<Cost>, b: seq<Cost>)
    requires multiset(a) == multiset(b)
    ensures Total(a) == Total(b)
  {
    if a == [] {
      assert |b| == |multiset(b)| == |multiset(a)| == 0;
    } else {
      assert a[0] in multiset(b);
      var j :| 0 <= j < |b| && b[j] == a[0];
      WithoutMultiset(a, 0);
      WithoutMultiset(b, j);
      assert multiset(Without(a, 0)) == multiset(a) - multiset{a[0]};
      TotalPermuted(Without(a, 0), Without(b, j));
      TotalWithout(a, 0);
      TotalWithout(b, j);
    }
  }

  /** Escaping never shortens text, and the two quotes take a byte each. */
  lemma QuotedLength(s: string)
    ensures QuotedBytes(s) == |Encode(Escape(s))| + 2
    ensures |Encode(Escape(s))| >= |Encode(s)|
  {
    EscapedLength(s);
    EncodeConcat("\"" + Escape(s), "\"");
    EncodeConcat("\"", Escape(s));
    assert Quote(s) == "\"" + Escape(s) + "\"";
    AsciiLength("\"");
  }

  lemma {:induction false} EscapedLength(s: string)
    ensures |Encode(Escape(s))| >= |Encode(s)|
  {
    if s != "" {
      var e := EscapeChar(s[0]);
      EncodeConcat(e, Escape(s[1..]));
      EscapedCharLength(s[0]);
      EscapedLength(s[1..]);
    }
  }

  lemma EscapedCharLength(c: char)
    ensures |Encode(EscapeChar(c))| >= |EncodeChar(c)|
    ensures c >= ' ' && c != '\"' && c != '\\' ==> Encode(EscapeChar(c)) == EncodeChar(c)
  {
    var e := EscapeChar(c);
    if e == [c] {
      assert Encode([c]) == EncodeChar(c) + Encode([c][1..]);
    } else {
      EncodeLength(e);
    }
  }

  /** Printable ASCII that needs no escape. */
  predicate Plain(s: string) {
    forall i :: 0 <= i < |s| ==> ' ' <= s[i] < 127 as char && s[i] != '\"' && s[i] != '\\'
  }

  lemma {:induction false} PlainEscape(s: string)
    requires Plain(s)
    ensures Escape(s) == s
  {
    if s != "" {
      PlainEscape(s[1..]);
      assert s == [s[0]] + s[1..];
    }
  }

  /** Plain text takes a byte a character, and its quotes. */
  lemma PlainBytes(s: string)
    requires Plain(s)
    ensures QuotedBytes(s) == |s| + 2
  {
    QuotedLength(s);
    PlainEscape(s);
    AsciiLength(s);
  }

  /** The running total is the length of the text on the wire. */
  lemma {:induction false} PrintedBytes(v: Value)
    ensures |Encode(Print(v))| == CostOf(v).bytes
    decreases v, 1
  {
    match v
    case Null => AsciiLength("null");
    case Bool(b) => AsciiLength(if b then "true" else "false");
    case Num(n) => AsciiLength(Decimal(n));
    case Str(s) =>
    case Arr(items) =>
      PrintedItems(items);
      Bracketed("[", PrintItems(items), "]");
    case Obj(fs) =>
      PrintedFields(fs);
      Bracketed("{", PrintFields(fs), "}");
  }

  lemma Bracketed(left: string, inner: string, right: string)
    requires left in {"[", "{"} && right in {"]", "}"}
    ensures |Encode(left + inner + right)| == |Encode(inner)| + 2
  {
    EncodeConcat(left + inner, right);
    EncodeConcat(left, inner);
    AsciiLength(left);
    AsciiLength(right);
  }

  lemma CommaLength(head: string, rest: string)
    ensures |Encode(head + ("," + rest))| == |Encode(head)| + 1 + |Encode(rest)|
  {
    EncodeConcat(head, "," + rest);
    EncodeConcat(",", rest);
    AsciiLength(",");
  }

  lemma {:induction false} PrintedItems(items: seq<Value>)
    ensures |Encode(PrintItems(items))| + 2 == Total(ItemCosts(items)).bytes + Frame(|items|)
    decreases items, 0
  {
    if items != [] {
      PrintedBytes(items[0]);
      PrintedItems(items[1..]);
      assert ItemCosts(items)[1..] == ItemCosts(items[1..]);
      CommaLength(Print(items[0]), PrintItems(items[1..]));
      if |items| == 1 {
        assert Print(items[0]) + "" == Print(items[0]);
      }
    }
  }

  lemma {:induction false} PrintedFields(fs: seq<Field>)
    ensures |Encode(PrintFields(fs))| + 2 == Total(FieldCosts(fs)).bytes + Frame(|fs|)
    decreases fs, 0
  {
    if fs != [] {
      var head := Quote(fs[0].key) + ":" + Print(fs[0].value);
      PrintedBytes(fs[0].value);
      PrintedFields(fs[1..]);
      assert FieldCosts(fs)[1..] == FieldCosts(fs[1..]);
      EncodeConcat(Quote(fs[0].key) + ":", Print(fs[0].value));
      EncodeConcat(Quote(fs[0].key), ":");
      AsciiLength(":");
      CommaLength(head, PrintFields(fs[1..]));
      if |fs| == 1 {
        assert head + "" == head;
      }
    }
  }

  // ---------- text that JSON may hold

  predicate Blank(c: char) { c == '\t' || c == '\n' || c == '\r' }

  /** No control character but the three blanks. */
  predicate Tame(s: string) {
    forall i :: 0 <= i < |s| ==> s[i] >= ' ' || Blank(s[i])
  }

  lemma EscapedCharAtMost(c: char)
    requires c >= ' ' || Blank(c)
    ensures |Encode(EscapeChar(c))| <= 2 * |EncodeChar(c)|
  {
    var e := EscapeChar(c);
    if e == [c] {
      assert Encode([c]) == EncodeChar(c) + Encode([c][1..]);
    } else {
      AsciiLength(e);
    }
  }

  /** Written into JSON again, such text takes at most two bytes for each of its bytes. */
  lemma {:induction false} EscapeAtMostDoubles(s: string)
    requires Tame(s)
    ensures |Encode(Escape(s))| <= 2 * |Encode(s)|
  {
    if s != "" {
      EscapedCharAtMost(s[0]);
      EscapeAtMostDoubles(s[1..]);
      EncodeConcat(EscapeChar(s[0]), Escape(s[1..]));
    }
  }

  // ---------- small pieces

  lemma TwoFields(k: string, v: Value, l: string, w: Value)
    ensures CostOf(Obj([Field(k, v), Field(l, w)])).bytes == 5 + QuotedBytes(k) + CostOf(v).bytes + QuotedBytes(l) + CostOf(w).bytes
  {
    var fs := [Field(k, v), Field(l, w)];
    var cs := FieldCosts(fs);
    assert cs == [FieldCost(fs[0]), FieldCost(fs[1])];
    assert cs[1..] == [FieldCost(fs[1])] && cs[1..][1..] == [];
    assert Total(cs) == cs[0].Plus(Total(cs[1..])) && Total(cs[1..]) == cs[1].Plus(Total([]));
    assert CostOf(Obj(fs)) == Cost(1, Frame(2)).Plus(Total(cs));
  }

  lemma OneItem(v: Value)
    ensures CostOf(Arr([v])).bytes == 2 + CostOf(v).bytes
  {
    var items := [v];
    var cs := ItemCosts(items);
    assert cs == [CostOf(v)] && cs[1..] == [];
    assert CostOf(Arr(items)) == Cost(1, Frame(1)).Plus(Total(cs));
  }

  lemma LeafBytes(b: bool, s: string)
    ensures CostOf(Bool(b)).bytes <= 5 && CostOf(Str(s)).bytes == QuotedBytes(s)
  {
  }

  /** A number below a power of ten has at most so many digits. */
  lemma {:induction false} DigitsShort(n: nat, places: nat, limit: nat)
    requires places >= 1 && n < limit && limit == Ten(places)
    ensures |Digits(n)| <= places
    decreases places
  {
    if n >= 10 { DigitsShort(n / 10, places - 1, Ten(places - 1)); }
  }

  function Ten(places: nat): nat { if places == 0 then 1 else 10 * Ten(places - 1) }
}
