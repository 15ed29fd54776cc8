/** JSON trees as both codecs see them: compact printing, the parser for exactly what
    is printed, the size arithmetic, and Python's dictionary equality. A dictionary is
    a sequence of fields in insertion order. */
module Json {
  import opened Wrappers
  import opened Utf8

  datatype Value =
    | Null
    | Bool(b: bool)
    | Num(n: int)
    | Str(s: string)
    | Arr(items: seq<Value>)
    | Obj(fields: seq<Field>)

  datatype Field = Field(key: string, value: Value)

  function Keys(fs: seq<Field>): (r: seq<string>)
    ensures |r| == |fs|
    ensures forall i :: 0 <= i < |fs| ==> r[i] == fs[i].key
  {
    seq(|fs|, i requires 0 <= i < |fs| => fs[i].key)
  }

  predicate Distinct(ks: seq<string>) {
    forall i, j :: 0 <= i < j < |ks| ==> ks[i] != ks[j]
  }

  /** Every dictionary in the tree has distinct keys, as Python dictionaries do. */
  predicate Proper(v: Value)
    decreases v
  {
    match v
    case Arr(items) => forall i :: 0 <= i < |items| ==> Proper(items[i])
    case Obj(fs) => Distinct(Keys(fs)) && forall i :: 0 <= i < |fs| ==> Proper(fs[i].value)
    case _ => true
  }

  /** Dictionary equality: the order of keys does not matter. */
  predicate Same(v: Value, w: Value)
    decreases v, 1
  {
    match (v, w)
    case (Arr(a), Arr(b)) => |a| == |b| && forall i :: 0 <= i < |a| ==> Same(a[i], b[i])
    case (Obj(a), Obj(b)) =>
      |a| == |b| && forall i :: 0 <= i < |a| ==> SomeSame(a[i], b)
    case (Arr(_), _) => false
    case (Obj(_), _) => false
    case _ => v == w
  }

  predicate SomeSame(f: Field, fs: seq<Field>)
    decreases f, 0
  {
    exists j :: 0 <= j < |fs| && f.key == fs[j].key && Same(f.value, fs[j].value)
  }

  // ---------- printing

  function Digit(n: nat): (c: char)
    requires n < 10
    ensures IsDigit(c) && c as int - '0' as int == n
  {
    ('0' as int + n) as char
  }

  predicate IsDigit(c: char) {
    '0' <= c <= '9'
  }

  function Digits(n: nat): (r: string)
    ensures |r| > 0 && forall i :: 0 <= i < |r| ==> IsDigit(r[i])
  {
    if n < 10 then [Digit(n)] else Digits(n / 10) + [Digit(n % 10)]
  }

  function Decimal(n: int): string {
    if n < 0 then "-" + Digits(-n) else Digits(n)
  }

  function Hex(n: nat): char
    requires n < 16
  {
    "0123456789abcdef"[n]
  }

  /** The escapes of Python's serialiser when non-ASCII text is kept. */
  function EscapeChar(c: char): (r: string)
    ensures r != ""
  {
    if c == '\"' then "\\\""
    else if c == '\\' then "\\\\"
    else if c == '\n' then "\\n"
    else if c == '\r' then "\\r"
    else if c == '\t' then "\\t"
    else if c as int == 8 then "\\b"
    else if c as int == 12 then "\\f"
    else if c < ' ' then "\\u00" + [Hex(c as int / 16), Hex(c as int % 16)]
    else [c]
  }

  function Escape(s: string): string {
    if s == "" then "" else EscapeChar(s[0]) + Escape(s[1..])
  }

  function Quote(s: string): string {
    "\"" + Escape(s) + "\""
  }

  function Print(v: Value): string
    decreases v, 1
  {
    match v
    case Null => "null"
    case Bool(b) => if b then "true" else "false"
    case Num(n) => Decimal(n)
    case Str(s) => Quote(s)
    case Arr(items) => "[" + PrintItems(items) + "]"
    case Obj(fs) => "{" + PrintFields(fs) + "}"
  }

  function PrintItems(items: seq<Value>): string
    decreases items, 0
  {
    if items == [] then ""
    else Print(items[0]) + if |items| == 1 then "" else "," + PrintItems(items[1..])
  }

  function PrintFields(fs: seq<Field>): string
    decreases fs, 0
  {
    if fs == [] then ""
    else Quote(fs[0].key) + ":" + Print(fs[0].value) + if |fs| == 1 then "" else "," + PrintFields(fs[1..])
  }

  // ---------- parsing

  function UnHex(c: char): (r: Option<nat>)
    ensures r.Some? ==> r.value < 16
  {
    if IsDigit(c) then Some(c as int - '0' as int)
    else if 'a' <= c <= 'f' then Some(c as int - 'a' as int + 10)
    else None
  }

  /** One escape after the backslash, with the number of characters it takes. */
  function ParseEscape(s: string): (r: Option<(char, nat)>)
    ensures r.Some? ==> 0 < r.value.1 <= |s|
  {
    if s == "" then None
    else if s[0] == '\"' || s[0] == '\\' then Some((s[0], 1))
    else if s[0] == 'n' then Some(('\n', 1))
    else if s[0] == 'r' then Some(('\r', 1))
    else if s[0] == 't' then Some(('\t', 1))
    else if s[0] == 'b' then Some((8 as char, 1))
    else if s[0] == 'f' then Some((12 as char, 1))
    else if "u00" <= s && |s| >= 5 && UnHex(s[3]).Some? && UnHex(s[4]).Some? then
      Some(((UnHex(s[3]).value * 16 + UnHex(s[4]).value) as char, 5))
    else None
  }

  /** The rest of a string literal after its opening quote. */
  function ParseChars(s: string): (r: Option<(string, string)>)
    ensures r.Some? ==> |r.value.1| < |s|
  {
    if s == "" || s[0] < ' ' then None
    else if s[0] == '\"' then Some(("", s[1..]))
    else if s[0] == '\\' then
      match ParseEscape(s[1..])
      case None => None
      case Some((c, n)) =>
        match ParseChars(s[1 + n..])
        case None => None
        case Some((t, rest)) => Some(([c] + t, rest))
    else
      match ParseChars(s[1..])
      case None => None
      case Some((t, rest)) => Some(([s[0]] + t, rest))
  }

  function DigitRun(s: string): (n: nat)
    ensures n <= |s|
    ensures forall i :: 0 <= i < n ==> IsDigit(s[i])
    ensures n == |s| || !IsDigit(s[n])
  {
    if s == "" || !IsDigit(s[0]) then 0 else 1 + DigitRun(s[1..])
  }

  function NatOf(s: string): nat
    requires forall i :: 0 <= i < |s| ==> IsDigit(s[i])
  {
    if s == "" then 0
    else
      assert IsDigit(s[|s| - 1]);
      NatOf(s[..|s| - 1]) * 10 + (s[|s| - 1] as int - '0' as int)
  }

  function ParseValue(s: string): (r: Option<(Value, string)>)
    ensures r.Some? ==> |r.value.1| < |s|
    decreases |s|, 0
  {
    if s == "" then None
    else if s[0] == 'n' then if "null" <= s then Some((Null, s[4..])) else None
    else if s[0] == 't' then if "true" <= s then Some((Bool(true), s[4..])) else None
    else if s[0] == 'f' then if "false" <= s then Some((Bool(false), s[5..])) else None
    else if s[0] == '\"' then
      match ParseChars(s[1..])
      case None => None
      case Some((t, rest)) => Some((Str(t), rest))
    else if s[0] == '[' then
      if |s| >= 2 && s[1] == ']' then Some((Arr([]), s[2..]))
      else match ParseItems(s[1..])
        case None => None
        case Some((items, rest)) => Some((Arr(items), rest))
    else if s[0] == '{' then
      if |s| >= 2 && s[1] == '}' then Some((Obj([]), s[2..]))
      else match ParseFields(s[1..])
        case None => None
        case Some((fs, rest)) => if Distinct(Keys(fs)) then Some((Obj(fs), rest)) else None
    else if s[0] == '-' then
      var n := DigitRun(s[1..]);
      if n == 0 then None else Some((Num(0 - NatOf(s[1..][..n])), s[1..][n..]))
    else
      var n := DigitRun(s);
      if n == 0 then None else Some((Num(NatOf(s[..n])), s[n..]))
  }

  function ParseItems(s: string): (r: Option<(seq<Value>, string)>)
    ensures r.Some? ==> |r.value.1| < |s|
    decreases |s|, 1
  {
    match ParseValue(s)
    case None => None
    case Some((v, rest)) =>
      if rest == "" then None
      else if rest[0] == ']' then Some(([v], rest[1..]))
      else if rest[0] != ',' then None
      else match ParseItems(rest[1..])
        case None => None
        case Some((more, end)) => Some(([v] + more, end))
  }

  function ParseFields(s: string): (r: Option<(seq<Field>, string)>)
    ensures r.Some? ==> |r.value.1| < |s|
    decreases |s|, 1
  {
    if s == "" || s[0] != '\"' then None
    else match ParseChars(s[1..])
      case None => None
      case Some((key, colon)) =>
        if colon == "" || colon[0] != ':' then None
        else match ParseValue(colon[1..])
          case None => None
          case Some((v, rest)) =>
            if rest == "" then None
            else if rest[0] == '}' then Some(([Field(key, v)], rest[1..]))
            else if rest[0] != ',' then None
            else match ParseFields(rest[1..])
              case None => None
              case Some((more, end)) => Some(([Field(key, v)] + more, end))
  }

  /** A whole text: nothing may follow the value. */
  function Parse(s: string): Option<Value> {
    match ParseValue(s)
    case None => None
    case Some((v, rest)) => if rest == "" then Some(v) else None
  }

  // ---------- the parser undoes the printer

  lemma {:induction false} NatOfDigits(n: nat)
    ensures NatOf(Digits(n)) == n
  {
    if n >= 10 {
      NatOfDigits(n / 10);
      var d := Digits(n);
      assert d[..|d| - 1] == Digits(n / 10);
    }
  }

  /** Distinct numbers have distinct texts. */
  lemma DigitsInjective(m: nat, n: nat)
    requires Digits(m) == Digits(n)
    ensures m == n
  {
    NatOfDigits(m);
    NatOfDigits(n);
  }

  lemma {:induction false} DigitRunStops(d: string, rest: string)
    requires forall i :: 0 <= i < |d| ==> IsDigit(d[i])
    requires rest == "" || !IsDigit(rest[0])
    ensures DigitRun(d + rest) == |d|
  {
    if d == "" {
      assert d + rest == rest;
    } else {
      assert (d + rest)[1..] == d[1..] + rest;
      DigitRunStops(d[1..], rest);
    }
  }

  lemma UnHexHex(n: nat)
    requires n < 16
    ensures UnHex(Hex(n)) == Some(n)
  {
  }

  /** The control characters that have no short escape. */
  predicate LongEscape(c: char) {
    c < ' ' && c as int !in {8, 9, 10, 12, 13}
  }

  lemma ParseLongEscape(c: char, rest: string)
    requires LongEscape(c)
    ensures EscapeChar(c) == "\\u00" + [Hex(c as int / 16), Hex(c as int % 16)]
    ensures ParseEscape(EscapeChar(c)[1..] + rest) == Some((c, |EscapeChar(c)| - 1))
  {
    var hi, lo := Hex(c as int / 16), Hex(c as int % 16);
    UnHexHex(c as int / 16);
    UnHexHex(c as int % 16);
    var t := EscapeChar(c)[1..] + rest;
    assert t == ['u', '0', '0', hi, lo] + rest;
    assert "u00" == ['u', '0', '0'] <= t;
  }

  lemma ParseEscapedChar(c: char, rest: string)
    requires EscapeChar(c)[0] == '\\'
    ensures ParseEscape(EscapeChar(c)[1..] + rest) == Some((c, |EscapeChar(c)| - 1))
  {
    if LongEscape(c) {
      ParseLongEscape(c, rest);
    } else {
      assert |EscapeChar(c)| == 2;
      assert EscapeChar(c)[1..] + rest == [EscapeChar(c)[1]] + rest;
    }
  }

  /** Text that starts with a backslash, an escape and then more. */
  lemma Escaped(e: string, tail: string)
    requires e != ""
    ensures (e + tail)[0] == e[0] && (e + tail)[1..] == e[1..] + tail && (e + tail)[1 + (|e| - 1)..] == tail
  {
  }

  /** One character of a quoted string, and then the rest of it. */
  lemma ReadChar(c: char, e: string, tail: string, more: string, rest: string)
    requires e == EscapeChar(c) && ParseChars(tail) == Some((more, rest))
    ensures ParseChars(e + tail) == Some(([c] + more, rest))
  {
    Escaped(e, tail);
    if e[0] == '\\' {
      ParseEscapedChar(c, tail);
    }
  }

  lemma {:induction false} ParsePrintedChars(s: string, rest: string)
    ensures ParseChars(Escape(s) + "\"" + rest) == Some((s, rest))
  {
    hide ParseChars;
    if s == "" {
      EmptyChars(rest);
    } else {
      var e, tail := EscapeChar(s[0]), Escape(s[1..]) + "\"" + rest;
      assert Escape(s) + "\"" + rest == e + tail;
      ParsePrintedChars(s[1..], rest);
      ReadChar(s[0], e, tail, s[1..], rest);
      assert [s[0]] + s[1..] == s;
    }
  }

  lemma EmptyChars(rest: string)
    ensures ParseChars(Escape("") + "\"" + rest) == Some(("", rest))
  {
    assert Escape("") + "\"" + rest == "\"" + rest;
  }

  /** What may follow a number without being read as part of it. */
  predicate Ends(rest: string) {
    rest == "" || !IsDigit(rest[0])
  }

  lemma ParseDigits(n: nat, rest: string)
    requires Ends(rest)
    ensures var t := Digits(n) + rest;
      DigitRun(t) == |Digits(n)| && t[..|Digits(n)|] == Digits(n) && t[|Digits(n)|..] == rest
  {
    var d := Digits(n);
    DigitRunStops(d, rest);
    assert (d + rest)[..|d|] == d && (d + rest)[|d|..] == rest;
  }

  lemma ParsePrintedNumber(n: int, rest: string)
    requires Ends(rest)
    ensures ParseValue(Decimal(n) + rest) == Some((Num(n), rest))
  {
    hide ParseValue, DigitRun, NatOf, Digits;
    var m := if n < 0 then -n else n;
    NatOfDigits(m);
    ParseDigits(m, rest);
    if n < 0 {
      assert (Decimal(n) + rest)[1..] == Digits(m) + rest;
      ReadNegative(Decimal(n) + rest, |Digits(m)|);
    } else {
      ReadNatural(Decimal(n) + rest, |Digits(m)|);
    }
  }

  lemma ReadNegative(t: string, n: nat)
    requires t != "" && t[0] == '-' && 0 < n == DigitRun(t[1..])
    ensures ParseValue(t) == Some((Num(0 - NatOf(t[1..][..n])), t[1..][n..]))
  {}

  lemma ReadNatural(t: string, n: nat)
    requires t != "" && IsDigit(t[0]) && 0 < n == DigitRun(t)
    ensures ParseValue(t) == Some((Num(NatOf(t[..n])), t[n..]))
  {}

  lemma ReadArray(t: string, items: seq<Value>, rest: string)
    requires |t| >= 2 && t[0] == '[' && t[1] != ']' && ParseItems(t[1..]) == Some((items, rest))
    ensures ParseValue(t) == Some((Arr(items), rest))
  {}

  lemma ReadObject(t: string, fs: seq<Field>, rest: string)
    requires |t| >= 2 && t[0] == '{' && t[1] != '}' && ParseFields(t[1..]) == Some((fs, rest))
    requires Distinct(Keys(fs))
    ensures ParseValue(t) == Some((Obj(fs), rest))
  {}

  lemma ReadLastItem(t: string, v: Value, rest: string)
    requires ParseValue(t) == Some((v, "]" + rest))
    ensures ParseItems(t) == Some(([v], rest))
  {
    assert ("]" + rest)[1..] == rest;
  }

  lemma ReadItem(t: string, v: Value, next: string, more: seq<Value>, rest: string)
    requires ParseValue(t) == Some((v, "," + next))
    requires ParseItems(next) == Some((more, rest))
    ensures ParseItems(t) == Some(([v] + more, rest))
  {
    assert ("," + next)[1..] == next;
  }

  lemma ReadLastField(t: string, key: string, colon: string, v: Value, rest: string)
    requires t != "" && t[0] == '\"' && ParseChars(t[1..]) == Some((key, ":" + colon))
    requires ParseValue(colon) == Some((v, "}" + rest))
    ensures ParseFields(t) == Some(([Field(key, v)], rest))
  {
    assert (":" + colon)[1..] == colon;
    assert ("}" + rest)[1..] == rest;
  }

  lemma ReadField(t: string, key: string, colon: string, v: Value, next: string, more: seq<Field>, rest: string)
    requires t != "" && t[0] == '\"' && ParseChars(t[1..]) == Some((key, ":" + colon))
    requires ParseValue(colon) == Some((v, "," + next))
    requires ParseFields(next) == Some((more, rest))
    ensures ParseFields(t) == Some(([Field(key, v)] + more, rest))
  {
    assert (":" + colon)[1..] == colon;
    assert ("," + next)[1..] == next;
  }

  lemma ReadWord(v: Value, word: string, rest: string)
    requires (v == Null && word == "null") || (v == Bool(true) && word == "true") || (v == Bool(false) && word == "false")
    ensures ParseValue(word + rest) == Some((v, rest))
  {
    var t := word + rest;
    assert word <= t && t[|word|..] == rest && t[0] == word[0];
  }

  lemma ReadText(s: string, rest: string)
    ensures ParseValue(Quote(s) + rest) == Some((Str(s), rest))
  {
    var t := Quote(s) + rest;
    ParsePrintedChars(s, rest);
    assert t[0] == '\"' && t[1..] == Escape(s) + "\"" + rest;
  }

  lemma ReadEmpty(v: Value, rest: string)
    requires v == Arr([]) || v == Obj([])
    ensures ParseValue(Print(v) + rest) == Some((v, rest))
  {
    var t := Print(v) + rest;
    assert |Print(v)| == 2 && t[2..] == rest;
  }

  lemma ReadScalar(v: Value, rest: string)
    requires v.Null? || v.Bool? || v.Str? || v == Arr([]) || v == Obj([])
    ensures ParseValue(Print(v) + rest) == Some((v, rest))
  {
    match v
    case Str(s) => ReadText(s, rest);
    case Arr(_) => ReadEmpty(v, rest);
    case Obj(_) => ReadEmpty(v, rest);
    case _ => ReadWord(v, Print(v), rest);
  }

  lemma PrintStarts(v: Value)
    ensures Print(v) != "" && Print(v)[0] != ']' && Print(v)[0] != '}'
  {
  }

  lemma PrintFieldsStart(fs: seq<Field>)
    requires fs != []
    ensures PrintFields(fs) != "" && PrintFields(fs)[0] == '\"'
  {
  }

  lemma PrintItemsStart(items: seq<Value>)
    requires items != []
    ensures PrintItems(items) != "" && PrintItems(items)[0] != ']'
  {
    PrintStarts(items[0]);
  }

  /** What remains of bracketed text after its first character. */
  lemma Opened(left: char, inner: string, right: char, rest: string)
    requires inner != ""
    ensures var t := [left] + inner + [right] + rest;
      |t| >= 2 && t[0] == left && t[1] == inner[0] && t[1..] == inner + [right] + rest
  {
  }

  lemma ReadArrayText(inner: string, items: seq<Value>, rest: string)
    requires inner != "" && inner[0] != ']' && ParseItems(inner + "]" + rest) == Some((items, rest))
    ensures ParseValue("[" + inner + "]" + rest) == Some((Arr(items), rest))
  {
    Opened('[', inner, ']', rest);
    ReadArray("[" + inner + "]" + rest, items, rest);
  }

  lemma {:induction false} ReadObjectText(inner: string, fs: seq<Field>, rest: string)
    requires inner != "" && inner[0] != '}' && ParseFields(inner + "}" + rest) == Some((fs, rest))
    requires Distinct(Keys(fs))
    ensures ParseValue("{" + inner + "}" + rest) == Some((Obj(fs), rest))
  {
    Opened('{', inner, '}', rest);
    ReadObject("{" + inner + "}" + rest, fs, rest);
  }

  lemma {:induction false} ParsePrinted(v: Value, rest: string)
    requires Proper(v) && Ends(rest)
    ensures ParseValue(Print(v) + rest) == Some((v, rest))
    decreases v, 1
  {
    if v.Num? {
      ParsePrintedNumber(v.n, rest);
    } else if v.Arr? && v.items != [] {
      ParsePrintedItems(v.items, rest);
      PrintItemsStart(v.items);
      ReadArrayText(PrintItems(v.items), v.items, rest);
    } else if v.Obj? && v.fields != [] {
      ParsePrintedFields(v.fields, rest);
      PrintFieldsStart(v.fields);
      ReadObjectText(PrintFields(v.fields), v.fields, rest);
    } else {
      ReadScalar(v, rest);
    }
  }

  lemma {:induction false} ParsePrintedItems(items: seq<Value>, rest: string)
    requires items != [] && forall i :: 0 <= i < |items| ==> Proper(items[i])
    ensures ParseItems(PrintItems(items) + "]" + rest) == Some((items, rest))
    decreases items, 0
  {
    hide ParseItems, ParseValue, Print, Proper;
    var t := PrintItems(items) + "]" + rest;
    if |items| == 1 {
      assert t == Print(items[0]) + ("]" + rest);
      ParsePrinted(items[0], "]" + rest);
      ReadLastItem(t, items[0], rest);
      assert [items[0]] == items;
    } else {
      var next := PrintItems(items[1..]) + "]" + rest;
      assert t == Print(items[0]) + ("," + next);
      ParsePrinted(items[0], "," + next);
      ParsePrintedItems(items[1..], rest);
      ReadItem(t, items[0], next, items[1..], rest);
      assert [items[0]] + items[1..] == items;
    }
  }

  /** What follows the first field: nothing, or a comma and the others. */
  function MoreFields(fs: seq<Field>): string
    requires fs != []
  {
    if |fs| == 1 then "" else "," + PrintFields(fs[1..])
  }

  lemma PrintFirstField(fs: seq<Field>)
    requires fs != []
    ensures PrintFields(fs) == "\"" + Escape(fs[0].key) + "\"" + ":" + Print(fs[0].value) + MoreFields(fs)
  {
  }

  lemma Regroup(e: string, p: string, tail: string, rest: string)
    ensures var t := "\"" + e + "\"" + ":" + p + tail + rest;
      t != "" && t[0] == '\"' && t[1..] == e + "\"" + (":" + (p + (tail + rest)))
  {
  }

  lemma {:induction false} FieldText(fs: seq<Field>, rest: string)
    requires fs != []
    ensures var t := PrintFields(fs) + "}" + rest;
      && t != "" && t[0] == '\"'
      && t[1..] == Escape(fs[0].key) + "\"" + (":" + (Print(fs[0].value) + (MoreFields(fs) + ("}" + rest))))
  {
    var t := PrintFields(fs);
    PrintFirstField(fs);
    Regroup(Escape(fs[0].key), Print(fs[0].value), MoreFields(fs), "}" + rest);
    Associate(t, "}", rest);
  }

  lemma Associate(a: string, b: string, c: string)
    ensures a + b + c == a + (b + c)
  {
  }

  lemma AfterFields(fs: seq<Field>, rest: string)
    requires |fs| > 1
    ensures MoreFields(fs) + ("}" + rest) == "," + (PrintFields(fs[1..]) + "}" + rest)
  {
  }

  lemma {:induction false} ParsePrintedFields(fs: seq<Field>, rest: string)
    requires fs != [] && forall i :: 0 <= i < |fs| ==> Proper(fs[i].value)
    ensures ParseFields(PrintFields(fs) + "}" + rest) == Some((fs, rest))
    decreases fs, 0
  {
    var key, v := fs[0].key, fs[0].value;
    var after := MoreFields(fs) + ("}" + rest);
    FieldText(fs, rest);
    ParsePrintedChars(key, ":" + (Print(v) + after));
    if |fs| == 1 {
      assert after == "}" + rest;
      ParsePrinted(v, after);
      ReadLastField(PrintFields(fs) + "}" + rest, key, Print(v) + after, v, rest);
      assert [Field(key, v)] == fs;
    } else {
      AfterFields(fs, rest);
      ParsePrinted(v, after);
      ParsePrintedFields(fs[1..], rest);
      ReadField(PrintFields(fs) + "}" + rest, key, Print(v) + after, v, PrintFields(fs[1..]) + "}" + rest, fs[1..], rest);
      assert [Field(key, v)] + fs[1..] == fs;
    }
  }

  lemma ParsePrint(v: Value)
    requires Proper(v)
    ensures Parse(Print(v)) == Some(v)
  {
    ParsePrinted(v, "");
    assert Print(v) + "" == Print(v);
  }

  lemma ParseProper(s: string)
    requires Parse(s).Some?
    ensures Proper(Parse(s).value)
  {
    ReadProper(s);
  }

  lemma {:induction false} ReadProper(s: string)
    ensures ParseValue(s).Some? ==> Proper(ParseValue(s).value.0)
    decreases |s|, 0
  {
    if ParseValue(s).Some? {
      if s[0] == '[' && !(|s| >= 2 && s[1] == ']') {
        ReadItemsProper(s[1..]);
      } else if s[0] == '{' && !(|s| >= 2 && s[1] == '}') {
        ReadFieldsProper(s[1..]);
      }
    }
  }

  lemma {:induction false} ReadItemsProper(s: string)
    ensures ParseItems(s).Some? ==> forall i :: 0 <= i < |ParseItems(s).value.0| ==> Proper(ParseItems(s).value.0[i])
    decreases |s|, 1
  {
    if ParseItems(s).Some? {
      ReadProper(s);
      var rest := ParseValue(s).value.1;
      if rest[0] == ',' { ReadItemsProper(rest[1..]); }
    }
  }

  lemma {:induction false} ReadFieldsProper(s: string)
    ensures ParseFields(s).Some? ==> forall i :: 0 <= i < |ParseFields(s).value.0| ==> Proper(ParseFields(s).value.0[i].value)
    decreases |s|, 1
  {
    if ParseFields(s).Some? {
      var colon := ParseChars(s[1..]).value.1;
      ReadProper(colon[1..]);
      var rest := ParseValue(colon[1..]).value.1;
      if rest[0] == ',' { ReadFieldsProper(rest[1..]); }
    }
  }

  // ---------- printed text holds no control character

  lemma {:induction false} EscapeClean(s: string)
    ensures forall i :: 0 <= i < |Escape(s)| ==> Escape(s)[i] >= ' '
  {
    if s != "" {
      EscapeClean(s[1..]);
    }
  }

  predicate Clean(s: string) {
    forall i :: 0 <= i < |s| ==> s[i] >= ' '
  }

  lemma CleanConcat(a: string, b: string)
    requires Clean(a) && Clean(b)
    ensures Clean(a + b)
  {
  }

  lemma {:induction false} PrintClean(v: Value)
    ensures Clean(Print(v))
    decreases v, 1
  {
    match v
    case Str(s) => EscapeClean(s);
    case Arr(items) =>
      ItemsClean(items);
      CleanConcat("[" + PrintItems(items), "]");
    case Obj(fs) =>
      FieldsClean(fs);
      CleanConcat("{" + PrintFields(fs), "}");
    case _ =>
  }

  lemma {:induction false} ItemsClean(items: seq<Value>)
    ensures Clean(PrintItems(items))
    decreases items, 0
  {
    if items != [] {
      PrintClean(items[0]);
      ItemsClean(items[1..]);
      CleanConcat(Print(items[0]), "," + PrintItems(items[1..]));
    }
  }

  lemma {:induction false} FieldsClean(fs: seq<Field>)
    ensures Clean(PrintFields(fs))
    decreases fs, 0
  {
    if fs != [] {
      EscapeClean(fs[0].key);
      PrintClean(fs[0].value);
      FieldsClean(fs[1..]);
      var head := Quote(fs[0].key) + ":";
      CleanConcat(head, Print(fs[0].value));
      CleanConcat(head + Print(fs[0].value), "," + PrintFields(fs[1..]));
    }
  }
}
