/** What the texts and bytes of both codecs look like, told without the printer, the encoder or the sort. */
module JsonText {
  import opened Wrappers
  import opened Json
  import opened JsonCost
  import opened JsonOrder
  import Utf8

  type byte = Utf8.byte

  // ---------- UTF-8 (section 3 of RFC 3629)

  /** One to four bytes, the shortest that serve: the number of leading ones in the first tells how many, every
      other byte begins with 10, and the remaining bits are the character's, most significant first. */
  lemma CharacterBytes(c: char)
    ensures var (b, n) := (Utf8.EncodeChar(c), c as int);
            && (|b| == 1 <==> n <= 0x7F) && (|b| == 2 <==> 0x80 <= n <= 0x7FF) && (|b| == 3 <==> 0x800 <= n <= 0xFFFF)
            && (|b| == 1 ==> b[0] == n)
            && (|b| == 2 ==> 0xC0 <= b[0] <= 0xDF && n == (b[0] - 0xC0) as int * 64 + (b[1] as int - 0x80))
            && (|b| == 3 ==> 0xE0 <= b[0] <= 0xEF && n == (b[0] - 0xE0) as int * 4096 + (b[1] as int - 0x80) * 64 + (b[2] as int - 0x80))
            && (|b| == 4 ==> 0xF0 <= b[0] <= 0xF7 && n == (b[0] - 0xF0) as int * 262144 + (b[1] as int - 0x80) * 4096 + (b[2] as int - 0x80) * 64 + (b[3] as int - 0x80))
            && 1 <= |b| <= 4 && forall i :: 1 <= i < |b| ==> 0x80 <= b[i] <= 0xBF
  {
    var n := c as int;
    assert n == n / 64 * 64 + n % 64;
    assert n / 64 == n / 4096 * 64 + n / 64 % 64;
    assert n / 4096 == n / 262144 * 64 + n / 4096 % 64;
  }

  /** A text's bytes are its characters', in order. */
  lemma {:induction false} TextBytes(a: string, c: char)
    ensures Utf8.Encode([]) == [] && Utf8.Encode(a + [c]) == Utf8.Encode(a) + Utf8.EncodeChar(c)
  {
    if a == [] {
      assert [c][1..] == [];
      assert Utf8.Encode([c]) == Utf8.EncodeChar(c) + Utf8.Encode([]);
    } else {
      assert (a + [c])[1..] == a[1..] + [c];
      TextBytes(a[1..], c);
    }
  }

  // ---------- numbers

  /** Decimal notation: the last digit is the remainder by ten, the others the quotient's; no number but zero
      begins with a zero; a minus sign stands before what is negative. */
  lemma DecimalText(n: nat)
    ensures var s := Decimal(n);
            && |s| >= 1 && (forall i :: 0 <= i < |s| ==> '0' <= s[i] <= '9')
            && s[|s| - 1] as int == 48 + n % 10 && (n < 10 <==> |s| == 1) && (n >= 10 ==> s[..|s| - 1] == Decimal(n / 10))
            && (s[0] == '0' <==> n == 0)
    ensures n > 0 ==> Decimal(-(n as int)) == ['-'] + Decimal(n)
  {
    NoLeadingZero(n);
  }

  lemma {:induction false} NoLeadingZero(n: nat)
    ensures Digits(n)[0] == '0' <==> n == 0
  {
    if n >= 10 { NoLeadingZero(n / 10); }
  }

  // ---------- texts and trees

  /** Quotation mark, reverse solidus and the control characters are escaped, five of them by a letter, the
      others by four hexadecimal digits; every other character stands for itself (section 7 of RFC 8259). */
  lemma EscapedCharacter(c: char)
    ensures c == '\"' ==> Quote([c]) == "\"\\\"\""
    ensures c == '\\' ==> Quote([c]) == "\"\\\\\""
    ensures c as int == 8 ==> Quote([c]) == "\"\\b\""
    ensures c as int == 9 ==> Quote([c]) == "\"\\t\""
    ensures c as int == 10 ==> Quote([c]) == "\"\\n\""
    ensures c as int == 12 ==> Quote([c]) == "\"\\f\""
    ensures c as int == 13 ==> Quote([c]) == "\"\\r\""
    ensures c as int < 32 && c as int !in {8, 9, 10, 12, 13} ==>
              && |Quote([c])| == 8 && Quote([c])[..5] == "\"\\u00"
              && Quote([c])[5] == (if c as int < 16 then '0' else '1') && Quote([c])[6] == "0123456789abcdef"[c as int % 16] && Quote([c])[7] == '\"'
    ensures c as int >= 32 && c != '\"' && c != '\\' ==> Quote([c]) == ['\"', c, '\"']
  {
    assert Escape([c]) == EscapeChar(c) by { assert [c][1..] == []; assert Escape([]) == []; }
  }

  /** A quoted text is its characters' escapes, in order, between quotation marks. */
  lemma {:induction false} QuotedText(a: string, c: char)
    ensures Quote([]) == "\"\"" && |Quote(a)| >= 2
    ensures Quote(a + [c]) == Quote(a)[..|Quote(a)| - 1] + Quote([c])[1..]
  {
    EscapeMore(a, c);
    EscapeOne(c);
    Quoted(a);
    Quoted([c]);
    Quoted(a + [c]);
    hide Quote, Escape, EscapeChar;
    assert (['\"'] + Escape(a) + ['\"'])[..|Escape(a)| + 1] == ['\"'] + Escape(a);
    assert (['\"'] + EscapeChar(c) + ['\"'])[1..] == EscapeChar(c) + ['\"'];
  }

  lemma Quoted(s: string)
    ensures Quote(s) == ['\"'] + Escape(s) + ['\"'] && Quote([]) == "\"\""
  {
    assert Escape([]) == [];
  }

  lemma EscapeOne(c: char)
    ensures Escape([c]) == EscapeChar(c)
  {
    assert [c][1..] == [];
    assert Escape([]) == [];
  }

  lemma {:induction false} EscapeMore(a: string, c: char)
    ensures Escape(a + [c]) == Escape(a) + EscapeChar(c)
  {
    if a == [] {
      assert [c][1..] == [] && a + [c] == [c];
      assert Escape([c]) == EscapeChar(c) + Escape([]);
    } else {
      assert (a + [c])[1..] == a[1..] + [c];
      EscapeMore(a[1..], c);
    }
  }

  /** The text of a tree, without any space: words, brackets, and a comma between any two neighbours. */
  lemma TreeText(v: Value, more: seq<Value>, f: Field, rest: seq<Field>)
    ensures Print(Null) == "null" && Print(Bool(true)) == "true" && Print(Bool(false)) == "false"
    ensures forall n :: Print(Num(n)) == Decimal(n)
    ensures forall s :: Print(Str(s)) == Quote(s)
    ensures Print(Arr([])) == "[]" && Print(Arr([v])) == ['['] + Print(v) + [']']
    ensures more != [] ==> Print(Arr([v] + more)) == ['['] + Print(v) + [','] + Print(Arr(more))[1..]
    ensures Print(Obj([])) == "{}" && Print(Obj([f])) == ['{'] + Quote(f.key) + [':'] + Print(f.value) + ['}']
    ensures rest != [] ==> Print(Obj([f] + rest)) == ['{'] + Quote(f.key) + [':'] + Print(f.value) + [','] + Print(Obj(rest))[1..]
  {
    ItemsText(v, more);
    FieldsText(f, rest);
  }

  lemma ItemsText(v: Value, more: seq<Value>)
    ensures Print(Arr([v])) == ['['] + Print(v) + [']']
    ensures more != [] ==> Print(Arr([v] + more)) == ['['] + Print(v) + [','] + Print(Arr(more))[1..]
  {
    OneItemText(v, []);
    OneItemText(v, more);
    Brackets([v]);
    Brackets([v] + more);
    Brackets(more);
    hide Print, PrintItems;
    assert [v] + [] == [v];
    assert (['['] + PrintItems(more) + [']'])[1..] == PrintItems(more) + [']'];
    assert ['['] + (Print(v) + [','] + PrintItems(more)) + [']'] == ['['] + Print(v) + [','] + (PrintItems(more) + [']']);
  }

  lemma OneItemText(v: Value, more: seq<Value>)
    ensures PrintItems([v] + more) == Print(v) + if more == [] then [] else [','] + PrintItems(more)
    ensures more != [] ==> PrintItems([v] + more) == Print(v) + [','] + PrintItems(more)
  {
    hide Print;
    assert ([v] + more)[1..] == more;
  }

  lemma Brackets(items: seq<Value>)
    ensures Print(Arr(items)) == ['['] + PrintItems(items) + [']']
  {
  }

  lemma FieldsText(f: Field, rest: seq<Field>)
    ensures Print(Obj([f])) == ['{'] + Quote(f.key) + [':'] + Print(f.value) + ['}']
    ensures rest != [] ==> Print(Obj([f] + rest)) == ['{'] + Quote(f.key) + [':'] + Print(f.value) + [','] + Print(Obj(rest))[1..]
  {
    OneField(f, []);
    OneField(f, rest);
    Braces([f]);
    Braces([f] + rest);
    Braces(rest);
    hide Print, PrintFields, Quote;
    assert [f] + [] == [f];
    var head := Quote(f.key) + [':'] + Print(f.value);
    assert (['{'] + PrintFields(rest) + ['}'])[1..] == PrintFields(rest) + ['}'];
    assert ['{'] + (head + [','] + PrintFields(rest)) + ['}'] == ['{'] + head + [','] + (PrintFields(rest) + ['}']);
    assert ['{'] + head == ['{'] + Quote(f.key) + [':'] + Print(f.value);
  }

  lemma OneField(f: Field, rest: seq<Field>)
    ensures PrintFields([f] + rest) == Quote(f.key) + [':'] + Print(f.value) + if rest == [] then [] else [','] + PrintFields(rest)
    ensures rest != [] ==> PrintFields([f] + rest) == Quote(f.key) + [':'] + Print(f.value) + [','] + PrintFields(rest)
  {
    hide Print, Quote;
    assert ([f] + rest)[1..] == rest;
  }

  lemma Braces(fs: seq<Field>)
    ensures Print(Obj(fs)) == ['{'] + PrintFields(fs) + ['}']
  {
  }

  /** An object of two fields. */
  lemma TwoFieldsText(k: string, v: Value, l: string, w: Value)
    ensures Print(Obj([Field(k, v), Field(l, w)])) == ['{'] + Quote(k) + [':'] + Print(v) + [','] + Quote(l) + [':'] + Print(w) + ['}']
  {
    FieldsText(Field(k, v), [Field(l, w)]);
    FieldsText(Field(l, w), []);
    hide Print, Quote;
    assert [Field(k, v)] + [Field(l, w)] == [Field(k, v), Field(l, w)];
    Unbrace(Quote(l) + [':'] + Print(w) + ['}'], Print(Obj([Field(l, w)])));
  }

  /** A key and its value. */
  function Member(f: Field): string { Quote(f.key) + [':'] + Print(f.value) }

  lemma FourMembers(a: Field, b: Field, c: Field, d: Field)
    ensures PrintFields([a, b, c, d]) == Member(a) + [','] + Member(b) + [','] + Member(c) + [','] + Member(d)
  {
    OneField(a, [b, c, d]); OneField(b, [c, d]); OneField(c, [d]); OneField(d, []);
    hide Print, PrintFields, Quote;
    assert [a] + [b, c, d] == [a, b, c, d] && [b] + [c, d] == [b, c, d] && [c] + [d] == [c, d] && [d] + [] == [d];
  }

  /** An object of four fields. */
  lemma FourFieldsText(a: Field, b: Field, c: Field, d: Field)
    ensures Print(Obj([a, b, c, d])) == ['{'] + (Member(a) + [','] + Member(b) + [','] + Member(c) + [','] + Member(d)) + ['}']
  {
    hide Print, PrintFields, Member;
    FourMembers(a, b, c, d);
    Braces([a, b, c, d]);
  }

  /** An object of five. */
  lemma FiveFieldsText(a: Field, b: Field, c: Field, d: Field, e: Field)
    ensures Print(Obj([a, b, c, d, e])) == ['{'] + (Member(a) + [','] + (Member(b) + [','] + Member(c) + [','] + Member(d) + [','] + Member(e))) + ['}']
  {
    hide Print, PrintFields, Quote;
    OneField(a, [b, c, d, e]);
    FourMembers(b, c, d, e);
    Braces([a, b, c, d, e]);
    assert [a] + [b, c, d, e] == [a, b, c, d, e];
  }

  lemma Unbrace(tail: string, all: string)
    requires all == ['{'] + tail
    ensures all[1..] == tail
  {
  }

  // ---------- orders of keys

  /** Keys are ordered by code points: a key comes before what it begins, and before what is greater at the first
      place where the two differ. */
  lemma {:induction false} TextOrder(a: string, b: string)
    ensures TextLeq(a, b) <==> a <= b || exists i :: 0 <= i < |a| && i < |b| && a[..i] == b[..i] && a[i] < b[i]
  {
    if a != "" && b != "" && a[0] == b[0] {
      var (c, d) := (a[1..], b[1..]);
      TextOrder(c, d);
      assert a == [a[0]] + c && b == [a[0]] + d;
      if i :| 0 <= i < |c| && i < |d| && c[..i] == d[..i] && c[i] < d[i] {
        assert a[..i + 1] == [a[0]] + c[..i] && b[..i + 1] == [a[0]] + d[..i];
        assert a[i + 1] < b[i + 1];
      }
      if i :| 0 <= i < |a| && i < |b| && a[..i] == b[..i] && a[i] < b[i] {
        assert i > 0;
        assert c[..i - 1] == a[..i][1..] && d[..i - 1] == b[..i][1..];
        assert c[i - 1] < d[i - 1];
      }
    } else if a != "" && b != "" {
      assert a[..0] == b[..0];
    }
  }

  lemma {:induction false} DigitsOfNat(key: string)
    requires key != "" && (forall i :: 0 <= i < |key| ==> IsDigit(key[i])) && (key[0] == '0' ==> |key| == 1)
    ensures Digits(NatOf(key)) == key
    ensures NatOf(key) == 0 ==> key == "0"
  {
    var n := |key| - 1;
    var last := key[n] as int - '0' as int;
    assert IsDigit(key[n]);
    if n > 0 {
      var front := key[..n];
      assert front[0] == key[0];
      DigitsOfNat(front);
      assert NatOf(key) == NatOf(front) * 10 + last;
      assert key == front + [key[n]];
      assert front != "0" by { assert key[0] == front[0]; }
    } else {
      assert key[..0] == "";
      assert NatOf(key) == last && key == [key[0]];
    }
  }

  lemma {:induction false} AllDigits(s: string)
    ensures DigitRun(s) == |s| <==> forall i :: 0 <= i < |s| ==> IsDigit(s[i])
  {
  }

  /** The keys that are array indices are exactly the decimal numbers from 0 to 4294967294, each with its value. */
  lemma {:induction false} IndexKeys(key: string, n: nat)
    ensures ArrayIndex(key) == Some(n) <==> key == Decimal(n) && n < 4294967295
  {
    if key == Decimal(n) && n < 4294967295 {
      AllDigits(key);
      NoLeadingZero(n);
      NatOfDigits(n);
      assert Ten(2) == 100; assert Ten(4) == 10000; assert Ten(6) == 1000000; assert Ten(8) == 100000000; assert Ten(10) == 10000000000;
      DigitsShort(n, 10, 10000000000);
    }
    if ArrayIndex(key) == Some(n) {
      AllDigits(key);
      if key != "0" { DigitsOfNat(key); }
    }
  }

  lemma SelectFirst(x: Field, fs: seq<Field>, indexed: bool)
    ensures Select([], indexed) == []
    ensures Select([x] + fs, indexed) == if (ArrayIndex(x.key) != None) == indexed then [x] + Select(fs, indexed) else Select(fs, indexed)
  {
    hide ArrayIndex;
    assert ([x] + fs)[1..] == fs;
  }

  /** Which fields are set apart keeps their order. */
  lemma {:induction false} SelectedInOrder(fs: seq<Field>, f: Field, indexed: bool)
    ensures Select([], indexed) == []
    ensures Select(fs + [f], indexed) == if (ArrayIndex(f.key) != None) == indexed then Select(fs, indexed) + [f] else Select(fs, indexed)
  {
    hide ArrayIndex, Select;
    SelectFirst(f, [], indexed);
    if fs == [] {
      assert fs + [f] == [f] + [];
    } else {
      var (x, more) := (fs[0], fs[1..]);
      assert fs == [x] + more && fs + [f] == [x] + (more + [f]);
      SelectFirst(x, more, indexed);
      SelectFirst(x, more + [f], indexed);
      SelectedInOrder(more, f, indexed);
    }
  }
}
