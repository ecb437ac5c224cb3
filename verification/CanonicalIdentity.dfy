/** Canonical text is a complete, parse-stable identity of a JSON value. */
module CanonicalIdentity {
  import opened Text
  import opened Wrappers
  import opened CanonicalJson

  /** Text that cannot lengthen a number written before it. */
  predicate Delimited(rest: string) {
    rest == [] || !IsDigit(rest[0])
  }

  // ---------------------------------------------------------------- scalars

  lemma {:induction false} TakeDigitsStops(ds: string, rest: string)
    requires AllDigits(ds) && Delimited(rest)
    ensures TakeDigits(ds + rest) == ds
  {
    if ds == [] {
      assert ds + rest == rest;
    } else {
      assert (ds + rest)[1..] == ds[1..] + rest;
      TakeDigitsStops(ds[1..], rest);
      assert ds == [ds[0]] + ds[1..];
    }
  }

  lemma NatRoundTrip(n: nat, rest: string)
    requires Delimited(rest)
    ensures ParseNat(Digits(n) + rest) == Some(Parsed(n, rest))
  {
    var ds := Digits(n);
    TakeDigitsStops(ds, rest);
    DigitsValue(n);
    assert (ds + rest)[|ds|..] == rest;
    assert (ds + rest)[0] == ds[0];
  }

  lemma NegativeNumber(s: string, n: nat, rest: string)
    requires s != [] && s[0] == '-' && ParseNat(s[1..]) == Some(Parsed(n, rest))
    ensures ParseNumber(s) == Some(Parsed(DInt(0 - n), rest))
  {
  }

  lemma PlainNumber(s: string, n: nat, rest: string)
    requires s != [] && s[0] != '-' && ParseNat(s) == Some(Parsed(n, rest))
    ensures ParseNumber(s) == Some(Parsed(DInt(n), rest))
  {
  }

  /** Text starting like a number is read as one. */
  lemma NumberIsValue(s: string)
    requires s != [] && (s[0] == '-' || IsDigit(s[0]))
    ensures ParseValue(s) == ParseNumber(s)
  {
    var head := s[0];
    assert s[..1] == [head];
    assert head != 'n' && head != 't' && head != 'f' && head != '"' && head != '[' && head != '{';
    assert !("null" <= s) by { assert "null"[0] == 'n'; }
    assert !("true" <= s) by { assert "true"[0] == 't'; }
    assert !("false" <= s) by { assert "false"[0] == 'f'; }
  }

  lemma NegativeRoundTrip(n: nat, rest: string)
    requires Delimited(rest)
    ensures ParseNumber("-" + Digits(n) + rest) == Some(Parsed(DInt(0 - n), rest))
  {
    hide ParseNat, ParseNumber, Digits;
    var s := "-" + Digits(n) + rest;
    NatRoundTrip(n, rest);
    assert s[1..] == Digits(n) + rest;
    NegativeNumber(s, n, rest);
  }

  lemma PlainRoundTrip(n: nat, rest: string)
    requires Delimited(rest)
    ensures ParseNumber(Digits(n) + rest) == Some(Parsed(DInt(n), rest))
  {
    NatRoundTrip(n, rest);
    assert (Digits(n) + rest)[0] == Digits(n)[0];
    PlainNumber(Digits(n) + rest, n, rest);
  }

  lemma IntRoundTrip(n: int, rest: string)
    requires Delimited(rest)
    ensures ParseValue(Decimal(n) + rest) == Some(Parsed(DInt(n), rest))
  {
    if n < 0 {
      NegativeRoundTrip(-n, rest);
    } else {
      PlainRoundTrip(n, rest);
    }
    assert (Decimal(n) + rest)[0] == Decimal(n)[0];
    NumberIsValue(Decimal(n) + rest);
  }

  lemma HexRoundTrip(n: nat)
    requires n < 16
    ensures HexValue(HexDigit(n)) == Some(n)
  {
  }

  lemma HexDigitsRead(n: nat, rest: string)
    requires n < 0x10000
    ensures Hex4(HexDigits(n) + rest) == Some(n) && (HexDigits(n) + rest)[4..] == rest
  {
    hide HexDigit, HexValue;
    var tens := n / 16;
    var hundreds := tens / 16;
    HexRoundTrip(hundreds / 16);
    HexRoundTrip(hundreds % 16);
    HexRoundTrip(tens % 16);
    HexRoundTrip(n % 16);
    var s := HexDigits(n) + rest;
    assert s[0] == HexDigit(hundreds / 16) && s[1] == HexDigit(hundreds % 16);
    assert s[2] == HexDigit(tens % 16) && s[3] == HexDigit(n % 16);
  }

  lemma PairRead(high: nat, low: nat, rest: string)
    requires 0xD800 <= high < 0xDC00 <= low < 0xE000
    ensures ParseUnicode(HexDigits(high) + ("\\u" + (HexDigits(low) + rest))) ==
      Some(Parsed((0x10000 + (high - 0xD800) * 0x400 + (low - 0xDC00)) as char, rest))
  {
    hide HexDigits, Hex4;
    var second := HexDigits(low) + rest;
    var s := HexDigits(high) + ("\\u" + second);
    HexDigitsRead(high, "\\u" + second);
    HexDigitsRead(low, rest);
    assert s[4] == '\\' && s[5] == 'u' && s[6..] == second;
    assert s[10..] == second[4..];
  }

  /** A hex escape, or a surrogate pair of them, is read back as the character it was written for. */
  lemma UnicodeRoundTrip(c: char, rest: string)
    ensures var s := UnicodeEscape(c) + rest;
      s[0] == '\\' && s[1] == 'u' && ParseUnicode(s[2..]) == Some(Parsed(c, rest))
  {
    hide HexDigits, Hex4, ParseUnicode;
    var n, s := c as int, UnicodeEscape(c) + rest;
    if n < 0x10000 {
      assert s[2..] == HexDigits(n) + rest;
      HexDigitsRead(n, rest);
      SingleRead(c, rest);
    } else {
      var high, low := 0xD800 + (n - 0x10000) / 0x400, 0xDC00 + (n - 0x10000) % 0x400;
      assert s[2..] == HexDigits(high) + ("\\u" + (HexDigits(low) + rest));
      PairRead(high, low, rest);
    }
  }

  lemma SingleRead(c: char, rest: string)
    requires (c as int) < 0x10000
    ensures ParseUnicode(HexDigits(c as int) + rest) == Some(Parsed(c, rest))
  {
    hide HexDigits, Hex4;
    HexDigitsRead(c as int, rest);
  }

  /** Reading back one written character of a string. */
  lemma EscapeRoundTrip(c: char, rest: string, tail: Option<Parsed<string>>, ascii: bool)
    requires tail == ParseString(rest) && tail.Some?
    ensures ParseString(Escape(c, ascii) + rest) == Some(Parsed([c] + tail.value.value, tail.value.rest))
  {
    hide UnicodeEscape, ParseUnicode;
    var s := Escape(c, ascii) + rest;
    if c in {'"', '\\', '\n', '\r', '\t', 12 as char, 8 as char} {
      assert s[0] == '\\' && s[1..] == [Escape(c, ascii)[1]] + rest;
      assert s[1..][1..] == rest;
      assert ParseEscape(s[1..]) == Some(Parsed(c, rest));
    } else if c < ' ' || (ascii && '~' < c) {
      assert Escape(c, ascii) == UnicodeEscape(c);
      UnicodeRoundTrip(c, rest);
      assert s[1..][1..] == s[2..];
      assert ParseEscape(s[1..]) == Some(Parsed(c, rest));
    } else {
      assert s[1..] == rest && s[0] == c;
    }
  }

  lemma ClosingQuote(rest: string)
    ensures ParseString("\"" + rest) == Some(Parsed([], rest))
  {
    var t := "\"" + rest;
    assert t[0] == '"' && t[1..] == rest;
  }

  lemma EscapedHead(s: string, rest: string, ascii: bool)
    requires s != []
    ensures EscapeAll(s, ascii) + "\"" + rest == Escape(s[0], ascii) + (EscapeAll(s[1..], ascii) + "\"" + rest)
  {
    hide Escape;
  }

  lemma {:induction false} StringRoundTrip(s: string, rest: string, ascii: bool)
    ensures ParseString(EscapeAll(s, ascii) + "\"" + rest) == Some(Parsed(s, rest))
  {
    hide Escape, ParseString;
    if s == [] {
      assert EscapeAll(s, ascii) + "\"" + rest == "\"" + rest;
      ClosingQuote(rest);
    } else {
      var t := EscapeAll(s[1..], ascii) + "\"" + rest;
      StringRoundTrip(s[1..], rest, ascii);
      EscapeRoundTrip(s[0], t, ParseString(t), ascii);
      EscapedHead(s, rest, ascii);
      assert s == [s[0]] + s[1..];
    }
  }

  // ---------------------------------------------------------------- documents

  lemma EmitHead(d: Doc, ascii: bool)
    ensures Emit(d, ascii) != [] && !IsSpace(Emit(d, ascii)[0]) && Emit(d, ascii)[0] != ']' && Emit(d, ascii)[0] != '}'
  {
  }

  lemma SkipNothing(s: string)
    requires s == [] || !IsSpace(s[0])
    ensures SkipSpace(s) == s
  {
  }

  lemma Opened(open: string, body: string, close: string, rest: string)
    requires |open| == 1
    ensures var s := open + body + close + rest; s[0] == open[0] && s[1..] == body + close + rest
  {
  }

  /** Parsing undoes writing, whatever follows. */
  lemma {:induction false} ValueRoundTrip(d: Doc, rest: string, ascii: bool)
    requires Delimited(rest)
    ensures ParseValue(Emit(d, ascii) + rest) == Some(Parsed(d, rest))
    decreases d, 1
  {
    match d {
      case DInt(n) =>
        IntRoundTrip(n, rest);
      case DArr(items) =>
        ArrayRoundTrip(items, rest, ascii);
        Opened("[", EmitItems(items, ascii), "]", rest);
      case DObj(ms) =>
        ObjectRoundTrip(ms, rest, ascii);
        Opened("{", EmitMembers(ms, ascii), "}", rest);
      case _ =>
        LeafRoundTrip(d, rest, ascii);
    }
  }

  lemma StringValueRoundTrip(t: string, rest: string, ascii: bool)
    ensures ParseValue(Emit(DStr(t), ascii) + rest) == Some(Parsed(DStr(t), rest))
  {
    hide ParseString, EscapeAll;
    var s := Emit(DStr(t), ascii) + rest;
    StringRoundTrip(t, rest, ascii);
    assert s[0] == '"';
    assert s[1..] == EscapeAll(t, ascii) + "\"" + rest;
  }

  lemma LeafRoundTrip(d: Doc, rest: string, ascii: bool)
    requires d.DNull? || d.DBool? || d.DStr?
    ensures ParseValue(Emit(d, ascii) + rest) == Some(Parsed(d, rest))
  {
    var s := Emit(d, ascii) + rest;
    match d {
      case DNull =>
        assert s[..4] == "null" && s[4..] == rest;
      case DBool(b) =>
        if b {
          assert s[..4] == "true" && s[4..] == rest;
        } else {
          assert s[..5] == "false" && s[5..] == rest;
        }
      case DStr(t) =>
        StringValueRoundTrip(t, rest, ascii);
    }
  }

  lemma {:induction false} ArrayRoundTrip(items: seq<Doc>, rest: string, ascii: bool)
    ensures ParseArray(EmitItems(items, ascii) + "]" + rest) == Some(Parsed(DArr(items), rest))
    decreases items, 1
  {
    var body := EmitItems(items, ascii) + "]" + rest;
    if items == [] {
      assert body[0] == ']' && body[1..] == rest;
      SkipNothing(body);
    } else {
      ItemsHead(items, "]" + rest, ascii);
      assert body == EmitItems(items, ascii) + ("]" + rest);
      ItemsRoundTrip(items, rest, ascii);
    }
  }

  lemma {:induction false} ObjectRoundTrip(ms: seq<Member>, rest: string, ascii: bool)
    ensures ParseObject(EmitMembers(ms, ascii) + "}" + rest) == Some(Parsed(DObj(ms), rest))
    decreases ms, 1
  {
    var body := EmitMembers(ms, ascii) + "}" + rest;
    if ms == [] {
      assert body[0] == '}' && body[1..] == rest;
      SkipNothing(body);
    } else {
      MembersHead(ms, "}" + rest, ascii);
      assert body == EmitMembers(ms, ascii) + ("}" + rest);
      MembersRoundTrip(ms, rest, ascii);
    }
  }

  lemma ItemsHead(items: seq<Doc>, rest: string, ascii: bool)
    requires items != []
    ensures var t := EmitItems(items, ascii) + rest; t != [] && t[0] != ']' && SkipSpace(t) == t
  {
    EmitHead(items[0], ascii);
    var t := EmitItems(items, ascii) + rest;
    assert t[0] == Emit(items[0], ascii)[0];
  }

  lemma Regroup(a: string, b: string, close: string, rest: string)
    ensures (a + "," + b) + close + rest == a + ("," + (b + close + rest))
    ensures b + close + rest == b + (close + rest)
  {
  }

  lemma EmitItemsStep(items: seq<Doc>, ascii: bool)
    requires items != []
    ensures |items| == 1 ==> EmitItems(items, ascii) == Emit(items[0], ascii)
    ensures |items| > 1 ==> EmitItems(items, ascii) == Emit(items[0], ascii) + "," + EmitItems(items[1..], ascii)
  {
  }

  lemma LastItem(s: string, head: Doc, rest: string)
    requires ParseValue(s) == Some(Parsed(head, "]" + rest))
    ensures ParseItems(s) == Some(Parsed([head], rest))
  {
    assert ("]" + rest)[1..] == rest;
    SkipNothing("]" + rest);
  }

  lemma NextItem(s: string, head: Doc, more: string, tail: seq<Doc>, rest: string)
    requires ParseValue(s) == Some(Parsed(head, "," + more)) && SkipSpace(more) == more
    requires ParseItems(more) == Some(Parsed(tail, rest))
    ensures ParseItems(s) == Some(Parsed([head] + tail, rest))
  {
    assert ("," + more)[1..] == more;
    SkipNothing("," + more);
  }

  lemma {:induction false} OneItemRoundTrip(only: Doc, rest: string, ascii: bool)
    ensures ParseItems(EmitItems([only], ascii) + "]" + rest) == Some(Parsed([only], rest))
    decreases only, 3
  {
    var s := EmitItems([only], ascii) + "]" + rest;
    EmitItemsStep([only], ascii);
    assert s == Emit(only, ascii) + ("]" + rest);
    ValueRoundTrip(only, "]" + rest, ascii);
    LastItem(s, only, rest);
  }

  lemma {:induction false} MoreItemsRoundTrip(head: Doc, tail: seq<Doc>, rest: string, ascii: bool)
    requires tail != []
    requires ParseItems(EmitItems(tail, ascii) + "]" + rest) == Some(Parsed(tail, rest))
    ensures ParseItems(EmitItems([head] + tail, ascii) + "]" + rest) == Some(Parsed([head] + tail, rest))
    decreases head, 3
  {
    var s := EmitItems([head] + tail, ascii) + "]" + rest;
    var more := EmitItems(tail, ascii) + "]" + rest;
    EmitItemsStep([head] + tail, ascii);
    assert ([head] + tail)[1..] == tail;
    Regroup(Emit(head, ascii), EmitItems(tail, ascii), "]", rest);
    ValueRoundTrip(head, "," + more, ascii);
    ItemsHead(tail, "]" + rest, ascii);
    NextItem(s, head, more, tail, rest);
  }

  lemma {:induction false} ItemsRoundTrip(items: seq<Doc>, rest: string, ascii: bool)
    requires items != []
    ensures ParseItems(EmitItems(items, ascii) + "]" + rest) == Some(Parsed(items, rest))
    decreases items, 0
  {
    assert items[0] in items;
    if |items| == 1 {
      OneItemRoundTrip(items[0], rest, ascii);
      assert items == [items[0]];
    } else {
      ItemsRoundTrip(items[1..], rest, ascii);
      MoreItemsRoundTrip(items[0], items[1..], rest, ascii);
      assert items == [items[0]] + items[1..];
    }
  }

  lemma MembersHead(ms: seq<Member>, rest: string, ascii: bool)
    requires ms != []
    ensures var t := EmitMembers(ms, ascii) + rest; t != [] && t[0] == '"' && SkipSpace(t) == t
  {
    var t := EmitMembers(ms, ascii) + rest;
    assert EmitMember(ms[0], ascii)[0] == '"';
    assert t[0] == EmitMember(ms[0], ascii)[0];
  }

  lemma MemberText(m: Member, rest: string, ascii: bool)
    ensures var s := EmitMember(m, ascii) + rest;
      s[0] == '"' && s[1..] == EscapeAll(m.key, ascii) + "\"" + (":" + (Emit(m.value, ascii) + rest))
  {
  }

  lemma KeyedValue(s: string, key: string, value: string, d: Doc, rest: string)
    requires s != [] && s[0] == '"' && ParseString(s[1..]) == Some(Parsed(key, ":" + value))
    requires SkipSpace(value) == value && ParseValue(value) == Some(Parsed(d, rest))
    ensures ParseMember(s) == Some(Parsed(Member(key, d), rest))
  {
    assert (":" + value)[1..] == value;
    SkipNothing(":" + value);
  }

  lemma {:induction false} MemberRoundTrip(m: Member, rest: string, ascii: bool)
    requires Delimited(rest)
    ensures ParseMember(EmitMember(m, ascii) + rest) == Some(Parsed(m, rest))
    decreases m, 0
  {
    var value := Emit(m.value, ascii) + rest;
    MemberText(m, rest, ascii);
    StringRoundTrip(m.key, ":" + value, ascii);
    EmitHead(m.value, ascii);
    assert value[0] == Emit(m.value, ascii)[0];
    SkipNothing(value);
    ValueRoundTrip(m.value, rest, ascii);
    KeyedValue(EmitMember(m, ascii) + rest, m.key, value, m.value, rest);
  }

  lemma EmitMembersStep(ms: seq<Member>, ascii: bool)
    requires ms != []
    ensures |ms| == 1 ==> EmitMembers(ms, ascii) == EmitMember(ms[0], ascii)
    ensures |ms| > 1 ==> EmitMembers(ms, ascii) == EmitMember(ms[0], ascii) + "," + EmitMembers(ms[1..], ascii)
  {
  }

  lemma LastMember(s: string, head: Member, rest: string)
    requires ParseMember(s) == Some(Parsed(head, "}" + rest))
    ensures ParseMembers(s) == Some(Parsed([head], rest))
  {
    assert ("}" + rest)[1..] == rest;
    SkipNothing("}" + rest);
  }

  lemma NextMember(s: string, head: Member, more: string, tail: seq<Member>, rest: string)
    requires ParseMember(s) == Some(Parsed(head, "," + more)) && SkipSpace(more) == more
    requires ParseMembers(more) == Some(Parsed(tail, rest))
    ensures ParseMembers(s) == Some(Parsed([head] + tail, rest))
  {
    assert ("," + more)[1..] == more;
    SkipNothing("," + more);
  }

  lemma {:induction false} OneMemberRoundTrip(only: Member, rest: string, ascii: bool)
    ensures ParseMembers(EmitMembers([only], ascii) + "}" + rest) == Some(Parsed([only], rest))
    decreases only, 3
  {
    var s := EmitMembers([only], ascii) + "}" + rest;
    EmitMembersStep([only], ascii);
    assert s == EmitMember(only, ascii) + ("}" + rest);
    MemberRoundTrip(only, "}" + rest, ascii);
    LastMember(s, only, rest);
  }

  lemma {:induction false} MoreMembersRoundTrip(head: Member, tail: seq<Member>, rest: string, ascii: bool)
    requires tail != []
    requires ParseMembers(EmitMembers(tail, ascii) + "}" + rest) == Some(Parsed(tail, rest))
    ensures ParseMembers(EmitMembers([head] + tail, ascii) + "}" + rest) == Some(Parsed([head] + tail, rest))
    decreases head, 3
  {
    var s := EmitMembers([head] + tail, ascii) + "}" + rest;
    var more := EmitMembers(tail, ascii) + "}" + rest;
    EmitMembersStep([head] + tail, ascii);
    assert ([head] + tail)[1..] == tail;
    Regroup(EmitMember(head, ascii), EmitMembers(tail, ascii), "}", rest);
    MemberRoundTrip(head, "," + more, ascii);
    MembersHead(tail, "}" + rest, ascii);
    NextMember(s, head, more, tail, rest);
  }

  lemma {:induction false} MembersRoundTrip(ms: seq<Member>, rest: string, ascii: bool)
    requires ms != []
    ensures ParseMembers(EmitMembers(ms, ascii) + "}" + rest) == Some(Parsed(ms, rest))
    decreases ms, 0
  {
    assert ms[0] in ms;
    if |ms| == 1 {
      OneMemberRoundTrip(ms[0], rest, ascii);
      assert ms == [ms[0]];
    } else {
      MembersRoundTrip(ms[1..], rest, ascii);
      MoreMembersRoundTrip(ms[0], ms[1..], rest, ascii);
      assert ms == [ms[0]] + ms[1..];
    }
  }

  /** Every document's text parses back to that very document. */
  lemma DocRoundTrip(d: Doc, ascii: bool)
    ensures ParseDoc(Emit(d, ascii)) == Some(d)
  {
    EmitHead(d, ascii);
    ValueRoundTrip(d, [], ascii);
    assert Emit(d, ascii) + [] == Emit(d, ascii);
  }

  /** The same for a line of a file. */
  lemma LineRoundTrip(d: Doc, ascii: bool)
    ensures ParseDoc(Emit(d, ascii) + "\n") == Some(d)
  {
    EmitHead(d, ascii);
    ValueRoundTrip(d, "\n", ascii);
    assert SkipSpace("\n") == [] by {
      assert "\n"[1..] == [];
    }
  }

  // ---------------------------------------------------------------- values

  lemma {:induction false} DenoteSorted(v: Json)
    ensures Denote(SortedDoc(v)) == v
    decreases v, 1
  {
    match v {
      case Arr(items) =>
        forall i | 0 <= i < |items|
          ensures Denote(SortedDoc(items[i])) == items[i]
        {
          DenoteSorted(items[i]);
        }
        assert Denote(SortedDoc(v)).items == items;
      case Obj(m) =>
        DenoteSortedMembers(v, Sorted(m.Keys));
        assert DenoteMembers(SortedMembers(v, Sorted(m.Keys))) == m;
      case _ =>
    }
  }

  lemma {:induction false} DenoteSortedMembers(v: Json, keys: seq<string>)
    requires v.Obj? && forall k :: k in keys ==> k in v.members
    ensures DenoteMembers(SortedMembers(v, keys)) == map k | k in keys :: v.members[k]
    decreases v, 0, |keys|
  {
    if keys != [] {
      var n := |keys| - 1;
      var ms := SortedMembers(v, keys);
      SortedMembersPrefix(v, keys, n);
      SortedMembersValue(v, keys, n);
      DenoteSortedMembers(v, keys[..n]);
      DenoteSorted(v.members[keys[n]]);
      DenoteLast(ms);
      OneMoreKey(v.members, keys, n);
    }
  }

  lemma OneMoreKey(m: map<string, Json>, keys: seq<string>, n: nat)
    requires |keys| == n + 1 && forall k :: k in keys ==> k in m
    ensures (map k | k in keys[..n] :: m[k])[keys[n] := m[keys[n]]] == map k | k in keys :: m[k]
  {
    assert keys == keys[..n] + [keys[n]];
  }

  lemma DenoteLast(ms: seq<Member>)
    requires ms != []
    ensures DenoteMembers(ms) == DenoteMembers(ms[..|ms| - 1])[ms[|ms| - 1].key := Denote(ms[|ms| - 1].value)]
  {
  }

  lemma {:induction false} SortedMembersPrefix(v: Json, keys: seq<string>, n: nat)
    requires v.Obj? && forall k :: k in keys ==> k in v.members
    requires n <= |keys|
    ensures SortedMembers(v, keys)[..n] == SortedMembers(v, keys[..n])
    decreases |keys|
  {
    if n > 0 {
      SortedMembersPrefix(v, keys[1..], n - 1);
      assert keys[..n][1..] == keys[1..][..n - 1];
      assert SortedMembers(v, keys)[..n] == [SortedMembers(v, keys)[0]] + SortedMembers(v, keys[1..])[..n - 1];
    }
  }

  lemma {:induction false} SortedMembersValue(v: Json, keys: seq<string>, i: nat)
    requires v.Obj? && forall k :: k in keys ==> k in v.members
    requires i < |keys|
    ensures SortedMembers(v, keys)[i].value == SortedDoc(v.members[keys[i]])
    decreases |keys|
  {
    if i > 0 {
      SortedMembersValue(v, keys[1..], i - 1);
    }
  }

  /** What the canonical writer produces has strictly sorted object names at every depth. */
  lemma {:induction false} SortedIsCanonical(v: Json)
    ensures Canonical(SortedDoc(v))
    decreases v
  {
    match v {
      case Arr(items) =>
        forall i | 0 <= i < |items|
          ensures Canonical(SortedDoc(items[i]))
        {
          SortedIsCanonical(items[i]);
        }
      case Obj(m) =>
        var keys := Sorted(m.Keys);
        var ms := SortedMembers(v, keys);
        assert Keys(ms) == keys;
        forall i | 0 <= i < |ms|
          ensures Canonical(ms[i].value)
        {
          SortedMembersValue(v, keys, i);
          assert keys[i] in m;
          SortedIsCanonical(m[keys[i]]);
        }
      case _ =>
    }
  }

  // ---------------------------------------------------------------- ASCII text

  /** Printable ASCII throughout. */
  predicate Printable(s: string) {
    forall c :: c in s ==> ' ' <= c <= '~'
  }

  lemma HexPrintable(n: nat)
    requires n < 0x10000
    ensures Printable(HexDigits(n))
  {
    assert forall k :: 0 <= k < 16 ==> ' ' <= HexDigit(k) <= '~';
  }

  lemma EscapePrintable(c: char)
    ensures Printable(Escape(c, true))
  {
    hide HexDigits;
    var n := c as int;
    if n < 0x10000 {
      HexPrintable(n);
    } else {
      HexPrintable(0xD800 + (n - 0x10000) / 0x400);
      HexPrintable(0xDC00 + (n - 0x10000) % 0x400);
    }
  }

  lemma {:induction false} EscapeAllPrintable(s: string)
    ensures Printable(EscapeAll(s, true))
  {
    if s != [] {
      EscapePrintable(s[0]);
      EscapeAllPrintable(s[1..]);
    }
  }

  lemma DecimalPrintable(n: int)
    ensures Printable(Decimal(n))
  {
    DigitsPrintable(if n < 0 then -n else n);
  }

  lemma DigitsPrintable(n: nat)
    ensures Printable(Digits(n))
  {
    assert AllDigits(Digits(n));
  }

  /** The escaping writer writes nothing but printable ASCII. */
  lemma {:induction false} EmitPrintable(d: Doc)
    ensures Printable(Emit(d, true))
    decreases d, 1
  {
    hide EscapeAll, Decimal;
    match d {
      case DInt(n) => DecimalPrintable(n);
      case DStr(s) => EscapeAllPrintable(s);
      case DArr(items) => ItemsPrintable(items);
      case DObj(ms) => MembersPrintable(ms);
      case _ =>
    }
  }

  lemma {:induction false} ItemsPrintable(items: seq<Doc>)
    ensures Printable(EmitItems(items, true))
    decreases items, 0
  {
    hide Emit;
    if items != [] {
      assert items[0] in items;
      EmitPrintable(items[0]);
      ItemsPrintable(items[1..]);
    }
  }

  lemma {:induction false} MembersPrintable(ms: seq<Member>)
    ensures Printable(EmitMembers(ms, true))
    decreases ms, 0
  {
    hide Emit, EscapeAll;
    if ms != [] {
      assert ms[0] in ms;
      EscapeAllPrintable(ms[0].key);
      EmitPrintable(ms[0].value);
      MembersPrintable(ms[1..]);
    }
  }

  // ---------------------------------------------------------------- main results

  /** Encoding then parsing is the identity on nested values. */
  lemma LoadsEncode(v: Json)
    ensures Loads(Encode(v)) == Some(v)
  {
    DocRoundTrip(SortedDoc(v), false);
    DenoteSorted(v);
  }

  /** Equal values and equal canonical bytes are the same thing. */
  lemma EncodeIsIdentity(v: Json, w: Json)
    ensures Encode(v) == Encode(w) <==> v == w
  {
    LoadsEncode(v);
    LoadsEncode(w);
  }

  /** The escaping writer loses nothing either, though it writes printable ASCII only. */
  lemma LoadsEncodeAscii(v: Json)
    ensures Loads(EncodeAscii(v)) == Some(v) && Printable(EncodeAscii(v))
  {
    EmitPrintable(SortedDoc(v));
    DocRoundTrip(SortedDoc(v), true);
    DenoteSorted(v);
  }

  /** The driver's test on a configuration or a plan: the raw text is what it would write itself. */
  predicate Accepted(raw: string) {
    Loads(raw).Some? && raw == Encode(Loads(raw).value)
  }

  /** The accepted texts are exactly the canonical encodings. */
  lemma AcceptedIffEncoding(raw: string)
    ensures Accepted(raw) <==> exists v :: raw == Encode(v)
  {
    if Accepted(raw) {
      assert raw == Encode(Loads(raw).value);
    }
    if v :| raw == Encode(v) {
      LoadsEncode(v);
    }
  }

  /** The structure an accepted text really has: its own members, as written, are sorted and unrepeated throughout. */
  lemma AcceptedIsCanonical(raw: string)
    requires Accepted(raw)
    ensures ParseDoc(raw).Some? && Canonical(ParseDoc(raw).value)
  {
    var v := Loads(raw).value;
    DocRoundTrip(SortedDoc(v), false);
    SortedIsCanonical(v);
  }

  /** Two accepted texts carrying the same value are byte for byte the same. */
  lemma AcceptedUnique(a: string, b: string)
    requires Accepted(a) && Accepted(b)
    ensures Loads(a) == Loads(b) <==> a == b
  {
  }

  /** A canonical document is determined by the value it denotes: sorting loses nothing but order. */
  lemma {:induction false} CanonicalDocUnique(d: Doc)
    requires Canonical(d)
    ensures SortedDoc(Denote(d)) == d
    decreases d
  {
    match d {
      case DArr(items) =>
        forall i | 0 <= i < |items|
          ensures SortedDoc(Denote(items[i])) == items[i]
        {
          CanonicalDocUnique(items[i]);
        }
        assert SortedDoc(Denote(d)).items == items;
      case DObj(ms) =>
        var m := DenoteMembers(ms);
        SortedNamesDiffer(ms);
        DenoteMembersLookup(ms);
        var keys := Sorted(m.Keys);
        forall k
          ensures k in Keys(ms) <==> k in keys
        {
        }
        SortedUnique(Keys(ms), keys);
        var written := SortedMembers(Denote(d), keys);
        forall i | 0 <= i < |ms|
          ensures written[i] == ms[i]
        {
          SortedMembersValue(Denote(d), keys, i);
          assert keys[i] == Keys(ms)[i] == ms[i].key;
          CanonicalDocUnique(ms[i].value);
        }
        assert written == ms;
      case _ =>
    }
  }

  /** No object repeats a name. */
  predicate NamesDiffer(ms: seq<Member>) {
    forall i, j :: 0 <= i < j < |ms| ==> ms[i].key != ms[j].key
  }

  lemma SortedNamesDiffer(ms: seq<Member>)
    requires StrictlySorted(Keys(ms))
    ensures NamesDiffer(ms)
  {
    forall i, j | 0 <= i < j < |ms|
      ensures ms[i].key != ms[j].key
    {
      assert Less(Keys(ms)[i], Keys(ms)[j]);
    }
  }

  lemma {:induction false} DenoteMembersLookup(ms: seq<Member>)
    requires NamesDiffer(ms)
    ensures forall k :: k in DenoteMembers(ms) <==> k in Keys(ms)
    ensures forall i :: 0 <= i < |ms| ==>
      ms[i].key in DenoteMembers(ms) && DenoteMembers(ms)[ms[i].key] == Denote(ms[i].value)
    decreases |ms|
  {
    if ms != [] {
      var n := |ms| - 1;
      DenoteMembersLookup(ms[..n]);
      assert Keys(ms) == Keys(ms[..n]) + [ms[n].key];
      forall i | 0 <= i < |ms|
        ensures ms[i].key in DenoteMembers(ms) && DenoteMembers(ms)[ms[i].key] == Denote(ms[i].value)
      {
        if i < n {
          assert ms[..n][i] == ms[i];
        }
      }
    }
  }

  /** A text is accepted exactly when it is the plain rendering of a canonical document. */
  lemma AcceptedIffCanonicalText(raw: string)
    ensures Accepted(raw) <==> exists d :: Canonical(d) && raw == Emit(d, false)
  {
    if Accepted(raw) {
      SortedIsCanonical(Loads(raw).value);
      assert raw == Emit(SortedDoc(Loads(raw).value), false);
    }
    if d :| Canonical(d) && raw == Emit(d, false) {
      CanonicalDocUnique(d);
      DocRoundTrip(d, false);
    }
  }

  // ---------------------------------------------------------------- insertion order

  /** No object repeats a name, at any depth: what building dicts leaves of a document. */
  ghost predicate Unrepeated(d: Doc)
    decreases d
  {
    match d
    case DArr(items) => forall i :: 0 <= i < |items| ==> Unrepeated(items[i])
    case DObj(ms) => NamesDiffer(ms) && forall i :: 0 <= i < |ms| ==> Unrepeated(ms[i].value)
    case _ => true
  }

  /** The same document up to the order of members, at any depth. */
  ghost predicate Reordered(d: Doc, e: Doc)
    decreases d
  {
    match d
    case DArr(items) =>
      e.DArr? && |e.items| == |items| && forall i :: 0 <= i < |items| ==> Reordered(items[i], e.items[i])
    case DObj(ms) =>
      e.DObj? && (forall k :: k in Keys(ms) <==> k in Keys(e.members)) &&
      forall i, j :: 0 <= i < |ms| && 0 <= j < |e.members| && ms[i].key == e.members[j].key ==>
        Reordered(ms[i].value, e.members[j].value)
    case _ => d == e
  }

  lemma {:induction false} ReorderedDenotes(d: Doc, e: Doc)
    requires Unrepeated(d) && Unrepeated(e)
    ensures Reordered(d, e) <==> Denote(d) == Denote(e)
    decreases d
  {
    match d {
      case DArr(items) =>
        if e.DArr? && |e.items| == |items| {
          ReorderedItems(items, e.items);
        }
      case DObj(ms) =>
        if e.DObj? {
          ReorderedMembers(ms, e.members);
        }
      case _ =>
    }
  }

  lemma {:induction false} ReorderedItems(a: seq<Doc>, b: seq<Doc>)
    requires |a| == |b| && Unrepeated(DArr(a)) && Unrepeated(DArr(b))
    ensures Reordered(DArr(a), DArr(b)) <==> Denote(DArr(a)) == Denote(DArr(b))
    decreases a, 0
  {
    forall i | 0 <= i < |a|
      ensures Reordered(a[i], b[i]) <==> Denote(a[i]) == Denote(b[i])
    {
      ReorderedDenotes(a[i], b[i]);
    }
    var x, y := Denote(DArr(a)).items, Denote(DArr(b)).items;
    assert forall i :: 0 <= i < |a| ==> x[i] == Denote(a[i]) && y[i] == Denote(b[i]);
    assert (forall i :: 0 <= i < |a| ==> x[i] == y[i]) <==> x == y;
  }

  lemma {:induction false} ReorderedMembers(a: seq<Member>, b: seq<Member>)
    requires Unrepeated(DObj(a)) && Unrepeated(DObj(b))
    ensures Reordered(DObj(a), DObj(b)) <==> Denote(DObj(a)) == Denote(DObj(b))
    decreases a, 0
  {
    hide DenoteMembers, NamesDiffer;
    DenoteMembersLookup(a);
    DenoteMembersLookup(b);
    var x, y := DenoteMembers(a), DenoteMembers(b);
    forall i, j | 0 <= i < |a| && 0 <= j < |b|
      ensures Reordered(a[i].value, b[j].value) <==> Denote(a[i].value) == Denote(b[j].value)
    {
      ReorderedDenotes(a[i].value, b[j].value);
    }
    if Reordered(DObj(a), DObj(b)) {
      forall k | k in x && k in y
        ensures x[k] == y[k]
      {
        var i :| 0 <= i < |a| && Keys(a)[i] == k;
        var j :| 0 <= j < |b| && Keys(b)[j] == k;
        assert a[i].key == b[j].key;
      }
      assert x == y;
    }
  }

  /** Without repeated names the canonical text ignores the order of members, at every depth, and nothing else. */
  lemma EncodeIgnoresInsertionOrder(d: Doc, e: Doc)
    requires Unrepeated(d) && Unrepeated(e)
    ensures Encode(Denote(d)) == Encode(Denote(e)) <==> Reordered(d, e)
  {
    ReorderedDenotes(d, e);
    EncodeIsIdentity(Denote(d), Denote(e));
  }

  // ---------------------------------------------------------------- self-verifying plans

  const PHYSICAL_PLAN_SCHEMA := "io.dander.physical-plan/v1"

  /** The contents whose digest is the plan's revision. */
  function PlanContents(plan: Json): string {
    Encode(Obj(map["schema" := Str(PHYSICAL_PLAN_SCHEMA), "plan" := plan]))
  }

  predicate IsSha256(s: string) {
    |s| == 64 && forall i :: 0 <= i < |s| ==> '0' <= s[i] <= '9' || 'a' <= s[i] <= 'f'
  }

  const MAX_PHYSICAL_PLAN_BYTES := 262144

  /** A self-verifying plan text, read for any digest function: the plan and its revision. */
  function PhysicalPlan(raw: string, sha256: string -> string): Option<(Json, string)> {
    if raw == [] || Utf8Length(raw) > MAX_PHYSICAL_PLAN_BYTES then None else
    var envelope :- Loads(raw);
    if !envelope.Obj? then None
    else
      var m := envelope.members;
      if "schema" !in m || m["schema"] != Str(PHYSICAL_PLAN_SCHEMA) then None
      else if "revision" !in m || !m["revision"].Str? || !IsSha256(m["revision"].text) then None
      else if "plan" !in m || !m["plan"].Obj? then None
      else if m["revision"].text != sha256(PlanContents(m["plan"])) || raw != Encode(envelope) then None
      else Some((m["plan"], m["revision"].text))
  }

  /** The revision is a function of the plan alone, and different plans can share one only by a digest collision. */
  lemma RevisionIsPlanIdentity(a: string, b: string, sha256: string -> string)
    requires PhysicalPlan(a, sha256).Some? && PhysicalPlan(b, sha256).Some?
    ensures var (p, r) := PhysicalPlan(a, sha256).value; var (q, s) := PhysicalPlan(b, sha256).value;
      (p == q ==> r == s) &&
      (p != q && r == s ==>
        PlanContents(p) != PlanContents(q) && sha256(PlanContents(p)) == sha256(PlanContents(q)))
  {
    var (p, r) := PhysicalPlan(a, sha256).value;
    var (q, s) := PhysicalPlan(b, sha256).value;
    EncodeIsIdentity(
      Obj(map["schema" := Str(PHYSICAL_PLAN_SCHEMA), "plan" := p]),
      Obj(map["schema" := Str(PHYSICAL_PLAN_SCHEMA), "plan" := q]));
    if p != q {
      var c := Obj(map["schema" := Str(PHYSICAL_PLAN_SCHEMA), "plan" := p]);
      var d := Obj(map["schema" := Str(PHYSICAL_PLAN_SCHEMA), "plan" := q]);
      assert c.members["plan"] != d.members["plan"];
    }
  }

  /** The envelope a planner writes around a plan. */
  function Envelope(plan: Json, sha256: string -> string): string {
    Encode(Obj(map[
      "schema" := Str(PHYSICAL_PLAN_SCHEMA), "plan" := plan, "revision" := Str(sha256(PlanContents(plan)))]))
  }

  /** An envelope within the size bound is accepted, and yields its plan back. */
  lemma PublishedPlanIsAccepted(plan: Json, sha256: string -> string)
    requires plan.Obj? && IsSha256(sha256(PlanContents(plan)))
    requires Utf8Length(Envelope(plan, sha256)) <= MAX_PHYSICAL_PLAN_BYTES
    ensures PhysicalPlan(Envelope(plan, sha256), sha256) == Some((plan, sha256(PlanContents(plan))))
  {
    var envelope := Obj(map[
      "schema" := Str(PHYSICAL_PLAN_SCHEMA), "plan" := plan, "revision" := Str(sha256(PlanContents(plan)))]);
    LoadsEncode(envelope);
    EmitHead(SortedDoc(envelope), false);
  }
}
