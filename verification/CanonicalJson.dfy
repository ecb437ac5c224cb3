/** json.loads and the canonical json.dumps of the Spark driver, on the JSON values without floats. */
module CanonicalJson {
  import opened Text
  import opened Wrappers

  /** A parsed Python value; dict equality ignores insertion order, so an object is a map. */
  datatype Json =
    | Null
    | Bool(flag: bool)
    | Int(number: int)
    | Str(text: string)
    | Arr(items: seq<Json>)
    | Obj(members: map<string, Json>)

  /** A JSON text's own structure: members in textual order, duplicates kept. */
  datatype Doc =
    | DNull
    | DBool(flag: bool)
    | DInt(number: int)
    | DStr(text: string)
    | DArr(items: seq<Doc>)
    | DObj(members: seq<Member>)

  datatype Member = Member(key: string, value: Doc)

  // ---------------------------------------------------------------- documents and values

  /** The value json.loads builds from a document: a repeated key keeps its last value. */
  function Denote(d: Doc): Json
    decreases d, 1
  {
    match d
    case DNull => Null
    case DBool(b) => Bool(b)
    case DInt(n) => Int(n)
    case DStr(s) => Str(s)
    case DArr(items) => Arr(seq(|items|, i requires 0 <= i < |items| => Denote(items[i])))
    case DObj(ms) => Obj(DenoteMembers(ms))
  }

  function DenoteMembers(ms: seq<Member>): map<string, Json>
    decreases ms, 0
  {
    if ms == [] then map[] else
      assert ms[|ms| - 1] in ms;
      DenoteMembers(ms[..|ms| - 1])[ms[|ms| - 1].key := Denote(ms[|ms| - 1].value)]
  }

  /** The document the canonical writer produces for a value: members sorted by name. */
  function SortedDoc(v: Json): Doc
    decreases v, 1
  {
    match v
    case Null => DNull
    case Bool(b) => DBool(b)
    case Int(n) => DInt(n)
    case Str(s) => DStr(s)
    case Arr(items) => DArr(seq(|items|, i requires 0 <= i < |items| => SortedDoc(items[i])))
    case Obj(m) => DObj(SortedMembers(v, Sorted(m.Keys)))
  }

  function SortedMembers(v: Json, keys: seq<string>): (ms: seq<Member>)
    requires v.Obj? && forall k :: k in keys ==> k in v.members
    ensures |ms| == |keys| && forall i :: 0 <= i < |keys| ==> ms[i].key == keys[i]
    decreases v, 0, |keys|
  {
    if keys == [] then [] else
      [Member(keys[0], SortedDoc(v.members[keys[0]]))] + SortedMembers(v, keys[1..])
  }

  function Keys(ms: seq<Member>): seq<string> {
    seq(|ms|, i requires 0 <= i < |ms| => ms[i].key)
  }

  /** Object names strictly increase, hence do not repeat, at every depth (RFC 8259, section 4). */
  ghost predicate Canonical(d: Doc)
    decreases d
  {
    match d
    case DArr(items) => forall i :: 0 <= i < |items| ==> Canonical(items[i])
    case DObj(ms) => StrictlySorted(Keys(ms)) && forall i :: 0 <= i < |ms| ==> Canonical(ms[i].value)
    case _ => true
  }

  // ---------------------------------------------------------------- writing

  function HexDigit(n: nat): char
    requires n < 16
  {
    if n < 10 then '0' + (n as char) else 'a' + ((n - 10) as char)
  }

  /** Four lower-case hex digits. */
  function HexDigits(n: nat): (h: string)
    requires n < 0x10000
    ensures |h| == 4
  {
    var tens := n / 16;
    var hundreds := tens / 16;
    [HexDigit(hundreds / 16), HexDigit(hundreds % 16), HexDigit(tens % 16), HexDigit(n % 16)]
  }

  /** A character written as a hex escape, beyond the basic plane as a surrogate pair. */
  function UnicodeEscape(c: char): string {
    var n := c as int;
    if n < 0x10000 then "\\u" + HexDigits(n)
    else "\\u" + HexDigits(0xD800 + (n - 0x10000) / 0x400) + "\\u" + HexDigits(0xDC00 + (n - 0x10000) % 0x400)
  }

  /**
   One character of a JSON string: quote, backslash and controls are escaped, and with `ascii` everything beyond the
   printable ASCII characters too.
  */
  function Escape(c: char, ascii: bool): string {
    if c == '"' then "\\\""
    else if c == '\\' then "\\\\"
    else if c == '\n' then "\\n"
    else if c == '\r' then "\\r"
    else if c == '\t' then "\\t"
    else if c == 12 as char then "\\f"
    else if c == 8 as char then "\\b"
    else if c < ' ' || (ascii && '~' < c) then UnicodeEscape(c)
    else [c]
  }

  function EscapeAll(s: string, ascii: bool): string {
    if s == [] then [] else Escape(s[0], ascii) + EscapeAll(s[1..], ascii)
  }

  function Emit(d: Doc, ascii: bool): string
    decreases d, 1
  {
    match d
    case DNull => "null"
    case DBool(b) => if b then "true" else "false"
    case DInt(n) => Decimal(n)
    case DStr(s) => "\"" + EscapeAll(s, ascii) + "\""
    case DArr(items) => "[" + EmitItems(items, ascii) + "]"
    case DObj(ms) => "{" + EmitMembers(ms, ascii) + "}"
  }

  function EmitItems(items: seq<Doc>, ascii: bool): string
    decreases items, 0
  {
    if items == [] then ""
    else if |items| == 1 then Emit(items[0], ascii)
    else Emit(items[0], ascii) + "," + EmitItems(items[1..], ascii)
  }

  function EmitMember(m: Member, ascii: bool): string
    decreases m, 2
  {
    "\"" + EscapeAll(m.key, ascii) + "\":" + Emit(m.value, ascii)
  }

  function EmitMembers(ms: seq<Member>, ascii: bool): string
    decreases ms, 0
  {
    if ms == [] then ""
    else if |ms| == 1 then EmitMember(ms[0], ascii)
    else EmitMember(ms[0], ascii) + "," + EmitMembers(ms[1..], ascii)
  }

  /** The canonical text of a value: sorted names, no spaces, characters beyond ASCII as they are. */
  function Encode(v: Json): string {
    Emit(SortedDoc(v), false)
  }

  /** The same with everything beyond printable ASCII escaped, as the writer does by default. */
  function EncodeAscii(v: Json): string {
    Emit(SortedDoc(v), true)
  }

  /** The number of UTF-8 bytes of a text. */
  function Utf8Length(s: string): nat {
    if s == [] then 0 else
      (if s[0] < 0x80 as char then 1 else if s[0] < 0x800 as char then 2 else if s[0] < 0x10000 as char then 3 else 4) +
      Utf8Length(s[1..])
  }

  // ---------------------------------------------------------------- reading

  datatype Parsed<T> = Parsed(value: T, rest: string)

  predicate IsSpace(c: char) {
    c == ' ' || c == '\t' || c == '\n' || c == '\r'
  }

  function SkipSpace(s: string): (t: string)
    ensures |t| <= |s|
  {
    if s != [] && IsSpace(s[0]) then SkipSpace(s[1..]) else s
  }

  /** The longest prefix of ASCII digits. */
  function TakeDigits(s: string): (ds: string)
    ensures |ds| <= |s| && ds == s[..|ds|] && AllDigits(ds)
  {
    if s == [] || !IsDigit(s[0]) then [] else [s[0]] + TakeDigits(s[1..])
  }

  function HexValue(c: char): Option<nat> {
    if '0' <= c <= '9' then Some((c as int) - ('0' as int))
    else if 'a' <= c <= 'f' then Some((c as int) - ('a' as int) + 10)
    else if 'A' <= c <= 'F' then Some((c as int) - ('A' as int) + 10)
    else None
  }

  function Hex4(s: string): (r: Option<nat>)
    ensures r.Some? ==> |s| >= 4 && r.value < 0x10000
  {
    if |s| < 4 then None else
      var a :- HexValue(s[0]);
      var b :- HexValue(s[1]);
      var c :- HexValue(s[2]);
      var d :- HexValue(s[3]);
      if a < 16 && b < 16 && c < 16 && d < 16 then Some(((a * 16 + b) * 16 + c) * 16 + d) else None
  }

  /** The text after "\u": four hex digits, or a surrogate pair; a lone surrogate is not representable. */
  function ParseUnicode(s: string): (r: Option<Parsed<char>>)
    ensures r.Some? ==> |r.value.rest| < |s|
  {
    var high :- Hex4(s);
    if high < 0xD800 || 0xE000 <= high then
      Some(Parsed(high as char, s[4..]))
    else if high < 0xDC00 && |s| >= 10 && s[4] == '\\' && s[5] == 'u' then
      var low :- Hex4(s[6..]);
      if 0xDC00 <= low < 0xE000 then
        Some(Parsed((0x10000 + (high - 0xD800) * 0x400 + (low - 0xDC00)) as char, s[10..]))
      else
        None
    else
      None
  }

  /** The text after a backslash. */
  function ParseEscape(s: string): (r: Option<Parsed<char>>)
    ensures r.Some? ==> |r.value.rest| < |s|
  {
    if s == [] then None
    else if s[0] == 'u' then ParseUnicode(s[1..])
    else if s[0] == '"' || s[0] == '\\' || s[0] == '/' then Some(Parsed(s[0], s[1..]))
    else if s[0] == 'b' then Some(Parsed(8 as char, s[1..]))
    else if s[0] == 'f' then Some(Parsed(12 as char, s[1..]))
    else if s[0] == 'n' then Some(Parsed('\n', s[1..]))
    else if s[0] == 'r' then Some(Parsed('\r', s[1..]))
    else if s[0] == 't' then Some(Parsed('\t', s[1..]))
    else None
  }

  /** The text after an opening quote, up to and including the closing one. */
  function ParseString(s: string): (r: Option<Parsed<string>>)
    ensures r.Some? ==> |r.value.rest| < |s|
    decreases |s|
  {
    if s == [] then None
    else if s[0] == '"' then Some(Parsed([], s[1..]))
    else if s[0] == '\\' then
      var c :- ParseEscape(s[1..]);
      var tail :- ParseString(c.rest);
      Some(Parsed([c.value] + tail.value, tail.rest))
    else if s[0] < ' ' then None
    else
      var tail :- ParseString(s[1..]);
      Some(Parsed([s[0]] + tail.value, tail.rest))
  }

  /** A natural number; a leading zero ends it. */
  function ParseNat(s: string): (r: Option<Parsed<nat>>)
    ensures r.Some? ==> |r.value.rest| < |s|
  {
    var ds := TakeDigits(s);
    if ds == [] then None
    else if s[0] == '0' then Some(Parsed(0, s[1..]))
    else Some(Parsed(NatValue(ds), s[|ds|..]))
  }

  function ParseNumber(s: string): (r: Option<Parsed<Doc>>)
    ensures r.Some? ==> |r.value.rest| < |s|
  {
    if s != [] && s[0] == '-' then
      var p :- ParseNat(s[1..]);
      Some(Parsed(DInt(0 - p.value), p.rest))
    else
      var p :- ParseNat(s);
      Some(Parsed(DInt(p.value), p.rest))
  }

  function ParseValue(s: string): (r: Option<Parsed<Doc>>)
    ensures r.Some? ==> |r.value.rest| < |s|
    decreases |s|, 1
  {
    if s == [] then None
    else if s[0] == '"' then
      var p :- ParseString(s[1..]);
      Some(Parsed(DStr(p.value), p.rest))
    else if s[0] == '[' then ParseArray(s[1..])
    else if s[0] == '{' then ParseObject(s[1..])
    else if "null" <= s then Some(Parsed(DNull, s[4..]))
    else if "true" <= s then Some(Parsed(DBool(true), s[4..]))
    else if "false" <= s then Some(Parsed(DBool(false), s[5..]))
    else ParseNumber(s)
  }

  /** The text after an opening bracket. */
  function ParseArray(s: string): (r: Option<Parsed<Doc>>)
    ensures r.Some? ==> |r.value.rest| < |s|
    decreases |s|, 4
  {
    var t := SkipSpace(s);
    if t != [] && t[0] == ']' then Some(Parsed(DArr([]), t[1..]))
    else
      var p :- ParseItems(t);
      Some(Parsed(DArr(p.value), p.rest))
  }

  /** The text after an opening brace. */
  function ParseObject(s: string): (r: Option<Parsed<Doc>>)
    ensures r.Some? ==> |r.value.rest| < |s|
    decreases |s|, 4
  {
    var t := SkipSpace(s);
    if t != [] && t[0] == '}' then Some(Parsed(DObj([]), t[1..]))
    else
      var p :- ParseMembers(t);
      Some(Parsed(DObj(p.value), p.rest))
  }

  function ParseItems(s: string): (r: Option<Parsed<seq<Doc>>>)
    ensures r.Some? ==> |r.value.rest| < |s|
    decreases |s|, 2
  {
    var head :- ParseValue(s);
    var t := SkipSpace(head.rest);
    if t == [] then None
    else if t[0] == ']' then Some(Parsed([head.value], t[1..]))
    else if t[0] != ',' then None
    else
      var tail :- ParseItems(SkipSpace(t[1..]));
      Some(Parsed([head.value] + tail.value, tail.rest))
  }

  function ParseMember(s: string): (r: Option<Parsed<Member>>)
    ensures r.Some? ==> |r.value.rest| < |s|
    decreases |s|, 2
  {
    if s == [] || s[0] != '"' then None else
      var key :- ParseString(s[1..]);
      var t := SkipSpace(key.rest);
      if t == [] || t[0] != ':' then None else
        var value :- ParseValue(SkipSpace(t[1..]));
        Some(Parsed(Member(key.value, value.value), value.rest))
  }

  function ParseMembers(s: string): (r: Option<Parsed<seq<Member>>>)
    ensures r.Some? ==> |r.value.rest| < |s|
    decreases |s|, 3
  {
    var head :- ParseMember(s);
    var t := SkipSpace(head.rest);
    if t == [] then None
    else if t[0] == '}' then Some(Parsed([head.value], t[1..]))
    else if t[0] != ',' then None
    else
      var tail :- ParseMembers(SkipSpace(t[1..]));
      Some(Parsed([head.value] + tail.value, tail.rest))
  }

  /** json.loads up to building dicts. */
  function ParseDoc(raw: string): Option<Doc> {
    var p :- ParseValue(SkipSpace(raw));
    if SkipSpace(p.rest) == [] then Some(p.value) else None
  }

  function Loads(raw: string): Option<Json> {
    var d :- ParseDoc(raw);
    Some(Denote(d))
  }
}
