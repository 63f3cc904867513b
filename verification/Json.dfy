/**
  JSON texts (RFC 8259, sections 2 to 7) as Python's json module writes and reads them:
  `dumps` with ensure_ascii, compact or indented by two, and `loads` with insignificant
  whitespace anywhere. An integer is its value; a number with a fraction or an exponent is kept
  as the numeral it is written with.
 */
module Json {
  import opened Common
  import opened Decimals

  /** What Python writes and reads for the floats that are no JSON numbers. */
  datatype Constant = NaN | Infinity | MinusInfinity

  datatype Json =
    | Null
    | Bool(b: bool)
    | Num(n: int)
    | Float(numeral: FloatText)
    | Special(constant: Constant)
    | Str(s: string)
    | Arr(items: seq<Json>)
    | Obj(members: seq<(string, Json)>)

  // ---------- numerals ----------

  /** Where one is in a number of section 6 of RFC 8259. */
  datatype Place = Start | Minus | Zero | Whole | Point | Fraction | Exp | ExpSign | Exponent | Nowhere

  function Next(q: Place, c: char): Place {
    match q
    case Start => if c == '-' then Minus else if c == '0' then Zero else if IsDigit(c) then Whole else Nowhere
    case Minus => if c == '0' then Zero else if IsDigit(c) then Whole else Nowhere
    case Zero => if c == '.' then Point else if c == 'e' || c == 'E' then Exp else Nowhere
    case Whole => if IsDigit(c) then Whole else if c == '.' then Point else if c == 'e' || c == 'E' then Exp else Nowhere
    case Point => if IsDigit(c) then Fraction else Nowhere
    case Fraction => if IsDigit(c) then Fraction else if c == 'e' || c == 'E' then Exp else Nowhere
    case Exp => if c == '+' || c == '-' then ExpSign else if IsDigit(c) then Exponent else Nowhere
    case ExpSign => if IsDigit(c) then Exponent else Nowhere
    case Exponent => if IsDigit(c) then Exponent else Nowhere
    case Nowhere => Nowhere
  }

  function PlaceAfter(q: Place, s: string): Place
    decreases |s|
  {
    if s == "" then q else PlaceAfter(Next(q, s[0]), s[1..])
  }

  predicate IsInt(q: Place) { q.Zero? || q.Whole? }

  predicate IsFloat(q: Place) { q.Fraction? || q.Exponent? }

  /** A number with a fraction or an exponent. */
  predicate IsFloatText(s: string) { IsFloat(PlaceAfter(Start, s)) }

  type FloatText = s: string | IsFloatText(s) witness "0.0"

  /** A Python dict has one entry per key. */
  predicate DistinctKeys(members: seq<(string, Json)>) {
    forall i, j | 0 <= i < j < |members| :: members[i].0 != members[j].0
  }

  predicate WellFormed(v: Json) {
    match v
    case Arr(items) => forall x | x in items :: WellFormed(x)
    case Obj(members) => DistinctKeys(members) && forall m | m in members :: WellFormed(m.1)
    case _ => true
  }

  function Get(v: Json, key: string): Option<Json>
    requires v.Obj?
  {
    GetMember(v.members, key)
  }

  function GetMember(members: seq<(string, Json)>, key: string): Option<Json> {
    if members == [] then None
    else if members[0].0 == key then Some(members[0].1)
    else GetMember(members[1..], key)
  }

  // ---------- writing ----------

  function HexDigit(d: nat): char
    requires d < 16
  {
    ['0', '1', '2', '3', '4', '5', '6', '7', '8', '9', 'a', 'b', 'c', 'd', 'e', 'f'][d]
  }

  function Hex4(n: nat): string
    requires n < 0x10000
  {
    [HexDigit(n / 4096), HexDigit(n / 256 % 16), HexDigit(n / 16 % 16), HexDigit(n % 16)]
  }

  function UnicodeEscape(n: nat): string
    requires n < 0x10000
  {
    "\\u" + Hex4(n)
  }

  function HighSurrogate(n: nat): (r: nat)
    requires 0x10000 <= n < 0x110000
    ensures 0xD800 <= r < 0xDC00
  {
    0xD800 + (n - 0x10000) / 0x400
  }

  function LowSurrogate(n: nat): (r: nat)
    requires 0x10000 <= n < 0x110000
    ensures 0xDC00 <= r < 0xE000
  {
    0xDC00 + (n - 0x10000) % 0x400
  }

  function EscapeChar(c: char): string {
    var n := c as int;
    if c == '"' then "\\\""
    else if c == '\\' then "\\\\"
    else if c == '\n' then "\\n"
    else if c == '\r' then "\\r"
    else if c == '\t' then "\\t"
    else if n == 8 then "\\b"
    else if n == 12 then "\\f"
    else if 0x20 <= n <= 0x7e then [c]
    else if n < 0x10000 then UnicodeEscape(n)
    else UnicodeEscape(HighSurrogate(n)) + UnicodeEscape(LowSurrogate(n))
  }

  function Escape(s: string): string {
    if s == "" then "" else EscapeChar(s[0]) + Escape(s[1..])
  }

  function PrintString(s: string): string { "\"" + Escape(s) + "\"" }

  function PrintNumber(n: int): string { if n < 0 then "-" + Decimal(-n) else Decimal(n) }

  function PrintConstant(c: Constant): string {
    match c case NaN => "NaN" case Infinity => "Infinity" case MinusInfinity => "-Infinity"
  }

  datatype Style = Compact | Indented

  function Spaces(n: nat): string { if n == 0 then "" else " " + Spaces(n - 1) }

  /** What separates a bracket from the content at nesting depth `level`. */
  function Gap(style: Style, level: nat): string {
    match style
    case Compact => ""
    case Indented => "\n" + Spaces(2 * level)
  }

  /** What follows a comma. */
  function AfterComma(style: Style, level: nat): string {
    match style
    case Compact => " "
    case Indented => Gap(style, level)
  }

  function Print(v: Json, style: Style, level: nat): string {
    match v
    case Null => "null"
    case Bool(b) => if b then "true" else "false"
    case Num(n) => PrintNumber(n)
    case Float(numeral) => numeral
    case Special(constant) => PrintConstant(constant)
    case Str(s) => PrintString(s)
    case Arr(items) =>
      if items == [] then "[]"
      else "[" + Gap(style, level + 1) + PrintItems(items, style, level + 1) + Gap(style, level) + "]"
    case Obj(members) =>
      if members == [] then "{}"
      else "{" + Gap(style, level + 1) + PrintMembers(members, style, level + 1) + Gap(style, level) + "}"
  }

  function PrintItems(items: seq<Json>, style: Style, level: nat): string
    requires items != []
  {
    var first := Print(items[0], style, level);
    if |items| == 1 then first
    else first + "," + AfterComma(style, level) + PrintItems(items[1..], style, level)
  }

  function PrintMember(m: (string, Json), style: Style, level: nat): string {
    PrintString(m.0) + ": " + Print(m.1, style, level)
  }

  function PrintMembers(members: seq<(string, Json)>, style: Style, level: nat): string
    requires members != []
  {
    var first := PrintMember(members[0], style, level);
    if |members| == 1 then first
    else first + "," + AfterComma(style, level) + PrintMembers(members[1..], style, level)
  }

  /** json.dumps(v) and json.dumps(v, indent=2) */
  function Dumps(v: Json, style: Style): string { Print(v, style, 0) }

  // ---------- reading ----------

  predicate IsSpace(c: char) { c == ' ' || c == '\t' || c == '\n' || c == '\r' }

  function SkipSpace(s: string): (r: string)
    ensures |r| <= |s|
    ensures r != "" ==> !IsSpace(r[0])
  {
    if s != "" && IsSpace(s[0]) then SkipSpace(s[1..]) else s
  }

  function HexValue(c: char): Option<nat> {
    if '0' <= c <= '9' then Some((c as int) - ('0' as int))
    else if 'a' <= c <= 'f' then Some((c as int) - ('a' as int) + 10)
    else if 'A' <= c <= 'F' then Some((c as int) - ('A' as int) + 10)
    else None
  }

  /** The four hex digits of a \u escape. */
  function ParseHex4(s: string): (r: Option<nat>)
    ensures r.Some? ==> |s| >= 4 && r.value < 0x10000
  {
    if |s| < 4 then None
    else
      var a, b, c, d := HexValue(s[0]), HexValue(s[1]), HexValue(s[2]), HexValue(s[3]);
      if a.None? || b.None? || c.None? || d.None? then None
      else Some(a.value * 4096 + b.value * 256 + c.value * 16 + d.value)
  }

  /** The characters after a backslash: the character meant and what follows. */
  function ParseEscape(s: string): (r: Option<(char, string)>)
    ensures r.Some? ==> |r.value.1| < |s|
  {
    if s == "" then None
    else if s[0] == '"' || s[0] == '\\' || s[0] == '/' then Some((s[0], s[1..]))
    else if s[0] == 'n' then Some(('\n', s[1..]))
    else if s[0] == 'r' then Some(('\r', s[1..]))
    else if s[0] == 't' then Some(('\t', s[1..]))
    else if s[0] == 'b' then Some((8 as char, s[1..]))
    else if s[0] == 'f' then Some((12 as char, s[1..]))
    else if s[0] == 'u' then ParseUnicode(s[1..])
    else None
  }

  /** \uXXXX, or a surrogate pair of two of them; a lone surrogate is no character. */
  function ParseUnicode(s: string): (r: Option<(char, string)>)
    ensures r.Some? ==> |r.value.1| < |s|
  {
    var n := ParseHex4(s);
    if n.None? then None
    else if n.value < 0xD800 || 0xE000 <= n.value then Some((n.value as char, s[4..]))
    else if n.value < 0xDC00 && |s| >= 6 && s[4] == '\\' && s[5] == 'u' then ParseLowSurrogate(n.value, s[6..])
    else None
  }

  function ParseLowSurrogate(high: nat, s: string): (r: Option<(char, string)>)
    requires 0xD800 <= high < 0xDC00
    ensures r.Some? ==> |r.value.1| < |s|
  {
    var low := ParseHex4(s);
    if low.Some? && 0xDC00 <= low.value < 0xE000
    then Some(((0x10000 + (high - 0xD800) * 0x400 + (low.value - 0xDC00)) as char, s[4..]))
    else None
  }

  /** The rest of a string after its opening quote. */
  function ParseString(s: string): (r: Option<(string, string)>)
    ensures r.Some? ==> |r.value.1| < |s|
    decreases |s|
  {
    if s == "" then None
    else if s[0] == '"' then Some(("", s[1..]))
    else if s[0] == '\\' then
      var e := ParseEscape(s[1..]);
      if e.None? then None else Prepend(e.value.0, ParseString(e.value.1))
    else if (s[0] as int) < 0x20 then None
    else Prepend(s[0], ParseString(s[1..]))
  }

  function Prepend(c: char, r: Option<(string, string)>): Option<(string, string)> {
    if r.None? then None else Some(([c] + r.value.0, r.value.1))
  }

  /** Length of the longest start of `s` that completes a number from `q`. */
  function Longest(q: Place, s: string): (r: Option<nat>)
    ensures r.Some? ==> r.value <= |s|
    ensures r.Some? ==> var p := PlaceAfter(q, s[..r.value]); IsInt(p) || IsFloat(p)
    decreases |s|
  {
    var here := if IsInt(q) || IsFloat(q) then Some(0) else None;
    if s == "" || Next(q, s[0]).Nowhere? then here
    else
      var r := Longest(Next(q, s[0]), s[1..]);
      if r.None? then here
      else
        assert s[..r.value + 1][1..] == s[1..][..r.value];
        Some(r.value + 1)
  }

  lemma {:induction false} IntDigits(q: Place, s: string)
    requires IsInt(PlaceAfter(q, s)) && (IsInt(q) || q.Minus?)
    ensures forall i | 0 <= i < |s| :: IsDigit(s[i])
    decreases |s|
  {
    if s != "" {
      StaysNowhere(s[1..]);
      LeftInt(Next(q, s[0]), s[1..]);
      IntDigits(Next(q, s[0]), s[1..]);
    }
  }

  lemma {:induction false} StaysNowhere(s: string)
    ensures PlaceAfter(Nowhere, s) == Nowhere
  {
    if s != "" { StaysNowhere(s[1..]); }
  }

  /** Past a point or an exponent a number is no integer any more. */
  lemma {:induction false} LeftInt(q: Place, s: string)
    ensures IsInt(PlaceAfter(q, s)) ==> IsInt(q) || q.Start? || q.Minus?
    decreases |s|
  {
    if s != "" { LeftInt(Next(q, s[0]), s[1..]); }
  }

  /** The value of an integer numeral. */
  function IntValue(s: string): int
    requires IsInt(PlaceAfter(Start, s))
  {
    LeftInt(Next(Start, s[0]), s[1..]);
    IntDigits(Next(Start, s[0]), s[1..]);
    if s[0] == '-' then -(Value(s[1..]) as int) else Value(s)
  }

  /** The longest number at the start: a float if it has a fraction or an exponent. */
  function ParseNumber(s: string): (r: Option<(Json, string)>)
    ensures r.Some? ==> |r.value.1| < |s|
  {
    match Longest(Start, s)
    case None => if "-Infinity" <= s then Some((Special(MinusInfinity), s[9..])) else None
    case Some(n) =>
      var t := s[..n];
      Some((if IsFloat(PlaceAfter(Start, t)) then Float(t) else Num(IntValue(t)), s[n..]))
  }

  function ParseWord(s: string): (r: Option<(Json, string)>)
    ensures r.Some? ==> |r.value.1| < |s|
  {
    if "null" <= s then Some((Null, s[4..]))
    else if "true" <= s then Some((Bool(true), s[4..]))
    else if "false" <= s then Some((Bool(false), s[5..]))
    else if "NaN" <= s then Some((Special(NaN), s[3..]))
    else if "Infinity" <= s then Some((Special(Infinity), s[8..]))
    else None
  }

  /** A value at the very start of the text. */
  function ParseValue(s: string): (r: Option<(Json, string)>)
    ensures r.Some? ==> |r.value.1| < |s|
    decreases |s|, 0
  {
    if s == "" then None
    else if s[0] == '"' then
      var r := ParseString(s[1..]);
      if r.None? then None else Some((Str(r.value.0), r.value.1))
    else if s[0] == '[' then
      var t := SkipSpace(s[1..]);
      if t != "" && t[0] == ']' then Some((Arr([]), t[1..]))
      else
        var r := ParseItems(t);
        if r.None? then None else Some((Arr(r.value.0), r.value.1))
    else if s[0] == '{' then
      var t := SkipSpace(s[1..]);
      if t != "" && t[0] == '}' then Some((Obj([]), t[1..]))
      else
        var r := ParseMembers(t);
        if r.None? then None else Some((Obj(DictOf(r.value.0)), r.value.1))
    else if s[0] == '-' || IsDigit(s[0]) then ParseNumber(s)
    else ParseWord(s)
  }

  /** One or more values, up to the closing bracket. */
  function ParseItems(s: string): (r: Option<(seq<Json>, string)>)
    ensures r.Some? ==> |r.value.1| < |s|
    decreases |s|, 1
  {
    var v := ParseValue(s);
    if v.None? then None
    else
      var t := SkipSpace(v.value.1);
      if t == "" then None
      else if t[0] == ']' then Some(([v.value.0], t[1..]))
      else if t[0] == ',' then Also(v.value.0, ParseItems(SkipSpace(t[1..])))
      else None
  }

  function Also<T>(x: T, r: Option<(seq<T>, string)>): Option<(seq<T>, string)> {
    if r.None? then None else Some(([x] + r.value.0, r.value.1))
  }

  function ParseMember(s: string): (r: Option<((string, Json), string)>)
    ensures r.Some? ==> |r.value.1| < |s|
    decreases |s|, 1
  {
    if s == "" || s[0] != '"' then None
    else
      var k := ParseString(s[1..]);
      if k.None? then None
      else
        var t := SkipSpace(k.value.1);
        if t == "" || t[0] != ':' then None
        else
          var v := ParseValue(SkipSpace(t[1..]));
          if v.None? then None else Some(((k.value.0, v.value.0), v.value.1))
  }

  function ParseMembers(s: string): (r: Option<(seq<(string, Json)>, string)>)
    ensures r.Some? ==> |r.value.1| < |s|
    decreases |s|, 2
  {
    var m := ParseMember(s);
    if m.None? then None
    else
      var t := SkipSpace(m.value.1);
      if t == "" then None
      else if t[0] == '}' then Some(([m.value.0], t[1..]))
      else if t[0] == ',' then Also(m.value.0, ParseMembers(SkipSpace(t[1..])))
      else None
  }

  /** dict(pairs): a repeated key keeps its place and takes the later value. */
  function Put(members: seq<(string, Json)>, key: string, v: Json): seq<(string, Json)> {
    if members == [] then [(key, v)]
    else if members[0].0 == key then [(key, v)] + members[1..]
    else [members[0]] + Put(members[1..], key, v)
  }

  function DictOf(pairs: seq<(string, Json)>): seq<(string, Json)> {
    if pairs == [] then []
    else Put(DictOf(pairs[..|pairs| - 1]), pairs[|pairs| - 1].0, pairs[|pairs| - 1].1)
  }

  /** json.loads: one value and nothing but whitespace around it. */
  function Loads(s: string): Option<Json> {
    var r := ParseValue(SkipSpace(s));
    if r.None? || SkipSpace(r.value.1) != "" then None else Some(r.value.0)
  }
}
