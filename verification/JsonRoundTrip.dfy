/** Reading back what was written, for every value, in both styles. */
module JsonRoundTrip {
  import opened Common
  import opened Decimals
  import opened Json

  // ---------- strings ----------

  lemma DropPrefix(a: string, b: string)
    ensures (a + b)[|a|..] == b
  {
  }

  lemma HexDigitValue(d: nat)
    requires d < 16
    ensures HexValue(HexDigit(d)) == Some(d)
  {
  }

  lemma Hex4Sum(n: nat)
    requires n < 0x10000
    ensures n / 4096 < 16
    ensures n == n / 4096 * 4096 + n / 256 % 16 * 256 + n / 16 % 16 * 16 + n % 16
  {
    assert n / 256 == n / 16 / 16;
    assert n / 4096 == n / 256 / 16;
  }

  lemma ParseHex4Print(n: nat, rest: string)
    requires n < 0x10000
    ensures ParseHex4(Hex4(n) + rest) == Some(n)
  {
    Hex4Sum(n);
    HexDigitValue(n / 4096);
    HexDigitValue(n / 256 % 16);
    HexDigitValue(n / 16 % 16);
    HexDigitValue(n % 16);
    ParseHex4Digits(n / 4096, n / 256 % 16, n / 16 % 16, n % 16, Hex4(n) + rest);
  }

  lemma ParseHex4Digits(a: nat, b: nat, c: nat, d: nat, s: string)
    requires a < 16 && b < 16 && c < 16 && d < 16 && |s| >= 4
    requires HexValue(s[0]) == Some(a) && HexValue(s[1]) == Some(b) && HexValue(s[2]) == Some(c) && HexValue(s[3]) == Some(d)
    ensures ParseHex4(s) == Some(a * 4096 + b * 256 + c * 16 + d)
  {
  }

  lemma ParseShortUnicode(n: nat, rest: string)
    requires n < 0xD800 || 0xE000 <= n < 0x10000
    ensures ParseUnicode(Hex4(n) + rest) == Some((n as char, rest))
  {
    ParseHex4Print(n, rest);
    DropPrefix(Hex4(n), rest);
  }

  lemma UnicodeText(n: nat, rest: string)
    requires n < 0x10000
    ensures UnicodeEscape(n) + rest == "\\" + ("u" + (Hex4(n) + rest))
  {
  }

  lemma ParseSurrogatePair(n: nat, rest: string)
    requires 0x10000 <= n < 0x110000
    ensures ParseUnicode(Hex4(HighSurrogate(n)) + (UnicodeEscape(LowSurrogate(n)) + rest)) == Some((n as char, rest))
  {
    var high, low := HighSurrogate(n), LowSurrogate(n);
    var tail := Hex4(low) + rest;
    ParseHex4Print(low, rest);
    DropPrefix(Hex4(low), rest);
    assert ParseLowSurrogate(high, tail) == Some((n as char, rest));
    UnicodeText(low, rest);
    ParseHex4Print(high, "\\" + ("u" + tail));
    PairAt(Hex4(high), tail);
  }

  lemma PairAt(a: string, b: string)
    requires |a| == 4
    ensures var s := a + ("\\" + ("u" + b)); |s| >= 6 && s[4] == '\\' && s[5] == 'u' && s[6..] == b
  {
  }

  lemma ParsePlainChar(c: char, rest: string)
    requires c != '"' && c != '\\' && (c as int) >= 0x20
    ensures ParseString([c] + rest) == Prepend(c, ParseString(rest))
  {
    DropPrefix([c], rest);
  }

  lemma ParseBackslash(tail: string, c: char, rest: string)
    requires ParseEscape(tail) == Some((c, rest))
    ensures ParseString("\\" + tail) == Prepend(c, ParseString(rest))
  {
    DropPrefix("\\", tail);
  }

  lemma ParseShortEscape(c: char, rest: string)
    requires c in {'"', '\\', '\n', '\r', '\t'} || (c as int) == 8 || (c as int) == 12
    ensures |EscapeChar(c)| == 2 && EscapeChar(c)[0] == '\\'
    ensures ParseEscape([EscapeChar(c)[1]] + rest) == Some((c, rest))
  {
    DropPrefix([EscapeChar(c)[1]], rest);
  }

  lemma ParseEscapedChar(c: char, rest: string)
    ensures ParseString(EscapeChar(c) + rest) == Prepend(c, ParseString(rest))
  {
    var n := c as int;
    if c in {'"', '\\', '\n', '\r', '\t'} || n == 8 || n == 12 {
      ParseShortEscape(c, rest);
      assert EscapeChar(c) + rest == "\\" + ([EscapeChar(c)[1]] + rest);
      ParseBackslash([EscapeChar(c)[1]] + rest, c, rest);
    } else if 0x20 <= n <= 0x7e {
      ParsePlainChar(c, rest);
    } else {
      ParseUnicodeEscape(c, rest);
    }
  }

  lemma ParseUnicodeEscape(c: char, rest: string)
    requires c !in {'\n', '\r', '\t'} && (c as int) != 8 && (c as int) != 12 && !(0x20 <= (c as int) <= 0x7e)
    ensures ParseString(EscapeChar(c) + rest) == Prepend(c, ParseString(rest))
  {
    var n := c as int;
    if n < 0x10000 {
      ParseShortUnicode(n, rest);
      EscapedUnicode(n, rest, c, rest);
    } else {
      ParseSurrogatePair(n, rest);
      EscapedUnicode(HighSurrogate(n), UnicodeEscape(LowSurrogate(n)) + rest, c, rest);
      PairText(UnicodeEscape(HighSurrogate(n)), UnicodeEscape(LowSurrogate(n)), rest);
    }
  }

  lemma PairText(a: string, b: string, c: string)
    ensures (a + b) + c == a + (b + c)
  {
  }

  lemma EscapedUnicode(n: nat, tail: string, c: char, rest: string)
    requires n < 0x10000 && ParseUnicode(Hex4(n) + tail) == Some((c, rest))
    ensures ParseString(UnicodeEscape(n) + tail) == Prepend(c, ParseString(rest))
  {
    UnicodeText(n, tail);
    DropPrefix("u", Hex4(n) + tail);
    ParseBackslash("u" + (Hex4(n) + tail), c, rest);
  }

  /** Every string, with quotes, controls and characters beyond the basic plane. */
  lemma {:induction false} ParsePrintedString(t: string, rest: string)
    ensures ParseString(Escape(t) + ("\"" + rest)) == Some((t, rest))
  {
    if t == "" {
      assert "" + ("\"" + rest) == "\"" + rest;
      DropPrefix("\"", rest);
    } else {
      var tail := Escape(t[1..]) + ("\"" + rest);
      assert Escape(t) + ("\"" + rest) == EscapeChar(t[0]) + tail;
      ParseEscapedChar(t[0], tail);
      ParsePrintedString(t[1..], rest);
      assert [t[0]] + t[1..] == t;
    }
  }

  // ---------- numbers ----------

  /** The text does not go on with a character that could belong to a number. */
  predicate EndsNumber(rest: string) {
    rest == "" || (!IsDigit(rest[0]) && rest[0] !in {'.', 'e', 'E'})
  }

  /** A whole number is taken whole when what follows cannot continue it. */
  lemma {:induction false} LongestIsWhole(q: Place, t: string, rest: string)
    requires EndsNumber(rest)
    requires IsInt(PlaceAfter(q, t)) || IsFloat(PlaceAfter(q, t))
    ensures Longest(q, t + rest) == Some(|t|)
    decreases |t|
  {
    if t == "" {
      assert t + rest == rest;
    } else {
      assert (t + rest)[1..] == t[1..] + rest && (t + rest)[0] == t[0];
      StaysNowhere(t[1..]);
      LongestIsWhole(Next(q, t[0]), t[1..], rest);
    }
  }

  lemma NumberText(s: string)
    requires s != "" && (s[0] == '-' || IsDigit(s[0]))
    ensures ParseValue(s) == ParseNumber(s)
  {
  }

  lemma ParseNumeral(t: string, rest: string)
    requires EndsNumber(rest)
    requires IsInt(PlaceAfter(Start, t)) || IsFloat(PlaceAfter(Start, t))
    ensures ParseNumber(t + rest) == Some((if IsFloat(PlaceAfter(Start, t)) then Float(t) else Num(IntValue(t)), rest))
  {
    LongestIsWhole(Start, t, rest);
    assert (t + rest)[..|t|] == t && (t + rest)[|t|..] == rest;
  }

  lemma {:induction false} DigitsAreWhole(d: string)
    requires forall i | 0 <= i < |d| :: IsDigit(d[i])
    ensures PlaceAfter(Whole, d) == Whole
  {
    if d != "" { DigitsAreWhole(d[1..]); }
  }

  lemma NaturalIsInt(n: nat, q: Place)
    requires q.Start? || q.Minus?
    ensures IsInt(PlaceAfter(q, Decimal(n)))
  {
    DecimalLeadingDigit(n);
    DigitsAreWhole(Decimal(n)[1..]);
  }

  lemma PrintedInt(n: int)
    ensures IsInt(PlaceAfter(Start, PrintNumber(n))) && IntValue(PrintNumber(n)) == n
    ensures PrintNumber(n)[0] == '-' || IsDigit(PrintNumber(n)[0])
  {
    var m: nat := if n < 0 then -n else n;
    var d := Decimal(m);
    NaturalIsInt(m, Start);
    NaturalIsInt(m, Minus);
    ValueOfDecimal(m);
    assert ("-" + d)[1..] == d;
  }

  lemma ParsePrintedNumber(n: int, rest: string)
    requires EndsNumber(rest)
    ensures ParseValue(PrintNumber(n) + rest) == Some((Num(n), rest))
  {
    PrintedInt(n);
    ParseNumeral(PrintNumber(n), rest);
    NumberText(PrintNumber(n) + rest);
  }

  lemma ParsePrintedFloat(t: FloatText, rest: string)
    requires EndsNumber(rest)
    ensures ParseValue(t + rest) == Some((Float(t), rest))
  {
    ParseNumeral(t, rest);
    FloatCharacters(Start, t);
    NumberText(t + rest);
  }

  lemma ParseMinus(rest: string)
    ensures ParseValue("-Infinity" + rest) == Some((Special(MinusInfinity), rest))
  {
    var s := "-Infinity" + rest;
    DropPrefix("-Infinity", rest);
    assert s[0] == '-' && s[1..][0] == 'I';
    assert Longest(Minus, s[1..]) == None;
    NumberText(s);
  }

  /** A number holds nothing but digits, signs, a point and the letter of its exponent. */
  lemma {:induction false} FloatCharacters(q: Place, t: string)
    requires !PlaceAfter(q, t).Nowhere?
    ensures forall j | 0 <= j < |t| :: IsDigit(t[j]) || t[j] in {'-', '+', '.', 'e', 'E'}
    ensures q.Start? && t != "" ==> t[0] == '-' || IsDigit(t[0])
    decreases |t|
  {
    if t != "" {
      StaysNowhere(t[1..]);
      FloatCharacters(Next(q, t[0]), t[1..]);
    }
  }

  // ---------- whitespace ----------

  predicate AllSpace(s: string) { forall i | 0 <= i < |s| :: IsSpace(s[i]) }

  lemma {:induction false} SkipGap(gap: string, s: string)
    requires AllSpace(gap) && s != "" && !IsSpace(s[0])
    ensures SkipSpace(gap + s) == s
  {
    if gap == "" {
      assert gap + s == s;
    } else {
      assert (gap + s)[1..] == gap[1..] + s;
      SkipGap(gap[1..], s);
    }
  }

  lemma {:induction false} GapIsSpace(style: Style, level: nat)
    ensures AllSpace(Gap(style, level)) && AllSpace(AfterComma(style, level))
  {
    SpacesAreSpace(2 * level);
  }

  lemma {:induction false} SpacesAreSpace(n: nat)
    ensures AllSpace(Spaces(n))
  {
    if n > 0 { SpacesAreSpace(n - 1); }
  }

  lemma PrintStarts(v: Json, style: Style, level: nat)
    ensures var s := Print(v, style, level); s != "" && !IsSpace(s[0]) && s[0] != ']'
  {
    if v.Num? && v.n >= 0 { assert PrintNumber(v.n)[0] == Decimal(v.n)[0]; }
    if v.Float? { FloatCharacters(Start, v.numeral); }
  }

  lemma ItemsStart(items: seq<Json>, style: Style, level: nat)
    requires items != []
    ensures var s := PrintItems(items, style, level); s != "" && !IsSpace(s[0]) && s[0] != ']'
  {
    PrintStarts(items[0], style, level);
  }

  // ---------- values ----------

  /** What may follow a value inside or after a text: whitespace, punctuation or nothing. */
  predicate Ends(rest: string) {
    rest == "" || IsSpace(rest[0]) || rest[0] in {',', ']', '}'}
  }

  // How the parser takes a text apart, for texts written as nested concatenations.

  lemma OpenArray(open: string, body: string)
    requires AllSpace(open) && body != "" && !IsSpace(body[0]) && body[0] != ']'
    ensures var r := ParseItems(body);
            ParseValue("[" + (open + body)) == (if r.None? then None else Some((Arr(r.value.0), r.value.1)))
  {
    DropPrefix("[", open + body);
    SkipGap(open, body);
  }

  lemma OpenObject(open: string, body: string)
    requires AllSpace(open) && body != "" && body[0] == '"'
    ensures var r := ParseMembers(body);
            ParseValue("{" + (open + body)) == (if r.None? then None else Some((Obj(DictOf(r.value.0)), r.value.1)))
  {
    DropPrefix("{", open + body);
    SkipGap(open, body);
  }

  lemma LastItem(s: string, v: Json, close: string, rest: string)
    requires AllSpace(close) && ParseValue(s) == Some((v, close + ("]" + rest)))
    ensures ParseItems(s) == Some(([v], rest))
  {
    SkipGap(close, "]" + rest);
    DropPrefix("]", rest);
  }

  lemma NextItem(s: string, v: Json, gap: string, next: string)
    requires AllSpace(gap) && next != "" && !IsSpace(next[0]) && ParseValue(s) == Some((v, "," + (gap + next)))
    ensures ParseItems(s) == Also(v, ParseItems(next))
  {
    assert SkipSpace("," + (gap + next)) == "," + (gap + next);
    DropPrefix(",", gap + next);
    SkipGap(gap, next);
  }

  lemma LastMember(s: string, m: (string, Json), close: string, rest: string)
    requires AllSpace(close) && ParseMember(s) == Some((m, close + ("}" + rest)))
    ensures ParseMembers(s) == Some(([m], rest))
  {
    SkipGap(close, "}" + rest);
    DropPrefix("}", rest);
  }

  lemma NextMember(s: string, m: (string, Json), gap: string, next: string)
    requires AllSpace(gap) && next != "" && !IsSpace(next[0]) && ParseMember(s) == Some((m, "," + (gap + next)))
    ensures ParseMembers(s) == Also(m, ParseMembers(next))
  {
    assert SkipSpace("," + (gap + next)) == "," + (gap + next);
    DropPrefix(",", gap + next);
    SkipGap(gap, next);
  }

  lemma Assoc3(a: string, b: string, c: string, d: string)
    ensures a + b + c + d == a + (b + (c + d))
  {
  }

  lemma Assoc5(a: string, b: string, c: string, d: string, e: string, rest: string)
    ensures a + b + c + d + e + rest == a + (b + (c + (d + (e + rest))))
  {
  }

  lemma WordText(s: string)
    requires s != "" && s[0] != '"' && s[0] != '[' && s[0] != '{' && s[0] != '-' && !IsDigit(s[0])
    ensures ParseValue(s) == ParseWord(s)
  {
  }

  lemma ParsePrintedWord(v: Json, rest: string)
    requires v.Null? || v.Bool? || v.Special?
    ensures ParseValue(Print(v, Compact, 0) + rest) == Some((v, rest))
  {
    if v == Special(MinusInfinity) {
      ParseMinus(rest);
    } else {
      var word := Print(v, Compact, 0);
      DropPrefix(word, rest);
      assert word <= word + rest && (word + rest)[0] == word[0];
      WordText(word + rest);
    }
  }

  lemma {:induction false} ParsePrinted(v: Json, style: Style, level: nat, rest: string)
    requires WellFormed(v) && Ends(rest)
    ensures ParseValue(Print(v, style, level) + rest) == Some((v, rest))
    decreases v, 1
  {
    match v
    case Null => ParsePrintedWord(v, rest);
    case Bool(_) => ParsePrintedWord(v, rest);
    case Special(_) => ParsePrintedWord(v, rest);
    case Num(n) => ParsePrintedNumber(n, rest);
    case Float(t) => ParsePrintedFloat(t, rest);
    case Str(t) =>
      Assoc3("\"", Escape(t), "\"", rest);
      DropPrefix("\"", Escape(t) + ("\"" + rest));
      ParsePrintedString(t, rest);
    case Arr(items) => ParsePrintedArray(items, style, level, rest);
    case Obj(members) => ParsePrintedObject(members, style, level, rest);
  }

  lemma {:induction false} ParsePrintedArray(items: seq<Json>, style: Style, level: nat, rest: string)
    requires forall x | x in items :: WellFormed(x)
    ensures ParseValue(Print(Arr(items), style, level) + rest) == Some((Arr(items), rest))
    decreases items, 3
  {
    if items == [] {
      assert "[]" + rest == "[" + ("]" + rest);
      DropPrefix("[", "]" + rest);
      DropPrefix("]", rest);
    } else {
      var open, close := Gap(style, level + 1), Gap(style, level);
      var text := PrintItems(items, style, level + 1);
      GapIsSpace(style, level + 1);
      GapIsSpace(style, level);
      ItemsStart(items, style, level + 1);
      Assoc5("[", open, text, close, "]", rest);
      ParsePrintedItems(items, style, level + 1, close, rest);
      OpenArray(open, text + (close + ("]" + rest)));
    }
  }

  lemma {:induction false} ParsePrintedObject(members: seq<(string, Json)>, style: Style, level: nat, rest: string)
    requires DistinctKeys(members) && forall m | m in members :: WellFormed(m.1)
    ensures ParseValue(Print(Obj(members), style, level) + rest) == Some((Obj(members), rest))
    decreases members, 3
  {
    if members == [] {
      assert "{}" + rest == "{" + ("}" + rest);
      DropPrefix("{", "}" + rest);
      DropPrefix("}", rest);
    } else {
      var open, close := Gap(style, level + 1), Gap(style, level);
      var text := PrintMembers(members, style, level + 1);
      GapIsSpace(style, level + 1);
      GapIsSpace(style, level);
      MembersStart(members, style, level + 1);
      var body := text + (close + ("}" + rest));
      assert Print(Obj(members), style, level) + rest == "{" + (open + body) by { Assoc5("{", open, text, close, "}", rest); }
      ParsePrintedMembers(members, style, level + 1, close, rest);
      OpenObject(open, body);
      DictOfDistinct(members);
    }
  }

  lemma MembersStart(members: seq<(string, Json)>, style: Style, level: nat)
    requires members != []
    ensures var s := PrintMembers(members, style, level); s != "" && s[0] == '"'
  {
    assert PrintMember(members[0], style, level)[0] == '"';
  }

  /** Items up to the closing bracket. */
  lemma {:induction false} ParsePrintedItems(items: seq<Json>, style: Style, level: nat, close: string, rest: string)
    requires items != [] && AllSpace(close)
    requires forall x | x in items :: WellFormed(x)
    ensures ParseItems(PrintItems(items, style, level) + (close + ("]" + rest))) == Some((items, rest))
    decreases items, 2
  {
    var tail := close + ("]" + rest);
    if |items| == 1 {
      ParsePrinted(items[0], style, level, tail);
      LastItem(PrintItems(items, style, level) + tail, items[0], close, rest);
      assert items == [items[0]];
    } else {
      ParsePrintedItems(items[1..], style, level, close, rest);
      ItemsStart(items[1..], style, level);
      GapIsSpace(style, level);
      ParseMoreItems(items[0], style, level, AfterComma(style, level), PrintItems(items[1..], style, level), tail);
      assert [items[0]] + items[1..] == items;
    }
  }

  /** One item, a comma and the rest of the list. */
  lemma {:induction false} ParseMoreItems(v: Json, style: Style, level: nat, gap: string, more: string, tail: string)
    requires WellFormed(v) && more != "" && !IsSpace(more[0]) && AllSpace(gap)
    ensures ParseItems((Print(v, style, level) + "," + gap + more) + tail) == Also(v, ParseItems(more + tail))
    decreases v, 2
  {
    var next := more + tail;
    ParsePrinted(v, style, level, "," + (gap + next));
    Assoc4(Print(v, style, level), ",", gap, more, tail);
    NextItem(Print(v, style, level) + ("," + (gap + next)), v, gap, next);
  }

  lemma Assoc4(a: string, b: string, c: string, d: string, e: string)
    ensures (a + b + c + d) + e == a + (b + (c + (d + e)))
  {
  }

  lemma {:induction false} ParsePrintedMember(m: (string, Json), style: Style, level: nat, rest: string)
    requires WellFormed(m.1) && Ends(rest)
    ensures ParseMember(PrintMember(m, style, level) + rest) == Some((m, rest))
    decreases m, 2
  {
    PrintStarts(m.1, style, level);
    ParsePrinted(m.1, style, level, rest);
    ParseKey(m.0, Print(m.1, style, level) + rest);
    KeyText(m.0, Print(m.1, style, level), rest);
  }

  lemma KeyText(key: string, value: string, rest: string)
    ensures (PrintString(key) + ": " + value) + rest == "\"" + (Escape(key) + ("\"" + (":" + (" " + (value + rest)))))
  {
  }

  lemma ParseKey(key: string, value: string)
    requires value != "" && !IsSpace(value[0])
    ensures var v := ParseValue(value);
            ParseMember("\"" + (Escape(key) + ("\"" + (":" + (" " + value))))) ==
              (if v.None? then None else Some(((key, v.value.0), v.value.1)))
  {
    var after := ":" + (" " + value);
    DropPrefix("\"", Escape(key) + ("\"" + after));
    ParsePrintedString(key, after);
    assert SkipSpace(after) == after;
    DropPrefix(":", " " + value);
    assert AllSpace(" ");
    SkipGap(" ", value);
  }

  lemma {:induction false} ParsePrintedMembers(members: seq<(string, Json)>, style: Style, level: nat, close: string, rest: string)
    requires members != [] && AllSpace(close)
    requires forall m | m in members :: WellFormed(m.1)
    ensures ParseMembers(PrintMembers(members, style, level) + (close + ("}" + rest))) == Some((members, rest))
    decreases members, 2
  {
    var tail := close + ("}" + rest);
    if |members| == 1 {
      ParsePrintedMember(members[0], style, level, tail);
      LastMember(PrintMembers(members, style, level) + tail, members[0], close, rest);
      assert members == [members[0]];
    } else {
      var first, more := members[0], members[1..];
      var text := PrintMembers(more, style, level);
      ParsePrintedMembers(more, style, level, close, rest);
      MembersStart(more, style, level);
      GapIsSpace(style, level);
      ParseMoreMembers(first, style, level, AfterComma(style, level), text, tail);
      assert [first] + more == members;
      PrintMembersCons(members, style, level, first, more);
    }
  }

  lemma PrintMembersCons(members: seq<(string, Json)>, style: Style, level: nat, first: (string, Json), more: seq<(string, Json)>)
    requires members == [first] + more && more != []
    ensures PrintMembers(members, style, level)
         == PrintMember(first, style, level) + "," + AfterComma(style, level) + PrintMembers(more, style, level)
  {
    assert members[1..] == more;
  }

  /** One member, a comma and the rest of the object. */
  lemma {:induction false} ParseMoreMembers(m: (string, Json), style: Style, level: nat, gap: string, more: string, tail: string)
    requires WellFormed(m.1) && more != "" && !IsSpace(more[0]) && AllSpace(gap)
    ensures ParseMembers((PrintMember(m, style, level) + "," + gap + more) + tail) == Also(m, ParseMembers(more + tail))
    decreases m, 3
  {
    var next := more + tail;
    ParsePrintedMember(m, style, level, "," + (gap + next));
    Assoc4(PrintMember(m, style, level), ",", gap, more, tail);
    NextMember(PrintMember(m, style, level) + ("," + (gap + next)), m, gap, next);
  }

  lemma {:induction false} PutFresh(members: seq<(string, Json)>, key: string, v: Json)
    requires forall i | 0 <= i < |members| :: members[i].0 != key
    ensures Put(members, key, v) == members + [(key, v)]
  {
    if members != [] { PutFresh(members[1..], key, v); }
  }

  lemma {:induction false} DictOfDistinct(members: seq<(string, Json)>)
    requires DistinctKeys(members)
    ensures DictOf(members) == members
  {
    if members != [] {
      var front, last := members[..|members| - 1], members[|members| - 1];
      DictOfDistinct(front);
      PutFresh(front, last.0, last.1);
      assert front + [last] == members;
    }
  }

  /** json.loads(json.dumps(v)) == v, compact or indented. */
  lemma LoadsDumps(v: Json, style: Style)
    requires WellFormed(v)
    ensures Loads(Dumps(v, style)) == Some(v)
  {
    var s := Dumps(v, style);
    PrintStarts(v, style, 0);
    ParsePrinted(v, style, 0, "");
    assert s + "" == s;
  }

  // ---------- the written text is plain ASCII ----------

  predicate IsAscii(s: string) { forall i | 0 <= i < |s| :: (s[i] as int) < 128 }

  lemma AsciiConcat(a: string, b: string)
    requires IsAscii(a) && IsAscii(b)
    ensures IsAscii(a + b)
  {
  }

  lemma UnicodeIsAscii(n: nat)
    requires n < 0x10000
    ensures IsAscii(UnicodeEscape(n))
  {
    Hex4Sum(n);
    assert forall d: nat | d < 16 :: (HexDigit(d) as int) < 128;
  }

  lemma EscapeCharIsAscii(c: char)
    ensures IsAscii(EscapeChar(c))
  {
    var n := c as int;
    if n >= 0x10000 {
      UnicodeIsAscii(HighSurrogate(n));
      UnicodeIsAscii(LowSurrogate(n));
      AsciiConcat(UnicodeEscape(HighSurrogate(n)), UnicodeEscape(LowSurrogate(n)));
    } else if n < 0x20 || n > 0x7e {
      UnicodeIsAscii(n);
    }
  }

  lemma {:induction false} EscapeIsAscii(s: string)
    ensures IsAscii(Escape(s))
  {
    if s != "" {
      EscapeIsAscii(s[1..]);
      EscapeCharIsAscii(s[0]);
      AsciiConcat(EscapeChar(s[0]), Escape(s[1..]));
    }
  }

  lemma GapIsAscii(style: Style, level: nat)
    ensures IsAscii(Gap(style, level)) && IsAscii(AfterComma(style, level))
  {
    GapIsSpace(style, level);
  }

  lemma {:induction false} PrintIsAscii(v: Json, style: Style, level: nat)
    ensures IsAscii(Print(v, style, level))
    decreases v, 1
  {
    match v
    case Arr(items) =>
      if items != [] {
        GapIsAscii(style, level);
        GapIsAscii(style, level + 1);
        ItemsAreAscii(items, style, level + 1);
        EnclosedIsAscii("[", Gap(style, level + 1), PrintItems(items, style, level + 1), Gap(style, level), "]");
      }
    case Obj(members) =>
      if members != [] {
        GapIsAscii(style, level);
        GapIsAscii(style, level + 1);
        MembersAreAscii(members, style, level + 1);
        EnclosedIsAscii("{", Gap(style, level + 1), PrintMembers(members, style, level + 1), Gap(style, level), "}");
      }
    case _ => LeafIsAscii(v, style, level);
  }

  lemma LeafIsAscii(v: Json, style: Style, level: nat)
    requires !v.Arr? && !v.Obj?
    ensures IsAscii(Print(v, style, level))
  {
    match v
    case Float(t) => FloatCharacters(Start, t);
    case Str(s) =>
      EscapeIsAscii(s);
      EnclosedIsAscii("\"", "", Escape(s), "", "\"");
    case _ =>
  }

  lemma EnclosedIsAscii(a: string, b: string, c: string, d: string, e: string)
    requires IsAscii(a) && IsAscii(b) && IsAscii(c) && IsAscii(d) && IsAscii(e)
    ensures IsAscii(a + b + c + d + e) && IsAscii(a + c + e)
  {
  }

  lemma {:induction false} ItemsAreAscii(items: seq<Json>, style: Style, level: nat)
    requires items != []
    ensures IsAscii(PrintItems(items, style, level))
    decreases items, 2
  {
    PrintIsAscii(items[0], style, level);
    GapIsAscii(style, level);
    if |items| > 1 { ItemsAreAscii(items[1..], style, level); }
  }

  lemma {:induction false} MemberIsAscii(m: (string, Json), style: Style, level: nat)
    ensures IsAscii(PrintMember(m, style, level))
    decreases m, 2
  {
    EscapeIsAscii(m.0);
    PrintIsAscii(m.1, style, level);
  }

  lemma {:induction false} MembersAreAscii(members: seq<(string, Json)>, style: Style, level: nat)
    requires members != []
    ensures IsAscii(PrintMembers(members, style, level))
    decreases members, 2
  {
    MemberIsAscii(members[0], style, level);
    GapIsAscii(style, level);
    if |members| > 1 { MembersAreAscii(members[1..], style, level); }
  }
}
