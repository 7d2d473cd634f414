/**
 * JSON strings of the local API: `jsonString` and `parseJsonStringValue` of src/api/LocalApi.cpp.
 * A char stands for one byte of the C++ string.
 */
module JsonStrings {
  import opened Text

  // ---------------------------------------------------------------- printing

  function EscapeDigit(n: nat): char
    requires n < 16
  {
    if n < 10 then ('0' as int + n) as char else ('a' as int + n - 10) as char
  }

  function Escape(c: char): (e: string)
    ensures e != "" && e[0] != '"'
  {
    if c == '"' then "\\\""
    else if c == '\\' then "\\\\"
    else if c == '\U{8}' then "\\b"
    else if c == '\U{c}' then "\\f"
    else if c == '\n' then "\\n"
    else if c == '\r' then "\\r"
    else if c == '\t' then "\\t"
    else if c as int < 0x20 then "\\u00" + [EscapeDigit(c as int / 16), EscapeDigit(c as int % 16)]
    else [c]
  }

  function Escaped(s: string): string {
    if s == "" then "" else Escape(s[0]) + Escaped(s[1..])
  }

  function Quoted(s: string): string { "\"" + Escaped(s) + "\"" }

  method JsonString(value: string) returns (output: string)
    ensures output == Quoted(value)
  {
    output := "\"";
    assert value[0..] == value;
    for i := 0 to |value|
      invariant output + Escaped(value[i..]) == "\"" + Escaped(value)
    {
      hide Escape, Escaped;
      EscapedStep(value[i..]);
      assert value[i..][0] == value[i] && value[i..][1..] == value[i + 1..];
      output := output + Escape(value[i]);
    }
    output := output + "\"";
  }

  lemma EscapedStep(s: string)
    requires s != ""
    ensures Escaped(s) == Escape(s[0]) + Escaped(s[1..])
  {
  }

  // ---------------------------------------------------------------- parsing

  function Nibble(c: char): (n: Option<nat>)
    ensures n.Some? ==> n.value < 16
  {
    if '0' <= c <= '9' then Some(c as int - '0' as int)
    else if 'a' <= c <= 'f' then Some(c as int - 'a' as int + 10)
    else if 'A' <= c <= 'F' then Some(c as int - 'A' as int + 10)
    else None
  }

  /** The number that hexadecimal digits spell; None when one of them is no digit. */
  function CodePoint(hex: string): Option<nat> {
    if hex == "" then Some(0)
    else
      match CodePoint(hex[..|hex| - 1])
      case None => None
      case Some(high) =>
        match Nibble(hex[|hex| - 1])
        case None => None
        case Some(low) => Some(high * 16 + low)
  }

  predicate Surrogate(codePoint: nat) { 0xD800 <= codePoint <= 0xDFFF }

  function Utf8(codePoint: nat): string
    requires codePoint < 0x1_0000
  {
    if codePoint < 0x80 then [codePoint as char]
    else if codePoint < 0x800 then [(0xC0 + codePoint / 64) as char, (0x80 + codePoint % 64) as char]
    else [(0xE0 + codePoint / 4096) as char, (0x80 + codePoint / 64 % 64) as char, (0x80 + codePoint % 64) as char]
  }

  /** What one character or one escape sequence stands for, and how many bytes it takes. */
  datatype Unit = Malformed | Unit(text: string, length: nat)

  function UnicodeEscape(rest: string): (u: Unit)
    ensures u.Unit? ==> u.length == 6 <= |rest|
  {
    if |rest| < 6 then Malformed
    else
      match CodePoint(rest[2..6])
      case None => Malformed
      case Some(codePoint) =>
        FourDigitsAreSmall(rest[2..6]);
        if Surrogate(codePoint) then Malformed else Unit(Utf8(codePoint), 6)
  }

  function ReadUnit(rest: string): (u: Unit)
    requires rest != ""
    ensures u.Unit? ==> 1 <= u.length <= |rest|
  {
    if rest[0] != '\\' then Unit(rest[..1], 1)
    else if |rest| < 2 then Malformed
    else match rest[1]
      case '"' => Unit("\"", 2)
      case '\\' => Unit("\\", 2)
      case '/' => Unit("/", 2)
      case 'b' => Unit("\U{8}", 2)
      case 'f' => Unit("\U{c}", 2)
      case 'n' => Unit("\n", 2)
      case 'r' => Unit("\r", 2)
      case 't' => Unit("\t", 2)
      case 'u' => UnicodeEscape(rest)
      case _ => Malformed
  }

  lemma FourDigitsAreSmall(hex: string)
    requires |hex| == 4
    ensures match CodePoint(hex)
      case None => exists i :: 0 <= i < 4 && Nibble(hex[i]).None?
      case Some(n) =>
        && (forall i :: 0 <= i < 4 ==> Nibble(hex[i]).Some?)
        && n == 0x1000 * Nibble(hex[0]).value + 0x100 * Nibble(hex[1]).value + 0x10 * Nibble(hex[2]).value + Nibble(hex[3]).value
        && n < 0x1_0000
  {
    hide Nibble;
    var h3, h2, h1, h0 := hex[..3], hex[..2], hex[..1], hex[..0];
    assert h3[..2] == h2 && h2[..1] == h1 && h1[..0] == h0 == "";
    assert h3[2] == hex[2] && h2[1] == hex[1] && h1[0] == hex[0];
    assert CodePoint(h0) == Some(0);
    assert CodePoint(h1) == Nibble(hex[0]);
    assert CodePoint(h2).Some? <==> Nibble(hex[0]).Some? && Nibble(hex[1]).Some?;
    assert CodePoint(h3).Some? <==> CodePoint(h2).Some? && Nibble(hex[2]).Some?;
    assert CodePoint(hex).Some? <==> CodePoint(h3).Some? && Nibble(hex[3]).Some?;
  }

  /** The text up to the closing quote, decoded; None when it is malformed or never closed. */
  function Decode(rest: string): Option<string>
    decreases |rest|
  {
    if rest == "" then None
    else if rest[0] == '"' then Some("")
    else
      match ReadUnit(rest)
      case Malformed => None
      case Unit(text, length) => Prepend(text, Decode(rest[length..]))
  }

  function Prepend(text: string, more: Option<string>): Option<string> {
    if more.None? then None else Some(text + more.value)
  }

  lemma PrependTwice(a: string, b: string, more: Option<string>)
    ensures Prepend("", more) == more && Prepend(a + b, more) == Prepend(a, Prepend(b, more))
  {
    if more.Some? { assert "" + more.value == more.value && a + b + more.value == a + (b + more.value); }
  }

  predicate IsSpace(c: char) { c == ' ' || c == '\t' || c == '\r' || c == '\n' }

  /** `find_first_not_of` over the white space of JSON; |s| when nothing else follows. */
  function SkipSpace(s: string, from: nat): (i: nat)
    requires from <= |s|
    ensures from <= i <= |s| && (i < |s| ==> !IsSpace(s[i])) && forall j :: from <= j < i ==> IsSpace(s[j])
    decreases |s| - from
  {
    if from == |s| || !IsSpace(s[from]) then from else SkipSpace(s, from + 1)
  }

  /** `find`: the first occurrence of `pattern` at or after `from`. */
  function FindText(s: string, pattern: string, from: nat): (r: Option<nat>)
    requires from <= |s|
    ensures r.Some? ==> from <= r.value && OccursAt(s, pattern, r.value) && forall j :: from <= j < r.value ==> !OccursAt(s, pattern, j)
    ensures r.None? ==> forall j :: from <= j ==> !OccursAt(s, pattern, j)
    decreases |s| - from
  {
    if OccursAt(s, pattern, from) then Some(from)
    else if from == |s| then None
    else FindText(s, pattern, from + 1)
  }

  function Pattern(key: string): string { "\"" + key + "\"" }

  /** Where the value of `key` begins, just after its opening quote. */
  function ValueStart(body: string, key: string): (start: Option<nat>)
    ensures start.Some? ==> start.value <= |body|
  {
    match FindText(body, Pattern(key), 0)
    case None => None
    case Some(at) =>
      var colon := Find(body, ':', at + |Pattern(key)|);
      if colon == |body| then None
      else
        var start := SkipSpace(body, colon + 1);
        if start == |body| || body[start] != '"' then None else Some(start + 1)
  }

  function ValueText(body: string, key: string): Option<string> {
    match ValueStart(body, key)
    case None => None
    case Some(start) => Decode(body[start..])
  }

  /** Every failure reads as the empty string. */
  function OrEmpty(value: Option<string>): string { if value.Some? then value.value else "" }

  /** The four digits after `\u`, shifted in one by one. */
  method ReadCodePoint(hex: string) returns (codePoint: Option<nat>)
    ensures codePoint == CodePoint(hex)
  {
    var sum := 0;
    for i := 0 to |hex|
      invariant CodePoint(hex[..i]) == Some(sum)
      invariant |hex| == 4 && i < 4 ==> sum < 0x1_0000
    {
      hide Nibble;
      assert hex[..i + 1][..i] == hex[..i];
      var nibble := Nibble(hex[i]);
      if nibble.None? {
        NoDigit(hex, i);
        return None;
      }
      sum := sum * 16 + nibble.value;
    }
    assert hex[..|hex|] == hex;
    codePoint := Some(sum);
  }

  lemma {:induction false} NoDigit(hex: string, i: nat)
    requires i < |hex| && Nibble(hex[i]).None?
    ensures CodePoint(hex) == None
  {
    hide Nibble;
    if i < |hex| - 1 { NoDigit(hex[..|hex| - 1], i); }
  }

  method ParseJsonStringValue(body: string, key: string) returns (value: string)
    ensures value == OrEmpty(ValueText(body, key))
  {
    hide FindText, Find, SkipSpace, Decode;
    var found := FindText(body, "\"" + key + "\"", 0);
    if found.None? { return ""; }
    var colon := Find(body, ':', found.value + |key| + 2);
    if colon == |body| { return ""; }
    var start := SkipSpace(body, colon + 1);
    if start == |body| || body[start] != '"' { return ""; }
    value := DecodeString(body, start + 1);
  }

  /** The decoding loop: one character or escape at a time, from just after the opening quote. */
  method DecodeString(body: string, start: nat) returns (value: string)
    requires start <= |body|
    ensures value == OrEmpty(Decode(body[start..]))
  {
    var output := "";
    var index := start;
    PrependTwice("", "", Decode(body[start..]));
    while index < |body|
      invariant start <= index <= |body|
      invariant Decode(body[start..]) == Prepend(output, Decode(body[index..]))
      decreases |body| - index
    {
      hide ReadUnit, Prepend;
      var character := body[index];
      if character == '"' { return output; }
      var unit := ReadCharacter(body, index);
      if unit.Malformed? { return ""; }
      assert body[index..][unit.length..] == body[index + unit.length..];
      PrependTwice(output, unit.text, Decode(body[index + unit.length..]));
      output := output + unit.text;
      index := index + unit.length;
    }
    value := "";
  }

  method ReadCharacter(body: string, index: nat) returns (unit: Unit)
    requires index < |body|
    ensures unit == ReadUnit(body[index..])
  {
    if body[index] != '\\' { return Unit([body[index]], 1); }
    if index + 1 >= |body| { return Malformed; }
    match body[index + 1] {
      case '"' => unit := Unit("\"", 2);
      case '\\' => unit := Unit("\\", 2);
      case '/' => unit := Unit("/", 2);
      case 'b' => unit := Unit("\U{8}", 2);
      case 'f' => unit := Unit("\U{c}", 2);
      case 'n' => unit := Unit("\n", 2);
      case 'r' => unit := Unit("\r", 2);
      case 't' => unit := Unit("\t", 2);
      case 'u' => unit := ReadUnicodeEscape(body, index);
      case _ => unit := Malformed;
    }
  }

  method ReadUnicodeEscape(body: string, index: nat) returns (unit: Unit)
    requires index + 1 < |body|
    ensures unit == UnicodeEscape(body[index..])
  {
    if index + 5 >= |body| { return Malformed; }
    assert body[index..][2..6] == body[index + 2..index + 6];
    var codePoint := ReadCodePoint(body[index + 2..index + 6]);
    if codePoint.None? { return Malformed; }
    FourDigitsAreSmall(body[index + 2..index + 6]);
    if Surrogate(codePoint.value) { return Malformed; }
    if codePoint.value < 0x80 {
      unit := Unit([codePoint.value as char], 6);
    } else if codePoint.value < 0x800 {
      unit := Unit([(0xC0 + codePoint.value / 64) as char, (0x80 + codePoint.value % 64) as char], 6);
    } else {
      unit := Unit([(0xE0 + codePoint.value / 4096) as char, (0x80 + codePoint.value / 64 % 64) as char,
                    (0x80 + codePoint.value % 64) as char], 6);
    }
  }

  // ---------------------------------------------------------------- parsing undoes printing

  lemma EscapeRoundTrip(c: char, rest: string)
    ensures ReadUnit(Escape(c) + rest) == Unit([c], |Escape(c)|)
    ensures (Escape(c) + rest)[|Escape(c)|..] == rest
  {
    var e := Escape(c);
    assert (e + rest)[..|e|] == e && (e + rest)[|e|..] == rest;
    if |e| == 6 {
      var hex := (e + rest)[2..6];
      assert hex == ['0', '0', EscapeDigit(c as int / 16), EscapeDigit(c as int % 16)];
      FourDigitsAreSmall(hex);
    }
  }

  lemma {:induction false} DecodeUndoesEscaped(s: string, rest: string)
    ensures Decode(Escaped(s) + "\"" + rest) == Some(s)
  {
    hide Escape, ReadUnit;
    var closed := "\"" + rest;
    assert Escaped(s) + "\"" + rest == Escaped(s) + closed;
    if s == "" {
      assert Escaped(s) + closed == closed;
    } else {
      var more := Escaped(s[1..]) + closed;
      assert Escaped(s) + closed == Escape(s[0]) + more;
      assert Escaped(s[1..]) + "\"" + rest == more;
      EscapeRoundTrip(s[0], more);
      DecodeUndoesEscaped(s[1..], rest);
      assert [s[0]] + s[1..] == s;
    }
  }

  /** Printed text has no control byte, and a quote in it always follows a backslash. */
  lemma {:induction false} EscapedIsClean(s: string, i: nat)
    requires i < |Escaped(s)|
    ensures Escaped(s)[i] as int >= 0x20
    ensures Escaped(s)[i] == '"' ==> i > 0 && Escaped(s)[i - 1] == '\\'
  {
    var e := Escape(s[0]);
    if i >= |e| {
      EscapedIsClean(s[1..], i - |e|);
    }
  }

  /** A control character without a short escape is printed as `\u00` and its two lower-case digits. */
  lemma ControlsAreNumbered(c: char)
    requires c as int < 0x20 && c !in "\U{8}\U{c}\n\r\t"
    ensures Escape(c) == "\\u00" + ["0123456789abcdef"[c as int / 16], "0123456789abcdef"[c as int % 16]]
  {
    DigitCodes("0123456789abcdef", "0123456789ABCDEF");
  }

  /** Every character that has a short escape but the slash is printed by it, and any other that is no control as itself. */
  lemma OthersArePrinted(c: char)
    ensures forall i :: 0 <= i < 8 && i != 2 && c as int == SHORT_ESCAPE_CODES[i] ==> Escape(c) == ['\\', SHORT_ESCAPES[i]]
    ensures c as int >= 0x20 && c != '"' && c != '\\' ==> Escape(c) == [c]
  {
    assert forall i :: 0 <= i < 8 && c as int == SHORT_ESCAPE_CODES[i] ==> c == SHORT_ESCAPE_CODES[i] as char;
  }

  /** An object body as a client writes it, with the configuration text last or first. */
  function FormatFirst(config: string): string { "{\"format\":\"toml\",\"config\":" + Quoted(config) + "}" }

  function ConfigFirst(config: string): string { "{\"config\":" + Quoted(config) + ",\"format\":\"toml\"}" }

  /** Blanks, tabs, carriage returns and line feeds may stand between the colon and the value. */
  predicate IsPadding(s: string) { forall c <- s :: c in " \t\r\n" }

  /** A key found at `at`, with the next colon after `before` and, padding apart, a printed string behind it, has that value. */
  lemma ValueAfterKey(before: string, padding: string, value: string, after: string, key: string, at: nat)
    requires var body := before + ":" + padding + Quoted(value) + after; FindText(body, Pattern(key), 0) == Some(at)
    requires at + |Pattern(key)| <= |before| && forall j :: at + |Pattern(key)| <= j < |before| ==> before[j] != ':'
    requires IsPadding(padding)
    ensures ValueText(before + ":" + padding + Quoted(value) + after, key) == Some(value)
  {
    hide Decode, FindText, Find, SkipSpace, Pattern, Escaped;
    var body, start := before + ":" + padding + Quoted(value) + after, |before| + 1 + |padding|;
    assert body[|before|] == ':' && body[start] == '"';
    assert forall j :: 0 <= j < |before| ==> body[j] == before[j];
    assert Find(body, ':', at + |Pattern(key)|) == |before|;
    forall j | |before| < j < start ensures IsSpace(body[j]) {
      assert body[j] == padding[j - |before| - 1] && padding[j - |before| - 1] in padding;
    }
    assert SkipSpace(body, |before| + 1) == start;
    assert body[start + 1..] == Escaped(value) + "\"" + after;
    DecodeUndoesEscaped(value, after);
  }

  /** Anything else there than a quote reads as no value at all. */
  lemma NoQuoteNoValue(before: string, padding: string, after: string, key: string, at: nat)
    requires var body := before + ":" + padding + after; FindText(body, Pattern(key), 0) == Some(at)
    requires at + |Pattern(key)| <= |before| && forall j :: at + |Pattern(key)| <= j < |before| ==> before[j] != ':'
    requires IsPadding(padding) && (after == "" || (after[0] != '"' && after[0] !in " \t\r\n"))
    ensures ValueText(before + ":" + padding + after, key) == None
  {
    hide Decode, FindText, Find, SkipSpace, Pattern;
    var body, start := before + ":" + padding + after, |before| + 1 + |padding|;
    assert body[|before|] == ':' && forall j :: 0 <= j < |before| ==> body[j] == before[j];
    assert Find(body, ':', at + |Pattern(key)|) == |before|;
    forall j | |before| < j < start ensures IsSpace(body[j]) {
      assert body[j] == padding[j - |before| - 1] && padding[j - |before| - 1] in padding;
    }
    if after != "" { assert body[start] == after[0] && !IsSpace(after[0]); }
    assert SkipSpace(body, |before| + 1) == start;
  }

  /** The first occurrence in a prefix is the first occurrence in the whole. */
  lemma FoundInPrefix(prefix: string, rest: string, pattern: string, at: nat)
    requires FindText(prefix, pattern, 0) == Some(at)
    ensures FindText(prefix + rest, pattern, 0) == Some(at)
  {
    var s := prefix + rest;
    forall j: nat | j <= at ensures OccursAt(s, pattern, j) == OccursAt(prefix, pattern, j) {
      assert s[j..j + |pattern|] == prefix[j..j + |pattern|];
    }
  }

  const FORMAT_AND_KEY: string := "{\"format\":\"toml\",\"config\":"

  /** Two leading characters that occur nowhere before settle where a pattern is found. */
  lemma FoundWhereItStarts(s: string, pattern: string, at: nat)
    requires |pattern| >= 2 && OccursAt(s, pattern, at)
    requires forall j :: 0 <= j < at ==> s[j] != pattern[0] || s[j + 1] != pattern[1]
    ensures FindText(s, pattern, 0) == Some(at)
  {
    forall j | 0 <= j < at && j + |pattern| <= |s| ensures !OccursAt(s, pattern, j) {
      assert s[j] == s[j..j + |pattern|][0] && s[j + 1] == s[j..j + |pattern|][1];
    }
  }

  lemma OccursBetween(before: string, pattern: string, after: string)
    ensures OccursAt(before + pattern + after, pattern, |before|)
  {
    assert (before + pattern + after)[|before|..|before| + |pattern|] == pattern;
  }

  /** A key that opens an object is found there. */
  lemma OpeningKeyFound(key: string, rest: string)
    requires key != "" && key[0] != '"'
    ensures FindText("{" + Pattern(key) + rest, Pattern(key), 0) == Some(1)
  {
    hide FindText;
    OccursBetween("{", Pattern(key), rest);
    FoundWhereItStarts("{" + Pattern(key) + rest, Pattern(key), 1);
  }

  lemma ConfigKeyFound()
    ensures FindText(FORMAT_AND_KEY, Pattern("config"), 0) == Some(17)
  {
    hide FindText;
    assert Pattern("config") == "\"config\"";
    assert FORMAT_AND_KEY == "{\"format\":\"toml\"," + "\"config\"" + ":";
    OccursBetween("{\"format\":\"toml\",", Pattern("config"), ":");
    QuoteThenC();
    FoundWhereItStarts(FORMAT_AND_KEY, Pattern("config"), 17);
  }

  lemma QuoteThenC()
    ensures forall j :: 0 <= j < 17 ==> FORMAT_AND_KEY[j] != '"' || FORMAT_AND_KEY[j + 1] != 'c'
  {
  }

  /** Parsing what a client sends gives back exactly the configuration text and the format. */
  lemma FormatFirstRoundTrip(config: string)
    ensures ValueText(FormatFirst(config), "config") == Some(config)
    ensures ValueText(FormatFirst(config), "format") == Some("toml")
  {
    ConfigOfFormatFirst(config);
    FormatOfFormatFirst(config);
  }

  lemma ConfigOfFormatFirst(config: string)
    ensures ValueText(FormatFirst(config), "config") == Some(config)
  {
    hide FindText, Escaped, ValueText, Quoted;
    var before := "{\"format\":\"toml\",\"config\"";
    assert FormatFirst(config) == before + ":" + "" + Quoted(config) + "}";
    assert FormatFirst(config) == FORMAT_AND_KEY + (Quoted(config) + "}");
    ConfigKeyFound();
    FoundInPrefix(FORMAT_AND_KEY, Quoted(config) + "}", Pattern("config"), 17);
    ValueAfterKey(before, "", config, "}", "config", 17);
  }

  lemma FormatOfFormatFirst(config: string)
    ensures ValueText(FormatFirst(config), "format") == Some("toml")
  {
    hide FindText, Escaped, ValueText;
    TomlIsPlain();
    var after := ",\"config\":" + Quoted(config) + "}";
    assert FormatFirst(config) == "{\"format\":\"toml\"" + after;
    OpeningFormat(after);
  }

  lemma OpeningFormat(after: string)
    ensures ValueText("{\"format\":\"toml\"" + after, "format") == Some("toml")
  {
    TomlIsPlain();
    hide FindText, Escaped, ValueText;
    var before, body := "{" + Pattern("format"), "{\"format\":\"toml\"" + after;
    assert body == before + ":" + "" + Quoted("toml") + after;
    assert body == before + (":" + Quoted("toml") + after);
    OpeningKeyFound("format", ":" + Quoted("toml") + after);
    ValueAfterKey(before, "", "toml", after, "format", 1);
  }

  lemma TomlIsPlain()
    ensures Escaped("toml") == "toml"
  {
    assert "toml"[1..] == "oml" && "oml"[1..] == "ml" && "ml"[1..] == "l" && "l"[1..] == "";
  }

  /** The same with the fields in the other order: no configuration text can be taken for the format key. */
  lemma ConfigFirstRoundTrip(config: string)
    ensures ValueText(ConfigFirst(config), "config") == Some(config)
    ensures ValueText(ConfigFirst(config), "format") == Some("toml")
  {
    ConfigOfConfigFirst(config);
    FormatOfConfigFirst(config);
  }

  lemma ConfigOfConfigFirst(config: string)
    ensures ValueText(ConfigFirst(config), "config") == Some(config)
  {
    hide FindText, Escaped, ValueText, Quoted;
    var after := ",\"format\":\"toml\"}";
    var before := "{" + Pattern("config");
    assert ConfigFirst(config) == before + ":" + "" + Quoted(config) + after;
    assert ConfigFirst(config) == before + (":" + Quoted(config) + after);
    OpeningKeyFound("config", ":" + Quoted(config) + after);
    ValueAfterKey(before, "", config, after, "config", 1);
  }

  lemma FormatOfConfigFirst(config: string)
    ensures ValueText(ConfigFirst(config), "format") == Some("toml")
  {
    TomlIsPlain();
    hide FindText, Escaped, ValueText;
    var before := "{\"config\":" + Quoted(config) + ",\"format\"";
    assert ConfigFirst(config) == before + ":" + "" + Quoted("toml") + "}";
    var at := FormatKeyComesLate(config);
    ValueAfterKey(before, "", "toml", "}", "format", at);
  }

  /**
   * The format key is found either where it is, or where a configuration text such as `format` ends
   * and its closing quote completes the pattern; the next colon is that of the real key all the same.
   */
  lemma FormatKeyComesLate(config: string) returns (at: nat)
    ensures FindText(ConfigFirst(config), Pattern("format"), 0) == Some(at)
    ensures var end := 11 + |Escaped(config)|; end - 7 <= at <= end + 2
  {
    hide FindText, Escaped;
    var body, end := ConfigFirst(config), 11 + |Escaped(config)|;
    assert body == ("{\"config\":" + Quoted(config) + ",") + Pattern("format") + ":\"toml\"}";
    OccursBetween("{\"config\":" + Quoted(config) + ",", Pattern("format"), ":\"toml\"}");
    at := FindText(body, Pattern("format"), 0).value;
    if at < end - 7 {
      assert body[at + 7] == Pattern("format")[7] == '"' && body[at + 6] == Pattern("format")[6] == 't';
      if at + 7 >= 11 {
        assert Escaped(config)[at + 7 - 11] == body[at + 7];
        EscapedIsClean(config, at + 7 - 11);
      }
    }
  }

  // ---------------------------------------------------------------- escapes are UTF-8

  predicate Tail(c: char) { 0x80 <= c as int <= 0xBF }

  function TailBits(c: char): int { c as int - 0x80 }

  /** The one character that a byte string encodes: sections 3 and 4 of RFC 3629, shortest forms only. */
  function DecodeUtf8(b: string): Option<int> {
    if |b| == 1 && b[0] as int <= 0x7F then Some(b[0] as int)
    else if |b| == 2 && 0xC2 <= b[0] as int <= 0xDF && Tail(b[1]) then Some((b[0] as int - 0xC0) * 64 + TailBits(b[1]))
    else if |b| == 3 && ThreeByteLead(b[0] as int, b[1] as int) && Tail(b[1]) && Tail(b[2]) then
      Some((b[0] as int - 0xE0) * 4096 + TailBits(b[1]) * 64 + TailBits(b[2]))
    else if |b| == 4 && FourByteLead(b[0] as int, b[1] as int) && Tail(b[1]) && Tail(b[2]) && Tail(b[3]) then
      Some((b[0] as int - 0xF0) * 262144 + TailBits(b[1]) * 4096 + TailBits(b[2]) * 64 + TailBits(b[3]))
    else None
  }

  /** No overlong form after E0, no surrogate after ED. */
  predicate ThreeByteLead(first: int, second: int) {
    0xE0 <= first <= 0xEF && (first == 0xE0 ==> second >= 0xA0) && (first == 0xED ==> second <= 0x9F)
  }

  /** No overlong form after F0, nothing beyond U+10FFFF after F4. */
  predicate FourByteLead(first: int, second: int) {
    0xF0 <= first <= 0xF4 && (first == 0xF0 ==> second >= 0x90) && (first == 0xF4 ==> second <= 0x8F)
  }

  /** The bytes written for a code point are its encoding, and no other bytes are. */
  lemma Utf8IsTheEncoding(codePoint: nat, b: string)
    requires codePoint < 0x1_0000 && !Surrogate(codePoint)
    ensures DecodeUtf8(b) == Some(codePoint) <==> b == Utf8(codePoint)
  {
    Utf8Decodes(codePoint);
    if DecodeUtf8(b) == Some(codePoint) { DecodedIsUtf8(codePoint, b); }
  }

  lemma Utf8Decodes(n: nat)
    requires n < 0x1_0000 && !Surrogate(n)
    ensures DecodeUtf8(Utf8(n)) == Some(n)
  {
    assert n == n / 4096 * 4096 + n / 64 % 64 * 64 + n % 64 by {
      assert n / 64 / 64 == n / 4096;
    }
    if n >= 0x800 {
      assert n / 4096 == 0 ==> n / 64 % 64 >= 32;
      assert n / 4096 == 13 ==> n / 64 % 64 < 32;
    }
  }

  lemma DecodedIsUtf8(n: nat, b: string)
    requires n < 0x1_0000 && DecodeUtf8(b) == Some(n)
    ensures b == Utf8(n)
  {
    if |b| == 2 {
      assert n / 64 == b[0] as int - 0xC0 && n % 64 == TailBits(b[1]);
    } else if |b| == 3 {
      assert n / 64 == (b[0] as int - 0xE0) * 64 + TailBits(b[1]) && n % 64 == TailBits(b[2]);
      assert n / 4096 == b[0] as int - 0xE0 && n / 64 % 64 == TailBits(b[1]);
    }
  }

  /** `c` is the hexadecimal digit of value `d`, in either case. */
  predicate IsHexDigit(c: char, d: int) {
    0 <= d < 16 && (c == "0123456789abcdef"[d] || c == "0123456789ABCDEF"[d])
  }

  lemma DigitCodes(lower: string, upper: string)
    requires lower == "0123456789abcdef" && upper == "0123456789ABCDEF"
    ensures |lower| == |upper| == 16
    ensures forall i :: 0 <= i < 16 ==> lower[i] as int == if i < 10 then 48 + i else 87 + i
    ensures forall i :: 0 <= i < 16 ==> upper[i] as int == if i < 10 then 48 + i else 55 + i
  {
  }

  lemma NibbleByCodes(c: char, d: int, lower: string, upper: string)
    requires |lower| == |upper| == 16
    requires forall i :: 0 <= i < 16 ==> lower[i] as int == if i < 10 then 48 + i else 87 + i
    requires forall i :: 0 <= i < 16 ==> upper[i] as int == if i < 10 then 48 + i else 55 + i
    ensures 0 <= d < 16 && (c == lower[d] || c == upper[d]) <==> Nibble(c).Some? && Nibble(c).value == d
    ensures Nibble(c).None? <==> c !in lower && c !in upper
  {
    if Nibble(c).Some? { assert lower[Nibble(c).value] == c || upper[Nibble(c).value] == c; }
  }

  /** The value of a digit is its position among the sixteen; no other character has one. */
  lemma NibbleIsPosition(c: char, d: int)
    ensures IsHexDigit(c, d) <==> Nibble(c).Some? && Nibble(c).value == d
    ensures Nibble(c).None? <==> c !in "0123456789abcdef" && c !in "0123456789ABCDEF"
  {
    hide Nibble;
    var lower, upper := "0123456789abcdef", "0123456789ABCDEF";
    DigitCodes(lower, upper);
    NibbleByCodes(c, d, lower, upper);
  }

  /** Four hexadecimal digits, in either case, spell `n`. */
  ghost predicate Spells(hex: string, n: int) {
    |hex| == 4 && exists a, b, c, d ::
      && IsHexDigit(hex[0], a) && IsHexDigit(hex[1], b) && IsHexDigit(hex[2], c) && IsHexDigit(hex[3], d)
      && n == 0x1000 * a + 0x100 * b + 0x10 * c + d
  }

  lemma CodePointIsSpelled(hex: string, n: int)
    requires |hex| == 4
    ensures Spells(hex, n) <==> CodePoint(hex).Some? && CodePoint(hex).value == n
  {
    hide Nibble, IsHexDigit, CodePoint;
    FourDigitsAreSmall(hex);
    forall i, d | 0 <= i < 4 ensures IsHexDigit(hex[i], d) <==> Nibble(hex[i]).Some? && Nibble(hex[i]).value == d {
      NibbleIsPosition(hex[i], d);
    }
    if Spells(hex, n) {
      var a, b, c, d :| IsHexDigit(hex[0], a) && IsHexDigit(hex[1], b) && IsHexDigit(hex[2], c) && IsHexDigit(hex[3], d)
        && n == 0x1000 * a + 0x100 * b + 0x10 * c + d;
      assert Nibble(hex[0]).value == a && Nibble(hex[1]).value == b && Nibble(hex[2]).value == c && Nibble(hex[3]).value == d;
    } else if CodePoint(hex).Some? {
      var a, b, c, d := Nibble(hex[0]).value, Nibble(hex[1]).value, Nibble(hex[2]).value, Nibble(hex[3]).value;
      assert IsHexDigit(hex[0], a) && IsHexDigit(hex[1], b) && IsHexDigit(hex[2], c) && IsHexDigit(hex[3], d);
    }
  }

  /**
   * An escape that begins with `\u` is read as the character `n` exactly when its next four characters are
   * hexadecimal digits, in either case, that spell `n`, and `n` is no surrogate; its bytes are then the UTF-8
   * encoding of `n`. It is refused when there is no such `n`.
   */
  lemma UnicodeEscapesAreUtf8(rest: string, n: int)
    requires |rest| >= 2 && rest[0] == '\\' && rest[1] == 'u'
    ensures var unit := ReadUnit(rest);
      && (|rest| >= 6 && Spells(rest[2..6], n) && !(0xD800 <= n <= 0xDFFF) <==> unit.Unit? && DecodeUtf8(unit.text) == Some(n))
      && (unit.Unit? ==> unit.length == 6 && DecodeUtf8(unit.text).Some?)
  {
    hide Utf8, DecodeUtf8, CodePoint, Spells;
    if |rest| >= 6 {
      var hex := rest[2..6];
      CodePointIsSpelled(hex, n);
      FourDigitsAreSmall(hex);
      if CodePoint(hex).Some? && !Surrogate(CodePoint(hex).value) {
        Utf8IsTheEncoding(CodePoint(hex).value, Utf8(CodePoint(hex).value));
      }
    }
  }

  /** The short escapes of section 7 of RFC 8259, and the characters that they stand for. */
  const SHORT_ESCAPES: string := "\"\\/bfnrt"

  const SHORT_ESCAPE_CODES: seq<int> := [0x22, 0x5C, 0x2F, 0x08, 0x0C, 0x0A, 0x0D, 0x09]

  /** Each short escape is read as its character; any other character after the backslash, but a `u`, is refused. */
  lemma ShortEscapesAreRead(rest: string)
    requires |rest| >= 2 && rest[0] == '\\'
    ensures forall i :: 0 <= i < 8 && rest[1] == SHORT_ESCAPES[i] ==>
              var unit := ReadUnit(rest); unit.Unit? && unit.length == 2 && |unit.text| == 1 && unit.text[0] as int == SHORT_ESCAPE_CODES[i]
    ensures rest[1] !in SHORT_ESCAPES && rest[1] != 'u' ==> ReadUnit(rest) == Malformed
  {
  }

  // ---------------------------------------------------------------- the grammar of RFC 8259

  predicate IsHex(c: char) { '0' <= c <= '9' || 'a' <= c <= 'f' || 'A' <= c <= 'F' }

  predicate IsUnicodeEscape(s: string) {
    |s| >= 6 && s[0] == '\\' && s[1] == 'u' && forall i :: 2 <= i < 6 ==> IsHex(s[i])
  }

  predicate IsShortEscape(s: string) {
    |s| >= 2 && s[0] == '\\' && s[1] in {'"', '\\', '/', 'b', 'f', 'n', 'r', 't'}
  }

  /** `*char` of section 7 of RFC 8259: unescaped characters, short escapes and `\u` escapes, in any order. */
  predicate IsJsonText(s: string)
    decreases |s|
  {
    if s == "" then true
    else if s[0] == '\\' then (IsShortEscape(s) && IsJsonText(s[2..])) || (IsUnicodeEscape(s) && IsJsonText(s[6..]))
    else s[0] as int >= 0x20 && s[0] != '"' && IsJsonText(s[1..])
  }

  lemma EscapeIsJson(c: char, rest: string)
    requires IsJsonText(rest)
    ensures IsJsonText(Escape(c) + rest)
  {
    var e := Escape(c);
    if |e| == 6 {
      assert (e + rest)[6..] == rest;
      assert e == ['\\', 'u', '0', '0', EscapeDigit(c as int / 16), EscapeDigit(c as int % 16)];
      assert forall i :: 2 <= i < 6 ==> IsHex(e[i]);
      assert IsUnicodeEscape(e + rest);
    } else if |e| == 2 {
      assert (e + rest)[2..] == rest;
    } else {
      assert (e + rest)[1..] == rest;
    }
  }

  /** Whatever is printed is the inside of a JSON string. */
  lemma {:induction false} PrintedTextIsJson(s: string)
    ensures IsJsonText(Escaped(s))
  {
    hide Escape;
    if s != "" {
      PrintedTextIsJson(s[1..]);
      EscapeIsJson(s[0], Escaped(s[1..]));
    }
  }

  /** No `\u` escape of `s` names a surrogate. */
  predicate NamesNoSurrogate(s: string)
    requires IsJsonText(s)
    decreases |s|
  {
    if s == "" then true
    else if s[0] != '\\' then NamesNoSurrogate(s[1..])
    else if IsShortEscape(s) then NamesNoSurrogate(s[2..])
    else CodePoint(s[2..6]).Some? && !Surrogate(CodePoint(s[2..6]).value) && NamesNoSurrogate(s[6..])
  }

  /** How many characters the first character or escape of a JSON text takes. */
  function FirstLength(s: string): (n: nat)
    requires s != "" && IsJsonText(s)
    ensures 0 < n <= |s| && IsJsonText(s[n..])
  {
    if s[0] != '\\' then 1 else if IsShortEscape(s) then 2 else 6
  }

  /** What the parser makes of that character or escape, whatever follows it. */
  lemma JsonUnit(s: string, rest: string)
    requires s != "" && IsJsonText(s)
    ensures s[0] != '"'
    ensures var unit := ReadUnit(s + rest);
      && (unit.Unit? ==> unit.length == FirstLength(s))
      && (unit.Unit? <==> (FirstLength(s) == 6 ==> CodePoint(s[2..6]).Some? && !Surrogate(CodePoint(s[2..6]).value)))
  {
    hide CodePoint, Utf8, Surrogate, IsJsonText;
    JsonBegins(s);
    if FirstLength(s) == 6 {
      assert (s + rest)[2..6] == s[2..6];
    }
  }

  lemma JsonBegins(s: string)
    requires s != "" && IsJsonText(s)
    ensures s[0] != '"' && (s[0] == '\\' ==> IsShortEscape(s) || IsUnicodeEscape(s))
  {
  }

  lemma NamesStep(s: string)
    requires s != "" && IsJsonText(s)
    ensures NamesNoSurrogate(s) <==>
      && (FirstLength(s) == 6 ==> CodePoint(s[2..6]).Some? && !Surrogate(CodePoint(s[2..6]).value))
      && NamesNoSurrogate(s[FirstLength(s)..])
  {
    hide CodePoint, Surrogate;
  }

  /**
   * The parser accepts a JSON text, up to its closing quote, exactly when none of its escapes names a surrogate.
   * RFC 8259 lets a pair of them stand for one character; here such a text is refused.
   */
  lemma {:induction false} JsonTextIsReadIffNoSurrogate(s: string, rest: string)
    requires IsJsonText(s)
    ensures Decode(s + "\"" + rest).Some? <==> NamesNoSurrogate(s)
    decreases |s|
  {
    hide ReadUnit, CodePoint, Surrogate, NamesNoSurrogate, IsJsonText, FirstLength;
    var closed := "\"" + rest;
    assert s + "\"" + rest == s + closed;
    if s == "" {
      assert s + closed == closed;
      NothingNamed();
    } else {
      JsonUnit(s, closed);
      NamesStep(s);
      var n := FirstLength(s);
      assert (s + closed)[0] == s[0] && (s + closed)[n..] == s[n..] + closed;
      assert s[n..] + "\"" + rest == s[n..] + closed;
      JsonTextIsReadIffNoSurrogate(s[n..], rest);
    }
  }

  lemma NothingNamed()
    ensures IsJsonText("") && NamesNoSurrogate("")
  {
  }

  /** Decoding goes unit by unit, whatever was decoded before: what is read in front is what it is alone. */
  lemma {:induction false} DecodeGoesOn(a: string, b: string, text: string)
    requires Decode(a + "\"") == Some(text) && IsJsonText(a)
    ensures Decode(a + b) == Prepend(text, Decode(b))
    decreases |a|
  {
    hide ReadUnit, CodePoint, Surrogate, IsJsonText, FirstLength;
    if a == "" {
      assert a + b == b && a + "\"" == "\"";
      PrependTwice("", "", Decode(b));
    } else {
      JsonUnit(a, "\"");
      JsonUnit(a, b);
      UnitIsLocal(a, "\"", b);
      assert (a + "\"")[0] == a[0];
      var n := ReadUnit(a + b).length;
      assert (a + b)[n..] == a[n..] + b && (a + "\"")[n..] == a[n..] + "\"";
      DecodeGoesOn(a[n..], b, Decode(a[n..] + "\"").value);
      PrependTwice(ReadUnit(a + b).text, Decode(a[n..] + "\"").value, Decode(b));
    }
  }

  lemma UnitIsLocal(s: string, rest: string, other: string)
    requires s != "" && IsJsonText(s)
    ensures ReadUnit(s + rest) == ReadUnit(s + other)
  {
    assert (s + rest)[..1] == (s + other)[..1];
    if |s| >= 6 { assert (s + rest)[2..6] == (s + other)[2..6]; }
  }
}
