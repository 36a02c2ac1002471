/** `json.dumps(..., ensure_ascii=False)` and a parser for the text it prints. Strings and numbers follow
    sections 7 and 6 of RFC 8259. The printed text never contains a raw newline, which is what the
    framing in module SseStream relies on. */
module JsonText {
  import opened Prelude
  import opened TextSplit
  import opened SseStream

  function HexDigit(d: nat): char
    requires d < 16
  {
    "0123456789abcdef"[d]
  }

  function HexValue(c: char): Option<nat> {
    if '0' <= c <= '9' then Some(c as int - '0' as int)
    else if 'a' <= c <= 'f' then Some(c as int - 'a' as int + 10)
    else if 'A' <= c <= 'F' then Some(c as int - 'A' as int + 10)
    else None
  }

  /** The escape of one character: quote, backslash and control characters are rewritten. */
  function EscapeChar(c: char): string {
    var u := c as int;
    if c == '"' then "\\\""
    else if c == '\\' then "\\\\"
    else if c == '\n' then "\\n"
    else if c == '\r' then "\\r"
    else if c == '\t' then "\\t"
    else if u == 8 then "\\b"
    else if u == 12 then "\\f"
    else if u < 32 then "\\u00" + [HexDigit(u / 16), HexDigit(u % 16)]
    else [c]
  }

  function Escape(s: string): string {
    if s == "" then "" else EscapeChar(s[0]) + Escape(s[1..])
  }

  datatype Parsed<T> = Bad | Good(value: T, rest: string)

  /** The character after a backslash and what follows it. */
  function ParseEscape(s: string): Parsed<char> {
    if s == "" then Bad
    else if s[0] == '"' || s[0] == '\\' || s[0] == '/' then Good(s[0], s[1..])
    else if s[0] == 'b' then Good(8 as char, s[1..])
    else if s[0] == 'f' then Good(12 as char, s[1..])
    else if s[0] == 'n' then Good('\n', s[1..])
    else if s[0] == 'r' then Good('\r', s[1..])
    else if s[0] == 't' then Good('\t', s[1..])
    else if s[0] == 'u' && |s| >= 5 then
      var a, b, c, d := HexValue(s[1]), HexValue(s[2]), HexValue(s[3]), HexValue(s[4]);
      if a.None? || b.None? || c.None? || d.None? then Bad
      else
        var u := a.value * 4096 + b.value * 256 + c.value * 16 + d.value;
        if u < 0xD800 then Good(u as char, s[5..]) else Bad
    else Bad
  }

  /** The string whose opening quote has been read. Raw control characters are errors. */
  function ParseString(s: string): Parsed<string>
    decreases |s|
  {
    if s == "" || s[0] as int < 32 then Bad
    else if s[0] == '"' then Good("", s[1..])
    else if s[0] == '\\' then
      match ParseEscape(s[1..])
      case Bad => Bad
      case Good(c, rest) =>
        if |rest| < |s| then
          match ParseString(rest)
          case Bad => Bad
          case Good(t, more) => Good([c] + t, more)
        else Bad
    else
      match ParseString(s[1..])
      case Bad => Bad
      case Good(t, more) => Good([s[0]] + t, more)
  }

  lemma EscapedCharParses(c: char, s: string)
    ensures |EscapeChar(c)| > 0 && EscapeChar(c)[0] as int >= 32 && EscapeChar(c)[0] != '"'
    ensures EscapeChar(c)[0] == '\\' ==> ParseEscape(EscapeChar(c)[1..] + s) == Good(c, s)
    ensures EscapeChar(c)[0] != '\\' ==> EscapeChar(c) == [c]
  {
    var u := c as int;
    var e := EscapeChar(c);
    if e[0] == '\\' {
      var t := e[1..] + s;
      if |e| == 2 {
        assert t[0] == e[1] && t[1..] == s;
      } else {
        assert e == ['\\', 'u', '0', '0', HexDigit(u / 16), HexDigit(u % 16)];
        assert t[0] == 'u' && t[1] == '0' && t[2] == '0' && t[3] == HexDigit(u / 16) && t[4] == HexDigit(u % 16);
        assert t[5..] == s;
        HexRoundTrip(u / 16);
        HexRoundTrip(u % 16);
      }
    }
  }

  lemma HexRoundTrip(d: nat)
    requires d < 16
    ensures HexValue(HexDigit(d)) == Some(d)
  {
  }

  /** A hexadecimal digit of value d, in either case. */
  predicate IsHexOf(c: char, d: nat) {
    d < 16 && (c == "0123456789abcdef"[d] || c == "0123456789ABCDEF"[d])
  }

  /** Every escape with four hexadecimal digits is read as the character they number, whatever the case
      of the digits. */
  lemma UnicodeEscape(h: string, a: nat, b: nat, c: nat, d: nat, rest: string)
    requires |h| == 4 && IsHexOf(h[0], a) && IsHexOf(h[1], b) && IsHexOf(h[2], c) && IsHexOf(h[3], d)
    requires ((a * 16 + b) * 16 + c) * 16 + d < 0xD800
    ensures ParseEscape("u" + h + rest) == Good((((a * 16 + b) * 16 + c) * 16 + d) as char, rest)
  {
    var t := "u" + h + rest;
    assert t[0] == 'u' && t[1] == h[0] && t[2] == h[1] && t[3] == h[2] && t[4] == h[3] && t[5..] == rest;
    HexOf(h[0], a);
    HexOf(h[1], b);
    HexOf(h[2], c);
    HexOf(h[3], d);
    hide HexValue, IsHexOf;
  }

  lemma HexOf(c: char, d: nat)
    requires IsHexOf(c, d)
    ensures HexValue(c) == Some(d)
  {
  }

  lemma ParseOneChar(c: char, tail: string, t: string, more: string)
    requires ParseString(tail) == Good(t, more)
    ensures ParseString(EscapeChar(c) + tail) == Good([c] + t, more)
  {
    EscapedCharParses(c, tail);
    var e := EscapeChar(c);
    var all := e + tail;
    assert all[0] == e[0];
    if e[0] == '\\' {
      assert all[1..] == e[1..] + tail;
    } else {
      assert all[1..] == tail;
    }
  }

  lemma {:induction false} EscapeRoundTrip(s: string, rest: string)
    ensures ParseString(Escape(s) + "\"" + rest) == Good(s, rest)
  {
    if s == "" {
      var t := Escape(s) + "\"" + rest;
      assert t[0] == '"' && t[1..] == rest;
    } else {
      var tail := Escape(s[1..]) + "\"" + rest;
      assert Escape(s) + "\"" + rest == EscapeChar(s[0]) + tail;
      EscapeRoundTrip(s[1..], rest);
      ParseOneChar(s[0], tail, s[1..], rest);
      assert [s[0]] + s[1..] == s;
    }
  }

  predicate NoControl(s: string) {
    forall i :: 0 <= i < |s| ==> s[i] as int >= 32
  }

  lemma NoControlAppend(a: string, b: string)
    requires NoControl(a) && NoControl(b)
    ensures NoControl(a + b)
  {
  }

  lemma {:induction false} EscapeNoControl(s: string)
    ensures NoControl(Escape(s))
  {
    if s != "" {
      var u := s[0] as int;
      if u < 32 {
        HexRoundTrip(u / 16);
        HexRoundTrip(u % 16);
      }
      assert NoControl(EscapeChar(s[0]));
      EscapeNoControl(s[1..]);
      NoControlAppend(EscapeChar(s[0]), Escape(s[1..]));
    }
  }

  // ---------------------------------------------------------------- values

  function Quoted(s: string): string {
    "\"" + (Escape(s) + "\"")
  }

  function Show(v: Json): string
    decreases v, 1
  {
    match v
    case Null => "null"
    case Bool(flag) => if flag then "true" else "false"
    case Number(digits) => digits
    case Str(text) => Quoted(text)
    case List(items) => if items == [] then "[]" else "[" + ShowItems(items)
    case Object(members) => if members == [] then "{}" else "{" + ShowMembers(members)
  }

  /** The items and the closing bracket. */
  function ShowItems(items: seq<Json>): string
    requires items != []
    decreases items, 0
  {
    Show(items[0]) + if |items| == 1 then "]" else ", " + ShowItems(items[1..])
  }

  /** The members and the closing brace. */
  function ShowMembers(members: seq<Field>): string
    requires members != []
    decreases members, 0
  {
    Quoted(members[0].key) + (": " + (Show(members[0].value)
      + if |members| == 1 then "}" else ", " + ShowMembers(members[1..])))
  }

  predicate IsNumberChar(c: char) {
    IsDigit(c) || c == '-' || c == '+' || c == '.' || c == 'e' || c == 'E'
  }

  /** The leading characters that can belong to a number. */
  function NumberRun(s: string): (n: nat)
    ensures n <= |s|
  {
    if s == "" || !IsNumberChar(s[0]) then 0 else 1 + NumberRun(s[1..])
  }

  function ParseNumber(s: string): Parsed<Json> {
    var n := NumberRun(s);
    if IsNumber(s[..n]) then Good(Number(s[..n]), s[n..]) else Bad
  }

  /** The string whose opening quote is the first character. */
  function ParseQuoted(s: string): Parsed<string> {
    if s != "" && s[0] == '"' then ParseString(s[1..]) else Bad
  }

  function ParseValue(s: string): Parsed<Json>
    decreases |s|, 0
  {
    if "null" <= s then Good(Null, s[4..])
    else if "true" <= s then Good(Bool(true), s[4..])
    else if "false" <= s then Good(Bool(false), s[5..])
    else if "\"" <= s then
      (match ParseQuoted(s)
       case Bad => Bad
       case Good(text, rest) => Good(Str(text), rest))
    else if "[]" <= s then Good(List([]), s[2..])
    else if "[" <= s then
      (match ParseItems(s[1..])
       case Bad => Bad
       case Good(items, rest) => Good(List(items), rest))
    else if "{}" <= s then Good(Object([]), s[2..])
    else if "{" <= s then
      (match ParseMembers(s[1..])
       case Bad => Bad
       case Good(members, rest) => Good(Object(members), rest))
    else ParseNumber(s)
  }

  function ParseItems(s: string): Parsed<seq<Json>>
    decreases |s|, 1
  {
    match ParseValue(s)
    case Bad => Bad
    case Good(v, rest) => MoreItems(|s|, v, rest)
  }

  /** After an item: the closing bracket, or a comma and more items. */
  function MoreItems(bound: nat, v: Json, rest: string): Parsed<seq<Json>>
    decreases bound, 0
  {
    if "]" <= rest then Good([v], rest[1..])
    else if ", " <= rest && |rest| < bound then
      match ParseItems(rest[2..])
      case Bad => Bad
      case Good(items, more) => Good([v] + items, more)
    else Bad
  }

  function ParseMembers(s: string): Parsed<seq<Field>>
    decreases |s|, 1
  {
    match ParseQuoted(s)
    case Bad => Bad
    case Good(key, rest) =>
      if ": " <= rest && |rest| < |s| then
        match ParseValue(rest[2..])
        case Bad => Bad
        case Good(v, more) => MoreMembers(|s|, Field(key, v), more)
      else Bad
  }

  function MoreMembers(bound: nat, f: Field, rest: string): Parsed<seq<Field>>
    decreases bound, 0
  {
    if "}" <= rest then Good([f], rest[1..])
    else if ", " <= rest && |rest| < bound then
      match ParseMembers(rest[2..])
      case Bad => Bad
      case Good(members, more) => Good([f] + members, more)
    else Bad
  }

  // ---------------------------------------------------------------- numbers

  lemma {:induction false} AfterDigitsSuffix(s: string)
    requires AfterDigits(s).Some?
    ensures var u := AfterDigits(s).value;
      |u| < |s| && s[|s| - |u|..] == u && forall i :: 0 <= i < |s| - |u| ==> IsDigit(s[i])
  {
    if AfterDigits(s[1..]).Some? {
      AfterDigitsSuffix(s[1..]);
    }
  }

  predicate NumberChars(s: string) {
    forall i :: 0 <= i < |s| ==> IsNumberChar(s[i])
  }

  lemma DigitsThen(s: string)
    requires AfterDigits(s).Some? && NumberChars(AfterDigits(s).value)
    ensures NumberChars(s)
  {
    AfterDigitsSuffix(s);
    var u := AfterDigits(s).value;
    forall i | 0 <= i < |s|
      ensures IsNumberChar(s[i])
    {
      if i >= |s| - |u| {
        assert s[i] == u[i - (|s| - |u|)];
      }
    }
  }

  lemma CharThen(s: string)
    requires s != "" && IsNumberChar(s[0]) && NumberChars(s[1..])
    ensures NumberChars(s)
  {
    forall i | 0 <= i < |s|
      ensures IsNumberChar(s[i])
    {
      assert i > 0 ==> s[i] == s[1..][i - 1];
    }
  }

  lemma ExponentChars(s: string)
    requires IsExponent(s)
    ensures NumberChars(s)
  {
    if s != "" {
      if AllDigits(s[1..]) {
        DigitsThen(s[1..]);
      } else {
        DigitsThen(s[2..]);
        assert s[1..][1..] == s[2..];
        CharThen(s[1..]);
      }
      CharThen(s);
    }
  }

  lemma IsNumberChars(s: string)
    requires IsNumber(s)
    ensures s != "" && NumberChars(s)
  {
    var t := if s != "" && s[0] == '-' then s[1..] else s;
    var u := AfterDigits(t).value;
    if IsExponent(u) {
      ExponentChars(u);
    } else {
      ExponentChars(AfterDigits(u[1..]).value);
      DigitsThen(u[1..]);
      CharThen(u);
    }
    DigitsThen(t);
    if t != s {
      CharThen(s);
    }
  }

  /** Nothing that could prolong a number. */
  predicate EndsNumber(rest: string) {
    rest == "" || !IsNumberChar(rest[0])
  }

  lemma {:induction false} RunOf(s: string, rest: string)
    requires NumberChars(s) && EndsNumber(rest)
    ensures NumberRun(s + rest) == |s|
  {
    if s == "" {
      assert s + rest == rest;
    } else {
      assert (s + rest)[1..] == s[1..] + rest;
      RunOf(s[1..], rest);
    }
  }

  lemma NumberRoundTrip(n: NumberText, rest: string)
    requires EndsNumber(rest)
    ensures ParseValue(n + rest) == Good(Number(n), rest)
  {
    hide IsNumber;
    IsNumberChars(n);
    RunOf(n, rest);
    var s := n + rest;
    assert s[..|n|] == n && s[|n|..] == rest;
    assert s[0] == n[0] && IsNumberChar(s[0]);
  }

  // ---------------------------------------------------------------- round trip

  lemma QuotedRoundTrip(s: string, rest: string)
    ensures ParseQuoted(Quoted(s) + rest) == Good(s, rest)
  {
    hide Escape, ParseString;
    EscapeRoundTrip(s, rest);
    var t := Quoted(s) + rest;
    assert t[0] == '"' && t[1..] == Escape(s) + "\"" + rest;
  }

  lemma TextRoundTrip(text: string, rest: string)
    ensures ParseValue(Quoted(text) + rest) == Good(Str(text), rest)
  {
    hide ParseQuoted;
    QuotedRoundTrip(text, rest);
    var t := Quoted(text) + rest;
    assert t[0] == '"' && t[..1] == "\"";
  }

  lemma ShowNotEmpty(v: Json)
    ensures Show(v) != ""
  {
    if v.Number? {
      IsNumberChars(v.digits);
    }
  }

  lemma {:induction false} ValueRoundTrip(v: Json, rest: string)
    requires EndsNumber(rest)
    ensures ParseValue(Show(v) + rest) == Good(v, rest)
    decreases v, 1
  {
    match v
    case Null => WordRoundTrip("null", rest);
    case Bool(flag) => WordRoundTrip(if flag then "true" else "false", rest);
    case Number(digits) => NumberRoundTrip(digits, rest);
    case Str(text) => TextRoundTrip(text, rest);
    case List(items) =>
      if items == [] {
        WordRoundTrip("[]", rest);
      } else {
        ItemsRoundTrip(items, rest);
        OpenList(items, rest);
      }
    case Object(members) =>
      if members == [] {
        WordRoundTrip("{}", rest);
      } else {
        MembersRoundTrip(members, rest);
        OpenObject(members, rest);
      }
  }

  lemma WordRoundTrip(word: string, rest: string)
    ensures word == "null" ==> ParseValue(word + rest) == Good(Null, rest)
    ensures word == "true" ==> ParseValue(word + rest) == Good(Bool(true), rest)
    ensures word == "false" ==> ParseValue(word + rest) == Good(Bool(false), rest)
    ensures word == "[]" ==> ParseValue(word + rest) == Good(List([]), rest)
    ensures word == "{}" ==> ParseValue(word + rest) == Good(Object([]), rest)
  {
    var s := word + rest;
    assert s[..|word|] == word && s[|word|..] == rest;
    assert |word| > 0 ==> s[0] == word[0];
  }

  lemma OpenList(items: seq<Json>, rest: string)
    requires items != [] && ParseItems(ShowItems(items) + rest) == Good(items, rest)
    ensures ParseValue(Show(List(items)) + rest) == Good(List(items), rest)
  {
    hide Escape, ParseMembers, ParseItems, ParseQuoted, ParseNumber;
    var inner := ShowItems(items) + rest;
    var s := Show(List(items)) + rest;
    ItemsStart(items);
    BracketThen(inner);
    assert s == "[" + inner;
  }

  lemma BracketThen(inner: string)
    requires inner != "" && inner[0] != ']'
    ensures ParseValue("[" + inner)
      == match ParseItems(inner) case Bad => Bad case Good(items, rest) => Good(List(items), rest)
  {
    hide ParseMembers, ParseItems, ParseQuoted, ParseNumber;
    var s := "[" + inner;
    assert s[0] == '[' && s[1] == inner[0] && s[..1] == "[" && s[1..] == inner;
  }

  lemma OpenObject(members: seq<Field>, rest: string)
    requires members != [] && ParseMembers(ShowMembers(members) + rest) == Good(members, rest)
    ensures ParseValue(Show(Object(members)) + rest) == Good(Object(members), rest)
  {
    hide Escape, ParseMembers, ParseItems, ParseQuoted, ParseNumber;
    var inner := ShowMembers(members) + rest;
    var s := Show(Object(members)) + rest;
    MembersStart(members);
    BraceThen(inner);
    assert s == "{" + inner;
  }

  lemma MembersStart(members: seq<Field>)
    requires members != []
    ensures ShowMembers(members) != "" && ShowMembers(members)[0] == '"'
  {
    hide Escape, Show;
  }

  lemma BraceThen(inner: string)
    requires inner != "" && inner[0] == '"'
    ensures ParseValue("{" + inner)
      == match ParseMembers(inner) case Bad => Bad case Good(members, rest) => Good(Object(members), rest)
  {
    hide ParseMembers, ParseItems, ParseQuoted, ParseNumber;
    var s := "{" + inner;
    assert s[0] == '{' && s[1] == '"' && s[..1] == "{" && s[1..] == inner;
  }

  /** No value starts with a closing bracket. */
  lemma ItemsStart(items: seq<Json>)
    requires items != []
    ensures ShowItems(items) != "" && ShowItems(items)[0] != ']'
  {
    var v := items[0];
    ShowNotEmpty(v);
    assert ShowItems(items)[0] == Show(v)[0];
    if v.Number? {
      IsNumberChars(v.digits);
    }
  }

  lemma {:induction false} ItemsRoundTrip(items: seq<Json>, rest: string)
    requires items != []
    ensures ParseItems(ShowItems(items) + rest) == Good(items, rest)
    decreases items, 0
  {
    var v := items[0];
    var s := ShowItems(items) + rest;
    if |items| == 1 {
      var tail := "]" + rest;
      assert s == Show(v) + tail;
      ValueRoundTrip(v, tail);
      assert tail[..1] == "]" && tail[1..] == rest;
      assert items == [v];
    } else {
      var tail := ", " + (ShowItems(items[1..]) + rest);
      assert s == Show(v) + tail;
      ValueRoundTrip(v, tail);
      ItemsRoundTrip(items[1..], rest);
      ShowNotEmpty(v);
      assert tail[0] == ',' && tail[..2] == ", " && tail[2..] == ShowItems(items[1..]) + rest;
      assert items == [v] + items[1..];
    }
  }

  lemma {:induction false} MembersRoundTrip(members: seq<Field>, rest: string)
    requires members != []
    ensures ParseMembers(ShowMembers(members) + rest) == Good(members, rest)
    decreases members, 0
  {
    var f := members[0];
    var more := if |members| == 1 then "}" + rest else ", " + (ShowMembers(members[1..]) + rest);
    assert more[0] == '}' || more[0] == ',';
    ValueRoundTrip(f.value, more);
    if |members| > 1 {
      MembersRoundTrip(members[1..], rest);
    }
    MemberThen(members, more, rest);
  }

  lemma MemberThen(members: seq<Field>, more: string, rest: string)
    requires members != []
    requires more == if |members| == 1 then "}" + rest else ", " + (ShowMembers(members[1..]) + rest)
    requires ParseValue(Show(members[0].value) + more) == Good(members[0].value, more)
    requires |members| > 1 ==> ParseMembers(ShowMembers(members[1..]) + rest) == Good(members[1..], rest)
    ensures ParseMembers(ShowMembers(members) + rest) == Good(members, rest)
  {
    hide ParseValue, ParseMembers, ParseQuoted, Quoted, Show;
    var f := members[0];
    var s := ShowMembers(members) + rest;
    var value := Show(f.value) + more;
    var middle := ": " + value;
    assert s == Quoted(f.key) + middle;
    QuotedRoundTrip(f.key, middle);
    assert middle[..2] == ": " && middle[2..] == value && |middle| < |s| by {
      QuotedLength(f.key);
    }
    MembersStep(s, f.key, middle, f.value, more);
    if |members| == 1 {
      assert more[..1] == "}" && more[1..] == rest && members == [f];
    } else {
      assert more[0] == ',' && more[..2] == ", " && more[2..] == ShowMembers(members[1..]) + rest;
      assert members == [f] + members[1..];
    }
  }

  lemma QuotedLength(s: string)
    ensures |Quoted(s)| >= 2
  {
  }

  lemma MembersStep(s: string, key: string, middle: string, v: Json, more: string)
    requires ParseQuoted(s) == Good(key, middle) && ": " <= middle && |middle| < |s|
    requires ParseValue(middle[2..]) == Good(v, more)
    ensures ParseMembers(s) == MoreMembers(|s|, Field(key, v), more)
  {
    hide ParseValue, ParseQuoted, MoreMembers;
  }

  // ---------------------------------------------------------------- objects on the wire

  function Dumps(p: Payload): string {
    Show(Object(p))
  }

  function Parse(s: string): Option<Payload> {
    match ParseValue(s)
    case Good(Object(members), "") => Some(members)
    case _ => None
  }

  lemma DumpsRoundTrip(p: Payload)
    ensures Parse(Dumps(p)) == Some(p)
  {
    ValueRoundTrip(Object(p), "");
    assert Dumps(p) + "" == Dumps(p);
  }

  lemma QuotedNoControl(s: string)
    ensures NoControl(Quoted(s))
  {
    EscapeNoControl(s);
    NoControlAppend(Escape(s), "\"");
    NoControlAppend("\"", Escape(s) + "\"");
  }

  lemma {:induction false} ShowNoControl(v: Json)
    ensures NoControl(Show(v))
    decreases v, 1
  {
    match v
    case Null =>
    case Bool(_) =>
    case Number(digits) => IsNumberChars(digits);
    case Str(text) => QuotedNoControl(text);
    case List(items) =>
      if items != [] {
        ItemsNoControl(items);
        NoControlAppend("[", ShowItems(items));
      }
    case Object(members) =>
      if members != [] {
        MembersNoControl(members);
        NoControlAppend("{", ShowMembers(members));
      }
  }

  lemma {:induction false} ItemsNoControl(items: seq<Json>)
    requires items != []
    ensures NoControl(ShowItems(items))
    decreases items, 0
  {
    ShowNoControl(items[0]);
    if |items| == 1 {
      NoControlAppend(Show(items[0]), "]");
    } else {
      ItemsNoControl(items[1..]);
      NoControlAppend(", ", ShowItems(items[1..]));
      NoControlAppend(Show(items[0]), ", " + ShowItems(items[1..]));
    }
  }

  lemma Separators()
    ensures NoControl(", ") && NoControl(": ") && NoControl("}")
  {
  }

  lemma {:induction false} MembersNoControl(members: seq<Field>)
    requires members != []
    ensures NoControl(ShowMembers(members)) && ShowMembers(members)[|ShowMembers(members)| - 1] == '}'
    decreases members, 0
  {
    hide Quoted, Show, NoControl;
    var f := members[0];
    QuotedNoControl(f.key);
    ShowNoControl(f.value);
    var tail := if |members| == 1 then "}" else ", " + ShowMembers(members[1..]);
    Separators();
    if |members| > 1 {
      MembersNoControl(members[1..]);
      NoControlAppend(", ", ShowMembers(members[1..]));
    }
    NoControlAppend(Show(f.value), tail);
    NoControlAppend(": ", Show(f.value) + tail);
    NoControlAppend(Quoted(f.key), ": " + (Show(f.value) + tail));
    var all := ShowMembers(members);
    assert all == Quoted(f.key) + (": " + (Show(f.value) + tail));
    assert all[|all| - 1] == tail[|tail| - 1];
  }

  const JSON := Codec(Dumps, Parse)

  lemma DumpsShape(p: Payload)
    ensures NoControl(Dumps(p)) && |Dumps(p)| > 1 && Dumps(p)[0] == '{' && Dumps(p)[|Dumps(p)| - 1] == '}'
  {
    ShowNoControl(Object(p));
    if p != [] {
      MembersNoControl(p);
    }
  }

  lemma NoControlNoNewline(s: string)
    requires NoControl(s)
    ensures NoNewline(s)
  {
    forall i | 0 <= i < |s|
      ensures s[i] != '\n'
    {
      assert s[i] as int >= 32;
    }
  }

  /** This codec meets everything the event stream asks of JSON, for every payload:
      values may hold newlines, quotes or blank lines of their own. */
  lemma JsonIsLawful()
    ensures Lawful(JSON)
  {
    hide Dumps, Parse, NoControl;
    forall p: Payload
      ensures JSON.parse(JSON.dumps(p)) == Some(p) && NoNewline(JSON.dumps(p)) && Trimmed(JSON.dumps(p))
    {
      DumpsRoundTrip(p);
      DumpsShape(p);
      NoControlNoNewline(Dumps(p));
    }
  }
}
