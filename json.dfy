/** JSON values as the engine sees them, `JSON.stringify` (no indentation) and `JSON.parse`,
    and the round trip between the two. */
module Json {
  import opened Wrappers
  import opened Text

  /** A JavaScript value that JSON can carry. Numbers are integers; objects keep their
      members in insertion order. */
  datatype Json =
    | JNull
    | JBool(b: bool)
    | JNum(n: int)
    | JStr(s: string)
    | JArr(items: seq<Json>)
    | JObj(members: seq<Member>)

  datatype Member = Member(key: string, value: Json)

  /** JavaScript truthiness: `null`, `false`, `0` and `""` are falsy, every array and object is truthy. */
  predicate Truthy(j: Json)
  {
    match j
    case JNull => false
    case JBool(b) => b
    case JNum(n) => n != 0
    case JStr(s) => s != ""
    case _ => true
  }

  predicate DistinctKeys(ms: seq<Member>)
  {
    forall i, k :: 0 <= i < k < |ms| ==> ms[i].key != ms[k].key
  }

  /** A value a JavaScript object graph can have: no object holds the same key twice. */
  predicate WellFormed(j: Json)
    decreases j
  {
    match j
    case JArr(items) => forall i :: 0 <= i < |items| ==> WellFormed(items[i])
    case JObj(ms) => DistinctKeys(ms) && forall i :: 0 <= i < |ms| ==> WellFormed(ms[i].value)
    case _ => true
  }

  /** Index of the member named `key`, if any. */
  function FindKey(ms: seq<Member>, key: string): (r: Option<nat>)
    ensures r.Some? ==> r.value < |ms| && ms[r.value].key == key
    ensures r.Some? ==> forall i :: 0 <= i < r.value ==> ms[i].key != key
    ensures r.None? ==> forall i :: 0 <= i < |ms| ==> ms[i].key != key
    decreases |ms|
  {
    if ms == [] then None
    else if ms[0].key == key then Some(0)
    else match FindKey(ms[1..], key)
      case None => None
      case Some(i) => Some(i + 1)
  }

  // ---------------------------------------------------------------- JSON.stringify

  function HexDigit(d: nat): (c: char)
    requires d < 16
  {
    if d < 10 then DigitChar(d) else ('a' as int + d - 10) as char
  }

  /** How `JSON.stringify` writes one character inside a string literal. */
  function EscapeChar(c: char): string
  {
    var k := c as int;
    if c == '"' then "\\\""
    else if c == '\\' then "\\\\"
    else if k == 0x08 then "\\b"
    else if k == 0x09 then "\\t"
    else if k == 0x0A then "\\n"
    else if k == 0x0C then "\\f"
    else if k == 0x0D then "\\r"
    else if k < 0x20 then "\\u00" + [HexDigit(k / 16), HexDigit(k % 16)]
    else [c]
  }

  function Escape(s: string): string
    decreases |s|
  {
    if s == [] then "" else EscapeChar(s[0]) + Escape(s[1..])
  }

  function Quote(s: string): string
  {
    "\"" + Escape(s) + "\""
  }

  function Stringify(j: Json): string
    decreases j
  {
    match j
    case JNull => "null"
    case JBool(b) => if b then "true" else "false"
    case JNum(n) => IntText(n)
    case JStr(s) => Quote(s)
    case JArr(items) => "[" + StringifyItems(items) + "]"
    case JObj(ms) => "{" + StringifyMembers(ms) + "}"
  }

  function StringifyItems(items: seq<Json>): string
    decreases items
  {
    if items == [] then ""
    else if |items| == 1 then Stringify(items[0])
    else Stringify(items[0]) + "," + StringifyItems(items[1..])
  }

  function StringifyMember(m: Member): string
    decreases m
  {
    Quote(m.key) + ":" + Stringify(m.value)
  }

  function StringifyMembers(ms: seq<Member>): string
    decreases ms
  {
    if ms == [] then ""
    else if |ms| == 1 then StringifyMember(ms[0])
    else StringifyMember(ms[0]) + "," + StringifyMembers(ms[1..])
  }

  // ---------------------------------------------------------------- JSON.parse

  const EndOfInput := "Unexpected end of JSON input"
  const BadToken := "Unexpected token in JSON"

  /** The four characters JSON allows between tokens. */
  predicate IsJsonSpace(c: char)
  {
    c == ' ' || c == '\t' || c == '\n' || c == '\r'
  }

  function SkipWs(s: string): (r: string)
    ensures |r| <= |s|
    ensures r == [] || !IsJsonSpace(r[0])
    ensures s == [] || !IsJsonSpace(s[0]) ==> r == s
    decreases |s|
  {
    if s != [] && IsJsonSpace(s[0]) then SkipWs(s[1..]) else s
  }

  predicate IsHex(c: char)
  {
    IsDigit(c) || 'a' <= c <= 'f' || 'A' <= c <= 'F'
  }

  function HexValue(c: char): (d: nat)
    requires IsHex(c)
    ensures d < 16
  {
    if IsDigit(c) then DigitValue(c)
    else if 'a' <= c <= 'f' then c as int - 'a' as int + 10
    else c as int - 'A' as int + 10
  }

  /** The code unit written as four hex digits at the start of `s`, if they are there. */
  function Hex4(s: string): (r: Option<nat>)
    ensures r.Some? ==> |s| >= 4 && r.value < 0x10000
  {
    if |s| >= 4 && IsHex(s[0]) && IsHex(s[1]) && IsHex(s[2]) && IsHex(s[3]) then
      Some(((HexValue(s[0]) * 16 + HexValue(s[1])) * 16 + HexValue(s[2])) * 16 + HexValue(s[3]))
    else None
  }

  /** The character an escape sequence stands for; `s` starts just after the backslash.
      A `\u` escape of a UTF-16 surrogate must be the high half of a pair. */
  function ParseEscape(s: string): (r: Result<(char, string)>)
    ensures r.Ok? ==> |r.value.1| < |s|
  {
    if s == [] then Err(EndOfInput)
    else if s[0] == '"' || s[0] == '\\' || s[0] == '/' then Ok((s[0], s[1..]))
    else if s[0] == 'b' then Ok((0x08 as char, s[1..]))
    else if s[0] == 'f' then Ok((0x0C as char, s[1..]))
    else if s[0] == 'n' then Ok(('\n', s[1..]))
    else if s[0] == 'r' then Ok(('\r', s[1..]))
    else if s[0] == 't' then Ok(('\t', s[1..]))
    else if s[0] != 'u' then Err(BadToken)
    else match Hex4(s[1..])
      case None => Err(BadToken)
      case Some(hi) =>
        if hi < 0xD800 || 0xE000 <= hi then Ok((hi as char, s[5..]))
        else if hi < 0xDC00 && |s| >= 7 && s[5] == '\\' && s[6] == 'u' then
          match Hex4(s[7..])
          case None => Err(BadToken)
          case Some(lo) =>
            if 0xDC00 <= lo < 0xE000 then
              Ok(((0x10000 + (hi - 0xD800) * 0x400 + (lo - 0xDC00)) as char, s[11..]))
            else Err(BadToken)
        else Err(BadToken)
  }

  /** The body of a string literal; `s` starts just after the opening quote. */
  function ParseStringBody(s: string): (r: Result<(string, string)>)
    ensures r.Ok? ==> |r.value.1| < |s|
    decreases |s|
  {
    if s == [] then Err(EndOfInput)
    else if s[0] == '"' then Ok(("", s[1..]))
    else if (s[0] as int) < 0x20 then Err(BadToken)
    else if s[0] == '\\' then
      match ParseEscape(s[1..])
      case Err(e) => Err(e)
      case Ok((c, rest)) =>
        match ParseStringBody(rest)
        case Err(e) => Err(e)
        case Ok((body, after)) => Ok(([c] + body, after))
    else
      match ParseStringBody(s[1..])
      case Err(e) => Err(e)
      case Ok((body, after)) => Ok(([s[0]] + body, after))
  }

  /** An integer literal; `s` starts at its first character. */
  function ParseNumber(s: string): (r: Result<(Json, string)>)
    requires s != [] && (s[0] == '-' || IsDigit(s[0]))
    ensures r.Ok? ==> |r.value.1| < |s| && r.value.0.JNum?
  {
    var neg := s[0] == '-';
    var t := if neg then s[1..] else s;
    if t == [] then Err(EndOfInput)
    else if t[0] == '0' then Ok((JNum(0), t[1..]))
    else if IsDigit(t[0]) then
      var n := DigitRun(t);
      var v: int := DigitsValue(t[..n]);
      Ok((JNum(if neg then -v else v), t[n..]))
    else Err(BadToken)
  }

  function ParseLiteral(s: string, word: string, v: Json): (r: Result<(Json, string)>)
    requires |word| >= 1
    ensures r.Ok? ==> |r.value.1| < |s| && r.value.0 == v
  {
    if |s| >= |word| && s[..|word|] == word then Ok((v, s[|word|..]))
    else if |s| < |word| && s == word[..|s|] then Err(EndOfInput)
    else Err(BadToken)
  }

  /** One value, after optional whitespace. */
  function ParseValue(s: string): (r: Result<(Json, string)>)
    ensures r.Ok? ==> |r.value.1| < |s| && WellFormed(r.value.0)
    decreases |s|, 2
  {
    var t := SkipWs(s);
    if t == [] then Err(EndOfInput)
    else if t[0] == 'n' then ParseLiteral(t, "null", JNull)
    else if t[0] == 't' then ParseLiteral(t, "true", JBool(true))
    else if t[0] == 'f' then ParseLiteral(t, "false", JBool(false))
    else if t[0] == '-' || IsDigit(t[0]) then ParseNumber(t)
    else if t[0] == '"' then
      match ParseStringBody(t[1..])
      case Err(e) => Err(e)
      case Ok((str, rest)) => Ok((JStr(str), rest))
    else if t[0] == '[' then ParseArray(t[1..])
    else if t[0] == '{' then ParseObject(t[1..])
    else Err(BadToken)
  }

  /** The rest of an array; `s` starts just after `[`. */
  function ParseArray(s: string): (r: Result<(Json, string)>)
    ensures r.Ok? ==> |r.value.1| < |s| && WellFormed(r.value.0)
    decreases |s|, 4
  {
    var u := SkipWs(s);
    if u != [] && u[0] == ']' then Ok((JArr([]), u[1..]))
    else
      match ParseElements(u)
      case Err(e) => Err(e)
      case Ok((items, rest)) => Ok((JArr(items), rest))
  }

  /** One or more comma-separated values and the closing `]`. */
  function ParseElements(s: string): (r: Result<(seq<Json>, string)>)
    ensures r.Ok? ==> |r.value.1| < |s| && forall i :: 0 <= i < |r.value.0| ==> WellFormed(r.value.0[i])
    decreases |s|, 3
  {
    match ParseValue(s)
    case Err(e) => Err(e)
    case Ok((v, rest)) => ElementsAfter(v, SkipWs(rest))
  }

  /** What follows element `v`: `]` ends the list, `,` continues it. */
  function ElementsAfter(v: Json, u: string): (r: Result<(seq<Json>, string)>)
    requires WellFormed(v)
    ensures r.Ok? ==> |r.value.1| < |u| && forall i :: 0 <= i < |r.value.0| ==> WellFormed(r.value.0[i])
    decreases |u|, 4
  {
    if u == [] then Err(EndOfInput)
    else if u[0] == ']' then Ok(([v], u[1..]))
    else if u[0] == ',' then
      match ParseElements(u[1..])
      case Err(e) => Err(e)
      case Ok((vs, after)) => Ok(([v] + vs, after))
    else Err(BadToken)
  }

  /** The rest of an object; `s` starts just after `{`. A repeated key keeps the
      position of its first occurrence and the value of its last. */
  function ParseObject(s: string): (r: Result<(Json, string)>)
    ensures r.Ok? ==> |r.value.1| < |s| && WellFormed(r.value.0)
    decreases |s|, 4
  {
    var u := SkipWs(s);
    if u != [] && u[0] == '}' then Ok((JObj([]), u[1..]))
    else
      match ParseMembers(u)
      case Err(e) => Err(e)
      case Ok((ms, rest)) => Ok((JObj(Dedupe(ms)), rest))
  }

  /** One or more comma-separated `"key":value` pairs and the closing `}`. */
  function ParseMembers(s: string): (r: Result<(seq<Member>, string)>)
    ensures r.Ok? ==> |r.value.1| < |s| && forall i :: 0 <= i < |r.value.0| ==> WellFormed(r.value.0[i].value)
    decreases |s|, 3
  {
    var u := SkipWs(s);
    if u == [] then Err(EndOfInput)
    else if u[0] != '"' then Err(BadToken)
    else
      match ParseStringBody(u[1..])
      case Err(e) => Err(e)
      case Ok((key, afterKey)) =>
        var c := SkipWs(afterKey);
        if c == [] then Err(EndOfInput)
        else if c[0] != ':' then Err(BadToken)
        else
          match ParseValue(c[1..])
          case Err(e) => Err(e)
          case Ok((v, rest)) => MembersAfter(Member(key, v), SkipWs(rest))
  }

  /** What follows member `m`: `}` ends the list, `,` continues it. */
  function MembersAfter(m: Member, d: string): (r: Result<(seq<Member>, string)>)
    requires WellFormed(m.value)
    ensures r.Ok? ==> |r.value.1| < |d| && forall i :: 0 <= i < |r.value.0| ==> WellFormed(r.value.0[i].value)
    decreases |d|, 4
  {
    if d == [] then Err(EndOfInput)
    else if d[0] == '}' then Ok(([m], d[1..]))
    else if d[0] == ',' then
      match ParseMembers(d[1..])
      case Err(e) => Err(e)
      case Ok((ms, after)) => Ok(([m] + ms, after))
    else Err(BadToken)
  }

  /** Defines member `m` the way an object literal does: a new key goes last, a known key
      keeps its place and takes the new value. */
  function Upsert(ms: seq<Member>, m: Member): (r: seq<Member>)
  {
    match FindKey(ms, m.key)
    case None => ms + [m]
    case Some(i) => ms[i := m]
  }

  function Dedupe(ms: seq<Member>): (r: seq<Member>)
    ensures DistinctKeys(r)
    ensures (forall i :: 0 <= i < |ms| ==> WellFormed(ms[i].value)) ==> forall i :: 0 <= i < |r| ==> WellFormed(r[i].value)
    decreases |ms|
  {
    if ms == [] then []
    else
      var prefix := Dedupe(ms[..|ms| - 1]);
      var m := ms[|ms| - 1];
      Upsert(prefix, m)
  }

  /** `JSON.parse(text)`. */
  function Parse(text: string): (r: Result<Json>)
    ensures r.Ok? ==> WellFormed(r.value)
  {
    match ParseValue(text)
    case Err(e) => Err(e)
    case Ok((v, rest)) => if SkipWs(rest) == [] then Ok(v) else Err(BadToken)
  }

  // ---------------------------------------------------------------- the round trip

  lemma HexDigitValue(d: nat)
    requires d < 16
    ensures IsHex(HexDigit(d)) && HexValue(HexDigit(d)) == d
  {
  }

  /** Reading back one escaped character leaves the rest of the literal to the recursion. */
  lemma EscapeCharStep(c: char, tail: string)
    requires ParseStringBody(tail).Ok?
    ensures ParseStringBody(EscapeChar(c) + tail) ==
      Ok(([c] + ParseStringBody(tail).value.0, ParseStringBody(tail).value.1))
  {
    var k := c as int;
    if c == '"' || c == '\\' || k == 0x08 || k == 0x09 || k == 0x0A || k == 0x0C || k == 0x0D {
      ShortEscapeStep(c, tail);
    } else if k < 0x20 {
      ControlEscapeStep(c, tail);
    } else {
      var s := EscapeChar(c) + tail;
      assert s[0] == c && s[1..] == tail;
    }
  }

  lemma ShortEscapeStep(c: char, tail: string)
    requires var k := c as int;
      c == '"' || c == '\\' || k == 0x08 || k == 0x09 || k == 0x0A || k == 0x0C || k == 0x0D
    ensures var s := EscapeChar(c) + tail;
      s[0] == '\\' && ParseEscape(s[1..]) == Ok((c, tail))
  {
    var s := EscapeChar(c) + tail;
    assert s[1..][1..] == tail;
  }

  lemma ControlEscapeStep(c: char, tail: string)
    requires var k := c as int;
      k < 0x20 && k != 0x08 && k != 0x09 && k != 0x0A && k != 0x0C && k != 0x0D
    ensures var s := EscapeChar(c) + tail;
      s[0] == '\\' && ParseEscape(s[1..]) == Ok((c, tail))
  {
    var k := c as int;
    var s := EscapeChar(c) + tail;
    assert EscapeChar(c) == "\\u00" + [HexDigit(k / 16), HexDigit(k % 16)];
    var u := s[1..];
    assert u == "u00" + [HexDigit(k / 16), HexDigit(k % 16)] + tail;
    ControlHex(k, tail);
  }

  lemma ControlHex(k: nat, tail: string)
    requires k < 0x20
    ensures ParseEscape("u00" + [HexDigit(k / 16), HexDigit(k % 16)] + tail) == Ok((k as char, tail))
  {
    var u := "u00" + [HexDigit(k / 16), HexDigit(k % 16)] + tail;
    HexDigitValue(k / 16);
    HexDigitValue(k % 16);
    assert u[0] == 'u';
    assert u[1..][..4] == ['0', '0', HexDigit(k / 16), HexDigit(k % 16)];
    assert (k / 16) * 16 + k % 16 == k;
    assert Hex4(u[1..]) == Some(k);
    assert u[5..] == tail;
  }

  lemma {:induction false} StringBodyRoundTrip(str: string, rest: string)
    ensures ParseStringBody(Escape(str) + "\"" + rest) == Ok((str, rest))
    decreases |str|
  {
    if str == [] {
      assert Escape(str) + "\"" + rest == "\"" + rest;
    } else {
      var c, e1 := EscapeChar(str[0]), Escape(str[1..]);
      var tail := e1 + "\"" + rest;
      StringBodyRoundTrip(str[1..], rest);
      assert Escape(str) == c + e1;
      Regroup(c, e1, "\"");
      Regroup(c, e1 + "\"", rest);
      EscapeCharStep(str[0], tail);
      assert [str[0]] + str[1..] == str;
    }
  }

  /** Concatenation regrouped. */
  lemma Regroup(a: string, b: string, c: string)
    ensures a + b + c == a + (b + c)
  {
  }

  lemma NatRoundTrip(m: nat, rest: string)
    requires rest == [] || !IsDigit(rest[0])
    ensures var t := NatText(m) + rest;
      t[0] != '-' && IsDigit(t[0]) &&
      (m == 0 ==> t[0] == '0' && t[1..] == rest) &&
      (m != 0 ==> t[0] != '0' && DigitRun(t) == |NatText(m)| &&
                  t[..DigitRun(t)] == NatText(m) && DigitsValue(t[..DigitRun(t)]) == m &&
                  t[DigitRun(t)..] == rest)
  {
    var d := NatText(m);
    var t := d + rest;
    assert t[0] == d[0];
    if m == 0 {
      assert t[1..] == rest;
    } else {
      DigitRunOf(d, rest);
      assert t[..|d|] == d && t[|d|..] == rest;
      DigitsValueOfNatText(m);
    }
  }

  lemma NumberRoundTrip(n: int, rest: string)
    requires rest == [] || !IsDigit(rest[0])
    ensures var s := IntText(n) + rest;
      (s[0] == '-' || IsDigit(s[0])) && ParseNumber(s) == Ok((JNum(n), rest))
  {
    if n < 0 {
      NegativeRoundTrip(n, rest);
    } else {
      NatRoundTrip(n, rest);
      assert IntText(n) + rest == NatText(n) + rest;
    }
  }

  lemma NegativeRoundTrip(n: int, rest: string)
    requires n < 0
    requires rest == [] || !IsDigit(rest[0])
    ensures var s := IntText(n) + rest;
      s[0] == '-' && ParseNumber(s) == Ok((JNum(n), rest))
  {
    var d := NatText(-n);
    var t := d + rest;
    NatRoundTrip(-n, rest);
    var k := DigitRun(t);
    assert t[0] != '0' && k == |d| && t[..k] == d && DigitsValue(d) == -n && t[k..] == rest;
    ParseNegative(t);
    Regroup("-", d, rest);
    assert IntText(n) + rest == "-" + t;
  }

  lemma ParseNegative(t: string)
    requires t != [] && IsDigit(t[0]) && t[0] != '0'
    ensures var k := DigitRun(t);
      ParseNumber("-" + t) == Ok((JNum(0 - DigitsValue(t[..k])), t[k..]))
  {
    assert ("-" + t)[1..] == t;
  }

  /** Every serialisation starts with a character that opens a value. */
  lemma StringifyStart(j: Json)
    ensures var s := Stringify(j);
      s != [] && !IsJsonSpace(s[0]) && s[0] != ']' && s[0] != '}' && s[0] != ','
  {
    match j
    case JNum(n) =>
      var m: nat := if n < 0 then -n else n;
      assert NatText(m)[0] == Stringify(j)[0] || Stringify(j)[0] == '-';
    case _ =>
  }

  /** Without its last member, a list of distinct keys stays distinct and lacks that key. */
  lemma DistinctInit(ms: seq<Member>)
    requires DistinctKeys(ms) && ms != []
    ensures DistinctKeys(ms[..|ms| - 1]) && FindKey(ms[..|ms| - 1], ms[|ms| - 1].key) == None
  {
    var prefix := ms[..|ms| - 1];
    forall i | 0 <= i < |prefix| ensures prefix[i].key != ms[|ms| - 1].key {
      assert prefix[i] == ms[i];
    }
  }

  lemma {:induction false} DedupeDistinct(ms: seq<Member>)
    requires DistinctKeys(ms)
    ensures Dedupe(ms) == ms
    decreases |ms|
  {
    if ms != [] {
      var prefix := ms[..|ms| - 1];
      var m := ms[|ms| - 1];
      DistinctInit(ms);
      DedupeDistinct(prefix);
      assert prefix + [m] == ms;
      DedupeExtend(prefix, m);
    }
  }

  /** A member with a new key, after a list `Dedupe` leaves alone, is left alone too. */
  lemma DedupeExtend(prefix: seq<Member>, m: Member)
    requires Dedupe(prefix) == prefix && FindKey(prefix, m.key) == None
    ensures Dedupe(prefix + [m]) == prefix + [m]
  {
    var ms := prefix + [m];
    assert ms[..|ms| - 1] == prefix && ms[|ms| - 1] == m;
  }

  lemma {:induction false} ValueRoundTrip(j: Json, rest: string)
    requires WellFormed(j)
    requires rest == [] || !IsDigit(rest[0])
    ensures ParseValue(Stringify(j) + rest) == Ok((j, rest))
    decreases j, 3
  {
    match j
    case JArr(items) => ArrayValueRoundTrip(items, rest);
    case JObj(ms) => ObjectValueRoundTrip(ms, rest);
    case _ => ScalarRoundTrip(j, rest);
  }

  lemma ScalarRoundTrip(j: Json, rest: string)
    requires !j.JArr? && !j.JObj?
    requires rest == [] || !IsDigit(rest[0])
    ensures ParseValue(Stringify(j) + rest) == Ok((j, rest))
  {
    match j
    case JNull => WordRoundTrip("null", JNull, rest);
    case JBool(b) =>
      if b {
        WordRoundTrip("true", JBool(true), rest);
      } else {
        WordRoundTrip("false", JBool(false), rest);
      }
    case JNum(n) => NumValueRoundTrip(n, rest);
    case JStr(str) => StrValueRoundTrip(str, rest);
  }

  lemma WordRoundTrip(word: string, v: Json, rest: string)
    requires (word == "null" && v == JNull) || (word == "true" && v == JBool(true)) ||
             (word == "false" && v == JBool(false))
    ensures ParseValue(word + rest) == Ok((v, rest))
  {
    var s := word + rest;
    assert s[0] == word[0] && SkipWs(s) == s;
    assert s[..|word|] == word && s[|word|..] == rest;
  }

  lemma NumValueRoundTrip(n: int, rest: string)
    requires rest == [] || !IsDigit(rest[0])
    ensures ParseValue(IntText(n) + rest) == Ok((JNum(n), rest))
  {
    var s := IntText(n) + rest;
    NumberRoundTrip(n, rest);
    NumberDispatch(s);
  }

  /** A value that opens with a minus sign or a digit is a number. */
  lemma NumberDispatch(s: string)
    requires s != [] && (s[0] == '-' || IsDigit(s[0]))
    ensures ParseValue(s) == ParseNumber(s)
  {
    assert SkipWs(s) == s;
  }

  lemma StrValueRoundTrip(str: string, rest: string)
    ensures ParseValue(Quote(str) + rest) == Ok((JStr(str), rest))
  {
    var s := Quote(str) + rest;
    assert s == "\"" + (Escape(str) + "\"" + rest);
    QuoteDispatch(s);
    assert s[1..] == Escape(str) + "\"" + rest;
    StringBodyRoundTrip(str, rest);
  }

  lemma {:induction false} ArrayValueRoundTrip(items: seq<Json>, rest: string)
    requires WellFormed(JArr(items))
    ensures ParseValue(Stringify(JArr(items)) + rest) == Ok((JArr(items), rest))
    decreases items, 3
  {
    Bracketed('[', StringifyItems(items), ']', rest);
    OpenDispatch(Stringify(JArr(items)) + rest);
    ArrayRoundTrip(items, rest);
  }

  lemma {:induction false} ObjectValueRoundTrip(ms: seq<Member>, rest: string)
    requires WellFormed(JObj(ms))
    ensures ParseValue(Stringify(JObj(ms)) + rest) == Ok((JObj(ms), rest))
    decreases ms, 3
  {
    Bracketed('{', StringifyMembers(ms), '}', rest);
    OpenDispatch(Stringify(JObj(ms)) + rest);
    ObjectRoundTrip(ms, rest);
  }

  /** A value that opens with a quote is a string literal. */
  lemma QuoteDispatch(s: string)
    requires s != [] && s[0] == '"'
    ensures ParseValue(s) == match ParseStringBody(s[1..])
      case Err(e) => Err(e)
      case Ok((str, rest)) => Ok((JStr(str), rest))
  {
    assert SkipWs(s) == s;
  }

  /** A value that opens with a bracket is read by the array or the object reader. */
  lemma OpenDispatch(s: string)
    requires s != [] && (s[0] == '[' || s[0] == '{')
    ensures s[0] == '[' ==> ParseValue(s) == ParseArray(s[1..])
    ensures s[0] == '{' ==> ParseValue(s) == ParseObject(s[1..])
  {
    assert SkipWs(s) == s;
  }

  /** A bracketed text: its first character, and what follows it. */
  lemma Bracketed(open: char, body: string, close: char, rest: string)
    ensures var s := [open] + body + [close] + rest;
      s[0] == open && s[1..] == body + [close] + rest
  {
    var s := [open] + body + [close] + rest;
    assert s == [open] + (body + [close] + rest);
  }

  lemma {:induction false} ArrayRoundTrip(items: seq<Json>, rest: string)
    requires forall i :: 0 <= i < |items| ==> WellFormed(items[i])
    ensures ParseArray(StringifyItems(items) + "]" + rest) == Ok((JArr(items), rest))
    decreases items, 2
  {
    var inner := StringifyItems(items) + "]" + rest;
    if items == [] {
      assert inner == "]" + rest;
    } else {
      StringifyStart(items[0]);
      assert inner[0] == Stringify(items[0])[0];
      assert SkipWs(inner) == inner;
      ItemsRoundTrip(items, rest);
    }
  }

  lemma {:induction false} ObjectRoundTrip(ms: seq<Member>, rest: string)
    requires DistinctKeys(ms)
    requires forall i :: 0 <= i < |ms| ==> WellFormed(ms[i].value)
    ensures ParseObject(StringifyMembers(ms) + "}" + rest) == Ok((JObj(ms), rest))
    decreases ms, 2
  {
    var inner := StringifyMembers(ms) + "}" + rest;
    if ms == [] {
      assert inner == "}" + rest;
    } else {
      MembersStart(ms);
      assert inner[0] == '"';
      MembersRoundTrip(ms, rest);
      DedupeDistinct(ms);
    }
  }

  /** A serialised member list starts with the opening quote of its first key. */
  lemma MembersStart(ms: seq<Member>)
    requires ms != []
    ensures StringifyMembers(ms) != [] && StringifyMembers(ms)[0] == '"'
  {
    var k := Quote(ms[0].key);
    FirstOf("\"" + Escape(ms[0].key), "\"");
    FirstOf(k, ":");
    FirstOf(k + ":", Stringify(ms[0].value));
    var q := StringifyMember(ms[0]);
    if |ms| > 1 {
      FirstOf(q, ",");
      FirstOf(q + ",", StringifyMembers(ms[1..]));
    }
  }

  lemma FirstOf(a: string, b: string)
    requires a != []
    ensures a + b != [] && (a + b)[0] == a[0]
  {
  }

  lemma {:induction false} ItemsRoundTrip(items: seq<Json>, rest: string)
    requires |items| >= 1
    requires forall i :: 0 <= i < |items| ==> WellFormed(items[i])
    ensures ParseElements(StringifyItems(items) + "]" + rest) == Ok((items, rest))
    decreases items, 1
  {
    if |items| == 1 {
      LastItem(items, rest);
      assert [items[0]] == items;
    } else {
      var others := StringifyItems(items[1..]) + "]" + rest;
      NextItem(items, rest);
      assert ("," + others)[1..] == others;
      ItemsRoundTrip(items[1..], rest);
      assert [items[0]] + items[1..] == items;
    }
  }

  /** Reading one value hands what follows it to the rest of the element list. */
  lemma {:induction false} ItemStep(v: Json, tail: string)
    requires WellFormed(v)
    requires tail != [] && (tail[0] == ',' || tail[0] == ']')
    ensures ParseElements(Stringify(v) + tail) == ElementsAfter(v, tail)
    decreases v, 4
  {
    ValueRoundTrip(v, tail);
    assert SkipWs(tail) == tail;
  }

  lemma {:induction false} LastItem(items: seq<Json>, rest: string)
    requires |items| == 1 && WellFormed(items[0])
    ensures ParseElements(StringifyItems(items) + "]" + rest) == Ok(([items[0]], rest))
    decreases items, 0
  {
    Regroup(Stringify(items[0]), "]", rest);
    ItemStep(items[0], "]" + rest);
    assert ("]" + rest)[1..] == rest;
  }

  lemma {:induction false} NextItem(items: seq<Json>, rest: string)
    requires |items| > 1 && WellFormed(items[0])
    ensures ParseElements(StringifyItems(items) + "]" + rest) ==
            ElementsAfter(items[0], "," + (StringifyItems(items[1..]) + "]" + rest))
    decreases items, 0
  {
    CommaTail(Stringify(items[0]), StringifyItems(items[1..]), "]", rest);
    ItemStep(items[0], "," + (StringifyItems(items[1..]) + "]" + rest));
  }

  lemma {:induction false} MembersRoundTrip(ms: seq<Member>, rest: string)
    requires |ms| >= 1
    requires forall i :: 0 <= i < |ms| ==> WellFormed(ms[i].value)
    ensures ParseMembers(StringifyMembers(ms) + "}" + rest) == Ok((ms, rest))
    decreases ms, 1
  {
    var m := ms[0];
    if |ms| == 1 {
      LastMember(ms, rest);
      assert [m] == ms;
    } else {
      var others := StringifyMembers(ms[1..]) + "}" + rest;
      NextMember(ms, rest);
      MembersRoundTrip(ms[1..], rest);
      MembersAfterComma(m, others, ms[1..], rest);
      assert [m] + ms[1..] == ms;
    }
  }

  lemma {:induction false} LastMember(ms: seq<Member>, rest: string)
    requires |ms| == 1 && WellFormed(ms[0].value)
    ensures ParseMembers(StringifyMembers(ms) + "}" + rest) == Ok(([ms[0]], rest))
    decreases ms, 0
  {
    Regroup(StringifyMember(ms[0]), "}", rest);
    MemberStep(ms[0], "}" + rest);
    assert ("}" + rest)[1..] == rest;
  }

  lemma {:induction false} NextMember(ms: seq<Member>, rest: string)
    requires |ms| > 1 && WellFormed(ms[0].value)
    ensures ParseMembers(StringifyMembers(ms) + "}" + rest) ==
            MembersAfter(ms[0], "," + (StringifyMembers(ms[1..]) + "}" + rest))
    decreases ms, 0
  {
    CommaTail(StringifyMember(ms[0]), StringifyMembers(ms[1..]), "}", rest);
    MemberStep(ms[0], "," + (StringifyMembers(ms[1..]) + "}" + rest));
  }

  lemma CommaTail(a: string, b: string, close: string, rest: string)
    ensures a + "," + b + close + rest == a + ("," + (b + close + rest))
  {
  }

  /** Reading one `"key":value` pair hands what follows it to the rest of the member list. */
  lemma {:induction false} MemberStep(m: Member, tail: string)
    requires WellFormed(m.value)
    requires tail != [] && (tail[0] == ',' || tail[0] == '}')
    ensures ParseMembers(StringifyMember(m) + tail) == MembersAfter(m, tail)
    decreases m, 1
  {
    var x := Stringify(m.value) + tail;
    MemberValueRoundTrip(m, tail);
    assert StringifyMember(m) + tail == Quote(m.key) + ":" + x;
    MemberParse(m.key, x, m.value, tail);
  }

  /** Reading `"key":` and a value that ends where `tail` starts. */
  /** A comma after a member hands the rest to the member list. */
  lemma MembersAfterComma(m: Member, others: string, tail: seq<Member>, rest: string)
    requires WellFormed(m.value)
    requires ParseMembers(others) == Ok((tail, rest))
    ensures MembersAfter(m, "," + others) == Ok(([m] + tail, rest))
  {
    assert ("," + others)[1..] == others;
  }

  /** A quoted key followed by a colon is read back as that key. */
  lemma KeyRead(key: string, x: string) returns (s: string)
    ensures s == Quote(key) + ":" + x
    ensures s[0] == '"' && SkipWs(s) == s && ParseStringBody(s[1..]) == Ok((key, ":" + x))
  {
    s := Quote(key) + ":" + x;
    assert s[1..] == Escape(key) + "\"" + (":" + x);
    StringBodyRoundTrip(key, ":" + x);
  }

  lemma MemberParse(key: string, x: string, v: Json, tail: string)
    requires ParseValue(x) == Ok((v, tail))
    requires tail == [] || !IsJsonSpace(tail[0])
    ensures WellFormed(v)
    ensures ParseMembers(Quote(key) + ":" + x) == MembersAfter(Member(key, v), tail)
  {
    var s := KeyRead(key, x);
    assert SkipWs(":" + x) == ":" + x && (":" + x)[1..] == x;
  }

  lemma {:induction false} MemberValueRoundTrip(m: Member, rest: string)
    requires WellFormed(m.value)
    requires rest == [] || !IsDigit(rest[0])
    ensures ParseValue(Stringify(m.value) + rest) == Ok((m.value, rest))
    decreases m, 0
  {
    ValueRoundTrip(m.value, rest);
  }

  /** `JSON.parse(JSON.stringify(v))` gives `v` back for every value an object graph can hold. */
  lemma ParseStringify(j: Json)
    requires WellFormed(j)
    ensures Parse(Stringify(j)) == Ok(j)
  {
    ValueRoundTrip(j, "");
    assert Stringify(j) + "" == Stringify(j);
  }
}
