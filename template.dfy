/** Placeholder resolution in a step's configuration: the configuration is serialised,
    every `{{expression}}` found by the scan `/\{\{([^}]+)\}\}/g` over that text is looked up
    in the run's context, each resolved placeholder's text is replaced by the serialised
    value, and the whole text is parsed again. */
module Template {
  import opened Wrappers
  import opened Text
  import opened Json

  // ---------------------------------------------------------------- the scan

  /** Index of the first `}` at or after `i`, or `|s|` when there is none. */
  function CloseBrace(s: string, i: nat): (k: nat)
    requires i <= |s|
    ensures i <= k <= |s|
    ensures forall j :: i <= j < k ==> s[j] != '}'
    ensures k < |s| ==> s[k] == '}'
    decreases |s| - i
  {
    if i == |s| || s[i] == '}' then i else CloseBrace(s, i + 1)
  }

  /** `s[i..e]` is a text the pattern `\{\{([^}]+)\}\}` matches: two opening braces, at least
      one character that is not `}`, two closing braces. */
  predicate IsMatch(s: string, i: nat, e: nat)
  {
    i + 5 <= e <= |s| && s[i] == '{' && s[i + 1] == '{' && s[e - 2] == '}' && s[e - 1] == '}' &&
    forall k :: i + 2 <= k < e - 2 ==> s[k] != '}'
  }

  /** The end of the match that starts at `i`, if one does. The run of non-`}` characters is
      greedy and cannot give back a `}`, so there is at most one. */
  function MatchAt(s: string, i: nat): (r: Option<nat>)
    requires i <= |s|
    ensures r.Some? ==> IsMatch(s, i, r.value)
    ensures r.Some? ==> forall e :: IsMatch(s, i, e) ==> e == r.value
    ensures r.None? ==> forall e :: !IsMatch(s, i, e)
  {
    if i + 2 <= |s| && s[i] == '{' && s[i + 1] == '{' then
      var k := CloseBrace(s, i + 2);
      assert forall e :: IsMatch(s, i, e) ==> e == k + 2;
      if k > i + 2 && k + 1 < |s| && s[k + 1] == '}' then Some(k + 2) else None
    else None
  }

  /** One `exec` of the global pattern with `lastIndex == from`: the leftmost match that
      starts at or after `from`, as its start and end. */
  function NextMatch(s: string, from: nat): (r: Option<(nat, nat)>)
    requires from <= |s|
    ensures r.Some? ==> from <= r.value.0 <= |s| && MatchAt(s, r.value.0) == Some(r.value.1)
    ensures r.Some? ==> forall k :: from <= k < r.value.0 ==> MatchAt(s, k).None?
    ensures r.None? ==> forall k :: from <= k <= |s| ==> MatchAt(s, k).None?
    decreases |s| - from
  {
    if from == |s| then None
    else match MatchAt(s, from)
      case Some(e) => Some((from, e))
      case None => NextMatch(s, from + 1)
  }

  // ---------------------------------------------------------------- lookup

  /** A key that names an array index: the canonical decimal text of a natural number. */
  predicate IsIndexKey(key: string)
  {
    key != "" && AllDigits(key) && (key[0] != '0' || |key| == 1)
  }

  /** `current?.[key]` on a JSON value: an object answers its own keys; an array or a string
      answers `length` and its index keys (a string's element is a one-character string).
      Numbers, booleans and `null` answer no JSON value. */
  function Property(current: Option<Json>, key: string): Option<Json>
  {
    match current
    case Some(JObj(ms)) =>
      (match FindKey(ms, key) case Some(i) => Some(ms[i].value) case None => None)
    case Some(JArr(items)) =>
      if key == "length" then Some(JNum(|items|))
      else if IsIndexKey(key) && DigitsValue(key) < |items| then Some(items[DigitsValue(key)]) else None
    case Some(JStr(s)) =>
      if key == "length" then Some(JNum(|s|))
      else if IsIndexKey(key) && DigitsValue(key) < |s| then Some(JStr([s[DigitsValue(key)]])) else None
    case _ => None
  }

  /** `keys.reduce((current, key) => current?.[key], start)`. */
  function Walk(start: Option<Json>, keys: seq<string>): (r: Option<Json>)
    ensures start.None? ==> r.None?
    decreases |keys|
  {
    if keys == [] then start else Walk(Property(start, keys[0]), keys[1..])
  }

  function GetNestedValue(obj: Json, path: string): Option<Json>
  {
    Walk(Some(obj), Split(path, '.'))
  }

  predicate StartsWith(s: string, prefix: string)
  {
    |prefix| <= |s| && s[..|prefix|] == prefix
  }

  /** The value a trimmed placeholder expression stands for, or `None` when it is left alone:
      `trigger.data` is the run's trigger data; `step_...` names a step result by its whole
      first dot-segment, which must be truthy, and walks the rest of the path. */
  function Lookup(variable: string, triggerData: Option<Json>, stepResults: map<string, Json>): Option<Json>
  {
    if variable == "trigger.data" then triggerData
    else if StartsWith(variable, "step_") then
      var parts := Split(variable, '.');
      var stepId := parts[0];
      if stepId in stepResults && Truthy(stepResults[stepId])
      then GetNestedValue(stepResults[stepId], Join(parts[1..], '.'))
      else None
    else None
  }

  /** What `Lookup` does with a `step_` expression, segment by segment. */
  lemma LookupStep(variable: string, triggerData: Option<Json>, stepResults: map<string, Json>)
    requires StartsWith(variable, "step_")
    ensures var parts := Split(variable, '.');
      Lookup(variable, triggerData, stepResults) ==
        if parts[0] in stepResults && Truthy(stepResults[parts[0]])
        then Walk(Some(stepResults[parts[0]]), if |parts| == 1 then [""] else parts[1..])
        else None
  {
    var parts := Split(variable, '.');
    assert variable != "trigger.data" by {
      assert "trigger.data"[..5] != "step_";
    }
    if |parts| > 1 {
      SplitJoin(parts[1..], '.');
    } else {
      assert Join(parts[1..], '.') == "";
    }
  }

  /** Expressions that are neither `trigger.data` nor `step_...` never resolve, and neither
      does a step name without a truthy result. */
  lemma LookupUnresolved(variable: string, triggerData: Option<Json>, stepResults: map<string, Json>)
    requires variable != "trigger.data"
    requires !StartsWith(variable, "step_") ||
             var id := Split(variable, '.')[0]; id !in stepResults || !Truthy(stepResults[id])
    ensures Lookup(variable, triggerData, stepResults) == None
  {
  }

  // ---------------------------------------------------------------- substitution

  /** The text between the braces of the match `template[i..e]`, trimmed. */
  function Expression(template: string, i: nat, e: nat): string
    requires i + 4 <= e <= |template|
  {
    Trim(template[i + 2..e - 2])
  }

  /** The text after every match at or after `from` has been handled: matches are found in
      `template`, the original serialisation; each one that resolves replaces the first
      occurrence of its text in `current`. */
  function Substitute(template: string, from: nat, current: string,
                      triggerData: Option<Json>, stepResults: map<string, Json>): string
    requires from <= |template|
    decreases |template| - from
  {
    match NextMatch(template, from)
    case None => current
    case Some((i, e)) =>
      var value := Lookup(Expression(template, i, e), triggerData, stepResults);
      var next := if value.Some? then ReplaceFirst(current, template[i..e], Stringify(value.value)) else current;
      Substitute(template, e, next, triggerData, stepResults)
  }

  /** The configuration a step runs with, or the error `JSON.parse` throws. */
  function ResolveConfig(config: Json, triggerData: Option<Json>, stepResults: map<string, Json>): Result<Json>
  {
    var text := Stringify(config);
    Parse(Substitute(text, 0, text, triggerData, stepResults))
  }

  method ReplaceTemplateVariables(config: Json, triggerData: Option<Json>, stepResults: map<string, Json>)
    returns (r: Result<Json>)
    ensures r == ResolveConfig(config, triggerData, stepResults)
  {
    var configStr := Stringify(config);
    var replaced := configStr;
    var lastIndex := 0;
    var m := NextMatch(configStr, lastIndex);
    while m.Some?
      invariant lastIndex <= |configStr|
      invariant m == NextMatch(configStr, lastIndex)
      invariant Substitute(configStr, lastIndex, replaced, triggerData, stepResults) ==
                Substitute(configStr, 0, configStr, triggerData, stepResults)
      decreases |configStr| - lastIndex
    {
      var (start, end) := m.value;
      var variable := Expression(configStr, start, end);
      var value := Lookup(variable, triggerData, stepResults);
      if value.Some? {
        replaced := ReplaceFirst(replaced, configStr[start..end], Stringify(value.value));
      }
      lastIndex := end;
      m := NextMatch(configStr, lastIndex);
    }
    r := Parse(replaced);
  }

  // ---------------------------------------------------------------- properties

  /** No placeholder at or after `from` resolves. */
  ghost predicate NoneResolves(template: string, from: nat, triggerData: Option<Json>, stepResults: map<string, Json>)
  {
    forall i, e :: from <= i && IsMatch(template, i, e) ==>
      Lookup(Expression(template, i, e), triggerData, stepResults).None?
  }

  /** When no placeholder the scan meets resolves, the text is left as it was. */
  lemma {:induction false} SubstituteUnresolved(template: string, from: nat, current: string,
                                                triggerData: Option<Json>, stepResults: map<string, Json>)
    requires from <= |template|
    requires NoneResolves(template, from, triggerData, stepResults)
    ensures Substitute(template, from, current, triggerData, stepResults) == current
    decreases |template| - from
  {
    match NextMatch(template, from)
    case None =>
    case Some((i, e)) =>
      assert IsMatch(template, i, e);
      SubstituteUnresolved(template, e, current, triggerData, stepResults);
  }

  /** A configuration none of whose placeholders resolves (in particular one with none at
      all) comes back unchanged: the parse of its own serialisation. */
  lemma ResolveUnresolved(config: Json, triggerData: Option<Json>, stepResults: map<string, Json>)
    requires WellFormed(config)
    requires NoneResolves(Stringify(config), 0, triggerData, stepResults)
    ensures ResolveConfig(config, triggerData, stepResults) == Ok(config)
  {
    var text := Stringify(config);
    SubstituteUnresolved(text, 0, text, triggerData, stepResults);
    ParseStringify(config);
  }

  /** Resolving a configuration without placeholders gives it back, so resolving twice is
      resolving once. */
  lemma ResolveIdempotent(config: Json, triggerData: Option<Json>, stepResults: map<string, Json>)
    requires WellFormed(config)
    requires NextMatch(Stringify(config), 0).None?
    ensures ResolveConfig(config, triggerData, stepResults) == Ok(config)
    ensures ResolveConfig(ResolveConfig(config, triggerData, stepResults).value, triggerData, stepResults) ==
            ResolveConfig(config, triggerData, stepResults)
  {
    var text := Stringify(config);
    forall i: nat, e: nat ensures !IsMatch(text, i, e) {
      if i <= |text| {
        assert MatchAt(text, i).None?;
      }
    }
    ResolveUnresolved(config, triggerData, stepResults);
  }

  // ---------------------------------------------------------------- splicing into a quoted field

  /** Characters `JSON.stringify` writes as themselves inside a string literal. */
  predicate Plain(s: string)
  {
    forall i :: 0 <= i < |s| ==> s[i] != '"' && s[i] != '\\' && s[i] as int >= 0x20
  }

  lemma {:induction false} EscapePlain(s: string)
    requires Plain(s)
    ensures Escape(s) == s
    decreases |s|
  {
    if s != [] {
      EscapePlain(s[1..]);
      assert [s[0]] + s[1..] == s;
    }
  }

  lemma {:induction false} EscapeNoBrace(s: string)
    requires '{' !in s
    ensures '{' !in Escape(s)
    decreases |s|
  {
    if s != [] {
      EscapeNoBrace(s[1..]);
      assert s[0] in s;
    }
  }

  /** What follows the first member of a serialised object. */
  function RestOfObject(others: seq<Member>): string
  {
    (if others == [] then "" else "," + StringifyMembers(others)) + "}"
  }

  lemma FirstMemberText(m: Member, others: seq<Member>)
    ensures Stringify(JObj([m] + others)) == "{" + StringifyMember(m) + RestOfObject(others)
  {
    var ms := [m] + others;
    assert ms[1..] == others;
  }

  /** The scan over a text whose only placeholder is `text[p..e]`: it finds that one and then
      nothing, and the first occurrence of its text is the one found. */
  lemma ScanSingle(text: string, p: nat, e: nat)
    requires IsMatch(text, p, e)
    requires forall i :: 0 <= i < p ==> text[i] != '{' || text[i + 1] != '{'
    requires forall i :: e <= i < |text| ==> text[i] != '{'
    ensures NextMatch(text, 0) == Some((p, e)) && NextMatch(text, e).None?
    ensures IndexOf(text, text[p..e], 0) == Some(p)
  {
    forall i | 0 <= i < p ensures MatchAt(text, i).None? {
      assert text[i] != '{' || text[i + 1] != '{';
    }
    FirstMatch(text, p, e);
    forall k | e <= k <= |text| ensures MatchAt(text, k).None? {
      if k < |text| {
        assert text[k] != '{';
      }
    }
    FirstOccurrence(text, p, e);
  }

  lemma FirstMatch(text: string, p: nat, e: nat)
    requires IsMatch(text, p, e)
    requires forall i :: 0 <= i < p ==> MatchAt(text, i).None?
    ensures NextMatch(text, 0) == Some((p, e))
  {
    assert MatchAt(text, p) == Some(e);
  }

  lemma FirstOccurrence(text: string, p: nat, e: nat)
    requires IsMatch(text, p, e)
    requires forall i :: 0 <= i < p ==> text[i] != '{' || text[i + 1] != '{'
    ensures IndexOf(text, text[p..e], 0) == Some(p)
  {
    var ph := text[p..e];
    forall k: nat | k < p ensures !OccursAt(text, ph, k) {
      assert text[k] != ph[0] || text[k + 1] != ph[1];
    }
    assert OccursAt(text, ph, p);
  }

  /** A text with exactly one placeholder, `text[p..e]`: the substitution replaces it by the
      serialised value when it resolves and leaves the text alone otherwise. */
  lemma SingleMatch(text: string, p: nat, e: nat, triggerData: Option<Json>, stepResults: map<string, Json>)
    requires p + 4 <= e <= |text|
    requires NextMatch(text, 0) == Some((p, e)) && NextMatch(text, e).None?
    requires IndexOf(text, text[p..e], 0) == Some(p)
    ensures var value := Lookup(Expression(text, p, e), triggerData, stepResults);
      Substitute(text, 0, text, triggerData, stepResults) ==
        if value.Some? then text[..p] + Stringify(value.value) + text[e..] else text
  {
  }

  /** The serialisation of an object whose first member is a string field, cut around the
      characters of that string. */
  lemma QuotedFieldText(key: string, s: string, others: seq<Member>)
    ensures Stringify(JObj([Member(key, JStr(s))] + others)) ==
            ("{" + Quote(key) + ":\"") + Escape(s) + ("\"" + RestOfObject(others))
  {
    FirstMemberText(Member(key, JStr(s)), others);
    FieldCut(Quote(key), Escape(s), RestOfObject(others));
  }

  lemma FieldCut(q: string, m: string, r: string)
    ensures "{" + (q + ":" + ("\"" + m + "\"")) + r == ("{" + q + ":\"") + m + ("\"" + r)
  {
    assert ":\"" == ":" + "\"";
  }

  /** Where the scan finds a placeholder `{{v}}` put between a prefix and a suffix that
      contain no other. */
  lemma PlaceholderLayout(a: string, v: string, b: string)
    requires |a| >= 2 && '{' !in a[1..]
    requires |v| >= 1 && '{' !in v && '}' !in v
    requires '{' !in b
    ensures var text := a + ("{{" + v + "}}") + b;
      var p, e := |a|, |a| + |v| + 4;
      NextMatch(text, 0) == Some((p, e)) && NextMatch(text, e).None? &&
      IndexOf(text, text[p..e], 0) == Some(p) &&
      text[p + 2..e - 2] == v && text[..p] == a && text[e..] == b
  {
    var ph := "{{" + v + "}}";
    var text := a + ph + b;
    NoDoubleBraceBefore(a, ph, b);
    NoBraceAfter(a + ph, b);
    PlaceholderShape(a, v, b);
    ScanSingle(text, |a|, |a| + |v| + 4);
  }

  lemma NoDoubleBraceBefore(a: string, t: string, b: string)
    requires |a| >= 2 && '{' !in a[1..] && |t| >= 1
    ensures forall i :: 0 <= i < |a| ==> (a + t + b)[i] != '{' || (a + t + b)[i + 1] != '{'
  {
    var text := a + t + b;
    assert forall i :: 0 <= i < |a| ==> text[i] == a[i];
    assert text[1] == a[1];
    assert forall i :: 1 <= i < |a| ==> a[i] == a[1..][i - 1];
  }

  lemma NoBraceAfter(u: string, b: string)
    requires '{' !in b
    ensures forall i :: |u| <= i < |u + b| ==> (u + b)[i] != '{'
  {
    assert forall i :: |u| <= i < |u + b| ==> (u + b)[i] == b[i - |u|];
  }

  lemma PlaceholderShape(a: string, v: string, b: string)
    requires |v| >= 1 && '}' !in v
    ensures var text := a + ("{{" + v + "}}") + b;
      var p, e := |a|, |a| + |v| + 4;
      IsMatch(text, p, e) && text[p + 2..e - 2] == v && text[..p] == a && text[e..] == b
  {
    var text := a + ("{{" + v + "}}") + b;
    var p, e := |a|, |a| + |v| + 4;
    assert forall k :: p + 2 <= k < e - 2 ==> text[k] == v[k - p - 2];
    assert text[p + 2..e - 2] == v;
    assert text[..p] == a && text[e..] == b;
  }

  /** A text with a single placeholder `{{v}}` between a prefix and a suffix that contain no
      other. */
  lemma SplicePlaceholder(a: string, v: string, b: string,
                          triggerData: Option<Json>, stepResults: map<string, Json>)
    requires |a| >= 2 && '{' !in a[1..]
    requires |v| >= 1 && '{' !in v && '}' !in v
    requires '{' !in b
    ensures var text := a + ("{{" + v + "}}") + b;
      var value := Lookup(Trim(v), triggerData, stepResults);
      Substitute(text, 0, text, triggerData, stepResults) ==
        if value.Some? then a + Stringify(value.value) + b else text
  {
    PlaceholderLayout(a, v, b);
    var text := a + ("{{" + v + "}}") + b;
    SingleMatch(text, |a|, |a| + |v| + 4, triggerData, stepResults);
  }

  lemma PlainPlaceholder(v: string)
    requires Plain(v)
    ensures Plain("{{" + v + "}}")
  {
    var ph := "{{" + v + "}}";
    assert forall i :: 2 <= i < |ph| - 2 ==> ph[i] == v[i - 2];
  }

  lemma FieldPrefix(key: string)
    requires '{' !in key
    ensures var a := "{" + Quote(key) + ":\""; |a| >= 2 && '{' !in a[1..]
  {
    var a := "{" + Quote(key) + ":\"";
    EscapeNoBrace(key);
    assert a[1..] == "\"" + Escape(key) + "\"" + ":\"";
  }

  /** The first member of an object is a string field holding exactly one placeholder. When
      nothing else in the serialisation opens a brace and the placeholder resolves, the text
      that reaches `JSON.parse` has the value's serialisation between the field's own quotes. */
  lemma SpliceIntoQuotedField(key: string, v: string, others: seq<Member>, value: Json,
                              triggerData: Option<Json>, stepResults: map<string, Json>)
    requires '{' !in key
    requires |v| >= 1 && '{' !in v && '}' !in v && Plain(v)
    requires '{' !in RestOfObject(others)
    requires Lookup(Trim(v), triggerData, stepResults) == Some(value)
    ensures var text := Stringify(JObj([Member(key, JStr("{{" + v + "}}"))] + others));
      Substitute(text, 0, text, triggerData, stepResults) ==
        ("{" + Quote(key) + ":\"") + Stringify(value) + ("\"" + RestOfObject(others))
  {
    var ph := "{{" + v + "}}";
    var a := "{" + Quote(key) + ":\"";
    PlainPlaceholder(v);
    EscapePlain(ph);
    QuotedFieldText(key, ph, others);
    FieldPrefix(key);
    SplicePlaceholder(a, v, "\"" + RestOfObject(others), triggerData, stepResults);
  }

  lemma EmptyStringValue(tail: string)
    ensures ParseValue("\"\"" + tail) == Ok((JStr(""), tail))
  {
    var s := "\"\"" + tail;
    assert SkipWs(s) == s;
    assert s[1..] == "\"" + tail;
  }

  /** A member whose value is followed by neither `,` nor `}` makes the object invalid. */
  lemma MemberBadSeparator(key: string, x: string, v: Json, tail: string)
    requires ParseValue(x) == Ok((v, tail))
    requires tail != [] && tail[0] != '}' && tail[0] != ',' && !IsJsonSpace(tail[0])
    ensures ParseMembers(Quote(key) + ":" + x).Err?
  {
    MemberParse(key, x, v, tail);
  }

  lemma ObjectBadMembers(members: string)
    requires members != [] && members[0] == '"' && ParseMembers(members).Err?
    ensures Parse("{" + members).Err?
  {
    var text := "{" + members;
    assert SkipWs(members) == members;
    assert SkipWs(text) == text && text[1..] == members;
    assert ParseObject(members).Err?;
    assert ParseValue(text).Err?;
  }

  /** `JSON.parse` of an object text whose first field's string literal is closed by a
      second quote right after it opens, with something other than `,` or `}` next. */
  lemma ClosedEarlyIsInvalid(key: string, t: string, rest: string)
    requires t == [] || (t[0] != ' ' && t[0] != ',' && t[0] != '}')
    ensures Parse(("{" + Quote(key) + ":\"") + Quote(t) + ("\"" + rest)).Err?
  {
    var x := "\"" + Quote(t) + "\"" + rest;
    var tail := x[2..];
    assert x == "\"\"" + tail;
    assert tail[0] != '}' && tail[0] != ',' && !IsJsonSpace(tail[0]) by {
      assert tail[0] == Quote(t)[1];
      if t != [] {
        assert Quote(t)[1] == Escape(t)[0] == EscapeChar(t[0])[0];
      }
    }
    assert ParseMembers(Quote(key) + ":" + x).Err? by {
      EmptyStringValue(tail);
      MemberBadSeparator(key, x, JStr(""), tail);
    }
    ObjectBadMembers(Quote(key) + ":" + x);
    Reassociate(Quote(key), Quote(t), rest);
  }

  lemma Reassociate(a: string, b: string, e: string)
    ensures ("{" + a + ":\"") + b + ("\"" + e) == "{" + (a + ":" + ("\"" + b + "\"" + e))
  {
    assert ":\"" == ":" + "\"";
  }

  /** A placeholder whose value is a string, put between the quotes of a string field,
      ends that field's string literal early: `JSON.parse` rejects the text and the step fails. */
  lemma SplicedStringIsInvalid(key: string, v: string, others: seq<Member>, t: string,
                               triggerData: Option<Json>, stepResults: map<string, Json>)
    requires '{' !in key
    requires |v| >= 1 && '{' !in v && '}' !in v && Plain(v)
    requires '{' !in RestOfObject(others)
    requires Lookup(Trim(v), triggerData, stepResults) == Some(JStr(t))
    requires t == [] || (t[0] != ' ' && t[0] != ',' && t[0] != '}')
    ensures ResolveConfig(JObj([Member(key, JStr("{{" + v + "}}"))] + others), triggerData, stepResults).Err?
  {
    SpliceIntoQuotedField(key, v, others, JStr(t), triggerData, stepResults);
    ClosedEarlyIsInvalid(key, t, RestOfObject(others));
  }

  /** A non-empty object value, put between the quotes of a string field, ends that field's
      string literal after its opening brace: `JSON.parse` rejects the text and the step
      fails. */
  lemma SplicedObjectIsInvalid(key: string, v: string, others: seq<Member>, ms: seq<Member>,
                               triggerData: Option<Json>, stepResults: map<string, Json>)
    requires '{' !in key
    requires |v| >= 1 && '{' !in v && '}' !in v && Plain(v)
    requires '{' !in RestOfObject(others)
    requires Lookup(Trim(v), triggerData, stepResults) == Some(JObj(ms))
    requires ms != [] && (ms[0].key == [] || (ms[0].key[0] != ' ' && ms[0].key[0] != ',' && ms[0].key[0] != '}'))
    ensures ResolveConfig(JObj([Member(key, JStr("{{" + v + "}}"))] + others), triggerData, stepResults).Err?
  {
    SpliceIntoQuotedField(key, v, others, JObj(ms), triggerData, stepResults);
    var tail := ObjectSpliceText(key, ms, RestOfObject(others));
    KeyStart(ms[0].key);
    StringThenJunk(key, "{", tail);
  }

  /** A field whose string literal reads `c` and is followed by something other than `,`, `}`
      or white space makes the object text invalid. */
  lemma StringThenJunk(key: string, c: string, tail: string)
    requires tail != [] && tail[0] != '}' && tail[0] != ',' && !IsJsonSpace(tail[0])
    ensures Parse("{" + (Quote(key) + ":" + (Quote(c) + tail))).Err?
  {
    StrValueRoundTrip(c, tail);
    MemberBadSeparator(key, Quote(c) + tail, JStr(c), tail);
    ObjectBadMembers(Quote(key) + ":" + (Quote(c) + tail));
  }

  /** The character after the opening quote of a serialised key that does not start with a
      space, a comma or a closing brace is none of those either. */
  lemma KeyStart(k: string)
    requires k == [] || (k[0] != ' ' && k[0] != ',' && k[0] != '}')
    ensures |Quote(k)| >= 2 && Quote(k)[1] != '}' && Quote(k)[1] != ',' && !IsJsonSpace(Quote(k)[1])
  {
    QuoteSecond(k);
  }

  lemma QuoteSecond(k: string)
    ensures |Quote(k)| >= 2 && Quote(k)[1] == (if k == [] then '"' else EscapeChar(k[0])[0])
  {
    if k != [] {
      assert Escape(k) == EscapeChar(k[0]) + Escape(k[1..]);
    }
  }

  /** The text of an object serialised between the quotes of a string field, read as a
      string literal holding `{` followed by the rest. */
  lemma ObjectSpliceText(key: string, ms: seq<Member>, rest: string) returns (tail: string)
    requires ms != []
    ensures ("{" + Quote(key) + ":\"") + Stringify(JObj(ms)) + ("\"" + rest) ==
            "{" + (Quote(key) + ":" + (Quote("{") + tail))
    ensures tail != [] && tail[0] == Quote(ms[0].key)[1]
  {
    var m := StringifyMembers(ms);
    MembersStart(ms);
    MembersSecond(ms);
    assert Escape("{") == "{";
    tail := BraceRegroup(Quote(key), m, rest);
  }

  lemma BraceRegroup(q: string, m: string, rest: string) returns (tail: string)
    requires |m| >= 2 && m[0] == '"'
    ensures ("{" + q + ":\"") + ("{" + m + "}") + ("\"" + rest) == "{" + (q + ":" + ("\"{\"" + tail))
    ensures tail != [] && tail[0] == m[1]
  {
    tail := m[1..] + "}" + ("\"" + rest);
    assert m == "\"" + m[1..];
  }

  lemma MembersSecond(ms: seq<Member>)
    requires ms != []
    ensures |StringifyMembers(ms)| >= 2 && StringifyMembers(ms)[1] == Quote(ms[0].key)[1]
  {
    QuoteSecond(ms[0].key);
    var value := MemberSplit(ms[0]);
    SecondOf(Quote(ms[0].key), value);
    var others := MembersSplit(ms);
    SecondOf(StringifyMember(ms[0]), others);
  }

  lemma MemberSplit(m: Member) returns (value: string)
    ensures StringifyMember(m) == Quote(m.key) + value
  {
    value := ":" + Stringify(m.value);
  }

  lemma MembersSplit(ms: seq<Member>) returns (others: string)
    requires ms != []
    ensures StringifyMembers(ms) == StringifyMember(ms[0]) + others
  {
    others := if |ms| == 1 then "" else "," + StringifyMembers(ms[1..]);
    if |ms| == 1 {
      assert StringifyMember(ms[0]) + others == StringifyMember(ms[0]);
    }
  }

  lemma SecondOf(a: string, b: string)
    requires |a| >= 2
    ensures |a + b| >= 2 && (a + b)[1] == a[1]
  {
  }

  /** A placeholder whose value serialises to plain characters (a number, a boolean, `null`),
      put between the quotes of a string field, turns into that text: the field stays a
      string. */
  lemma SplicedScalarBecomesText(key: string, v: string, others: seq<Member>, value: Json,
                                 triggerData: Option<Json>, stepResults: map<string, Json>)
    requires WellFormed(JObj([Member(key, JStr("{{" + v + "}}"))] + others))
    requires '{' !in key
    requires |v| >= 1 && '{' !in v && '}' !in v && Plain(v)
    requires '{' !in RestOfObject(others)
    requires Lookup(Trim(v), triggerData, stepResults) == Some(value)
    requires Plain(Stringify(value))
    ensures ResolveConfig(JObj([Member(key, JStr("{{" + v + "}}"))] + others), triggerData, stepResults) ==
            Ok(JObj([Member(key, JStr(Stringify(value)))] + others))
  {
    var text := Stringify(JObj([Member(key, JStr("{{" + v + "}}"))] + others));
    var spliced := ("{" + Quote(key) + ":\"") + Stringify(value) + ("\"" + RestOfObject(others));
    var changed := JObj([Member(key, JStr(Stringify(value)))] + others);
    assert Substitute(text, 0, text, triggerData, stepResults) == spliced by {
      SpliceIntoQuotedField(key, v, others, value, triggerData, stepResults);
    }
    assert Stringify(changed) == spliced by {
      EscapePlain(Stringify(value));
      QuotedFieldText(key, Stringify(value), others);
    }
    assert Parse(spliced) == Ok(changed) by {
      FieldStaysWellFormed(key, "{{" + v + "}}", Stringify(value), others);
      ParseStringify(changed);
    }
  }

  /** Changing the text of an object's first string field keeps the object well formed. */
  lemma FieldStaysWellFormed(key: string, x: string, y: string, others: seq<Member>)
    requires WellFormed(JObj([Member(key, JStr(x))] + others))
    ensures WellFormed(JObj([Member(key, JStr(y))] + others))
  {
    var ms := [Member(key, JStr(y))] + others;
    var oldMs := [Member(key, JStr(x))] + others;
    assert forall i :: 0 <= i < |ms| ==> ms[i].key == oldMs[i].key;
    assert forall i :: 1 <= i < |ms| ==> ms[i] == oldMs[i];
  }


  /** A step whose result holds an e-mail address, and a later step that places that address
      in the quoted `to` field of its configuration: the resolved text is not JSON and the
      later step fails instead of receiving the address. */
  lemma EmailIntoQuotedField(config: Json, results: map<string, Json>)
    requires "step_s1" in results && Truthy(results["step_s1"])
    requires Walk(Some(results["step_s1"]), ["data", "email"]) == Some(JStr("a@b.com"))
    requires config == JObj([Member("to", JStr("{{step_s1.data.email}}")),
                             Member("subject", JStr("hi")), Member("body", JStr("ok"))])
    ensures ResolveConfig(config, None, results).Err?
  {
    var key, v, others, t := EmailParts(config, results);
    SplicedStringIsInvalid(key, v, others, t, None, results);
  }

  /** The e-mail configuration cut into the pieces the splice lemma takes. */
  lemma EmailParts(config: Json, results: map<string, Json>) returns (key: string, v: string, others: seq<Member>, t: string)
    requires "step_s1" in results && Truthy(results["step_s1"])
    requires Walk(Some(results["step_s1"]), ["data", "email"]) == Some(JStr("a@b.com"))
    requires config == JObj([Member("to", JStr("{{step_s1.data.email}}")),
                             Member("subject", JStr("hi")), Member("body", JStr("ok"))])
    ensures config == JObj([Member(key, JStr("{{" + v + "}}"))] + others)
    ensures '{' !in key && '{' !in RestOfObject(others)
    ensures |v| >= 1 && '{' !in v && '}' !in v && Plain(v)
    ensures Lookup(Trim(v), None, results) == Some(JStr(t))
    ensures t == [] || (t[0] != ' ' && t[0] != ',' && t[0] != '}')
  {
    key, v, t := "to", "step_s1.data.email", "a@b.com";
    others := [Member("subject", JStr("hi")), Member("body", JStr("ok"))];
    EmailLookup(v, results);
    EmailRest(others);
    EmailConfig(config, v, others);
  }

  lemma EmailConfig(config: Json, v: string, others: seq<Member>)
    requires config == JObj([Member("to", JStr("{{step_s1.data.email}}")),
                             Member("subject", JStr("hi")), Member("body", JStr("ok"))])
    requires v == "step_s1.data.email"
    requires others == [Member("subject", JStr("hi")), Member("body", JStr("ok"))]
    ensures config == JObj([Member("to", JStr("{{" + v + "}}"))] + others)
  {
    EmailPlain(v);
    var first := Member("to", JStr("{{" + v + "}}"));
    assert [first] + others == [first, others[0], others[1]];
  }

  lemma EmailRest(others: seq<Member>)
    requires others == [Member("subject", JStr("hi")), Member("body", JStr("ok"))]
    ensures '{' !in RestOfObject(others)
  {
    NoBraceFields(others);
  }

  lemma EmailLookup(v: string, results: map<string, Json>)
    requires v == "step_s1.data.email"
    requires "step_s1" in results && Truthy(results["step_s1"])
    requires Walk(Some(results["step_s1"]), ["data", "email"]) == Some(JStr("a@b.com"))
    ensures |v| >= 1 && '{' !in v && '}' !in v && Plain(v)
    ensures Lookup(Trim(v), None, results) == Some(JStr("a@b.com"))
  {
    EmailPath(v);
    EmailPlain(v);
    TrimNoSpace(v);
    LookupStep(v, None, results);
  }

  lemma EmailPlain(v: string)
    requires v == "step_s1.data.email"
    ensures |v| >= 1 && '{' !in v && '}' !in v && Plain(v)
    ensures "{{" + v + "}}" == "{{step_s1.data.email}}"
  {
  }

  lemma EmailPath(v: string)
    requires v == "step_s1.data.email"
    ensures StartsWith(v, "step_") && !IsJsSpace(v[0]) && !IsJsSpace(v[|v| - 1])
    ensures Split(v, '.') == ["step_s1", "data", "email"]
  {
    EmailSplit(v);
  }

  lemma EmailSplit(v: string)
    requires v == "step_s1.data.email"
    ensures Split(v, '.') == ["step_s1", "data", "email"]
  {
    var rest := DataEmailSplit();
    assert '.' !in "step_s1";
    assert v == "step_s1" + ['.'] + rest;
    SplitAt("step_s1", '.', rest);
  }

  lemma DataEmailSplit() returns (rest: string)
    ensures rest == "data.email" && Split(rest, '.') == ["data", "email"]
  {
    rest := "data" + ['.'] + "email";
    assert '.' !in "data" && '.' !in "email";
    SplitAt("data", '.', "email");
    SplitNoSep("email", '.');
  }

  /** Objects whose keys and string values open no brace serialise without one. */
  lemma NoBraceFields(ms: seq<Member>)
    requires ms != []
    requires forall i :: 0 <= i < |ms| ==> '{' !in ms[i].key && ms[i].value.JStr? && '{' !in ms[i].value.s
    ensures '{' !in RestOfObject(ms)
  {
    NoBraceMembers(ms);
  }

  lemma {:induction false} NoBraceMembers(ms: seq<Member>)
    requires forall i :: 0 <= i < |ms| ==> '{' !in ms[i].key && ms[i].value.JStr? && '{' !in ms[i].value.s
    ensures '{' !in StringifyMembers(ms)
    decreases |ms|
  {
    if ms != [] {
      EscapeNoBrace(ms[0].key);
      EscapeNoBrace(ms[0].value.s);
      assert '{' !in StringifyMember(ms[0]);
      if |ms| > 1 {
        NoBraceMembers(ms[1..]);
      }
    }
  }
}
