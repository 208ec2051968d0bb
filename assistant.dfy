/** What the assistant service does with the model's reply: find the first
    `<workflow>…</workflow>` block, parse it, cut it out of the message, and decide whether
    the assistant is still asking questions. The model call is a parameter: its reply
    content, or the error it failed with. */
module Assistant {
  import opened Wrappers
  import opened Text
  import opened Json

  /** One block of the reply content; only text blocks carry text. */
  datatype Content = TextBlock(text: string) | OtherBlock

  /** The processed reply. `workflow` is `JNull` when no block parsed, as the service starts
      from `null`. */
  datatype AIResponse = AIResponse(message: string, workflow: Json, needsMoreInfo: bool)

  const Open: string := "<workflow>"
  const Close: string := "</workflow>"

  const ProcessFailure: string := "Failed to process request with AI"
  const NoWorkflow: string := "Could not generate workflow from description"

  /** The error reading `.type` of the missing first block throws. */
  const NoContent: string := "Cannot read properties of undefined (reading 'type')"

  /** The first block as the lazy, dot-all pattern finds it: the first opening tag, then the
      first closing tag after it. The result is the start of each tag. */
  function FindBlock(text: string): (r: Option<(nat, nat)>)
    ensures r.Some? ==>
      OccursAt(text, Open, r.value.0) && r.value.0 + |Open| <= r.value.1 && OccursAt(text, Close, r.value.1) &&
      (forall k: nat :: k < r.value.0 ==> !OccursAt(text, Open, k)) &&
      (forall k: nat :: r.value.0 + |Open| <= k < r.value.1 ==> !OccursAt(text, Close, k))
    ensures r.None? ==>
      forall i: nat, j: nat :: OccursAt(text, Open, i) && i + |Open| <= j ==> !OccursAt(text, Close, j)
  {
    match IndexOf(text, Open, 0)
    case None => None
    case Some(i) =>
      match IndexOf(text, Close, i + |Open|)
      case None => None
      case Some(j) => Some((i, j))
  }

  /** The text between the tags, and the text with the whole block cut out. */
  function Inner(text: string, i: nat, j: nat): string
    requires i + |Open| <= j && j + |Close| <= |text|
  {
    text[i + |Open|..j]
  }

  function Cut(text: string, i: nat, j: nat): string
    requires i <= j && j + |Close| <= |text|
  {
    text[..i] + text[j + |Close|..]
  }

  /** `toLowerCase`, on ASCII letters. */
  function LowerChar(c: char): char
  {
    if 'A' <= c <= 'Z' then (c as int + 32) as char else c
  }

  function Lower(s: string): string
  {
    seq(|s|, i requires 0 <= i < |s| => LowerChar(s[i]))
  }

  /** The phrasing that marks a reply as a question. */
  predicate AsksForMore(text: string)
  {
    Contains(text, "?") || Contains(Lower(text), "need to know") || Contains(Lower(text), "can you tell me")
  }

  /** The workflow the block parses to and the message with the block cut out and trimmed;
      when there is no block, or it does not parse, `null` and the text as it is. */
  function Extract(text: string): (Json, string)
  {
    match FindBlock(text)
    case None => (JNull, text)
    case Some((i, j)) =>
      match Parse(Trim(Inner(text, i, j)))
      case Err(_) => (JNull, text)
      case Ok(w) => (w, Trim(Cut(text, i, j)))
  }

  /** The response built from the reply text. */
  function Respond(text: string): (r: AIResponse)
    ensures FindBlock(text).None? ==> r == AIResponse(text, JNull, AsksForMore(text))
    ensures r.workflow != JNull ==> FindBlock(text).Some? && WellFormed(r.workflow)
    ensures r.needsMoreInfo <==> !Truthy(r.workflow) && AsksForMore(text)
    ensures r.message == "" ==> text == ""
    ensures r.message == text || (FindBlock(text).Some? && Parse(Trim(Inner(text, FindBlock(text).value.0, FindBlock(text).value.1))).Ok?)
    ensures FindBlock(text).Some? ==>
      var (i, j) := FindBlock(text).value;
      var parsed := Parse(Trim(Inner(text, i, j)));
      var clean := Trim(Cut(text, i, j));
      (parsed.Err? ==> r.workflow == JNull && r.message == text) &&
      (parsed.Ok? ==> r.workflow == parsed.value && r.message == (if clean != "" then clean else text))
  {
    var (workflow, clean) := Extract(text);
    AIResponse(if clean != "" then clean else text, workflow, !Truthy(workflow) && AsksForMore(text))
  }

  /** `content.type === 'text' ? content.text : ''` on the first block. */
  function FirstText(content: seq<Content>): (r: Result<string>)
    ensures r.Err? <==> content == []
    ensures content != [] ==> r == Ok(if content[0].TextBlock? then content[0].text else "")
  {
    if content == [] then Err(NoContent)
    else match content[0]
      case TextBlock(t) => Ok(t)
      case OtherBlock => Ok("")
  }

  /** `processWorkflowRequest` after the model call. */
  function ProcessWorkflowRequest(reply: Result<seq<Content>>): (r: Result<AIResponse>)
    ensures r.Err? ==> r.error == ProcessFailure
    ensures r.Err? <==> reply.Err? || reply.value == []
    ensures r.Ok? ==> r.value == Respond(FirstText(reply.value).value)
  {
    if reply.Err? then Err(ProcessFailure)
    else match FirstText(reply.value)
      case Err(_) => Err(ProcessFailure)
      case Ok(text) => Ok(Respond(text))
  }

  /** `generateWorkflowFromDescription` after the model call: nothing is caught. */
  function GenerateWorkflowFromDescription(reply: Result<seq<Content>>): (r: Result<Json>)
    ensures reply.Err? ==> r == Err(reply.error)
    ensures reply.Ok? && reply.value == [] ==> r == Err(NoContent)
    ensures reply.Ok? && reply.value != [] && FindBlock(FirstText(reply.value).value).None? ==> r == Err(NoWorkflow)
    ensures reply.Ok? && reply.value != [] && FindBlock(FirstText(reply.value).value).Some? ==>
      var text := FirstText(reply.value).value;
      r == Parse(Trim(Inner(text, FindBlock(text).value.0, FindBlock(text).value.1)))
    ensures r.Ok? ==> WellFormed(r.value)
  {
    if reply.Err? then Err(reply.error)
    else match FirstText(reply.value)
      case Err(e) => Err(e)
      case Ok(text) =>
        match FindBlock(text)
        case None => Err(NoWorkflow)
        case Some((i, j)) => Parse(Trim(Inner(text, i, j)))
  }

  // ---------------------------------------------------------------- properties

  /** The pieces of a reply that carries a block, at their offsets. */
  lemma Pieces(prefix: string, body: string, suffix: string) returns (text: string, i: nat, j: nat)
    ensures text == prefix + Open + body + Close + suffix
    ensures i == |prefix| && j == i + |Open| + |body| && j + |Close| <= |text|
    ensures text[..i] == prefix && text[i..i + |Open|] == Open && text[i + |Open|..j] == body
    ensures text[j..j + |Close|] == Close && text[j + |Close|..] == suffix
  {
    text := prefix + Open + body + Close + suffix;
    i := |prefix|;
    j := i + |Open| + |body|;
  }

  /** Characters taken from a piece without `<` are not `<`. */
  lemma NoAngle(text: string, from: nat, to: nat, piece: string)
    requires from <= to <= |text| && text[from..to] == piece && '<' !in piece
    ensures forall k :: from <= k < to ==> text[k] != '<'
  {
    forall k | from <= k < to ensures text[k] != '<' {
      assert text[k] == piece[k - from];
    }
  }

  /** A block whose tags are the first `<` after the prefix is found where it was put. */
  lemma FindBlockOf(prefix: string, body: string, suffix: string)
    requires '<' !in prefix && '<' !in body
    ensures var text := prefix + Open + body + Close + suffix;
      FindBlock(text) == Some((|prefix|, |prefix| + |Open| + |body|)) &&
      Inner(text, |prefix|, |prefix| + |Open| + |body|) == body &&
      Cut(text, |prefix|, |prefix| + |Open| + |body|) == prefix + suffix
  {
    var text, i, j := Pieces(prefix, body, suffix);
    NoAngle(text, 0, i, prefix);
    NoAngle(text, i + |Open|, j, body);
    FoundAt(text, i, j);
  }

  /** Tags with no `<` before the first or between the two are the block found. */
  lemma FoundAt(text: string, i: nat, j: nat)
    requires i + |Open| <= j && j + |Close| <= |text|
    requires text[i..i + |Open|] == Open && text[j..j + |Close|] == Close
    requires forall k :: 0 <= k < i ==> text[k] != '<'
    requires forall k :: i + |Open| <= k < j ==> text[k] != '<'
    ensures FindBlock(text) == Some((i, j))
  {
    NoOccurrenceIn(text, Open, 0, i);
    NoOccurrenceIn(text, Close, i + |Open|, j);
    IndexOfFirst(text, Open, 0, i);
    IndexOfFirst(text, Close, i + |Open|, j);
  }

  /** The serialised text of a value starts and ends with a character that is not white
      space. */
  lemma StringifyEnds(j: Json) returns (s: string)
    ensures s == Stringify(j) && s != [] && !IsJsSpace(s[0]) && !IsJsSpace(s[|s| - 1])
  {
    s := Stringify(j);
    match j
    case JNull =>
    case JBool(b) =>
    case JNum(n) =>
      var d := NatText(if n < 0 then -n else n);
      assert IsDigit(d[0]) && IsDigit(d[|d| - 1]);
      if n < 0 {
        assert s == "-" + d && s[|s| - 1] == d[|d| - 1];
      }
    case JStr(t) =>
      assert s == "\"" + Escape(t) + "\"";
    case JArr(items) =>
      assert s == "[" + StringifyItems(items) + "]";
    case JObj(ms) =>
      assert s == "{" + StringifyMembers(ms) + "}";
  }

  lemma StringifyTrimmed(j: Json)
    ensures Trim(Stringify(j)) == Stringify(j)
  {
    var s := StringifyEnds(j);
    TrimNoSpace(s);
  }

  /** A reply that carries a serialised workflow between tags gives back that workflow, and
      the message is the text around the block, trimmed (or the whole reply when nothing is
      left). */
  lemma RespondRoundTrip(prefix: string, w: Json, suffix: string)
    requires WellFormed(w)
    requires '<' !in prefix && '<' !in Stringify(w)
    ensures var text := prefix + Open + Stringify(w) + Close + suffix;
      var r := Respond(text);
      r.workflow == w &&
      r.message == (if Trim(prefix + suffix) != "" then Trim(prefix + suffix) else text) &&
      (r.needsMoreInfo <==> !Truthy(w) && AsksForMore(text))
  {
    var text := ExtractRoundTrip(prefix, w, suffix);
  }

  lemma ExtractRoundTrip(prefix: string, w: Json, suffix: string) returns (text: string)
    requires WellFormed(w)
    requires '<' !in prefix && '<' !in Stringify(w)
    ensures text == prefix + Open + Stringify(w) + Close + suffix
    ensures Extract(text) == (w, Trim(prefix + suffix))
  {
    var i, j;
    text, i, j := Pieces(prefix, Stringify(w), suffix);
    FindBlockOf(prefix, Stringify(w), suffix);
    StringifyTrimmed(w);
    ParseStringify(w);
  }

  /** The same reply read by `generateWorkflowFromDescription`. */
  lemma GenerateRoundTrip(prefix: string, w: Json, suffix: string)
    requires WellFormed(w)
    requires '<' !in prefix && '<' !in Stringify(w)
    ensures GenerateWorkflowFromDescription(Ok([TextBlock(prefix + Open + Stringify(w) + Close + suffix)])) == Ok(w)
  {
    var text, i, j := Pieces(prefix, Stringify(w), suffix);
    assert FirstText([TextBlock(text)]) == Ok(text);
    FindBlockOf(prefix, Stringify(w), suffix);
    StringifyTrimmed(w);
    ParseStringify(w);
  }

  /** Both readings of a reply agree: a workflow generated from it is the one the chat
      response carries. */
  lemma GenerateAgreesWithProcess(reply: Result<seq<Content>>)
    requires GenerateWorkflowFromDescription(reply).Ok?
    ensures ProcessWorkflowRequest(reply).Ok?
    ensures ProcessWorkflowRequest(reply).value.workflow == GenerateWorkflowFromDescription(reply).value
  {
  }
}
