/**
 * Image analysis through a chat model: the client handle the module keeps, the prompt built from
 * the template's fields, and the extraction of a JSON object from the model's free-text reply,
 * with the call's error messages. The model call itself, the file-to-data-URL conversion and
 * `JSON.parse` are not part of this model: the reply, the data URL and a parser are inputs.
 */
module OpenAI {

  import opened Wrappers
  import opened Js

  /** A configured client; only its key is kept. */
  datatype Client = Client(apiKey: string)

  /** One field handed to the analysis: `{ name, type }`. */
  datatype FieldSpec = FieldSpec(name: string, kind: string)

  /** What is sent to the chat model. */
  datatype ChatRequest = ChatRequest(model: string, prompt: string, imageUrl: string, maxTokens: nat)

  /** Why an analysis fails. */
  datatype AnalysisError =
    | NotInitialized
    | CallError(message: string)
    | NoResponse
    | NoJson
    | Unparsable(content: string)

  /** The message each failure is thrown with. */
  function Message(e: AnalysisError): (r: string)
    ensures e.CallError? ==> r == e.message
    ensures e.Unparsable? ==> |r| >= |e.content| && r[|r| - |e.content|..] == e.content
  {
    match e
    case NotInitialized => "OpenAI client not initialized"
    case CallError(message) => message
    case NoResponse => "No response from OpenAI"
    case NoJson => "No JSON found in OpenAI response"
    case Unparsable(content) => UnparsableLead + content
  }

  const UnparsableLead: string := "Failed to parse OpenAI response: "

  /** What the chat call gives back: it threw (with its message), or it answered, with the text
      content of its first choice when there is one. */
  datatype Reply = CallFailed(message: string) | Replied(content: Option<string>)

  // =============================================================================================
  // The prompt

  /** `${field.name} (${field.type})` */
  function Entry(f: FieldSpec): string
  {
    f.name + " (" + f.kind + ")"
  }

  /** `fields.map(Entry).join(', ')` */
  function Describe(fields: seq<FieldSpec>): (r: string)
    ensures fields == [] ==> r == ""
    ensures |fields| == 1 ==> r == Entry(fields[0])
  {
    if fields == [] then ""
    else if |fields| == 1 then Entry(fields[0])
    else Entry(fields[0]) + ", " + Describe(fields[1..])
  }

  /** The description of two lists one after the other is their descriptions joined by ", ":
      entries appear in field order, each once, separated by ", ". */
  lemma {:induction false} DescribeAppend(a: seq<FieldSpec>, b: seq<FieldSpec>)
    requires a != [] && b != []
    ensures Describe(a + b) == Describe(a) + ", " + Describe(b)
  {
    assert (a + b)[0] == a[0];
    if |a| > 1 {
      assert (a + b)[1..] == a[1..] + b;
      DescribeAppend(a[1..], b);
    } else {
      assert (a + b)[1..] == b;
    }
  }

  /** The text around the field descriptions in the instruction sent with the image. */
  const PromptLead: string := "Analyze this image and provide values for the following fields: "
  const PromptTail: string :=
    ". Return ONLY a JSON object with the field names as keys and appropriate values based on the image content."

  /** `t` appears in `s` from position `k` on. */
  predicate OccursAt(t: string, s: string, k: nat)
  {
    k + |t| <= |s| && s[k..k + |t|] == t
  }

  /** `t` appears somewhere in `s`. */
  ghost predicate Occurs(t: string, s: string)
  {
    exists k: nat :: OccursAt(t, s, k)
  }

  /** Text that appears in `s` appears in any text `s` sits inside. */
  lemma OccursWithin(t: string, a: string, s: string, b: string, k: nat)
    requires OccursAt(t, s, k)
    ensures OccursAt(t, a + s + b, |a| + k)
  {
    assert (a + s + b)[|a| + k..|a| + k + |t|] == s[k..k + |t|];
  }

  /** Each field's entry, `name (type)`, appears in the description. */
  lemma {:induction false} DescribeMentions(fields: seq<FieldSpec>, i: nat)
    requires i < |fields|
    ensures Occurs(Entry(fields[i]), Describe(fields))
  {
    var e := Entry(fields[i]);
    var d := Describe(fields);
    if |fields| == 1 || i == 0 {
      assert OccursAt(e, d, 0);
    } else {
      var rest := Describe(fields[1..]);
      assert fields[1..][i - 1] == fields[i];
      DescribeMentions(fields[1..], i - 1);
      var k: nat :| OccursAt(e, rest, k);
      OccursWithin(e, Entry(fields[0]) + ", ", rest, "", k);
      assert Entry(fields[0]) + ", " + rest + "" == d;
    }
  }

  /** The instruction sent with the image: the fixed lead, the field descriptions, the fixed
      tail asking for a JSON object keyed by field name. */
  function Prompt(fields: seq<FieldSpec>): (r: string)
    ensures |r| >= |PromptLead| + |PromptTail|
    ensures r[..|PromptLead|] == PromptLead
    ensures r[|r| - |PromptTail|..] == PromptTail
  {
    PromptLead + Describe(fields) + PromptTail
  }

  /** Every field handed to the analysis is named, with its type, in the instruction. */
  lemma PromptMentions(fields: seq<FieldSpec>, i: nat)
    requires i < |fields|
    ensures Occurs(Entry(fields[i]), Prompt(fields))
  {
    var e := Entry(fields[i]);
    DescribeMentions(fields, i);
    var k: nat :| OccursAt(e, Describe(fields), k);
    OccursWithin(e, PromptLead, Describe(fields), PromptTail, k);
  }

  const Model: string := "gpt-4o-mini"
  const MaxTokens: nat := 300

  // =============================================================================================
  // White space and the fence

  /** Every character of `s[i..j]` is white space (`\s`). */
  predicate AllWhitespace(s: string, i: nat, j: nat)
    requires i <= j <= |s|
  {
    forall k :: i <= k < j ==> IsJsWhitespace(s[k])
  }

  /** Where a greedy `\s*` starting at `i` stops. */
  function SkipWhitespace(s: string, i: nat): (j: nat)
    requires i <= |s|
    ensures i <= j <= |s| && AllWhitespace(s, i, j)
    ensures j == |s| || !IsJsWhitespace(s[j])
    decreases |s| - i
  {
    if i < |s| && IsJsWhitespace(s[i]) then SkipWhitespace(s, i + 1) else i
  }

  /** The end of a fenced block can be matched from the `}` at `q`: `\}\s*` followed by the
      closing fence. */
  predicate ClosesFence(s: string, q: nat)
  {
    q < |s| && s[q] == '}'
    && var j := SkipWhitespace(s, q + 1);
       j + 3 <= |s| && s[j..j + 3] == "```"
  }

  /** The closing fence at `j`, reached from the `}` at `q` over white space only. */
  predicate FenceCloseAt(s: string, q: nat, j: nat)
  {
    q + 1 <= j && j + 3 <= |s| && AllWhitespace(s, q + 1, j) && s[j..j + 3] == "```"
  }

  /** The same condition stated directly: some run of white space after the `}` reaches the
      closing fence. Since a backtick is not white space, the greedy run is the only one. */
  lemma ClosesFenceIff(s: string, q: nat)
    requires q < |s| && s[q] == '}'
    ensures ClosesFence(s, q) <==> exists j: nat :: FenceCloseAt(s, q, j)
  {
    var w := SkipWhitespace(s, q + 1);
    if ClosesFence(s, q) {
      assert FenceCloseAt(s, q, w);
    }
    if exists j: nat :: FenceCloseAt(s, q, j) {
      var j: nat :| FenceCloseAt(s, q, j);
      assert s[j..j + 3][0] == '`';
      assert !IsJsWhitespace(s[j]);
    }
  }

  /** The last `}` in `s[p + 1..k]` that closes the fence: `[\s\S]*` is greedy. */
  function LastFenceClose(s: string, p: nat, k: nat): (r: Option<nat>)
    requires k <= |s|
    ensures r.Some? ==> p < r.value < k && ClosesFence(s, r.value)
                        && forall q :: r.value < q < k ==> !ClosesFence(s, q)
    ensures r.None? ==> forall q :: p < q < k ==> !ClosesFence(s, q)
  {
    if k <= p + 1 then None
    else if ClosesFence(s, k - 1) then Some(k - 1)
    else LastFenceClose(s, p, k - 1)
  }

  /** The opening of a fenced block at `i`, ```` ```json\s*\{ ````, and where its `{` is; none
      when `i` does not start ```` ```json ```` or no `{` follows it after white space only. */
  function FenceOpen(s: string, i: nat): (r: Option<nat>)
    ensures r.Some? ==> i + 7 <= r.value < |s| && s[i..i + 7] == "```json"
                        && AllWhitespace(s, i + 7, r.value) && s[r.value] == '{'
    ensures r.None? ==> !(i + 7 <= |s| && s[i..i + 7] == "```json")
                        || forall p :: i + 7 <= p < |s| && AllWhitespace(s, i + 7, p) ==> s[p] != '{'
  {
    if i + 7 <= |s| && s[i..i + 7] == "```json" then
      var p := SkipWhitespace(s, i + 7);
      assert forall p' :: i + 7 <= p' < |s| && AllWhitespace(s, i + 7, p') && s[p'] == '{' ==> p' == p;
      if p < |s| && s[p] == '{' then Some(p) else None
    else None
  }

  /** A match of the fenced pattern starting at `i`: the positions of its `{` and its `}`. */
  function FenceAt(s: string, i: nat): (r: Option<(nat, nat)>)
    ensures r.Some? ==> FenceOpen(s, i) == Some(r.value.0) && r.value.0 < r.value.1
                        && ClosesFence(s, r.value.1)
    ensures r.None? ==> FenceOpen(s, i).None?
                        || forall q :: FenceOpen(s, i).value < q < |s| ==> !ClosesFence(s, q)
  {
    var p := FenceOpen(s, i);
    if p.None? then None
    else
      var q := LastFenceClose(s, p.value, |s|);
      if q.None? then None else Some((p.value, q.value))
  }

  /** The leftmost match of the fenced pattern at or after `i`: its start and its group. */
  function FirstFence(s: string, i: nat): (r: Option<(nat, nat, nat)>)
    ensures r.Some? ==> i <= r.value.0 && FenceAt(s, r.value.0) == Some((r.value.1, r.value.2))
                        && forall i' :: i <= i' < r.value.0 ==> FenceAt(s, i').None?
    ensures r.None? ==> forall i' :: i <= i' <= |s| ==> FenceAt(s, i').None?
    decreases |s| - i
  {
    if i > |s| then None
    else
      var m := FenceAt(s, i);
      if m.Some? then Some((i, m.value.0, m.value.1)) else FirstFence(s, i + 1)
  }

  // =============================================================================================
  // Bare braces

  /** The first `c` at or after `i`. */
  function FirstIndex(s: string, c: char, i: nat): (r: Option<nat>)
    ensures r.Some? ==> i <= r.value < |s| && s[r.value] == c
                        && forall k :: i <= k < r.value ==> s[k] != c
    ensures r.None? ==> forall k :: i <= k < |s| ==> s[k] != c
    decreases |s| - i
  {
    if i >= |s| then None else if s[i] == c then Some(i) else FirstIndex(s, c, i + 1)
  }

  /** The last `c` before `k`. */
  function LastIndex(s: string, c: char, k: nat): (r: Option<nat>)
    requires k <= |s|
    ensures r.Some? ==> r.value < k && s[r.value] == c && forall j :: r.value < j < k ==> s[j] != c
    ensures r.None? ==> forall j :: 0 <= j < k ==> s[j] != c
  {
    if k == 0 then None else if s[k - 1] == c then Some(k - 1) else LastIndex(s, c, k - 1)
  }

  /** The match of `/\{[\s\S]*\}/`: from the first `{` to the last `}`, when that `}` comes after
      the `{`. */
  function BareBraces(s: string): (r: Option<(nat, nat)>)
    ensures r.Some? ==> r.value.0 < r.value.1 < |s| && s[r.value.0] == '{' && s[r.value.1] == '}'
                        && (forall k :: 0 <= k < r.value.0 ==> s[k] != '{')
                        && (forall k :: r.value.1 < k < |s| ==> s[k] != '}')
    ensures r.None? <==> forall i, j :: 0 <= i < j < |s| && s[i] == '{' ==> s[j] != '}'
  {
    var f := FirstIndex(s, '{', 0);
    var q := LastIndex(s, '}', |s|);
    if f.Some? && q.Some? && f.value < q.value then Some((f.value, q.value)) else None
  }

  // =============================================================================================
  // The extraction

  /** `jsonMatch[1] || jsonMatch[0]`: the group of the leftmost fenced block, or else the bare
      braces, or nothing. What is extracted is an object's text, from a `{` to a `}`, and nothing
      is extracted exactly when no `{` comes before a `}`. */
  function ExtractJson(content: string): (r: Option<string>)
    ensures r.Some? ==> |r.value| >= 2 && r.value[0] == '{' && r.value[|r.value| - 1] == '}'
    ensures r.None? <==> forall i, j :: 0 <= i < j < |content| && content[i] == '{' ==> content[j] != '}'
  {
    var fenced := FirstFence(content, 0);
    if fenced.Some? then
      var (_, p, q) := fenced.value;
      assert content[p] == '{' && content[q] == '}';
      Some(content[p..q + 1])
    else
      var bare := BareBraces(content);
      if bare.Some? then Some(content[bare.value.0..bare.value.1 + 1]) else None
  }

  /** Without a fenced block, the text runs from the first `{` to the last `}`. */
  lemma BareWhenUnfenced(content: string)
    requires forall i :: 0 <= i <= |content| ==> FenceAt(content, i).None?
    requires BareBraces(content).Some?
    ensures var (f, q) := BareBraces(content).value;
            ExtractJson(content) == Some(content[f..q + 1])
            && (forall k :: 0 <= k < f ==> content[k] != '{')
            && (forall k :: q < k < |content| ==> content[k] != '}')
  {
  }

  /** A fenced block wins: the group of the leftmost block is taken, with the fence and the white
      space around the braces left out, and the group's `}` is the last one that still reaches a
      closing fence. */
  lemma FencedWins(content: string, i: nat)
    requires FenceAt(content, i).Some?
    requires forall i' :: 0 <= i' < i ==> FenceAt(content, i').None?
    ensures var (p, q) := FenceAt(content, i).value;
            ExtractJson(content) == Some(content[p..q + 1])
            && i + 7 <= p && content[i..i + 7] == "```json" && AllWhitespace(content, i + 7, p)
            && ClosesFence(content, q)
            && forall q' :: q < q' < |content| ==> !ClosesFence(content, q')
  {
    var fenced := FirstFence(content, 0);
    assert fenced.Some? && fenced.value.0 == i;
  }

  /** A reply holding braces around a fenced block: the bare pattern would take everything from
      the first `{` to the last `}`, but the fenced block comes first and gives just `{}`. */
  const FencedInsideBraces: string := "{```json {}```}"

  lemma FencedInsideBracesMatch()
    ensures FirstFence(FencedInsideBraces, 0) == Some((1, 9, 10))
  {
    var s := FencedInsideBraces;
    assert FenceOpen(s, 0).None? by { assert s[0] != '`'; }
    assert s[1..8] == "```json";
    assert SkipWhitespace(s, 8) == 9 by {
      assert IsJsWhitespace(s[8]);
      assert !IsJsWhitespace(s[9]);
    }
    assert FenceOpen(s, 1) == Some(9);
    assert !ClosesFence(s, 14);
    assert !ClosesFence(s, 13) && !ClosesFence(s, 12) && !ClosesFence(s, 11);
    assert SkipWhitespace(s, 11) == 11;
    assert s[11..14] == "```";
    assert LastFenceClose(s, 9, 15) == Some(10);
  }

  lemma FencedInsideBracesExtract()
    ensures BareBraces(FencedInsideBraces) == Some((0, 14))
    ensures ExtractJson(FencedInsideBraces) == Some("{}")
  {
    FencedInsideBracesMatch();
    assert FencedInsideBraces[9..11] == "{}";
  }

  // =============================================================================================
  // The module's client and the analysis

  /** The module-level client handle: empty until `initializeOpenAI` is called. */
  class ClientState {
    var client: Option<Client>

    constructor ()
      ensures client.None?
    {
      client := None;
    }

    /** `initializeOpenAI`: installs a client for the key, replacing any earlier one. */
    method InitializeOpenAI(apiKey: string)
      modifies this
      ensures client == Some(Client(apiKey))
    {
      client := Some(Client(apiKey));
    }

    /** `analyzeImage`: without a client it fails before sending anything; otherwise it sends the
        prompt for `fields` with the image, and turns the reply into the parsed object or one of
        the call's errors. `parse` stands for `JSON.parse` (`None` when it throws). */
    method AnalyzeImage(imageUrl: string, fields: seq<FieldSpec>, reply: Reply, parse: string -> Option<Record>)
      returns (request: Option<ChatRequest>, r: Result<Record, AnalysisError>)
      ensures client.None? ==> request.None? && r == Err(NotInitialized)
      ensures client.Some? ==> request == Some(ChatRequest(Model, Prompt(fields), imageUrl, MaxTokens))
      ensures client.Some? && reply.CallFailed? ==> r == Err(CallError(reply.message))
      ensures client.Some? && reply.Replied? && (reply.content.None? || reply.content.value == "") ==>
                r == Err(NoResponse)
      ensures client.Some? && reply.Replied? && reply.content.Some? && reply.content.value != "" ==>
                var content := reply.content.value;
                var json := ExtractJson(content);
                && (json.None? ==> r == Err(NoJson))
                && (json.Some? && parse(json.value).None? ==> r == Err(Unparsable(content)))
                && (json.Some? && parse(json.value).Some? ==> r == Ok(parse(json.value).value))
    {
      if client.None? {
        return None, Err(NotInitialized);
      }
      request := Some(ChatRequest(Model, Prompt(fields), imageUrl, MaxTokens));
      if reply.CallFailed? {
        return request, Err(CallError(reply.message));
      }
      var content := reply.content;
      if content.None? || content.value == "" {
        return request, Err(NoResponse);
      }
      var json := ExtractJson(content.value);
      if json.None? {
        return request, Err(NoJson);
      }
      var parsed := parse(json.value);
      if parsed.None? {
        return request, Err(Unparsable(content.value));
      }
      r := Ok(parsed.value);
    }
  }

  /** The message tells the failure apart: apart from a failed call, whose message is the call's
      own, two failures with the same message are the same failure, and a message starts with the
      parse-failure lead exactly when the reply could not be parsed. */
  lemma MessageIdentifiesFailure(e1: AnalysisError, e2: AnalysisError)
    requires !e1.CallError? && !e2.CallError?
    ensures Message(e1) == Message(e2) ==> e1 == e2
    ensures e1.Unparsable? <==>
              |Message(e1)| >= |UnparsableLead| && Message(e1)[..|UnparsableLead|] == UnparsableLead
  {
    if e1.Unparsable? && e2.Unparsable? && Message(e1) == Message(e2) {
      assert e1.content == Message(e1)[|UnparsableLead|..];
    }
  }
}
