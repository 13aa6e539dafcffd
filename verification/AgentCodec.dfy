/**
 The tool call an agent cycle sends, and what travels through it: `BuildAgentEchoCall` prints the
 echo text into JSON arguments, the client decodes them, and `ExtractEchoPayload` takes the text out
 again.  The text survives exactly when it has no backslash and no control character but newline.
 */
module AgentCodec {
  import opened Text
  import opened Json

  // ---------- printing ----------

  function EscapeQuotes(s: string): string {
    if s == "" then "" else (if s[0] == '"' then "\\\"" else [s[0]]) + EscapeQuotes(s[1..])
  }

  function Spaces(s: string): (r: string)
    ensures |r| == |s|
    ensures forall i :: 0 <= i < |s| ==> r[i] == if s[i] == '\n' then ' ' else s[i]
  {
    if s == "" then "" else [if s[0] == '\n' then ' ' else s[0]] + Spaces(s[1..])
  }

  /** The two replacements of `BuildAgentEchoCall`, in its order. */
  function Clean(s: string): string {
    Spaces(EscapeQuotes(s))
  }

  /** Where the text goes: the members before and after, the member that carries it, and what that
      member's value says before the opening quote of the echo. */
  datatype Layout = Layout(before: Option<Member>, key: string, lead: string, after: Option<Member>)

  const MARKER := "Please execute shell command: echo"

  const SPAWN := Layout(Some(Member("task_name", "echo_subtask")), "message",
                        "Please execute shell command: echo ", None)
  const TASK := Layout(Some(Member("description", "Echo subagent task")), "prompt",
                       "Please execute shell command: echo ",
                       Some(Member("subagent_type", "general")))
  const CMD := Layout(None, "cmd", "echo ", None)
  const COMMAND := Layout(None, "command", "echo ", None)

  function Before(l: Layout): string {
    match l.before
    case None => ""
    case Some(m) => Quoted(m.name) + ":" + Quoted(m.value) + ","
  }

  function After(l: Layout): string {
    match l.after
    case None => "}"
    case Some(m) => "," + Quoted(m.name) + ":" + Quoted(m.value) + "}"
  }

  /** What closes the echoed text: an escaped quote, the quote of the value, the rest. */
  function Close(l: Layout): string {
    "\\\"" + "\"" + After(l)
  }

  function Render(l: Layout, clean: string): string {
    "{" + Before(l) + Quoted(l.key) + ":\"" + (l.lead + "\\\"" + (clean + Close(l)))
  }

  /** The layouts are the literals of the source. */
  lemma SpawnLiteral(c: string)
    ensures Render(SPAWN, c)
            == "{\"task_name\":\"echo_subtask\"," + "\"message\":\"" + SPAWN.lead + "\\\"" + c + "\\\"\"}"
  {
    assert "{" + Before(SPAWN) == "{\"task_name\":\"echo_subtask\",";
    assert Quoted(SPAWN.key) + ":\"" == "\"message\":\"";
    assert Close(SPAWN) == "\\\"\"}";
    RenderIs(SPAWN, c);
  }

  lemma TaskLiteral(c: string)
    ensures Render(TASK, c) == "{\"description\":" + "\"Echo subagent task\"," + "\"prompt\":\""
                               + TASK.lead + "\\\"" + c
                               + "\\\"\",\"subagent_type\":\"general\"}"
  {
    TaskOpens();
    TaskKey();
    TaskCloses();
    RenderIs(TASK, c);
  }

  lemma TaskOpens()
    ensures "{" + Before(TASK) == "{\"description\":" + "\"Echo subagent task\","
  {
    TaskOpensName();
    TaskOpensValue();
    var name, value := Quoted("description"), Quoted("Echo subagent task");
    assert "{" + (name + ":" + value + ",") == ("{" + name + ":") + (value + ",");
  }

  lemma TaskOpensName()
    ensures "{" + Quoted("description") + ":" == "{\"description\":"
  {
  }

  lemma TaskOpensValue()
    ensures Quoted("Echo subagent task") + "," == "\"Echo subagent task\","
  {
  }

  lemma TaskKey()
    ensures Quoted(TASK.key) + ":\"" == "\"prompt\":\""
  {
  }

  lemma TaskCloses()
    ensures Close(TASK) == "\\\"\",\"subagent_type\":\"general\"}"
  {
  }

  lemma ShellLiterals(c: string)
    ensures Render(CMD, c) == "{\"cmd\":\"echo \\\"" + c + "\\\"\"}"
    ensures Render(COMMAND, c) == "{\"command\":\"echo \\\"" + c + "\\\"\"}"
  {
    assert ("{" + Before(CMD)) + (Quoted(CMD.key) + ":\"") + CMD.lead + "\\\"" == "{\"cmd\":\"echo \\\"";
    assert ("{" + Before(COMMAND)) + (Quoted(COMMAND.key) + ":\"") + COMMAND.lead + "\\\""
           == "{\"command\":\"echo \\\"";
    assert Close(CMD) == "\\\"\"}" && Close(COMMAND) == "\\\"\"}";
    RenderIs(CMD, c);
    RenderIs(COMMAND, c);
  }

  lemma RenderIs(l: Layout, c: string)
    ensures Render(l, c) == ("{" + Before(l)) + (Quoted(l.key) + ":\"") + l.lead + "\\\"" + c + Close(l)
  {
  }

  // ---------- which tool ----------

  datatype AgentEchoSpec = AgentEchoSpec(toolName: string, arguments: string, subagent: bool)

  predicate HasTool(u: Unicode, tools: seq<string>, name: string) {
    exists i :: 0 <= i < |tools| && EqualFold(u, tools[i], name)
  }

  /** Tool name, layout of its arguments, and whether it starts a subagent. */
  function ChooseTool(u: Unicode, tools: seq<string>): (string, Layout, bool) {
    if HasTool(u, tools, "collaboration__spawn_agent") then ("collaboration__spawn_agent", SPAWN, true)
    else if HasTool(u, tools, "spawn_agent") then ("spawn_agent", SPAWN, true)
    else if HasTool(u, tools, "task") then ("task", TASK, true)
    else if HasTool(u, tools, "subagent") then ("subagent", TASK, true)
    else if HasTool(u, tools, "exec_command") then ("exec_command", CMD, false)
    else if HasTool(u, tools, "powershell") then ("powershell", COMMAND, false)
    else if HasTool(u, tools, "bash") then ("bash", COMMAND, false)
    else if HasTool(u, tools, "execute_command") then ("execute_command", COMMAND, false)
    else if HasTool(u, tools, "terminal") then ("terminal", COMMAND, false)
    else if |tools| > 0 then (tools[0], if tools[0] == "exec_command" then CMD else COMMAND, false)
    else ("bash", COMMAND, false)
  }

  /** The names that `BuildAgentEchoCall` looks for, the preferred ones first. */
  const KNOWN := ["collaboration__spawn_agent", "spawn_agent", "task", "subagent", "exec_command", "powershell", "bash",
                  "execute_command", "terminal"]

  /** The argument that a tool takes the text in. */
  function ArgumentKey(tool: string): string {
    if tool == "collaboration__spawn_agent" || tool == "spawn_agent" then "message"
    else if tool == "task" || tool == "subagent" then "prompt"
    else if tool == "exec_command" then "cmd"
    else "command"
  }

  predicate StartsSubagent(tool: string) {
    tool == "collaboration__spawn_agent" || tool == "spawn_agent" || tool == "task" || tool == "subagent"
  }

  /** The choice as documented: the first known name that the client declares, else its first tool, else
      "bash". */
  ghost predicate IsEchoChoice(u: Unicode, tools: seq<string>, tool: string) {
    if exists p :: 0 <= p < |KNOWN| && HasTool(u, tools, KNOWN[p]) then
      exists p :: 0 <= p < |KNOWN| && tool == KNOWN[p] && FirstKnown(u, tools, p)
    else tool == if tools == [] then "bash" else tools[0]
  }

  ghost predicate FirstKnown(u: Unicode, tools: seq<string>, p: nat)
    requires p < |KNOWN|
  {
    HasTool(u, tools, KNOWN[p]) && forall q :: 0 <= q < p ==> !HasTool(u, tools, KNOWN[q])
  }

  /** Whichever branch chose it, the tool is the documented choice, its text is in the argument that
      goes with its name, and it is flagged exactly when it starts a subagent. */
  lemma ToolIsChosen(u: Unicode, tools: seq<string>)
    ensures var (tool, l, subagent) := ChooseTool(u, tools);
            && IsEchoChoice(u, tools, tool)
            && l.key == ArgumentKey(tool) && subagent == StartsSubagent(tool)
  {
    if p: nat :| p < |KNOWN| && HasTool(u, tools, KNOWN[p]) {
      var first := LeastKnown(u, tools, p);
      KnownIsChosen(u, tools, first);
    } else {
      UnknownIsChosen(u, tools);
    }
  }

  lemma LeastKnown(u: Unicode, tools: seq<string>, p: nat) returns (first: nat)
    requires p < |KNOWN| && HasTool(u, tools, KNOWN[p])
    ensures first < |KNOWN| && FirstKnown(u, tools, first)
  {
    if q: nat :| q < p && HasTool(u, tools, KNOWN[q]) {
      first := LeastKnown(u, tools, q);
    } else {
      first := p;
    }
  }

  lemma KnownIsChosen(u: Unicode, tools: seq<string>, p: nat)
    requires p < |KNOWN| && FirstKnown(u, tools, p)
    ensures var (tool, l, subagent) := ChooseTool(u, tools);
            tool == KNOWN[p] && l.key == ArgumentKey(tool) && subagent == StartsSubagent(tool)
  {
    if p <= 3 {
      SubagentIsChosen(u, tools, p);
    } else {
      ShellIsChosen(u, tools, p);
    }
  }

  lemma SubagentIsChosen(u: Unicode, tools: seq<string>, p: nat)
    requires p <= 3 && FirstKnown(u, tools, p)
    ensures var (tool, l, subagent) := ChooseTool(u, tools);
            tool == KNOWN[p] && l.key == ArgumentKey(tool) && subagent == StartsSubagent(tool)
  {
    assert KNOWN[0] == "collaboration__spawn_agent" && KNOWN[1] == "spawn_agent";
    assert KNOWN[2] == "task" && KNOWN[3] == "subagent";
  }

  lemma ShellIsChosen(u: Unicode, tools: seq<string>, p: nat)
    requires 4 <= p < |KNOWN| && FirstKnown(u, tools, p)
    ensures var (tool, l, subagent) := ChooseTool(u, tools);
            tool == KNOWN[p] && l.key == ArgumentKey(tool) && subagent == StartsSubagent(tool)
  {
    assert KNOWN[0] == "collaboration__spawn_agent" && KNOWN[1] == "spawn_agent";
    assert KNOWN[2] == "task" && KNOWN[3] == "subagent";
    assert KNOWN[4] == "exec_command" && KNOWN[5] == "powershell" && KNOWN[6] == "bash";
    assert KNOWN[7] == "execute_command" && KNOWN[8] == "terminal";
  }

  lemma UnknownIsChosen(u: Unicode, tools: seq<string>)
    requires forall p :: 0 <= p < |KNOWN| ==> !HasTool(u, tools, KNOWN[p])
    ensures var (tool, l, subagent) := ChooseTool(u, tools);
            && tool == (if tools == [] then "bash" else tools[0])
            && l.key == ArgumentKey(tool) && subagent == StartsSubagent(tool)
  {
    assert KNOWN[0] == "collaboration__spawn_agent" && KNOWN[1] == "spawn_agent";
    assert KNOWN[2] == "task" && KNOWN[3] == "subagent";
    assert KNOWN[4] == "exec_command" && KNOWN[5] == "powershell" && KNOWN[6] == "bash";
    assert KNOWN[7] == "execute_command" && KNOWN[8] == "terminal";
    if tools != [] {
      assert EqualFold(u, tools[0], tools[0]);
    }
  }

  function EffectiveInput(u: Unicode, input: string): string {
    if IsBlank(u, input) then "hello" else input
  }

  function BuildAgentEchoCall(u: Unicode, tools: seq<string>, userInput: string): AgentEchoSpec {
    var (tool, layout, subagent) := ChooseTool(u, tools);
    AgentEchoSpec(tool, Render(layout, Clean(EffectiveInput(u, userInput))), subagent)
  }

  // ---------- parsing ----------

  predicate OccursAt(s: string, pat: string, i: nat) {
    i + |pat| <= |s| && s[i..i + |pat|] == pat
  }

  /** `strings.Index`, -1 when absent. */
  function Index(s: string, pat: string): (r: int)
    requires pat != ""
    ensures -1 <= r <= |s|
    ensures r >= 0 ==> OccursAt(s, pat, r)
    ensures forall i: nat :: (r < 0 || i < r) ==> !OccursAt(s, pat, i)
    decreases |s|
  {
    IndexFrom(s, pat, 0)
  }

  function IndexFrom(s: string, pat: string, k: nat): (r: int)
    requires pat != "" && k <= |s|
    ensures r == -1 || k <= r <= |s|
    ensures r >= 0 ==> OccursAt(s, pat, r)
    ensures forall i: nat :: k <= i && (r < 0 || i < r) ==> !OccursAt(s, pat, i)
    decreases |s| - k
  {
    if k + |pat| > |s| then -1
    else if s[k..k + |pat|] == pat then k
    else IndexFrom(s, pat, k + 1)
  }

  /** The text before the last quote, or all of it when there is none. */
  function UpToLastQuote(s: string): (r: string)
    ensures r <= s
    ensures '"' in s ==> |r| < |s| && s[|r|] == '"' && forall i :: |r| < i < |s| ==> s[i] != '"'
    ensures '"' !in s ==> r == s
  {
    if '"' !in s then s
    else if s[|s| - 1] == '"' then s[..|s| - 1]
    else UpToLastQuote(s[..|s| - 1])
  }

  /** Replaces `\"` by `"`, leftmost first. */
  function Unslash(s: string): (r: string)
    ensures |r| <= |s|
  {
    if |s| >= 2 && s[0] == '\\' && s[1] == '"' then "\"" + Unslash(s[2..])
    else if s == "" then ""
    else [s[0]] + Unslash(s[1..])
  }

  function ExtractEchoPayload(prompt: string): string {
    var i := Index(prompt, "echo \"");
    if i < 0 then prompt else Unslash(UpToLastQuote(prompt[i + 6..]))
  }

  predicate IsSubagentEchoRequest(text: string) {
    Index(text, MARKER) >= 0
  }

  // ---------- the round trip ----------

  /** What the text must be for the call to carry it. */
  predicate Carried(s: string) {
    forall i :: 0 <= i < |s| ==> s[i] != '\\' && (s[i] >= ' ' || s[i] == '\n')
  }

  lemma CleanCons(s: string)
    requires s != ""
    ensures Clean(s) == (if s[0] == '"' then "\\\"" else if s[0] == '\n' then " " else [s[0]]) + Clean(s[1..])
  {
    if s[0] == '"' {
      SpacesConcat("\\\"", EscapeQuotes(s[1..]));
    } else {
      SpacesConcat([s[0]], EscapeQuotes(s[1..]));
    }
  }

  lemma SpacesConcat(a: string, b: string)
    ensures Spaces(a + b) == Spaces(a) + Spaces(b)
  {
  }

  /** A text that can be carried is decoded, newlines turned to spaces, before what follows it. */
  lemma {:induction false} UnescapeClean(x: string, t: string)
    requires Carried(x)
    ensures Unescape(Clean(x) + t) == Prepend(Spaces(x), Unescape(t))
  {
    if x == "" {
      assert Clean(x) + t == t;
    } else {
      CleanCons(x);
      UnescapeClean(x[1..], t);
      UnescapeHead(x, t);
      var h := if x[0] == '\n' then ' ' else x[0];
      PrependPrepend([h], Spaces(x[1..]), Unescape(t));
      assert Spaces(x) == [h] + Spaces(x[1..]);
    }
  }

  /** One rune of the text, unless it is a backslash or a control character. */
  lemma UnescapeHead(x: string, t: string)
    requires x != "" && x[0] != '\\' && (x[0] >= ' ' || x[0] == '\n')
    ensures Unescape(Clean(x) + t) == Prepend([if x[0] == '\n' then ' ' else x[0]], Unescape(Clean(x[1..]) + t))
  {
    CleanCons(x);
    var s, rest := Clean(x) + t, Clean(x[1..]) + t;
    if x[0] == '"' {
      assert s == "\\\"" + rest;
      assert s[2..] == rest;
    } else {
      assert s[1..] == rest;
    }
  }

  /** The layouts whose arguments parse member by member. */
  predicate Parses(l: Layout) {
    && PlainText(l.key) && PlainText(l.lead)
    && (l.before.Some? ==>
          PlainText(l.before.value.name) && PlainText(l.before.value.value) && l.before.value.name != l.key)
    && (l.after.Some? ==>
          PlainText(l.after.value.name) && PlainText(l.after.value.value) && l.after.value.name != l.key)
  }

  function BeforeMembers(l: Layout): seq<Member> {
    if l.before.Some? then [l.before.value] else []
  }

  function AfterMembers(l: Layout): seq<Member> {
    if l.after.Some? then [l.after.value] else []
  }

  /** Decoding the arguments comes down to decoding the echoed text and what closes it. */
  lemma DecodeRendered(l: Layout, clean: string)
    requires Parses(l)
    ensures var scan := Prepend(l.lead + "\"", Unescape(clean + Close(l)));
            ParseObject(Render(l, clean)) == WithMembers(BeforeMembers(l), WithValue(l.key, scan))
  {
    var body := l.lead + "\\\"" + (clean + Close(l));
    var rest := Quoted(l.key) + ":\"" + body;
    ParseMemberIs(l.key, body);
    UnescapeBody(l.lead, clean + Close(l));
    ParseBraces(l, rest);
    RenderParts(l, clean);
  }

  lemma RenderParts(l: Layout, clean: string)
    ensures Render(l, clean) == "{" + (Before(l) + (Quoted(l.key) + ":\"" + (l.lead + "\\\"" + (clean + Close(l)))))
  {
    var open, key, rest := "{" + Before(l), Quoted(l.key), l.lead + "\\\"" + (clean + Close(l));
    Regroup(open, key, ":\"");
    Regroup(open, key + ":\"", rest);
    Regroup("{", Before(l), key + ":\"" + rest);
  }

  function WithMembers(before: seq<Member>, ms: Option<seq<Member>>): Option<seq<Member>> {
    if ms.None? then None else Some(before + ms.value)
  }

  lemma UnescapeBody(lead: string, z: string)
    requires PlainText(lead)
    ensures Unescape(lead + "\\\"" + z) == Prepend(lead + "\"", Unescape(z))
  {
    assert lead + "\\\"" + z == lead + ("\\\"" + z);
    UnescapePlain(lead, "\\\"" + z);
    assert ("\\\"" + z)[2..] == z;
    PrependPrepend(lead, "\"", Unescape(z));
  }

  lemma ParseBraces(l: Layout, rest: string)
    requires Parses(l) && rest != "" && rest[0] == '"'
    ensures ParseObject("{" + (Before(l) + rest)) == WithMembers(BeforeMembers(l), ParseMembers(rest))
  {
    var s1 := Before(l) + rest;
    assert SkipWs("{" + s1) == "{" + s1 && ("{" + s1)[1..] == s1;
    assert s1[0] == '"' && SkipWs(s1) == s1;
    if l.before.Some? {
      ParseBefore(l.before.value, rest);
    } else {
      assert s1 == rest;
      assert ParseMembers(rest).Some? ==> [] + ParseMembers(rest).value == ParseMembers(rest).value;
    }
  }

  lemma ParseBefore(m: Member, rest: string)
    requires PlainText(m.name) && PlainText(m.value)
    ensures ParseMembers(Quoted(m.name) + ":" + Quoted(m.value) + "," + rest) == WithMembers([m], ParseMembers(rest))
  {
    var body := m.value + "\"" + ("," + rest);
    assert Quoted(m.name) + ":" + Quoted(m.value) + "," + rest == Quoted(m.name) + ":\"" + body;
    ParseMemberIs(m.name, body);
    UnescapeQuoted(m.value, "," + rest);
    assert SkipWs("," + rest) == "," + rest && ("," + rest)[1..] == rest;
  }

  /** After an intact value the rest of the object parses. */
  lemma ParseClosing(l: Layout, value: string)
    requires Parses(l)
    ensures ParseAfter(Member(l.key, value), After(l)) == Some([Member(l.key, value)] + AfterMembers(l))
  {
    match l.after
    case None =>
      assert SkipWs("}") == "}" && "}"[1..] == "";
      assert [Member(l.key, value)] + [] == [Member(l.key, value)];
    case Some(m) =>
      var body := m.value + "\"" + "}";
      var tail := Quoted(m.name) + ":\"" + body;
      assert After(l) == "," + tail && SkipWs(After(l)) == After(l) && After(l)[1..] == tail;
      ParseMemberIs(m.name, body);
      UnescapeQuoted(m.value, "}");
      assert SkipWs("}") == "}" && "}"[1..] == "";
      assert ParseAfter(m, "}") == Some([m]);
  }

  lemma FieldOfLayout(l: Layout, value: string)
    requires Parses(l)
    ensures Field(BeforeMembers(l) + ([Member(l.key, value)] + AfterMembers(l)), l.key) == Some(value)
  {
    var ms := BeforeMembers(l) + ([Member(l.key, value)] + AfterMembers(l));
    if l.after.Some? {
      assert ms[|ms| - 1] == l.after.value;
      assert ms[..|ms| - 1] == BeforeMembers(l) + [Member(l.key, value)];
    }
  }

  /** Decoding an intact value. */
  lemma DecodeIntact(l: Layout, clean: string, v: string)
    requires Parses(l) && Unescape(clean + Close(l)) == Done(v, After(l))
    ensures DecodeField(Render(l, clean), l.key) == Some(l.lead + "\"" + v)
  {
    DecodeRendered(l, clean);
    ParseClosing(l, l.lead + "\"" + v);
    FieldOfLayout(l, l.lead + "\"" + v);
  }

  lemma UnescapeClose(l: Layout)
    ensures Unescape(Close(l)) == Done("\"", After(l))
  {
    assert Close(l)[2..] == "\"" + After(l);
    assert ("\"" + After(l))[1..] == After(l);
  }

  /** What the client reads when the text can be carried. */
  lemma DecodeCarried(l: Layout, x: string)
    requires Parses(l) && Carried(x)
    ensures DecodeField(Render(l, Clean(x)), l.key) == Some(l.lead + "\"" + (Spaces(x) + "\""))
  {
    UnescapeClean(x, Close(l));
    UnescapeClose(l);
    DecodeIntact(l, Clean(x), Spaces(x) + "\"");
  }

  // ---------- what happens to the other texts ----------

  ghost predicate IsResidue(r: string, y: string, t: string) {
    r == Clean(y) + t
  }

  /** The scan broke out of the value: what is left is an end of the text, or the value's own quote. */
  ghost predicate Broken(r: string, l: Layout) {
    r == "\"" + After(l) || exists y :: IsResidue(r, y, Close(l))
  }

  /** Every way the scan of a printed text can go: it is refused, it breaks out of the value, or it
      ends where it should with a value that is too short unless the text can be carried. */
  ghost predicate ScanOutcome(x: string, l: Layout, scan: Scan) {
    match scan
    case Bad => true
    case Done(v, r) =>
      || Broken(r, l)
      || (r == After(l) && v != "" && v[|v| - 1] == '"' && |v| <= |x| + 1 && (!Carried(x) ==> |v| <= |x|))
  }

  lemma {:induction false} UnescapeAny(x: string, l: Layout)
    ensures ScanOutcome(x, l, Unescape(Clean(x) + Close(l)))
    decreases |x|, 2
  {
    if x == "" {
      assert Clean(x) + Close(l) == Close(l);
      UnescapeClose(l);
    } else if x[0] == '\\' {
      UnescapeBackslash(x, l);
    } else if x[0] >= ' ' || x[0] == '\n' {
      UnescapeAny(x[1..], l);
      UnescapeHead(x, Close(l));
      assert Carried(x[1..]) ==> Carried(x) by {
        if Carried(x[1..]) {
          forall i | 0 <= i < |x| ensures x[i] != '\\' && (x[i] >= ' ' || x[i] == '\n') {
            if i > 0 { assert x[i] == x[1..][i - 1]; }
          }
        }
      }
      OutcomePrepend(x, x[1..], l, [if x[0] == '\n' then ' ' else x[0]], Unescape(Clean(x[1..]) + Close(l)));
    } else {
      CleanCons(x);
    }
  }

  /** A decoded rune in front keeps the outcome when the text grew at least as much. */
  lemma OutcomePrepend(x: string, y: string, l: Layout, h: string, scan: Scan)
    requires ScanOutcome(y, l, scan) && |h| == 1 && |y| < |x|
    requires !Carried(x) && Carried(y) ==> |y| + 2 <= |x|
    ensures ScanOutcome(x, l, Prepend(h, scan))
  {
  }

  lemma UnescapeBackslash(x: string, l: Layout)
    requires x != "" && x[0] == '\\'
    ensures ScanOutcome(x, l, Unescape(Clean(x) + Close(l)))
    decreases |x|, 1
  {
    var s, z := Clean(x) + Close(l), x[1..];
    OtherFirst(x, Close(l));
    if z == "" {
      assert s == "\\" + Close(l);
      EscapedClose(l, s);
    } else if z[0] == '"' {
      EscapedQuote(z, l, s);
    } else {
      EscapedOther(x, l, s);
    }
  }

  lemma EscapedOther(x: string, l: Layout, s: string)
    requires |x| >= 2 && x[0] == '\\' && x[1] != '"'
    requires |s| >= 2 && s[0] == '\\' && s == Clean(x) + Close(l) && s[1..] == Clean(x[1..]) + Close(l)
    ensures ScanOutcome(x, l, Unescape(s))
    decreases |x|, 0, 1
  {
    var z := x[1..];
    OtherFirst(z, Close(l));
    assert s[1] == s[1..][0] && s[2..] == s[1..][1..] == Clean(x[2..]) + Close(l);
    if z[0] == 'u' {
      UnescapeUnicode(x, l, s);
    } else if SimpleEscape(s[1]).Some? {
      UnescapeAny(x[2..], l);
      UnescapeSimple(s);
      OutcomePrepend(x, x[2..], l, [SimpleEscape(s[1]).value], Unescape(s[2..]));
    } else {
      UnescapeRefused(s);
    }
  }

  lemma OtherFirst(z: string, t: string)
    requires z != "" && z[0] != '"'
    ensures var s := Clean(z) + t;
            s != "" && s[0] == (if z[0] == '\n' then ' ' else z[0]) && s[1..] == Clean(z[1..]) + t
  {
    CleanCons(z);
  }

  lemma UnescapeRefused(s: string)
    requires |s| >= 2 && s[0] == '\\' && s[1] != 'u' && SimpleEscape(s[1]).None?
    ensures Unescape(s) == Bad
  {
  }

  lemma UnescapeSimple(s: string)
    requires |s| >= 2 && s[0] == '\\' && s[1] != 'u' && SimpleEscape(s[1]).Some?
    ensures Unescape(s) == Prepend([SimpleEscape(s[1]).value], Unescape(s[2..]))
  {
  }

  /** A backslash before a quote escapes the backslash meant for the quote, which then closes. */
  lemma EscapedQuote(z: string, l: Layout, s: string)
    requires z != "" && z[0] == '"' && s != "" && s[0] == '\\' && s[1..] == Clean(z) + Close(l)
    ensures Unescape(s) == Done("\\", Clean(z[1..]) + Close(l))
    ensures IsResidue(Clean(z[1..]) + Close(l), z[1..], Close(l))
  {
    QuoteFirst(z, Close(l));
    ClosedAfterBackslash(s, Clean(z[1..]) + Close(l));
  }

  lemma QuoteFirst(z: string, t: string)
    requires z != "" && z[0] == '"'
    ensures Clean(z) + t == "\\\"" + (Clean(z[1..]) + t)
  {
    CleanCons(z);
    Regroup("\\\"", Clean(z[1..]), t);
  }

  lemma Regroup(a: string, b: string, c: string)
    ensures (a + b) + c == a + (b + c)
  {
  }

  lemma ClosedAfterBackslash(s: string, after: string)
    requires s != "" && s[0] == '\\' && s[1..] == "\\\"" + after
    ensures Unescape(s) == Done("\\", after)
  {
    assert s[1] == s[1..][0] && s[2..] == s[1..][1..];
    assert s[2..] == "\"" + after;
    assert s[2..][1..] == after;
    UnescapeSimple(s);
  }

  /** A backslash at the very end escapes the backslash that closes the text. */
  lemma EscapedClose(l: Layout, s: string)
    requires s == "\\" + Close(l)
    ensures Unescape(s) == Done("\\", "\"" + After(l))
  {
    assert s[2..] == "\"" + ("\"" + After(l));
    assert s[2..][1..] == "\"" + After(l);
  }

  /** A hex digit that follows printed text is a rune of the text. */
  lemma HeadOfClean(z: string, l: Layout, c: char)
    requires (Clean(z) + Close(l))[0] == c && c != '\\' && c != ' '
    ensures z != "" && z[0] == c && (Clean(z) + Close(l))[1..] == Clean(z[1..]) + Close(l)
  {
    if z != "" {
      CleanCons(z);
    }
  }

  lemma Hex4OfClean(z: string, l: Layout)
    requires HasHex4(Clean(z) + Close(l))
    ensures |z| >= 4 && (Clean(z) + Close(l))[4..] == Clean(z[4..]) + Close(l)
  {
    var s := Clean(z) + Close(l);
    HeadOfClean(z, l, s[0]);
    var s1, z1 := s[1..], z[1..];
    assert s1[0] == s[1] && s1[1] == s[2] && s1[2] == s[3];
    HeadOfClean(z1, l, s1[0]);
    var s2, z2 := s1[1..], z1[1..];
    HeadOfClean(z2, l, s2[0]);
    var s3, z3 := s2[1..], z2[1..];
    HeadOfClean(z3, l, s3[0]);
    assert s3[1..] == s[4..] && z3[1..] == z[4..];
  }

  lemma UnescapeUnicode(x: string, l: Layout, s: string)
    requires |x| >= 2 && x[0] == '\\' && x[1] == 'u'
    requires s == Clean(x) + Close(l) && |s| >= 2 && s[0] == '\\' && s[1] == 'u' && s[2..] == Clean(x[2..]) + Close(l)
    ensures ScanOutcome(x, l, Unescape(s))
    decreases |x|, 0, 0
  {
    var after := s[2..];
    if HasHex4(after) {
      Hex4OfClean(x[2..], l);
      var (c, n) := UnicodeEscape(after);
      var y := x[2..][4..];
      if n == 10 {
        PairOfClean(y, l);
        assert after[10..] == after[4..][6..];
        y := y[6..];
      }
      UnescapeAny(y, l);
      OutcomePrepend(x, y, l, [c], Unescape(after[n..]));
    }
  }

  lemma PairOfClean(z: string, l: Layout)
    requires IsLowSurrogatePair(Clean(z) + Close(l))
    ensures |z| >= 6 && (Clean(z) + Close(l))[6..] == Clean(z[6..]) + Close(l)
  {
    var s := Clean(z) + Close(l);
    assert s[1] == 'u';
    if z != "" {
      var s1 := Clean(z[1..]) + Close(l);
      if z[0] == '"' {
        QuoteFirst(z, Close(l));
      } else {
        OtherFirst(z, Close(l));
      }
      assert s[1..] == s1;
      HeadOfClean(z[1..], l, 'u');
      assert s[2..] == s1[1..] == Clean(z[2..]) + Close(l) by { assert z[1..][1..] == z[2..]; }
      Hex4OfClean(z[2..], l);
      assert s[6..] == s[2..][4..] && z[6..] == z[2..][4..];
    }
  }

  lemma CleanNoQuote(y: string, l: Layout)
    ensures (Clean(y) + Close(l))[0] != '"'
  {
    if y != "" {
      CleanCons(y);
    }
  }

  lemma {:induction false} SkipWsResidue(y: string, l: Layout) returns (y': string)
    ensures SkipWs(Clean(y) + Close(l)) == Clean(y') + Close(l)
    decreases |y|
  {
    var s := Clean(y) + Close(l);
    y' := y;
    if y != "" && SkipWs(s) != s {
      if y[0] == '"' {
        QuoteFirst(y, Close(l));
      } else {
        OtherFirst(y, Close(l));
      }
      y' := SkipWsResidue(y[1..], l);
    }
  }

  /** What is left of printed text cannot continue an object: every quote in it is escaped. */
  lemma ResidueRefused(y: string, l: Layout, m: Member)
    ensures ParseAfter(m, Clean(y) + Close(l)) == None
  {
    var y0 := SkipWsResidue(y, l);
    var s := Clean(y0) + Close(l);
    if s[0] == '}' || s[0] == ',' {
      HeadOfClean(y0, l, s[0]);
      var y1 := SkipWsResidue(y0[1..], l);
      assert SkipWs(s[1..]) == Clean(y1) + Close(l);
      CleanNoQuote(y1, l);
    }
  }

  lemma BrokenRefused(r: string, l: Layout, m: Member)
    requires Broken(r, l)
    ensures ParseAfter(m, r) == None
  {
    if r == "\"" + After(l) {
      assert SkipWs(r) == r;
    } else {
      var y :| IsResidue(r, y, Close(l));
      ResidueRefused(y, l, m);
    }
  }

  /** What the client reads for any text: nothing, or a message that has the marker in front and
      is too short unless the text can be carried. */
  lemma DecodeAny(l: Layout, x: string)
    requires Parses(l)
    ensures var d := DecodeField(Render(l, Clean(x)), l.key);
            d == None
            || exists v :: d == Some(l.lead + "\"" + v) && v != "" && v[|v| - 1] == '"' && (!Carried(x) ==> |v| <= |x|)
  {
    UnescapeAny(x, l);
    var scan := Unescape(Clean(x) + Close(l));
    if scan.Bad? {
      DecodeRendered(l, Clean(x));
    } else if scan.rest == After(l) && !Broken(scan.rest, l) {
      DecodeIntact(l, Clean(x), scan.value);
    } else {
      DecodeRendered(l, Clean(x));
      BrokenRefused(scan.rest, l, Member(l.key, l.lead + "\"" + scan.value));
    }
  }

  // ---------- extraction ----------

  predicate EndsInEcho(lead: string) {
    '"' !in lead && |lead| >= 5 && lead[|lead| - 5..] == "echo "
  }

  lemma ExtractIs(lead: string, v: string)
    requires EndsInEcho(lead)
    ensures ExtractEchoPayload(lead + "\"" + v) == Unslash(UpToLastQuote(v))
  {
    var s, k := lead + "\"" + v, |lead| - 5;
    assert s[k..k + 6] == lead[k..] + "\"" == "echo \"";
    assert OccursAt(s, "echo \"", k);
    var i := Index(s, "echo \"");
    forall j: nat | j < k ensures !OccursAt(s, "echo \"", j) {
      assert s[j..j + 6][5] == lead[j + 5];
      assert lead[j + 5] in lead;
    }
    assert s[k + 6..] == v;
  }

  lemma {:induction false} UnslashCarried(x: string)
    requires '\\' !in x
    ensures Unslash(x) == x
  {
    if x != "" {
      assert x[0] in x && '\\' !in x[1..];
      UnslashCarried(x[1..]);
    }
  }

  /** Unslashing undoes the escaping of quotes, on every text. */
  lemma {:induction false} UnslashEscapes(x: string)
    ensures Unslash(EscapeQuotes(x)) == x
  {
    if x != "" {
      UnslashEscapes(x[1..]);
      if x[0] == '"' {
        assert EscapeQuotes(x)[2..] == EscapeQuotes(x[1..]);
      } else {
        assert EscapeQuotes(x)[1..] == EscapeQuotes(x[1..]);
        NoQuoteFirst(x[1..]);
      }
    }
  }

  lemma NoQuoteFirst(x: string)
    ensures EscapeQuotes(x) != "" ==> EscapeQuotes(x)[0] != '"'
  {
  }

  /** A prompt that quotes any text with its quotes escaped, backslashes and all, gives the text back. */
  lemma ExtractQuoted(lead: string, x: string)
    requires EndsInEcho(lead)
    ensures ExtractEchoPayload(lead + "\"" + (EscapeQuotes(x) + "\"")) == x
  {
    ExtractIs(lead, EscapeQuotes(x) + "\"");
    UpToLastQuoteSnoc(EscapeQuotes(x));
    UnslashEscapes(x);
  }

  lemma UpToLastQuoteSnoc(x: string)
    ensures UpToLastQuote(x + "\"") == x
  {
    assert (x + "\"")[|x|] == '"' && (x + "\"")[..|x|] == x;
  }

  lemma LayoutsParse(l: Layout)
    requires l == SPAWN || l == TASK || l == CMD || l == COMMAND
    ensures Parses(l) && EndsInEcho(l.lead)
  {
    SpawnParses();
    TaskParses();
    ShellParses();
  }

  lemma MarkerLeadPlain()
    ensures PlainText("Please execute shell command: echo ")
  {
  }

  lemma MarkerLeadEnds()
    ensures EndsInEcho("Please execute shell command: echo ")
  {
    MarkerLeadPlain();
  }

  lemma SpawnParses()
    ensures Parses(SPAWN) && EndsInEcho(SPAWN.lead)
  {
    MarkerLeadPlain();
    MarkerLeadEnds();
    assert "task_name"[0] == 't';
  }

  lemma TaskParses()
    ensures Parses(TASK) && EndsInEcho(TASK.lead)
  {
    MarkerLeadPlain();
    MarkerLeadEnds();
    TaskMembersPlain();
    assert PlainText("prompt");
    assert "description"[0] == 'd' && "subagent_type"[0] == 's';
  }

  lemma TaskMembersPlain()
    ensures PlainText("description") && PlainText("Echo subagent task")
    ensures PlainText("subagent_type") && PlainText("general")
  {
  }

  lemma ShellParses()
    ensures Parses(CMD) && EndsInEcho(CMD.lead) && Parses(COMMAND) && EndsInEcho(COMMAND.lead)
  {
  }

  lemma ExtractCarried(l: Layout, x: string)
    requires EndsInEcho(l.lead) && Carried(x)
    ensures ExtractEchoPayload(l.lead + "\"" + (Spaces(x) + "\"")) == Spaces(x)
  {
    ExtractIs(l.lead, Spaces(x) + "\"");
    UpToLastQuoteSnoc(Spaces(x));
    UnslashCarried(Spaces(x));
  }

  /** What the members of the arguments say for a tool and a text. */
  function ArgumentsOf(tool: string, text: string): seq<Member> {
    var command := "echo " + "\"" + (text + "\"");
    var prompt := "Please execute shell command: echo " + "\"" + (text + "\"");
    if tool == "collaboration__spawn_agent" || tool == "spawn_agent" then
      [Member("task_name", "echo_subtask"), Member("message", prompt)]
    else if tool == "task" || tool == "subagent" then
      [Member("description", "Echo subagent task"), Member("prompt", prompt), Member("subagent_type", "general")]
    else if tool == "exec_command" then [Member("cmd", command)]
    else [Member("command", command)]
  }

  lemma LayoutOfKey(u: Unicode, tools: seq<string>)
    ensures var l := ChooseTool(u, tools).1;
            && (l.key == "message" ==> l == SPAWN) && (l.key == "prompt" ==> l == TASK)
            && (l.key == "cmd" ==> l == CMD) && (l.key == "command" ==> l == COMMAND)
  {
  }

  function MembersOf(l: Layout, text: string): seq<Member> {
    BeforeMembers(l) + ([Member(l.key, l.lead + "\"" + (text + "\""))] + AfterMembers(l))
  }

  lemma ParseCarried(l: Layout, x: string)
    requires Parses(l) && Carried(x)
    ensures ParseObject(Render(l, Clean(x))) == Some(MembersOf(l, Spaces(x)))
  {
    UnescapeClean(x, Close(l));
    UnescapeClose(l);
    DecodeRendered(l, Clean(x));
    ParseClosing(l, l.lead + "\"" + (Spaces(x) + "\""));
  }

  lemma MembersOfSpawn(text: string)
    ensures MembersOf(SPAWN, text) == ArgumentsOf("spawn_agent", text)
    ensures MembersOf(SPAWN, text) == ArgumentsOf("collaboration__spawn_agent", text)
  {
    assert SPAWN.lead == MARKER + " ";
  }

  lemma MembersOfTask(text: string)
    ensures MembersOf(TASK, text) == ArgumentsOf("task", text) == ArgumentsOf("subagent", text)
  {
    assert TASK.lead == MARKER + " ";
  }

  lemma MembersOfShell(tool: string, text: string)
    requires !StartsSubagent(tool)
    ensures MembersOf(if tool == "exec_command" then CMD else COMMAND, text) == ArgumentsOf(tool, text)
  {
  }

  /** A client that decodes the call of a text it can carry reads exactly the members its tool asks for. */
  lemma CallDecodes(u: Unicode, tools: seq<string>, input: string)
    requires Carried(input)
    ensures var spec := BuildAgentEchoCall(u, tools, input);
            && IsEchoChoice(u, tools, spec.toolName) && spec.subagent == StartsSubagent(spec.toolName)
            && ParseObject(spec.arguments)
               == Some(ArgumentsOf(spec.toolName, if IsBlank(u, input) then "hello" else Spaces(input)))
  {
    EffectiveIs(u, input);
    ChosenDecodes(u, tools, EffectiveInput(u, input));
  }

  lemma EffectiveIs(u: Unicode, input: string)
    requires Carried(input)
    ensures Carried(EffectiveInput(u, input))
    ensures Spaces(EffectiveInput(u, input)) == if IsBlank(u, input) then "hello" else Spaces(input)
  {
    if IsBlank(u, input) {
      HelloStays();
    }
  }

  lemma HelloStays()
    ensures Carried("hello") && Spaces("hello") == "hello"
  {
  }

  lemma ChosenDecodes(u: Unicode, tools: seq<string>, x: string)
    requires Carried(x)
    ensures var (tool, l, subagent) := ChooseTool(u, tools);
            && IsEchoChoice(u, tools, tool) && subagent == StartsSubagent(tool)
            && ParseObject(Render(l, Clean(x))) == Some(ArgumentsOf(tool, Spaces(x)))
  {
    var (tool, l, _) := ChooseTool(u, tools);
    ToolIsChosen(u, tools);
    LayoutOfKey(u, tools);
    LayoutsParse(l);
    ParseCarried(l, x);
    MembersAre(tool, l, Spaces(x));
  }

  lemma MembersAre(tool: string, l: Layout, text: string)
    requires l.key == ArgumentKey(tool)
    requires (l.key == "message" ==> l == SPAWN) && (l.key == "prompt" ==> l == TASK)
    requires (l.key == "cmd" ==> l == CMD) && (l.key == "command" ==> l == COMMAND)
    ensures MembersOf(l, text) == ArgumentsOf(tool, text)
  {
    if StartsSubagent(tool) {
      MembersOfSpawn(text);
      MembersOfTask(text);
    } else {
      MembersOfShell(tool, text);
    }
  }

  /** The text that arrives when the tool call for `input` is printed, decoded and taken apart. */
  function Delivered(u: Unicode, tools: seq<string>, input: string): Option<string> {
    var spec := BuildAgentEchoCall(u, tools, input);
    match DecodeField(spec.arguments, ArgumentKey(spec.toolName))
    case None => None
    case Some(message) => Some(ExtractEchoPayload(message))
  }

  /** First hop: whatever tools the client declares, the text arrives in the argument of the tool that is
      called, newlines as spaces, exactly when it has no backslash and no control character but newline. */
  lemma DeliveredExactly(u: Unicode, tools: seq<string>, input: string)
    requires !IsBlank(u, input)
    ensures Delivered(u, tools, input) == Some(Spaces(input)) <==> Carried(input)
  {
    var l := ChooseTool(u, tools).1;
    ToolIsChosen(u, tools);
    LayoutsParse(l);
    if Carried(input) {
      DecodeCarried(l, input);
      ExtractCarried(l, input);
    } else {
      DecodeAny(l, input);
      var d := DecodeField(Render(l, Clean(input)), l.key);
      if d.Some? {
        var v :| d == Some(l.lead + "\"" + v) && v != "" && v[|v| - 1] == '"' && |v| <= |input|;
        ExtractIs(l.lead, v);
        assert v[|v| - 1] in v;
        assert |UpToLastQuote(v)| < |v|;
      }
    }
  }

  /** Every message a client can read for a subagent tool is recognised by the marker. */
  lemma SubagentPromptRecognised(u: Unicode, tools: seq<string>, input: string)
    requires BuildAgentEchoCall(u, tools, input).subagent
    ensures var spec := BuildAgentEchoCall(u, tools, input);
            var d := DecodeField(spec.arguments, ArgumentKey(spec.toolName));
            d.Some? ==> IsSubagentEchoRequest(d.value)
  {
    ToolIsChosen(u, tools);
    LayoutOfKey(u, tools);
    SubagentLayoutRecognised(ChooseTool(u, tools).1, EffectiveInput(u, input));
  }

  lemma SubagentLayoutRecognised(l: Layout, x: string)
    requires l == SPAWN || l == TASK
    ensures var d := DecodeField(Render(l, Clean(x)), l.key); d.Some? ==> IsSubagentEchoRequest(d.value)
  {
    LayoutsParse(l);
    DecodeAny(l, x);
    var d := DecodeField(Render(l, Clean(x)), l.key);
    if d.Some? {
      var v :| d == Some(l.lead + "\"" + v);
      MarkedLead(l, v);
    }
  }

  lemma MarkedLead(l: Layout, v: string)
    requires l == SPAWN || l == TASK
    ensures IsSubagentEchoRequest(l.lead + "\"" + v)
  {
    assert l.lead == MARKER + " ";
    var s := l.lead + "\"" + v;
    assert s[0..|MARKER|] == MARKER;
    assert OccursAt(s, MARKER, 0);
  }

  // ---------- the second hop ----------

  const PREFERRED := [("exec_command", "cmd"), ("bash", "command"), ("powershell", "command"),
                      ("execute_command", "command"), ("terminal", "command"), ("shell", "command"),
                      ("run_command", "command")]

  predicate IsSubagentTool(u: Unicode, tool: string) {
    || EqualFold(u, tool, "task") || EqualFold(u, tool, "subagent") || EqualFold(u, tool, "spawn_agent")
    || EqualFold(u, tool, "collaboration__spawn_agent") || EqualFold(u, tool, "collaboration__followup_task")
  }

  /** The choice the documentation of `PickShellTool` describes: the first preferred name that is
      declared, in the declared spelling, else the first tool that starts no subagent, else "bash". */
  ghost predicate IsShellChoice(u: Unicode, tools: seq<string>, tool: string, arg: string) {
    if exists p :: 0 <= p < |PREFERRED| && HasTool(u, tools, PREFERRED[p].0) then
      exists p, i :: 0 <= p < |PREFERRED| && 0 <= i < |tools| && PreferredAt(u, tools, p, i)
                     && tool == tools[i] && arg == PREFERRED[p].1
    else if exists i :: 0 <= i < |tools| && !IsSubagentTool(u, tools[i]) then
      exists i :: 0 <= i < |tools| && !IsSubagentTool(u, tools[i]) && tool == tools[i] && arg == "command"
                  && forall j :: 0 <= j < i ==> IsSubagentTool(u, tools[j])
    else tool == "bash" && arg == "command"
  }

  ghost predicate PreferredAt(u: Unicode, tools: seq<string>, p: nat, i: nat)
    requires p < |PREFERRED| && i < |tools|
  {
    && EqualFold(u, tools[i], PREFERRED[p].0)
    && (forall q :: 0 <= q < p ==> !HasTool(u, tools, PREFERRED[q].0))
    && (forall j :: 0 <= j < i ==> !EqualFold(u, tools[j], PREFERRED[p].0))
  }

  method PickShellTool(u: Unicode, tools: seq<string>) returns (tool: string, arg: string)
    ensures IsShellChoice(u, tools, tool, arg)
  {
    for p := 0 to |PREFERRED|
      invariant forall q :: 0 <= q < p ==> !HasTool(u, tools, PREFERRED[q].0)
    {
      for i := 0 to |tools|
        invariant forall j :: 0 <= j < i ==> !EqualFold(u, tools[j], PREFERRED[p].0)
      {
        if EqualFold(u, tools[i], PREFERRED[p].0) {
          assert HasTool(u, tools, PREFERRED[p].0);
          assert PreferredAt(u, tools, p, i);
          return tools[i], PREFERRED[p].1;
        }
      }
    }
    for i := 0 to |tools|
      invariant forall j :: 0 <= j < i ==> IsSubagentTool(u, tools[j])
    {
      if !IsSubagentTool(u, tools[i]) {
        return tools[i], "command";
      }
    }
    return "bash", "command";
  }

  /** The names of `PickShellTool`'s list decide in their order, in any spelling: the most preferred one that
      is declared is called. */
  lemma ShellOrder(u: Unicode, tools: seq<string>, tool: string, arg: string)
    requires IsShellChoice(u, tools, tool, arg)
    ensures HasTool(u, tools, "exec_command") ==> EqualFold(u, tool, "exec_command")
    ensures !HasTool(u, tools, "exec_command") && HasTool(u, tools, "bash") ==> EqualFold(u, tool, "bash")
    ensures !HasTool(u, tools, "exec_command") && !HasTool(u, tools, "bash") && HasTool(u, tools, "powershell") ==>
              EqualFold(u, tool, "powershell")
    ensures Lacks(u, tools, 3) && HasTool(u, tools, "execute_command") ==> EqualFold(u, tool, "execute_command")
    ensures Lacks(u, tools, 4) && HasTool(u, tools, "terminal") ==> EqualFold(u, tool, "terminal")
    ensures Lacks(u, tools, 5) && HasTool(u, tools, "shell") ==> EqualFold(u, tool, "shell")
    ensures Lacks(u, tools, 6) && HasTool(u, tools, "run_command") ==> EqualFold(u, tool, "run_command")
  {
    PreferredNames();
    forall p: nat | p < |PREFERRED| && HasTool(u, tools, PREFERRED[p].0) && Lacks(u, tools, p)
      ensures EqualFold(u, tool, PREFERRED[p].0)
    {
      PreferredIsChosen(u, tools, tool, arg, p);
    }
  }

  /** None of the first `p` preferred names is declared. */
  ghost predicate Lacks(u: Unicode, tools: seq<string>, p: nat)
    requires p <= |PREFERRED|
  {
    forall q :: 0 <= q < p ==> !HasTool(u, tools, PREFERRED[q].0)
  }

  lemma PreferredNames()
    ensures PREFERRED[0].0 == "exec_command" && PREFERRED[1].0 == "bash" && PREFERRED[2].0 == "powershell"
    ensures PREFERRED[3].0 == "execute_command" && PREFERRED[4].0 == "terminal"
    ensures PREFERRED[5].0 == "shell" && PREFERRED[6].0 == "run_command"
  {
  }

  lemma PreferredIsChosen(u: Unicode, tools: seq<string>, tool: string, arg: string, p: nat)
    requires IsShellChoice(u, tools, tool, arg)
    requires p < |PREFERRED| && HasTool(u, tools, PREFERRED[p].0) && Lacks(u, tools, p)
    ensures EqualFold(u, tool, PREFERRED[p].0)
  {
    var q, i :| 0 <= q < |PREFERRED| && 0 <= i < |tools| && PreferredAt(u, tools, q, i) && tool == tools[i]
      && arg == PREFERRED[q].1;
    assert HasTool(u, tools, PREFERRED[q].0);
  }

  /** Only `exec_command`, in any spelling, takes its command under "cmd". */
  lemma ShellArgument(u: Unicode, tools: seq<string>, tool: string, arg: string)
    requires IsShellChoice(u, tools, tool, arg)
    ensures arg == if EqualFold(u, tool, "exec_command") then "cmd" else "command"
  {
    PreferredNames();
    if exists p :: 0 <= p < |PREFERRED| && HasTool(u, tools, PREFERRED[p].0) {
      var p, i :| 0 <= p < |PREFERRED| && 0 <= i < |tools| && PreferredAt(u, tools, p, i) && tool == tools[i]
        && arg == PREFERRED[p].1;
      if EqualFold(u, tool, "exec_command") {
        assert HasTool(u, tools, PREFERRED[0].0);
        assert p == 0;
      }
    } else {
      assert !HasTool(u, tools, PREFERRED[0].0);
    }
  }
}
