/**
 One agent cycle: the server answers an agent request with tool calls, the client starts subagents
 for them, and each subagent sends model requests of its own.  The marker in the prompt keeps the
 tree of model calls finite, and the echo text survives both printings on its way down.
 */
module AgentCycle {
  import opened Text
  import opened Json
  import opened AgentCodec
  import EchoText
  import AgentBudget
  import Tokenizer

  /** What the agent branch looks at: the last user text, the declared tools, and whether a message
      with role tool is present. */
  datatype Request = Request(text: string, tools: seq<string>, hasToolResult: bool)

  datatype Response = ToolCalls(tool: string, arguments: string, calls: nat) | Final(text: string)

  /** The block a subagent is to echo. */
  function Block(u: Unicode, text: string): string {
    if IsBlank(u, ExtractEchoPayload(text)) then text else ExtractEchoPayload(text)
  }

  /** The arguments of a subagent's own shell call. */
  function ShellArguments(arg: string, block: string): string {
    Render(Layout(None, arg, "echo ", None), EscapeQuotes(block))
  }

  /** What a MAX model's cycle takes from its configuration and from the client's limit. */
  datatype Budget = Budget(maxTokenChunk: int, requestMaxTokens: int, subCount: nat)

  /** The text of one cycle: the user's own; in MAX mode the most copies of it, at least one and at most the
      cap, that fit the model's chunk and the client's limit divided among the blocks. */
  ghost predicate IsCycleText(u: Unicode, text: string, maxMode: bool, b: Budget, echoText: string) {
    if !maxMode then echoText == text
    else exists target, k: nat ::
           HasCopies(u, text, b, target, k) && echoText == Repeat(EchoText.EffectiveText(text), k)
  }

  ghost predicate HasCopies(u: Unicode, text: string, b: Budget, target: int, k: nat) {
    && AgentBudget.IsTarget(b.maxTokenChunk, b.requestMaxTokens, b.subCount, target)
    && EchoText.CopiesFit(Tokenizer.Count(u, EchoText.EffectiveText(text)), target, k)
  }

  /** Some text of a cycle, whatever the mode and the limits. */
  ghost predicate IsEchoText(text: string, echoText: string) {
    echoText == text || exists k :: echoText == Repeat(EchoText.EffectiveText(text), k)
  }

  ghost predicate Responds(u: Unicode, subCount: nat, req: Request, resp: Response) {
    if req.tools == [] then resp.Final?
    else if IsSubagentEchoRequest(req.text) then
      if req.hasToolResult then resp == Final(Block(u, req.text))
      else exists tool, arg :: IsShellChoice(u, req.tools, tool, arg)
                               && resp == ToolCalls(tool, ShellArguments(arg, Block(u, req.text)), 1)
    else exists echoText :: IsEchoText(req.text, echoText) && Spawns(u, subCount, req, resp, echoText)
  }

  ghost predicate Spawns(u: Unicode, subCount: nat, req: Request, resp: Response, echoText: string) {
    var spec := BuildAgentEchoCall(u, req.tools, echoText);
    resp == ToolCalls(spec.toolName, spec.arguments, subCount)
  }

  /** `runAgentEcho` and `runSubagentEcho`, from the guard to the tool calls. */
  method RunAgentEcho(u: Unicode, req: Request, maxMode: bool, subagentCount: int, maxTokenChunk: int,
                      requestMaxTokens: int)
    returns (resp: Response)
    requires req.tools != []
    ensures Responds(u, if subagentCount <= 0 then 1 else subagentCount, req, resp)
    ensures !IsSubagentEchoRequest(req.text) ==>
              var subCount := if subagentCount <= 0 then 1 else subagentCount;
              Echoes(u, req, maxMode, Budget(maxTokenChunk, requestMaxTokens, subCount), resp)
  {
    if IsSubagentEchoRequest(req.text) {
      var block := ExtractEchoPayload(req.text);
      if IsBlank(u, block) {
        block := req.text;
      }
      if req.hasToolResult {
        return Final(block);
      }
      var tool, arg := PickShellTool(u, req.tools);
      return ToolCalls(tool, ShellArguments(arg, block), 1);
    }
    var subCount := if subagentCount <= 0 then 1 else subagentCount;
    ghost var b := Budget(maxTokenChunk, requestMaxTokens, subCount);
    var echoText := req.text;
    if maxMode {
      var blockTokens := EchoText.BlockTokens(maxTokenChunk, requestMaxTokens, subCount);
      echoText := EchoText.BuildInfiniteMaxText(u, req.text, blockTokens);
      CopiesAreCycleText(u, req.text, b, blockTokens, echoText);
    }
    CycleTextIsEchoText(u, req.text, maxMode, b, echoText);
    var spec := BuildAgentEchoCall(u, req.tools, echoText);
    resp := ToolCalls(spec.toolName, spec.arguments, subCount);
    assert Spawns(u, subCount, req, resp, echoText);
  }

  /** The calls of a cycle carry its text. */
  ghost predicate Echoes(u: Unicode, req: Request, maxMode: bool, b: Budget, resp: Response) {
    exists echoText :: IsCycleText(u, req.text, maxMode, b, echoText) && Spawns(u, b.subCount, req, resp, echoText)
  }

  lemma CopiesAreCycleText(u: Unicode, text: string, b: Budget, target: int, echoText: string)
    requires AgentBudget.IsTarget(b.maxTokenChunk, b.requestMaxTokens, b.subCount, target)
    requires var unit, tokens := if text == "" then "hello" else text, if target <= 0 then 2048 else target;
             exists k: nat :: EchoText.CopiesFit(Tokenizer.Count(u, unit), tokens, k) && echoText == Repeat(unit, k)
    ensures IsCycleText(u, text, true, b, echoText)
  {
    var unit := EchoText.EffectiveText(text);
    var k: nat :| EchoText.CopiesFit(Tokenizer.Count(u, unit), target, k) && echoText == Repeat(unit, k);
    assert HasCopies(u, text, b, target, k);
  }

  lemma CycleTextIsEchoText(u: Unicode, text: string, maxMode: bool, b: Budget, echoText: string)
    requires IsCycleText(u, text, maxMode, b, echoText)
    ensures IsEchoText(text, echoText)
  {
  }

  /** The mode and the limits leave no choice of the text. */
  lemma CycleTextUnique(u: Unicode, text: string, maxMode: bool, b: Budget, x: string, y: string)
    requires IsCycleText(u, text, maxMode, b, x) && IsCycleText(u, text, maxMode, b, y)
    ensures x == y
  {
    if maxMode {
      var unit := EchoText.EffectiveText(text);
      var t, k: nat :| HasCopies(u, text, b, t, k) && x == Repeat(unit, k);
      var t', k': nat :| HasCopies(u, text, b, t', k') && y == Repeat(unit, k');
      Tokenizer.CountBounds(u, unit);
      AgentBudget.TargetIs(b.maxTokenChunk, b.requestMaxTokens, b.subCount, t);
      AgentBudget.TargetIs(b.maxTokenChunk, b.requestMaxTokens, b.subCount, t');
      AgentBudget.CopiesAre(Tokenizer.Count(u, unit), t, k);
      AgentBudget.CopiesAre(Tokenizer.Count(u, unit), t, k');
    }
  }

  // ---------- the tree of model calls ----------

  /** The member a client reads the prompt of a new subagent from. */
  function PromptKey(u: Unicode, tool: string): string {
    if EqualFold(u, tool, "task") || EqualFold(u, tool, "subagent") then "prompt" else "message"
  }

  /** A model call that follows from `resp` within the cycle: a subagent called with the decoded
      prompt, or a subagent returning with the result of its shell call. */
  ghost predicate Follows(u: Unicode, req: Request, resp: Response, next: Request) {
    && resp.ToolCalls?
    && if IsSubagentTool(u, resp.tool) then
         !next.hasToolResult && DecodeField(resp.arguments, PromptKey(u, resp.tool)) == Some(next.text)
       else IsSubagentEchoRequest(req.text) && next == req.(hasToolResult := true)
  }

  function Rank(req: Request): nat {
    if !IsSubagentEchoRequest(req.text) then 2 else if req.hasToolResult then 0 else 1
  }

  /** A declared tool in the spelling of `name` is not one in the spelling of `other`. */
  lemma FoldOther(u: Unicode, tool: string, name: string, other: string, i: nat)
    requires u.Valid() && EqualFold(u, tool, name)
    requires |name| != |other| || (i < |name| && FoldsApart(name[i]) && FoldsApart(other[i]) && name[i] != other[i])
    ensures !EqualFold(u, tool, other)
  {
    if |name| == |other| {
      assert u.fold(tool[i]) == u.fold(name[i]);
    }
  }

  lemma PreferredNotSubagent(u: Unicode, tool: string, p: nat)
    requires u.Valid() && p < |PREFERRED| && EqualFold(u, tool, PREFERRED[p].0)
    ensures !IsSubagentTool(u, tool)
  {
    var name := PREFERRED[p].0;
    FoldOther(u, tool, name, "task", 0);
    FoldOther(u, tool, name, "subagent", 0);
    FoldOther(u, tool, name, "spawn_agent", 0);
    FoldOther(u, tool, name, "collaboration__spawn_agent", 0);
    FoldOther(u, tool, name, "collaboration__followup_task", 0);
  }

  /** The shell tool of a subagent never starts another subagent, whatever the client declares. */
  lemma ShellChoiceNotSubagent(u: Unicode, tools: seq<string>, tool: string, arg: string)
    requires u.Valid() && IsShellChoice(u, tools, tool, arg)
    ensures !IsSubagentTool(u, tool)
    ensures !EqualFold(u, tool, "task") && !EqualFold(u, tool, "subagent") && !EqualFold(u, tool, "spawn_agent")
    ensures !EqualFold(u, tool, "collaboration__spawn_agent") && !EqualFold(u, tool, "collaboration__followup_task")
  {
    if exists p :: 0 <= p < |PREFERRED| && HasTool(u, tools, PREFERRED[p].0) {
      var p, i :| 0 <= p < |PREFERRED| && 0 <= i < |tools| && PreferredAt(u, tools, p, i) && tool == tools[i]
        && arg == PREFERRED[p].1;
      PreferredNotSubagent(u, tool, p);
    } else if !exists i :: 0 <= i < |tools| && !IsSubagentTool(u, tools[i]) {
      assert EqualFold(u, "bash", "bash") && PREFERRED[1].0 == "bash";
      PreferredNotSubagent(u, "bash", 1);
    }
  }

  /** The shell arguments decode to one member at most. */
  lemma CommandMembers(x: string) returns (value: string)
    ensures var d := ParseObject(Render(COMMAND, Clean(x))); d == None || d == Some([Member("command", value)])
  {
    var l := COMMAND;
    LayoutsParse(l);
    DecodeRendered(l, Clean(x));
    UnescapeAny(x, l);
    var scan := Prepend(l.lead + "\"", Unescape(Clean(x) + Close(l)));
    value := "";
    if scan.Done? {
      value := scan.value;
      SingleMember(l, value, scan.rest);
    }
  }

  lemma SingleMember(l: Layout, value: string, rest: string)
    requires l == COMMAND && Parses(l) && (Broken(rest, l) || rest == After(l))
    ensures var ms := ParseAfter(Member(l.key, value), rest);
            ms == None || (ms == Some([Member("command", value)]) && WithMembers(BeforeMembers(l), ms) == ms)
  {
    if Broken(rest, l) {
      BrokenRefused(rest, l, Member(l.key, value));
    } else {
      ParseClosing(l, value);
      assert [] + ([Member(l.key, value)] + []) == [Member(l.key, value)];
    }
  }

  /** Without a member of the asked name there is no prompt to read. */
  lemma OtherFieldAbsent(x: string, key: string)
    requires key != "command"
    ensures DecodeField(Render(COMMAND, Clean(x)), key) == None
  {
    var value := CommandMembers(x);
    assert Field([Member("command", value)], key) == Field([], key) by {
      assert [Member("command", value)][..0] == [];
    }
  }

  lemma SpawnToolKey(u: Unicode, tool: string)
    requires u.Valid() && (tool == "collaboration__spawn_agent" || tool == "spawn_agent")
    ensures PromptKey(u, tool) == "message"
  {
    assert EqualFold(u, tool, tool);
    FoldOther(u, tool, tool, "task", 0);
    FoldOther(u, tool, tool, "subagent", 0);
  }

  /** The prompt of a subagent is read from the member that carries the echo text. */
  lemma ChosenKey(u: Unicode, tools: seq<string>)
    requires u.Valid() && ChooseTool(u, tools).2
    ensures PromptKey(u, ChooseTool(u, tools).0) == ChooseTool(u, tools).1.key
  {
    var tool := ChooseTool(u, tools).0;
    if tool == "collaboration__spawn_agent" || tool == "spawn_agent" {
      SpawnToolKey(u, tool);
    } else {
      assert EqualFold(u, tool, tool);
    }
  }

  /** A tool that is not flagged as a subagent tool is not one, except a follow-up tool that the
      fallback picked, and its arguments have no prompt member. */
  lemma UnflaggedTool(u: Unicode, tools: seq<string>)
    requires u.Valid() && !ChooseTool(u, tools).2 && IsSubagentTool(u, ChooseTool(u, tools).0)
    ensures ChooseTool(u, tools).1 == COMMAND
  {
    var tool := ChooseTool(u, tools).0;
    if p :| 0 <= p < |PREFERRED| && tool == PREFERRED[p].0 {
      assert EqualFold(u, tool, tool);
      PreferredNotSubagent(u, tool, p);
    }
    assert PREFERRED[0].0 == "exec_command" && PREFERRED[1].0 == "bash" && PREFERRED[2].0 == "powershell";
  }

  /** Every model call of a cycle ranks below the one it follows from. */
  lemma RankDecreases(u: Unicode, subCount: nat, req: Request, resp: Response, next: Request)
    requires u.Valid() && Responds(u, subCount, req, resp) && Follows(u, req, resp, next)
    ensures Rank(next) < Rank(req)
  {
    if IsSubagentEchoRequest(req.text) {
      var tool, arg :| IsShellChoice(u, req.tools, tool, arg)
                       && resp == ToolCalls(tool, ShellArguments(arg, Block(u, req.text)), 1);
      ShellChoiceNotSubagent(u, req.tools, tool, arg);
    } else {
      var echoText :| IsEchoText(req.text, echoText) && Spawns(u, subCount, req, resp, echoText);
      SpawnedRank(u, subCount, req, resp, next, echoText);
    }
  }

  lemma SpawnedRank(u: Unicode, subCount: nat, req: Request, resp: Response, next: Request, echoText: string)
    requires u.Valid() && !IsSubagentEchoRequest(req.text)
    requires Spawns(u, subCount, req, resp, echoText) && Follows(u, req, resp, next)
    ensures IsSubagentEchoRequest(next.text)
  {
    if ChooseTool(u, req.tools).2 {
      ChosenKey(u, req.tools);
      SubagentPromptRecognised(u, req.tools, echoText);
    } else {
      UnflaggedTool(u, req.tools);
      OtherFieldAbsent(EffectiveInput(u, echoText), PromptKey(u, resp.tool));
    }
  }

  /** The model calls of one cycle as they happened. */
  datatype CallTree = Call(req: Request, resp: Response, children: seq<CallTree>)

  ghost predicate Happens(u: Unicode, subCount: nat, t: CallTree) {
    && Responds(u, subCount, t.req, t.resp)
    && |t.children| <= (if t.resp.ToolCalls? then t.resp.calls else 0)
    && forall i :: 0 <= i < |t.children| ==>
         Follows(u, t.req, t.resp, t.children[i].req) && Happens(u, subCount, t.children[i])
  }

  function Calls(t: CallTree): nat {
    1 + SumCalls(t.children)
  }

  function SumCalls(ts: seq<CallTree>): nat {
    if ts == [] then 0 else Calls(ts[0]) + SumCalls(ts[1..])
  }

  function CallBound(subCount: nat, rank: nat): nat {
    if rank == 0 then 1 else if rank == 1 then 2 else 1 + 2 * subCount
  }

  lemma {:induction false} SumCallsBound(ts: seq<CallTree>, b: nat)
    requires forall i :: 0 <= i < |ts| ==> Calls(ts[i]) <= b
    ensures SumCalls(ts) <= |ts| * b
  {
    if ts != [] {
      SumCallsBound(ts[1..], b);
      assert |ts| * b == b + |ts[1..]| * b;
    }
  }

  /** A cycle makes at most one call for the user and two for each subagent, whatever the clients
      declare and whatever the texts say. */
  lemma {:induction false} CallsBounded(u: Unicode, subCount: nat, t: CallTree)
    requires u.Valid() && subCount >= 1 && Happens(u, subCount, t)
    ensures Calls(t) <= CallBound(subCount, Rank(t.req))
    decreases t
  {
    forall i | 0 <= i < |t.children| ensures Calls(t.children[i]) <= 2
      && (Rank(t.req) < 2 ==> Calls(t.children[i]) <= 1) {
      RankDecreases(u, subCount, t.req, t.resp, t.children[i].req);
      CallsBounded(u, subCount, t.children[i]);
    }
    if Rank(t.req) < 2 {
      SumCallsBound(t.children, 1);
    } else {
      SumCallsBound(t.children, 2);
    }
  }

  // ---------- the text on its way down ----------

  lemma {:induction false} EscapeIsClean(x: string)
    requires '\n' !in x
    ensures EscapeQuotes(x) == Clean(x)
  {
    if x != "" {
      assert x[0] in x && '\n' !in x[1..];
      EscapeIsClean(x[1..]);
      CleanCons(x);
    }
  }

  lemma SpacesNotBlank(u: Unicode, x: string)
    requires u.Valid() && !IsBlank(u, x)
    ensures !IsBlank(u, Spaces(x))
  {
    var i :| 0 <= i < |x| && !u.isSpace(x[i]);
    assert Spaces(x)[i] == x[i];
  }

  /** Second hop: a subagent that was given `x` asks the shell to echo `x`. */
  lemma SecondHop(u: Unicode, lead: string, arg: string, x: string)
    requires u.Valid() && !IsBlank(u, x) && Carried(x) && EndsInEcho(lead) && (arg == "cmd" || arg == "command")
    ensures var prompt := lead + "\"" + (Spaces(x) + "\"");
            && Block(u, prompt) == Spaces(x)
            && DecodeField(ShellArguments(arg, Block(u, prompt)), arg) == Some("echo \"" + (Spaces(x) + "\""))
            && ExtractEchoPayload("echo \"" + (Spaces(x) + "\"")) == Spaces(x)
  {
    BlockOfPrompt(u, lead, x);
    ShellHop(arg, x);
  }

  lemma BlockOfPrompt(u: Unicode, lead: string, x: string)
    requires u.Valid() && !IsBlank(u, x) && Carried(x) && EndsInEcho(lead)
    ensures Block(u, lead + "\"" + (Spaces(x) + "\"")) == Spaces(x)
  {
    var l := Layout(None, "", lead, None);
    ExtractCarried(l, x);
    SpacesNotBlank(u, x);
  }

  /** A prompt without an echo in it, or with a blank one, is echoed as a whole: what a subagent echoes is
      blank only when its prompt is. */
  lemma BlockNotBlank(u: Unicode, prompt: string)
    ensures Index(prompt, "echo \"") < 0 || IsBlank(u, ExtractEchoPayload(prompt)) ==> Block(u, prompt) == prompt
    ensures !IsBlank(u, ExtractEchoPayload(prompt)) ==> Block(u, prompt) == ExtractEchoPayload(prompt)
    ensures IsBlank(u, Block(u, prompt)) ==> IsBlank(u, prompt)
  {
  }

  lemma ShellHop(arg: string, x: string)
    requires Carried(x) && (arg == "cmd" || arg == "command")
    ensures DecodeField(ShellArguments(arg, Spaces(x)), arg) == Some("echo \"" + (Spaces(x) + "\""))
    ensures ExtractEchoPayload("echo \"" + (Spaces(x) + "\"")) == Spaces(x)
  {
    var y := Spaces(x);
    var l := Layout(None, arg, "echo ", None);
    LayoutsParse(l);
    EscapeIsClean(y);
    DecodeCarried(l, y);
    ExtractCarried(l, y);
    assert Spaces(y) == y;
    assert l.lead + "\"" == "echo \"";
  }

  /** The prompt of a subagent. */
  function Prompt(text: string): string {
    MARKER + " " + "\"" + (text + "\"")
  }

  /** What the client of a subagent tool reads as the prompt, for any text that can be carried. */
  lemma PromptIs(u: Unicode, tools: seq<string>, input: string)
    requires u.Valid() && Carried(EffectiveInput(u, input)) && BuildAgentEchoCall(u, tools, input).subagent
    ensures var spec, text := BuildAgentEchoCall(u, tools, input), Spaces(EffectiveInput(u, input));
            && DecodeField(spec.arguments, PromptKey(u, spec.toolName)) == Some(Prompt(text))
            && ExtractEchoPayload(Prompt(text)) == text
  {
    var l := ChooseTool(u, tools).1;
    ChosenKey(u, tools);
    LeadOfSubagent(u, tools);
    LayoutsParse(l);
    DecodeCarried(l, EffectiveInput(u, input));
    ExtractCarried(l, EffectiveInput(u, input));
  }

  lemma LeadOfSubagent(u: Unicode, tools: seq<string>)
    requires ChooseTool(u, tools).2
    ensures ChooseTool(u, tools).1.lead == MARKER + " "
  {
    assert SPAWN.lead == MARKER + " " && TASK.lead == MARKER + " ";
  }

  /** The text of a cycle reaches the subagents: in normal mode the user's own text is in each prompt, in
      MAX mode exactly the most copies of it that the chunk and the client's limit allow. */
  lemma CycleReachesSubagents(u: Unicode, req: Request, maxMode: bool, b: Budget, resp: Response)
    returns (echoText: string)
    requires u.Valid() && Carried(req.text) && Echoes(u, req, maxMode, b, resp)
    requires resp.ToolCalls? && StartsSubagent(resp.tool)
    ensures IsCycleText(u, req.text, maxMode, b, echoText) && resp.calls == b.subCount
    ensures var text := Spaces(if IsBlank(u, echoText) then "hello" else echoText);
            && DecodeField(resp.arguments, PromptKey(u, resp.tool)) == Some(Prompt(text))
            && ExtractEchoPayload(Prompt(text)) == text
  {
    echoText :| IsCycleText(u, req.text, maxMode, b, echoText) && Spawns(u, b.subCount, req, resp, echoText);
    CycleTextCarried(u, req.text, maxMode, b, echoText);
    ToolIsChosen(u, req.tools);
    PromptIs(u, req.tools, echoText);
  }

  lemma CycleTextCarried(u: Unicode, text: string, maxMode: bool, b: Budget, echoText: string)
    requires Carried(text) && IsCycleText(u, text, maxMode, b, echoText)
    ensures Carried(echoText) && Carried(EffectiveInput(u, echoText))
  {
    if maxMode {
      var target, k: nat :| HasCopies(u, text, b, target, k) && echoText == Repeat(EchoText.EffectiveText(text), k);
      CopiesCarried(EchoText.EffectiveText(text), k);
    }
  }

  lemma {:induction false} CopiesCarried(unit: string, k: nat)
    requires Carried(unit)
    ensures Carried(Repeat(unit, k))
  {
    if k > 0 {
      CopiesCarried(unit, k - 1);
    }
  }

  /** With a chunk of 2048 tokens and no limit of the client the MAX text of "hi" is 2048 copies, and with
      a limit of 100 and one subagent it is 50. */
  lemma CopiesOfHi(u: Unicode)
    requires u.Valid()
    ensures IsCycleText(u, "hi", true, Budget(2048, 0, 1), Repeat("hi", 2048))
    ensures IsCycleText(u, "hi", true, Budget(2048, 100, 1), Repeat("hi", 50))
    ensures IsCycleText(u, "hi", false, Budget(2048, 0, 1), "hi")
  {
    AgentBudget.HiIsOneToken(u);
    assert HasCopies(u, "hi", Budget(2048, 0, 1), 2048, 2048);
    assert HasCopies(u, "hi", Budget(2048, 100, 1), 50, 50);
  }

  /** What the subagent's shell is told to echo, for the user's text and any declared tools. */
  lemma BothHops(u: Unicode, tools: seq<string>, subTools: seq<string>, input: string, shell: string, arg: string)
    requires u.Valid() && !IsBlank(u, input) && Carried(input) && BuildAgentEchoCall(u, tools, input).subagent
    requires IsShellChoice(u, subTools, shell, arg)
    ensures var spec := BuildAgentEchoCall(u, tools, input);
            var prompt := DecodeField(spec.arguments, PromptKey(u, spec.toolName));
            && prompt.Some?
            && var command := DecodeField(ShellArguments(arg, Block(u, prompt.value)), arg);
               command.Some? && ExtractEchoPayload(command.value) == Spaces(input)
  {
    PromptIs(u, tools, input);
    ShellChoiceArgument(u, subTools, shell, arg);
    MarkerLeadEnds();
    SecondHop(u, MARKER + " ", arg, input);
  }

  lemma ShellChoiceArgument(u: Unicode, tools: seq<string>, tool: string, arg: string)
    requires IsShellChoice(u, tools, tool, arg)
    ensures arg == "cmd" || arg == "command"
  {
  }

  // ---------- the bound is reached ----------

  /** A subagent's two calls: its shell call, and its answer once the shell has run. */
  function Subagent(u: Unicode, prompt: string, tools: seq<string>, shell: string, arg: string): CallTree {
    var asked := Request(prompt, tools, false);
    var answer := Call(asked.(hasToolResult := true), Final(Block(u, prompt)), []);
    Call(asked, ToolCalls(shell, ShellArguments(arg, Block(u, prompt)), 1), [answer])
  }

  lemma SubagentHappens(u: Unicode, subCount: nat, prompt: string, tools: seq<string>, shell: string, arg: string)
    requires u.Valid() && tools != [] && IsSubagentEchoRequest(prompt) && IsShellChoice(u, tools, shell, arg)
    ensures Happens(u, subCount, Subagent(u, prompt, tools, shell, arg))
    ensures Calls(Subagent(u, prompt, tools, shell, arg)) == 2
  {
    var asked := Request(prompt, tools, false);
    var call := ToolCalls(shell, ShellArguments(arg, Block(u, prompt)), 1);
    var answer := Call(asked.(hasToolResult := true), Final(Block(u, prompt)), []);
    ShellChoiceNotSubagent(u, tools, shell, arg);
    HappensOnce(u, subCount, Call(asked, call, [answer]), answer);
  }

  lemma HappensOnce(u: Unicode, subCount: nat, t: CallTree, answer: CallTree)
    requires t.children == [answer] && answer.children == []
    requires Responds(u, subCount, t.req, t.resp) && Responds(u, subCount, answer.req, answer.resp)
    requires t.resp.ToolCalls? && t.resp.calls == 1 && Follows(u, t.req, t.resp, answer.req)
    ensures Happens(u, subCount, t) && Calls(t) == 2
  {
    assert Happens(u, subCount, answer);
    assert SumCalls(t.children) == Calls(answer) + SumCalls([]);
  }

  lemma {:induction false} SumCallsSame(t: CallTree, n: nat)
    ensures SumCalls(Repeat([t], n)) == n * Calls(t)
  {
    if n > 0 {
      SumCallsSame(t, n - 1);
      assert Repeat([t], n)[1..] == Repeat([t], n - 1);
    }
  }

  lemma ChosenIsSubagentTool(u: Unicode, tools: seq<string>)
    requires ChooseTool(u, tools).2
    ensures tools != [] && IsSubagentTool(u, ChooseTool(u, tools).0)
  {
    var tool := ChooseTool(u, tools).0;
    assert EqualFold(u, tool, tool);
  }

  lemma PromptFollows(u: Unicode, subCount: nat, req: Request, input: string, subTools: seq<string>)
    requires u.Valid() && Carried(EffectiveInput(u, input)) && BuildAgentEchoCall(u, req.tools, input).subagent
    ensures var spec, prompt := BuildAgentEchoCall(u, req.tools, input), Prompt(Spaces(EffectiveInput(u, input)));
            Follows(u, req, ToolCalls(spec.toolName, spec.arguments, subCount), Request(prompt, subTools, false))
  {
    PromptIs(u, req.tools, input);
    ChosenIsSubagentTool(u, req.tools);
  }

  lemma RootHappens(u: Unicode, subCount: nat, req: Request, resp: Response, child: CallTree)
    requires Responds(u, subCount, req, resp) && resp.ToolCalls? && resp.calls == subCount
    requires Follows(u, req, resp, child.req) && Happens(u, subCount, child) && Calls(child) == 2
    ensures var t := Call(req, resp, Repeat([child], subCount));
            Happens(u, subCount, t) && Calls(t) == 1 + 2 * subCount
  {
    SumCallsSame(child, subCount);
    RepeatIsSame(child, subCount);
  }

  lemma PromptMarked(text: string)
    ensures IsSubagentEchoRequest(Prompt(text))
  {
    var s := Prompt(text);
    assert s[0..|MARKER|] == MARKER;
    assert OccursAt(s, MARKER, 0);
  }

  /** The bound on a cycle's calls is reached, by any text that the calls can carry. */
  lemma CallsAttained(u: Unicode, subCount: nat, tools: seq<string>, subTools: seq<string>, input: string,
                      shell: string, arg: string) returns (t: CallTree)
    requires u.Valid() && Carried(EffectiveInput(u, input)) && BuildAgentEchoCall(u, tools, input).subagent
    requires !IsSubagentEchoRequest(input) && subTools != [] && IsShellChoice(u, subTools, shell, arg)
    ensures t.req == Request(input, tools, false) && Happens(u, subCount, t)
    ensures Calls(t) == CallBound(subCount, Rank(t.req))
  {
    var prompt := Prompt(Spaces(EffectiveInput(u, input)));
    PromptMarked(Spaces(EffectiveInput(u, input)));
    var child := Subagent(u, prompt, subTools, shell, arg);
    SubagentHappens(u, subCount, prompt, subTools, shell, arg);
    t := RootOf(u, subCount, Request(input, tools, false), child);
  }

  lemma RootOf(u: Unicode, subCount: nat, req: Request, child: CallTree) returns (t: CallTree)
    requires u.Valid() && Carried(EffectiveInput(u, req.text)) && !IsSubagentEchoRequest(req.text)
    requires BuildAgentEchoCall(u, req.tools, req.text).subagent
    requires child.req == Request(Prompt(Spaces(EffectiveInput(u, req.text))), child.req.tools, false)
    requires Happens(u, subCount, child) && Calls(child) == 2
    ensures t.req == req && Happens(u, subCount, t) && Calls(t) == 1 + 2 * subCount
  {
    var spec := BuildAgentEchoCall(u, req.tools, req.text);
    var resp := ToolCalls(spec.toolName, spec.arguments, subCount);
    ChosenIsSubagentTool(u, req.tools);
    Spawning(u, subCount, req, resp);
    PromptFollows(u, subCount, req, req.text, child.req.tools);
    RootHappens(u, subCount, req, resp, child);
    t := Call(req, resp, Repeat([child], subCount));
  }

  /** In normal mode the echo text is the user's own. */
  lemma Spawning(u: Unicode, subCount: nat, req: Request, resp: Response)
    requires req.tools != [] && !IsSubagentEchoRequest(req.text) && Spawns(u, subCount, req, resp, req.text)
    ensures Responds(u, subCount, req, resp)
  {
    assert IsEchoText(req.text, req.text);
  }

  lemma {:induction false} RepeatIsSame(t: CallTree, n: nat)
    ensures |Repeat([t], n)| == n && forall i :: 0 <= i < n ==> Repeat([t], n)[i] == t
  {
    if n > 0 {
      RepeatIsSame(t, n - 1);
    }
  }
}
