/**
 The output tokens of a whole agent cycle: the tool calls with their wrapping, and the streamed text.
 The cap on the block is meant to keep them within the client's limit; here is exactly when it does.
 */
module AgentBudget {
  import opened Text
  import opened Json
  import opened Tokenizer
  import opened AgentCodec
  import EchoText

  // ---------- what a cycle charges ----------

  /** The 80-rune parts of the streamed text. */
  function Parts(s: string): seq<string> {
    if s == "" then []
    else if |s| <= EchoText.PART then [s]
    else [s[..EchoText.PART]] + Parts(s[EchoText.PART..])
  }

  /** The tokens of a tool call, charged by the writer for its name and arguments together. */
  function CallTokens(u: Unicode, spec: AgentEchoSpec): nat {
    Count(u, spec.toolName + spec.arguments)
  }

  function CycleTokens(u: Unicode, tools: seq<string>, echoText: string, subCount: nat): int {
    subCount * CallTokens(u, BuildAgentEchoCall(u, tools, echoText)) + EchoText.SumCounts(u, Parts(echoText))
  }

  lemma {:induction false} PartsAre(s: string, parts: seq<string>)
    requires EchoText.Concat(parts) == s
    requires forall p :: 0 <= p < |parts| ==>
               1 <= |parts[p]| <= EchoText.PART && (p < |parts| - 1 ==> |parts[p]| == EchoText.PART)
    ensures parts == Parts(s)
  {
    if parts != [] {
      var rest := parts[1..];
      assert s == parts[0] + EchoText.Concat(rest);
      assert forall p :: 0 <= p < |rest| ==> rest[p] == parts[p + 1];
      if rest == [] {
        assert s == parts[0] + "" == parts[0];
      } else {
        assert EchoText.Concat(rest) == rest[0] + EchoText.Concat(rest[1..]);
        assert s[..EchoText.PART] == parts[0] && s[EchoText.PART..] == EchoText.Concat(rest);
        PartsAre(EchoText.Concat(rest), rest);
      }
    }
  }

  /** The block an agent cycle of a MAX model aims at, given the client's limit. */
  ghost predicate IsTarget(maxTokenChunk: int, mt: int, subCount: nat, target: int) {
    var chunk := EchoText.EffectiveTokens(maxTokenChunk);
    && target >= 1
    && (mt > 0 ==> (1 + subCount) * target <= EchoText.Max(mt, 1 + subCount))
    && (target == chunk || (target < chunk && (1 + subCount) * (target + 1) > mt > 0))
  }

  /** The same, computed: the model's chunk, unless the client's limit divided among the blocks is less. */
  function TargetOf(maxTokenChunk: int, mt: int, subCount: nat): int {
    var chunk := EchoText.EffectiveTokens(maxTokenChunk);
    if mt <= 0 then chunk
    else
      var share := if mt < 1 + subCount then 1 else mt / (1 + subCount);
      if chunk > share then share else chunk
  }

  function CopiesOf(per: nat, target: int): (k: nat)
    requires per >= 1 && target >= 1
    ensures k >= 1
  {
    var q := target / per;
    if q < 1 then 1 else if q > EchoText.MAX_REPEATS then EchoText.MAX_REPEATS else q
  }

  lemma TargetIs(maxTokenChunk: int, mt: int, subCount: nat, target: int)
    requires IsTarget(maxTokenChunk, mt, subCount, target)
    ensures target == TargetOf(maxTokenChunk, mt, subCount)
  {
    var n, chunk := 1 + subCount, EchoText.EffectiveTokens(maxTokenChunk);
    if mt > 0 {
      if mt >= n {
        EchoText.QuotientBounds(mt, n);
        ShareIs(n, mt, mt / n, target, chunk);
      } else if target > 1 {
        EchoText.ScaledAtMost(n, 2, target);
      }
    }
  }

  lemma ShareIs(n: nat, mt: nat, share: nat, target: int, chunk: int)
    requires n >= 1 && mt >= n && n * share <= mt < n * (share + 1) && n * target <= mt
    requires target == chunk || (target < chunk && n * (target + 1) > mt)
    ensures target <= share && (target == share || (target == chunk && chunk <= share))
  {
    if target > share {
      EchoText.ScaledAtMost(n, share + 1, target);
    } else if target < share && target < chunk {
      EchoText.ScaledAtMost(n, target + 1, share);
    }
  }

  lemma CopiesAre(per: nat, target: nat, k: nat)
    requires per >= 1 && target >= 1 && EchoText.CopiesFit(per, target, k)
    ensures k == CopiesOf(per, target)
  {
    EchoText.QuotientFits(per, target);
    var q := CopiesOf(per, target);
    if k < q {
      EchoText.ScaledAtMost(per, k + 1, q);
    } else if q < k {
      EchoText.ScaledAtMost(per, q + 1, k);
    }
  }

  /** The block of a cycle. */
  function BlockOf(u: Unicode, userText: string, maxTokenChunk: int, mt: int, subCount: nat): string
    requires Count(u, EchoText.EffectiveText(userText)) >= 1
  {
    var unit := EchoText.EffectiveText(userText);
    TargetPositive(maxTokenChunk, mt, subCount);
    Repeat(unit, CopiesOf(Count(u, unit), TargetOf(maxTokenChunk, mt, subCount)))
  }

  lemma TargetPositive(maxTokenChunk: int, mt: int, subCount: nat)
    ensures TargetOf(maxTokenChunk, mt, subCount) >= 1
  {
    if mt >= 1 + subCount {
      EchoText.QuotientBounds(mt, 1 + subCount);
      if mt / (1 + subCount) <= 0 {
        EchoText.ScaledAtMost(1 + subCount, mt / (1 + subCount) + 1, 1);
      }
    }
  }

  /** What the streaming part of `runAgentEcho` adds to the session's output tokens in one cycle. */
  method ChargeCycle(u: Unicode, tools: seq<string>, userText: string, maxMode: bool, subCount: nat,
                     maxTokenChunk: int, requestMaxTokens: int) returns (tokens: nat)
    requires subCount >= 1
    ensures !maxMode ==> tokens == CycleTokens(u, tools, userText, subCount)
    ensures Count(u, EchoText.EffectiveText(userText)) >= 1
    ensures maxMode ==>
              tokens == CycleTokens(u, tools, BlockOf(u, userText, maxTokenChunk, requestMaxTokens, subCount), subCount)
  {
    CountBounds(u, EchoText.EffectiveText(userText));
    var echoText := userText;
    if maxMode {
      echoText := BuildBlock(u, userText, subCount, maxTokenChunk, requestMaxTokens);
    }
    tokens := Charge(u, tools, echoText, subCount);
  }

  method BuildBlock(u: Unicode, userText: string, subCount: nat, maxTokenChunk: int, requestMaxTokens: int)
    returns (block: string)
    requires subCount >= 1 && Count(u, EchoText.EffectiveText(userText)) >= 1
    ensures block == BlockOf(u, userText, maxTokenChunk, requestMaxTokens, subCount)
  {
    var blockTokens := EchoText.BlockTokens(maxTokenChunk, requestMaxTokens, subCount);
    TargetIs(maxTokenChunk, requestMaxTokens, subCount, blockTokens);
    block := EchoText.BuildInfiniteMaxText(u, userText, blockTokens);
    ghost var unit := EchoText.EffectiveText(userText);
    ghost var k: nat :| EchoText.CopiesFit(Count(u, unit), blockTokens, k) && block == Repeat(unit, k);
    CopiesAre(Count(u, unit), blockTokens, k);
  }

  method Charge(u: Unicode, tools: seq<string>, echoText: string, subCount: nat) returns (tokens: nat)
    ensures tokens == CycleTokens(u, tools, echoText, subCount)
  {
    var spec := BuildAgentEchoCall(u, tools, echoText);
    tokens := 0;
    for i := 0 to subCount
      invariant tokens == i * CallTokens(u, spec)
    {
      var call := CountString(u, spec.toolName + spec.arguments);
      NextCall(i, CallTokens(u, spec));
      tokens := tokens + call;
    }
    var parts, streamed := EchoText.EmitInParts(u, echoText);
    PartsAre(echoText, parts);
    tokens := tokens + streamed;
  }

  lemma NextCall(i: nat, call: nat)
    ensures (i + 1) * call == i * call + call
  {
  }

  // ---------- exactly ----------

  /** What a tool call says around the text. */
  function Opening(l: Layout): string {
    "{" + Before(l) + Quoted(l.key) + ":\"" + l.lead + "\\\""
  }

  function Wrapping(u: Unicode, tools: seq<string>): nat {
    var (tool, l, _) := ChooseTool(u, tools);
    Count(u, tool) + Count(u, Opening(l)) + Count(u, Close(l))
  }

  lemma PunctIsAlone(u: Unicode, r: char)
    requires u.Valid() && IsAsciiPunct(r)
    ensures ClassOf(u, r) == Punct
  {
  }

  lemma CallParts(tool: string, l: Layout, clean: string)
    ensures tool + Render(l, clean) == (tool + Opening(l)) + (clean + Close(l))
  {
    var head, rest := "{" + Before(l) + Quoted(l.key) + ":\"", clean + Close(l);
    Regroup(l.lead, "\\\"", rest);
    Regroup(head, l.lead + "\\\"", rest);
    Regroup(head, l.lead, "\\\"");
    Regroup(tool, Opening(l), rest);
  }

  lemma OpeningEnds(l: Layout)
    ensures |Opening(l)| >= 1 && Opening(l)[0] == '{' && Opening(l)[|Opening(l)| - 1] == '"'
    ensures Close(l)[0] == '\\'
  {
  }

  /** A tool call costs its wrapping and the text in it: quotes end the text on both sides. */
  lemma CallExactly(u: Unicode, tools: seq<string>, text: string)
    requires u.Valid()
    ensures CallTokens(u, BuildAgentEchoCall(u, tools, text))
            == Wrapping(u, tools) + Count(u, Clean(EffectiveInput(u, text)))
  {
    var (tool, l, _) := ChooseTool(u, tools);
    var clean := Clean(EffectiveInput(u, text));
    OpeningEnds(l);
    PunctIsAlone(u, '{');
    PunctIsAlone(u, '"');
    PunctIsAlone(u, '\\');
    CallParts(tool, l, clean);
    CountBefore(u, tool, Opening(l));
    CountBetween(u, tool + Opening(l), clean, Close(l));
  }

  /** The whole cycle, for every text: each subagent's call and the streamed parts. */
  lemma CycleExactly(u: Unicode, tools: seq<string>, echoText: string, subCount: nat)
    requires u.Valid()
    ensures CycleTokens(u, tools, echoText, subCount)
            == subCount * Wrapping(u, tools)
               + subCount * Count(u, Clean(EffectiveInput(u, echoText))) + EchoText.SumCounts(u, Parts(echoText))
  {
    CallExactly(u, tools, echoText);
    var call, wrap := CallTokens(u, BuildAgentEchoCall(u, tools, echoText)), Wrapping(u, tools);
    var text := Count(u, Clean(EffectiveInput(u, echoText)));
    Sums(subCount, call, wrap, text, EchoText.SumCounts(u, Parts(echoText)));
  }

  lemma Sums(n: nat, call: nat, wrap: nat, text: nat, rest: nat)
    requires call == wrap + text
    ensures n * call + rest == n * wrap + n * text + rest
  {
    Distributes(n, wrap, text);
  }

  lemma Distributes(n: nat, a: nat, b: nat)
    ensures n * (a + b) == n * a + n * b
  {
  }

  // ---------- the limit ----------

  /** A text charged rune by rune that the codec leaves as it is. */
  ghost predicate Plain(u: Unicode, s: string) {
    Ungrouped(u, s) && '"' !in s && '\n' !in s
  }

  lemma {:induction false} PlainParts(u: Unicode, s: string)
    requires Ungrouped(u, s)
    ensures EchoText.SumCounts(u, Parts(s)) == Count(u, s)
    decreases |s|
  {
    if |s| > EchoText.PART {
      var a, b := s[..EchoText.PART], s[EchoText.PART..];
      assert s == a + b && Parts(s)[0] == a && Parts(s)[1..] == Parts(b);
      PlainParts(u, b);
      UngroupedConcat(u, a, b);
    } else if s != "" {
      assert Parts(s)[1..] == [];
    }
  }

  lemma {:induction false} PlainClean(s: string)
    requires '"' !in s && '\n' !in s
    ensures Clean(s) == s
  {
    if s != "" {
      assert s[0] in s;
      PlainClean(s[1..]);
      CleanCons(s);
    }
  }

  lemma {:induction false} PlainRepeat(u: Unicode, s: string, k: nat)
    requires Plain(u, s)
    ensures Plain(u, Repeat(s, k))
  {
    UngroupedRepeat(u, s, k);
    if k > 0 {
      PlainRepeat(u, s, k - 1);
    }
  }

  /** `k` copies of a plain text cost their tokens once in the stream and once in every call. */
  lemma PlainCycle(u: Unicode, tools: seq<string>, unit: string, subCount: nat, k: nat)
    requires u.Valid() && unit != "" && Plain(u, unit) && k >= 1
    ensures CycleTokens(u, tools, Repeat(unit, k), subCount)
            == k * ((1 + subCount) * Count(u, unit)) + subCount * Wrapping(u, tools)
  {
    var block := Repeat(unit, k);
    PlainRepeat(u, unit, k);
    UngroupedRepeat(u, unit, k);
    PlainParts(u, block);
    PlainClean(block);
    assert block[0] == unit[0] && !IsBlank(u, block) by { PlainNotBlank(u, unit, block); }
    CycleExactly(u, tools, block, subCount);
    CopiesCost(subCount, k, Count(u, unit));
  }

  lemma PlainNotBlank(u: Unicode, unit: string, block: string)
    requires unit != "" && Plain(u, unit) && unit <= block
    ensures block[0] == unit[0] && !IsBlank(u, block)
  {
    assert !Grouped(ClassOf(u, unit[0])) && unit[0] in unit;
    assert !u.isSpace(block[0]);
  }

  lemma CopiesCost(s: nat, k: nat, per: nat)
    ensures s * (k * per) + k * per == k * ((1 + s) * per)
  {
    assert k * ((1 + s) * per) == (1 + s) * (k * per);
  }

  /** Within the limit exactly when the limit holds that sum. */
  lemma PlainWhole(u: Unicode, tools: seq<string>, unit: string, mt: int, subCount: nat, k: nat)
    requires u.Valid() && unit != "" && Plain(u, unit) && k >= 1
    ensures CycleTokens(u, tools, Repeat(unit, k), subCount) <= mt
            <==> k * ((1 + subCount) * Count(u, unit)) + subCount * Wrapping(u, tools) <= mt
  {
    PlainCycle(u, tools, unit, subCount, k);
  }

  /** Where the cap on the block takes effect, a cycle of a plain text stays within the client's limit
      exactly when one copy for everybody fits and what the copies leave over holds the wrapping of all
      tool calls. */
  lemma PlainExactly(u: Unicode, tools: seq<string>, unit: string, maxTokenChunk: int, mt: int, subCount: nat,
                      target: int, k: nat)
    requires u.Valid() && unit != "" && Plain(u, unit) && subCount >= 1 && mt > 0
    requires IsTarget(maxTokenChunk, mt, subCount, target) && target < EchoText.EffectiveTokens(maxTokenChunk)
    requires EchoText.CopiesFit(Count(u, unit), target, k) && k < EchoText.MAX_REPEATS
    ensures var round := (1 + subCount) * Count(u, unit);
            round > 0
            && (CycleTokens(u, tools, Repeat(unit, k), subCount) <= mt
                <==> mt >= round && mt % round >= subCount * Wrapping(u, tools))
  {
    CountBounds(u, unit);
    WrappingCosts(u, tools);
    PlainWhole(u, tools, unit, mt, subCount, k);
    var per, round := Count(u, unit), (1 + subCount) * Count(u, unit);
    CapArithmetic(1 + subCount, per, target, k, mt);
    Positive(subCount, Wrapping(u, tools));
    if mt >= round {
      RemainderIs(mt, round, k);
    }
  }

  lemma WrappingCosts(u: Unicode, tools: seq<string>)
    ensures Wrapping(u, tools) >= 2
  {
    var l := ChooseTool(u, tools).1;
    OpeningEnds(l);
    CountBounds(u, Opening(l));
    CountBounds(u, Close(l));
  }

  lemma Positive(a: nat, b: nat)
    requires a >= 1 && b >= 2
    ensures a * b >= 2 * a
  {
  }

  /** Copies under a cap: `k` rounds are in `mt`, and no further round is. */
  lemma CapArithmetic(n: nat, per: nat, target: int, k: nat, mt: int)
    requires n >= 2 && per >= 1 && target >= 1 && mt > 0
    requires n * target <= EchoText.Max(mt, n) && n * (target + 1) > mt
    requires k >= 1 && (k > 1 ==> k * per <= target) && (k + 1) * per > target
    ensures n * per >= 1
    ensures mt < (k + 1) * (n * per)
    ensures mt >= n * per ==> k * (n * per) <= mt
    ensures mt < n * per ==> k * (n * per) > mt
  {
    assert n * per >= n by { EchoText.ScaledAtMost(n, 1, per); }
    assert n * (target + 1) <= n * ((k + 1) * per) by { EchoText.ScaledAtMost(n, target + 1, (k + 1) * per); }
    Swaps(n, k + 1, per);
    Swaps(n, k, per);
    if k > 1 {
      EchoText.ScaledAtMost(n, k * per, target);
      if mt < n * per {
        EchoText.ScaledAtMost(n * per, 1, k);
        Commutes(n * per, k);
      }
      if target == 1 {
        EchoText.ScaledAtMost(k, 1, per);
      } else {
        EchoText.ScaledAtMost(n, 2, target);
      }
    }
  }

  lemma Swaps(n: nat, k: nat, per: nat)
    ensures n * (k * per) == k * (n * per)
  {
  }

  lemma Commutes(a: nat, b: nat)
    ensures a * b == b * a
  {
  }

  lemma RemainderIs(mt: nat, round: nat, k: nat)
    requires round > 0 && k * round <= mt < (k + 1) * round
    ensures mt % round == mt - k * round
  {
    Commutes(k, round);
    Commutes(k + 1, round);
    QuotientIs(mt, round, k);
  }

  lemma QuotientIs(mt: nat, round: nat, k: nat)
    requires round > 0 && round * k <= mt < round * (k + 1)
    ensures mt / round == k && mt % round == mt - round * k
  {
    var q := mt / round;
    assert mt == round * q + mt % round;
    if q < k {
      EchoText.ScaledAtMost(round, q + 1, k);
    } else if q > k {
      EchoText.ScaledAtMost(round, k + 1, q);
    }
  }

  /** So the cap never does its work for a text of one token: the copies leave over less than a round. */
  lemma OneTokenOvershoots(u: Unicode, tools: seq<string>, unit: string, maxTokenChunk: int, mt: int, subCount: nat,
                           target: int, k: nat)
    requires u.Valid() && unit != "" && Plain(u, unit) && Count(u, unit) == 1 && subCount >= 1 && mt > 0
    requires IsTarget(maxTokenChunk, mt, subCount, target) && target < EchoText.EffectiveTokens(maxTokenChunk)
    requires EchoText.CopiesFit(1, target, k) && k < EchoText.MAX_REPEATS
    ensures CycleTokens(u, tools, Repeat(unit, k), subCount) > mt
  {
    PlainExactly(u, tools, unit, maxTokenChunk, mt, subCount, target, k);
    WrappingCosts(u, tools);
    Positive(subCount, Wrapping(u, tools));
    assert mt % (1 + subCount) < 1 + subCount;
  }

  /** A request that gets more than its limit: one subagent, a limit of 100, the text "!". */
  lemma OvershootingRequest(u: Unicode)
    requires u.Valid()
    ensures IsTarget(2048, 100, 1, 50) && EchoText.CopiesFit(Count(u, "!"), 50, 50)
    ensures CycleTokens(u, ["task"], Repeat("!", 50), 1) > 100
  {
    PunctIsAlone(u, '!');
    assert "!"[1..] == "";
    assert Count(u, "!") == 1;
    OneTokenOvershoots(u, ["task"], "!", 2048, 100, 1, 50, 50);
  }

  // ---------- every digit-clean text ----------

  lemma {:induction false} PartsJoin(s: string)
    ensures EchoText.Concat(Parts(s)) == s
    ensures s != "" ==> Parts(s) != []
    decreases |s|
  {
    if |s| > EchoText.PART {
      var a, b := s[..EchoText.PART], s[EchoText.PART..];
      PartsJoin(b);
      assert Parts(s)[0] == a && Parts(s)[1..] == Parts(b) && s == a + b;
    } else if s != "" {
      assert Parts(s)[1..] == [] && s + "" == s;
    }
  }

  /** A block that the codec leaves as it is: the total lies between everybody's block with the wrapping,
      and a token more for each cut of the stream. */
  lemma CycleBracketed(u: Unicode, tools: seq<string>, block: string, subCount: nat)
    requires u.Valid() && !IsBlank(u, block) && '"' !in block && '\n' !in block && DigitsUnmixed(u, block)
    ensures var bare := (1 + subCount) * Count(u, block) + subCount * Wrapping(u, tools);
            bare <= CycleTokens(u, tools, block, subCount) <= bare + |Parts(block)| - 1
  {
    PlainClean(block);
    CycleExactly(u, tools, block, subCount);
    PartsJoin(block);
    EchoText.PartsCount(u, Parts(block));
    NextCall(subCount, Count(u, block));
  }

  /** What the cuts of the stream cost: the groups that merge where the 80-rune parts meet. */
  function Cuts(u: Unicode, s: string): nat {
    if |s| <= EchoText.PART then 0
    else
      var a, b := s[..EchoText.PART], s[EchoText.PART..];
      SeamSaving(Classes(u, a), Classes(u, b)) + Cuts(u, b)
  }

  lemma {:induction false} CutsFew(u: Unicode, s: string)
    ensures Cuts(u, s) <= |s| / EchoText.PART
    decreases |s|
  {
    if |s| > EchoText.PART {
      CutsFew(u, s[EchoText.PART..]);
    }
  }

  lemma {:induction false} PartsCost(u: Unicode, s: string)
    requires u.Valid() && DigitsUnmixed(u, s)
    ensures EchoText.SumCounts(u, Parts(s)) == Count(u, s) + Cuts(u, s)
    decreases |s|
  {
    if |s| > EchoText.PART {
      var a, b := s[..EchoText.PART], s[EchoText.PART..];
      assert s == a + b && Parts(s)[0] == a && Parts(s)[1..] == Parts(b);
      UnmixedParts(u, a, b);
      PartsCost(u, b);
      CountSeam(u, a, b);
    } else if s != "" {
      assert Parts(s)[1..] == [];
    }
  }

  lemma {:induction false} CleanConcat(a: string, b: string)
    ensures Clean(a + b) == Clean(a) + Clean(b)
  {
    if a == "" {
      assert a + b == b;
    } else {
      assert (a + b)[0] == a[0] && (a + b)[1..] == a[1..] + b;
      CleanConcat(a[1..], b);
      CleanCons(a + b);
      CleanCons(a);
      Regroup(if a[0] == '"' then "\\\"" else if a[0] == '\n' then " " else [a[0]], Clean(a[1..]), Clean(b));
    }
  }

  lemma {:induction false} CleanRepeat(unit: string, k: nat)
    ensures Clean(Repeat(unit, k)) == Repeat(Clean(unit), k)
  {
    if k > 0 {
      CleanRepeat(unit, k - 1);
      CleanConcat(unit, Repeat(unit, k - 1));
    }
  }

  /** Cleaning brings no digit beside another one. */
  lemma {:induction false} CleanUnmixed(u: Unicode, s: string)
    requires u.Valid() && DigitsUnmixed(u, s)
    ensures DigitsUnmixed(u, Clean(s))
  {
    if s != "" {
      var c := Clean(s[1..]);
      UnmixedSlice(u, s, 1, |s|);
      assert s[1..|s|] == s[1..];
      CleanUnmixed(u, s[1..]);
      CleanCons(s);
      PunctIsAlone(u, '"');
      PunctIsAlone(u, '\\');
      if s[0] == '"' {
        UnmixedCons(u, '"', c);
        UnmixedCons(u, '\\', "\"" + c);
        assert "\\" + ("\"" + c) == "\\\"" + c;
      } else if s[0] == '\n' {
        UnmixedCons(u, ' ', c);
      } else {
        if c != "" {
          CleanHead(s[1..]);
          assert SameKind(u, s[0], s[0 + 1]);
        }
        UnmixedCons(u, s[0], c);
      }
    }
  }

  lemma UnmixedCons(u: Unicode, r: char, s: string)
    requires DigitsUnmixed(u, s) && (s != "" ==> SameKind(u, r, s[0]))
    ensures DigitsUnmixed(u, [r] + s)
  {
    var t := [r] + s;
    assert forall i :: 0 < i < |t| ==> t[i] == s[i - 1];
  }

  lemma CleanHead(s: string)
    requires Clean(s) != ""
    ensures s != "" && Clean(s)[0] == (if s[0] == '"' then '\\' else if s[0] == '\n' then ' ' else s[0])
  {
    if s != "" {
      CleanCons(s);
    }
  }

  lemma CleanNotEmpty(s: string)
    requires s != ""
    ensures Clean(s) != ""
  {
    CleanCons(s);
  }

  /** The tokens of the text that each call carries: a blank text is replaced by a default. */
  function Argument(u: Unicode, unit: string, k: nat): int
    requires unit != ""
  {
    CleanNotEmpty(unit);
    if IsBlank(u, unit) then Count(u, Clean("hello")) else CopiesTotal(Classes(u, Clean(unit)), k)
  }

  /** The whole cycle in closed form, from one copy of the text: the wrapping and the argument of every
      call, the streamed copies, and the cuts. */
  function ClosedTotal(u: Unicode, tools: seq<string>, unit: string, subCount: nat, k: nat): int
    requires unit != ""
  {
    subCount * Wrapping(u, tools) + subCount * Argument(u, unit, k)
    + CopiesTotal(Classes(u, unit), k) + Cuts(u, Repeat(unit, k))
  }

  lemma {:induction false} BlankRepeat(u: Unicode, unit: string, k: nat)
    requires k >= 1
    ensures IsBlank(u, Repeat(unit, k)) == IsBlank(u, unit)
  {
    var rest := Repeat(unit, k - 1);
    assert Repeat(unit, k) == unit + rest;
    if k > 1 {
      BlankRepeat(u, unit, k - 1);
    }
    BlankConcat(u, unit, rest);
  }

  lemma BlankConcat(u: Unicode, a: string, b: string)
    ensures IsBlank(u, a + b) == (IsBlank(u, a) && IsBlank(u, b))
  {
    var s := a + b;
    if IsBlank(u, s) {
      assert forall i :: 0 <= i < |a| ==> a[i] == s[i];
      assert forall i :: 0 <= i < |b| ==> b[i] == s[|a| + i];
    }
  }

  lemma ArgumentIs(u: Unicode, unit: string, k: nat)
    requires u.Valid() && unit != "" && k >= 1 && DigitsUnmixed(u, unit + unit)
    ensures Count(u, Clean(EffectiveInput(u, Repeat(unit, k)))) == Argument(u, unit, k)
  {
    BlankRepeat(u, unit, k);
    if !IsBlank(u, unit) {
      CleanRepeat(unit, k);
      CleanConcat(unit, unit);
      CleanUnmixed(u, unit + unit);
      CleanNotEmpty(unit);
      CopiesCount(u, Clean(unit), k);
    }
  }

  /** The total of a cycle with `k` copies, for every text that does not mix digits. */
  lemma WholeCycle(u: Unicode, tools: seq<string>, unit: string, subCount: nat, k: nat)
    requires u.Valid() && unit != "" && k >= 1 && DigitsUnmixed(u, unit + unit)
    ensures CycleTokens(u, tools, Repeat(unit, k), subCount) == ClosedTotal(u, tools, unit, subCount, k)
  {
    var block := Repeat(unit, k);
    CycleExactly(u, tools, block, subCount);
    ArgumentIs(u, unit, k);
    UnmixedRepeat(u, unit, k);
    PartsCost(u, block);
    CopiesCount(u, unit, k);
  }

  /** The promise, decided before the request is made: a cycle of a MAX model stays within the client's
      limit exactly when the limit holds the closed form of the copies that this limit asks for. */
  lemma CycleFitsExactly(u: Unicode, tools: seq<string>, userText: string, maxTokenChunk: int, mt: int, subCount: nat)
    requires u.Valid()
    requires var unit := EchoText.EffectiveText(userText); DigitsUnmixed(u, unit + unit)
    ensures var unit := EchoText.EffectiveText(userText);
            && Count(u, unit) >= 1 && TargetOf(maxTokenChunk, mt, subCount) >= 1
            && var k := CopiesOf(Count(u, unit), TargetOf(maxTokenChunk, mt, subCount));
               CycleTokens(u, tools, BlockOf(u, userText, maxTokenChunk, mt, subCount), subCount) <= mt
               <==> ClosedTotal(u, tools, unit, subCount, k) <= mt
  {
    var unit := EchoText.EffectiveText(userText);
    CountBounds(u, unit);
    TargetPositive(maxTokenChunk, mt, subCount);
    WholeCycle(u, tools, unit, subCount, CopiesOf(Count(u, unit), TargetOf(maxTokenChunk, mt, subCount)));
  }

  /** What the copies save by their merging seams, in the stream and in every call, against `k` full
      counts for everybody (cleaning can also add to it). */
  function Saved(u: Unicode, unit: string, subCount: nat, k: nat): int
    requires unit != ""
  {
    k * ((1 + subCount) * Count(u, unit)) - subCount * Argument(u, unit, k) - CopiesTotal(Classes(u, unit), k)
  }

  /** Where the cap on the block takes effect, the copies are as many rounds of everybody's copy as the
      limit holds, at least one; and the cycle stays within the limit exactly when what the rounds leave
      over, with what the seams save, holds the wrapping of all calls and the cuts. */
  lemma CappedExactly(u: Unicode, tools: seq<string>, unit: string, maxTokenChunk: int, mt: int, subCount: nat,
                      target: int, k: nat)
    requires u.Valid() && unit != "" && DigitsUnmixed(u, unit + unit) && subCount >= 1 && mt > 0
    requires IsTarget(maxTokenChunk, mt, subCount, target) && target < EchoText.EffectiveTokens(maxTokenChunk)
    requires EchoText.CopiesFit(Count(u, unit), target, k) && k < EchoText.MAX_REPEATS
    ensures var round := (1 + subCount) * Count(u, unit);
            && round > 0 && k == (if mt < round then 1 else mt / round)
            && (CycleTokens(u, tools, Repeat(unit, k), subCount) <= mt
                <==> k * round + subCount * Wrapping(u, tools) + Cuts(u, Repeat(unit, k))
                     <= mt + Saved(u, unit, subCount, k))
  {
    RoundsFit(u, unit, maxTokenChunk, mt, subCount, target, k);
    SavingsDecide(u, tools, unit, mt, subCount, k);
  }

  lemma RoundsFit(u: Unicode, unit: string, maxTokenChunk: int, mt: int, subCount: nat, target: int, k: nat)
    requires unit != "" && subCount >= 1 && mt > 0
    requires IsTarget(maxTokenChunk, mt, subCount, target) && target < EchoText.EffectiveTokens(maxTokenChunk)
    requires EchoText.CopiesFit(Count(u, unit), target, k) && k < EchoText.MAX_REPEATS
    ensures var round := (1 + subCount) * Count(u, unit); round > 0 && k == (if mt < round then 1 else mt / round)
  {
    CountBounds(u, unit);
    CappedCopies(1 + subCount, Count(u, unit), target, k, mt);
  }

  lemma SavingsDecide(u: Unicode, tools: seq<string>, unit: string, mt: int, subCount: nat, k: nat)
    requires u.Valid() && unit != "" && DigitsUnmixed(u, unit + unit) && k >= 1
    ensures CycleTokens(u, tools, Repeat(unit, k), subCount) <= mt
            <==> k * ((1 + subCount) * Count(u, unit)) + subCount * Wrapping(u, tools) + Cuts(u, Repeat(unit, k))
                 <= mt + Saved(u, unit, subCount, k)
  {
    WholeCycle(u, tools, unit, subCount, k);
    TotalBySavings(u, tools, unit, subCount, k);
    Compare(CycleTokens(u, tools, Repeat(unit, k), subCount), Saved(u, unit, subCount, k),
            k * ((1 + subCount) * Count(u, unit)) + subCount * Wrapping(u, tools) + Cuts(u, Repeat(unit, k)), mt);
  }

  lemma TotalBySavings(u: Unicode, tools: seq<string>, unit: string, subCount: nat, k: nat)
    requires unit != ""
    ensures ClosedTotal(u, tools, unit, subCount, k) + Saved(u, unit, subCount, k)
            == k * ((1 + subCount) * Count(u, unit)) + subCount * Wrapping(u, tools) + Cuts(u, Repeat(unit, k))
  {
  }

  lemma Compare(total: int, saved: int, full: int, mt: int)
    requires total + saved == full
    ensures total <= mt <==> full <= mt + saved
  {
  }

  lemma CappedCopies(n: nat, per: nat, target: int, k: nat, mt: int)
    requires n >= 2 && per >= 1 && target >= 1 && mt > 0
    requires n * target <= EchoText.Max(mt, n) && n * (target + 1) > mt
    requires k >= 1 && (k > 1 ==> k * per <= target) && (k + 1) * per > target
    ensures n * per > 0 && k == if mt < n * per then 1 else mt / (n * per)
  {
    var round := n * per;
    CapArithmetic(n, per, target, k, mt);
    if mt >= round {
      Commutes(k, round);
      Commutes(k + 1, round);
      QuotientIs(mt, round, k);
    } else if k > 1 {
      FewRounds(round, k, mt, n, per, target);
    }
  }

  /** More than one copy needs a round in the limit. */
  lemma FewRounds(round: nat, k: nat, mt: int, n: nat, per: nat, target: int)
    requires n >= 2 && round == n * per && k > 1 && k * per <= target && n * target <= EchoText.Max(mt, n)
    requires per >= 1 && mt > 0
    ensures mt >= round
  {
    EchoText.ScaledAtMost(per, 1, k);
    Commutes(per, k);
    EchoText.ScaledAtMost(n, per, target);
    if mt < n {
      EchoText.ScaledAtMost(n, 2, target);
    }
  }

  // ---------- a text of one token that is kept within ----------

  lemma HiIsOneToken(u: Unicode)
    requires u.Valid()
    ensures Classes(u, "hi") == [Word, Word] && Count(u, "hi") == 1 && !IsBlank(u, "hi")
             && DigitsUnmixed(u, "hi" + "hi")
  {
    assert u.isLetter('h') && u.isLetter('i');
    assert ClassOf(u, 'h') == Word && ClassOf(u, 'i') == Word;
    ReachIs(u, Word, "hi", 2);
    assert "hi"[2..] == "";
    assert !u.isSpace("hi"[0]);
  }

  lemma BashIsChosen(u: Unicode)
    requires u.Valid()
    ensures ChooseTool(u, ["bash"]) == ("bash", COMMAND, false)
  {
    assert ["bash"][0] == "bash" && EqualFold(u, "bash", "bash");
    assert FoldsApart('b') && FoldsApart('t') && u.fold('b') != u.fold('t');
    assert !EqualFold(u, "bash", "task") by { assert u.fold("bash"[0]) != u.fold("task"[0]); }
    assert HasTool(u, ["bash"], "bash");
  }

  lemma BashWrapping(u: Unicode)
    requires u.Valid()
    ensures Wrapping(u, ["bash"]) <= 54
  {
    BashIsChosen(u);
    CommandLengths();
    CountBounds(u, "bash");
    CountBounds(u, Opening(COMMAND));
    CountBounds(u, Close(COMMAND));
  }

  lemma CommandLengths()
    ensures |Opening(COMMAND)| == 19 && |Close(COMMAND)| == 4
  {
    assert Quoted("command") == "\"command\"";
  }

  /** The cap does its work where the copies merge: one subagent, a limit of 1000, the text "hi". */
  lemma KeptWithin(u: Unicode)
    requires u.Valid()
    ensures IsTarget(2048, 1000, 1, 500) && EchoText.CopiesFit(Count(u, "hi"), 500, 500)
    ensures CycleTokens(u, ["bash"], Repeat("hi", 500), 1) <= 1000
  {
    HiIsOneToken(u);
    BashWrapping(u);
    PlainClean("hi");
    WholeCycle(u, ["bash"], "hi", 1, 500);
    CutsFew(u, Repeat("hi", 500));
    RepeatLength("hi", 500);
    HiTotal(u);
  }

  lemma HiTotal(u: Unicode)
    requires u.Valid()
    ensures CopiesTotal(Classes(u, "hi"), 500) == 250
  {
    HiIsOneToken(u);
    HeadRunIs([Word, Word], 2);
  }
}
