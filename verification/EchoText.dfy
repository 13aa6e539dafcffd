/**
 The text an echo session produces: the separators of streaming, batch and accumulated echoes, the
 aggregated block of the MAX mode, its budget in agent mode, and its emission in parts of 80 runes.
 */
module EchoText {
  import opened Text
  import opened Tokenizer

  datatype EchoMode = Exact | Line | Message | Block

  /** The constants that `Normalize` compares with, after trimming and lower-casing. */
  function Normalize(m: string): EchoMode {
    if m == "exact" then Exact
    else if m == "line" then Line
    else if m == "block" then Block
    else Message
  }

  // ---------- streaming and batch echoes ----------

  /** One streamed repetition: the separator, then the text. */
  function Delta(mode: EchoMode, text: string, n: nat): string {
    (if (mode == Line || mode == Block) && n > 0 then "\n" else "") + text
  }

  /** What a client has received after `n` streamed repetitions. */
  function Streamed(mode: EchoMode, text: string, n: nat): string {
    if n == 0 then "" else Streamed(mode, text, n - 1) + Delta(mode, text, n - 1)
  }

  function JoinLines(text: string, n: nat): string {
    if n == 0 then "" else if n == 1 then text else JoinLines(text, n - 1) + "\n" + text
  }

  method Accumulate(mode: EchoMode, n: nat, text: string) returns (out: string)
    ensures out == if mode == Exact then Repeat(text, n) else JoinLines(text, n)
  {
    if mode == Exact {
      return Repeat(text, n);
    }
    out := JoinLoop(text, n);
  }

  /** The loop of `Accumulate`, and of the line and message cases of `NonStreaming`. */
  method JoinLoop(text: string, n: nat) returns (out: string)
    ensures out == JoinLines(text, n)
  {
    out := "";
    for i := 0 to n
      invariant out == JoinLines(text, i)
    {
      if i > 0 {
        out := out + "\n";
      }
      out := out + text;
    }
  }

  method NonStreaming(mode: EchoMode, text: string, count: int) returns (out: string)
    ensures var k := if count < 1 then 1 else count;
            out == match mode
                   case Exact => Repeat(text, k)
                   case Block => TrimNewlines(Repeat(text + "\n", k))
                   case _ => JoinLines(text, k)
  {
    var k := if count < 1 then 1 else count;
    match mode
    case Exact =>
      out := Repeat(text, k);
    case Block =>
      var sb := "";
      for i := 0 to k
        invariant sb == Repeat(text + "\n", i)
      {
        RepeatSnoc(text + "\n", i);
        sb := sb + text;
        sb := sb + "\n";
      }
      out := TrimNewlines(sb);
    case _ =>
      out := JoinLoop(text, k);
  }

  lemma {:induction false} StreamedIs(mode: EchoMode, text: string, n: nat)
    ensures Streamed(mode, text, n)
            == if mode == Exact || mode == Message then Repeat(text, n) else JoinLines(text, n)
  {
    if n > 0 {
      StreamedIs(mode, text, n - 1);
      RepeatSnoc(text, n - 1);
    }
  }

  /** What a mode's name means for the stream: in "line" and "block" each repetition has a line of its own,
      in every other mode the repetitions follow each other without a separator. */
  lemma ModeOfStream(name: string, text: string, n: nat)
    ensures Streamed(Normalize(name), text, n)
            == if name == "line" || name == "block" then JoinLines(text, n) else Repeat(text, n)
  {
    StreamedIs(Normalize(name), text, n);
  }

  /** And for a batch answer, which runs the repetitions together in "exact" alone. */
  method BatchOf(name: string, text: string, count: int) returns (out: string)
    ensures var k := if count < 1 then 1 else count;
            out == if name == "exact" then Repeat(text, k)
                   else if name == "block" then TrimNewlines(Repeat(text + "\n", k))
                   else JoinLines(text, k)
  {
    out := NonStreaming(Normalize(name), text, count);
  }

  lemma {:induction false} JoinLinesLength(text: string, n: nat)
    requires n >= 1
    ensures |JoinLines(text, n)| == n * |text| + n - 1
  {
    if n > 1 {
      JoinLinesLength(text, n - 1);
      assert n * |text| == (n - 1) * |text| + |text|;
    }
  }

  /** The stream adds up to the accumulated text, except in message mode, whose stream has no
      separator: there the two agree only while there is nothing to separate. */
  lemma StreamingAccumulates(mode: EchoMode, text: string, n: nat)
    ensures Streamed(mode, text, n) == (if mode == Exact then Repeat(text, n) else JoinLines(text, n))
            <==> mode != Message || n <= 1
  {
    StreamedIs(mode, text, n);
    RepeatLength(text, n);
    if n <= 1 {
      assert Repeat(text, 1) == text + Repeat(text, 0) == text;
    } else {
      JoinLinesLength(text, n);
    }
  }

  lemma {:induction false} BlockIsLines(text: string, n: nat)
    requires n >= 1
    ensures Repeat(text + "\n", n) == JoinLines(text, n) + "\n"
  {
    if n > 1 {
      BlockIsLines(text, n - 1);
      RepeatSnoc(text + "\n", n - 1);
      assert JoinLines(text, n - 1) + "\n" + (text + "\n") == (JoinLines(text, n - 1) + "\n" + text) + "\n";
    } else {
      assert Repeat(text + "\n", 1) == (text + "\n") + Repeat(text + "\n", 0) == text + "\n";
    }
  }

  lemma JoinLinesLast(text: string, n: nat)
    requires n >= 1 && text != ""
    ensures JoinLines(text, n) != "" && JoinLines(text, n)[|JoinLines(text, n)| - 1] == text[|text| - 1]
  {
  }

  /** A block response of the batch path is the accumulated text exactly when trimming its
      trailing newlines takes away only the one that the loop added. */
  lemma BlockBatchAgrees(text: string, count: nat)
    requires count >= 1
    ensures TrimNewlines(Repeat(text + "\n", count)) == JoinLines(text, count)
            <==> if text == "" then count == 1 else text[|text| - 1] != '\n'
  {
    var lines := JoinLines(text, count);
    BlockIsLines(text, count);
    assert (lines + "\n")[..|lines|] == lines;
    assert TrimNewlines(lines + "\n") == TrimNewlines(lines);
    if text == "" {
      JoinLinesLength(text, count);
      if count > 1 {
        assert lines == JoinLines(text, count - 1) + "\n" + text;
        assert lines[|lines| - 1] == '\n';
      }
    } else {
      JoinLinesLast(text, count);
    }
  }

  // ---------- the aggregated block ----------

  const DEFAULT_TEXT := "hello"
  const DEFAULT_TOKENS := 2048
  const MAX_REPEATS := 500000

  function EffectiveText(text: string): string {
    if text == "" then DEFAULT_TEXT else text
  }

  function EffectiveTokens(maxTokens: int): (m: int)
    ensures m >= 1
  {
    if maxTokens <= 0 then DEFAULT_TOKENS else maxTokens
  }

  /** As many copies as the target holds, at least one, at most the safety cap. */
  ghost predicate CopiesFit(per: nat, target: nat, k: nat) {
    && 1 <= k <= MAX_REPEATS
    && (k > 1 ==> k * per <= target)
    && (k < MAX_REPEATS ==> (k + 1) * per > target)
  }

  /** The copies of a text of one token are the target's tokens, up to half a million. */
  lemma CopiesOfOneToken(target: nat, k: nat)
    requires target >= 1 && CopiesFit(1, target, k)
    ensures k == if target < 500000 then target else 500000
  {
  }

  lemma QuotientFits(per: nat, target: nat)
    requires per >= 1
    ensures var q := target / per;
            CopiesFit(per, target, if q < 1 then 1 else if q > MAX_REPEATS then MAX_REPEATS else q)
  {
    var q := target / per;
    assert q * per <= target < (q + 1) * per;
    if q > MAX_REPEATS {
      assert MAX_REPEATS * per <= q * per;
    }
  }

  method BuildInfiniteMaxText(u: Unicode, text: string, maxTokens: int)
    returns (out: string)
    ensures var unit, target := if text == "" then "hello" else text, if maxTokens <= 0 then 2048 else maxTokens;
            exists k: nat :: CopiesFit(Count(u, unit), target, k) && out == Repeat(unit, k)
  {
    var unit := if text == "" then DEFAULT_TEXT else text;
    var target := if maxTokens <= 0 then DEFAULT_TOKENS else maxTokens;
    var per := CountString(u, unit);
    CountBounds(u, unit);
    if per <= 0 {
      per := 1;
    }
    var repeats := target / per;
    QuotientFits(per, target);
    if repeats < 1 {
      repeats := 1;
    }
    if repeats > MAX_REPEATS {
      repeats := MAX_REPEATS;
    }
    out := "";
    for i := 0 to repeats
      invariant out == Repeat(unit, i)
    {
      RepeatSnoc(unit, i);
      out := out + unit;
    }
    assert CopiesFit(Count(u, EffectiveText(text)), EffectiveTokens(maxTokens), repeats);
    assert out == Repeat(EffectiveText(text), repeats);
  }

  /** The block never exceeds its target, unless one copy alone does; it falls short of `k` full
      counts by the merged seams only. */
  lemma BlockBound(u: Unicode, text: string, maxTokens: int, k: nat)
    requires u.Valid() && CopiesFit(Count(u, EffectiveText(text)), EffectiveTokens(maxTokens), k)
    requires var unit := EffectiveText(text); DigitsUnmixed(u, unit + unit)
    ensures var unit, target := EffectiveText(text), EffectiveTokens(maxTokens);
            var total, per := Count(u, Repeat(unit, k)), Count(u, unit);
            && k * per - (k - 1) <= total <= Max(target, per)
            && (!Grouped(ClassOf(u, unit[0])) || ClassOf(u, unit[0]) != ClassOf(u, unit[|unit| - 1])
                ==> total == k * per)
  {
    var unit := EffectiveText(text);
    RepeatCount(u, unit, k);
    if k == 1 {
      assert k * Count(u, unit) == Count(u, unit);
    }
  }

  function Max(a: int, b: int): int {
    if a > b then a else b
  }

  /** A digit step in a text of digit runes takes three of them. */
  lemma CountDigits(u: Unicode, s: string)
    requires s != "" && ClassOf(u, s[0]) == Digit && forall i :: 0 <= i < |s| ==> u.isDigit(s[i])
    ensures Count(u, s) == 1 + Count(u, s[if |s| < 3 then |s| else 3..])
  {
    ReachIs(u, Digit, s, |s|);
  }

  lemma CountForeign(u: Unicode, s: string)
    requires u.Valid() && s != "" && u.isDigit(s[0]) && ClassOf(u, s[0]) != Digit
    ensures Count(u, s) >= 1 + Count(u, s[1..])
  {
  }

  /** With a full-width or astral digit `x`, "dxxdd" counts 2, but its seam turns "dd" + "dxx" into
      the group "ddd" and two single runes, so the two copies that fit a target of 4 count 5. */
  lemma MixedDigitBlockOverflows(u: Unicode, d: char, x: char)
    requires u.Valid() && !SameKind(u, d, x)
    ensures var text := [d, x, x, d, d];
            Count(u, text) == 2 && CopiesFit(2, 4, 2) && Count(u, Repeat(text, 2)) >= 5
  {
    var text, dd, tail := [d, x, x, d, d], [d, d], [x, x, d, d];
    CountDigits(u, dd);
    assert dd[2..] == "";
    CountDigits(u, text);
    assert text[3..] == dd;
    CountForeign(u, tail);
    assert tail[1..] == [x, d, d] && [x, d, d][1..] == dd;
    CountForeign(u, [x, d, d]);
    MixedDigitCopies(u, d, x);
  }

  lemma TwoCopies(text: string)
    ensures Repeat(text, 2) == text + text
  {
    assert Repeat(text, 1) == text + Repeat(text, 0) == text;
    assert Repeat(text, 2) == text + Repeat(text, 1);
  }

  lemma MixedDigitCopies(u: Unicode, d: char, x: char)
    requires u.Valid() && !SameKind(u, d, x)
    ensures Count(u, Repeat([d, x, x, d, d], 2)) == 2 + Count(u, [x, x, d, d])
  {
    var text := [d, x, x, d, d];
    TwoCopies(text);
    Regrouped(d, x);
    CountThree(u, [d, x, x], [d, d, d] + [x, x, d, d]);
    CountThree(u, [d, d, d], [x, x, d, d]);
  }

  lemma Regrouped(d: char, x: char)
    ensures [d, x, x, d, d] + [d, x, x, d, d] == [d, x, x] + ([d, d, d] + [x, x, d, d])
  {
  }

  lemma CountThree(u: Unicode, three: string, rest: string)
    requires |three| == 3 && ClassOf(u, three[0]) == Digit
    requires forall r :: r in three || r in rest ==> u.isDigit(r)
    ensures Count(u, three + rest) == 1 + Count(u, rest)
  {
    var s := three + rest;
    assert forall i :: 0 <= i < |s| ==> s[i] in three || s[i] in rest;
    CountDigits(u, s);
    assert s[3..] == rest;
  }

  /** The block bound holds for all texts over an alphabet and all targets exactly when the
      alphabet has one kind of digit at most. */
  lemma BlockBoundExactly(u: Unicode, alphabet: set<char>)
    requires u.Valid()
    ensures OneKindOfDigit(u, alphabet)
            <==> forall text, target: nat, k ::
                   Over(alphabet, text) && text != "" && target >= 1 && CopiesFit(Count(u, text), target, k)
                   ==> Count(u, Repeat(text, k)) <= Max(target, Count(u, text))
  {
    if OneKindOfDigit(u, alphabet) {
      forall text, target: nat, k | Over(alphabet, text) && text != "" && target >= 1
        && CopiesFit(Count(u, text), target, k)
        ensures Count(u, Repeat(text, k)) <= Max(target, Count(u, text))
      {
        assert forall i :: 0 <= i < |text + text| ==> (text + text)[i] in alphabet;
        BlockBound(u, text, target, k);
      }
    } else {
      var d, x :| d in alphabet && x in alphabet && !SameKind(u, d, x);
      var text := [d, x, x, d, d];
      MixedDigitBlockOverflows(u, d, x);
      assert Over(alphabet, text);
    }
  }

  // ---------- the agent budget ----------

  /** The per-block target of an agent cycle with `subCount` subagents. */
  method BlockTokens(maxTokenChunk: int, requestMaxTokens: int, subCount: nat) returns (blockTokens: int)
    requires subCount >= 1
    ensures blockTokens >= 1
    ensures requestMaxTokens > 0 ==> (1 + subCount) * blockTokens <= Max(requestMaxTokens, 1 + subCount)
    ensures var chunk := if maxTokenChunk <= 0 then 2048 else maxTokenChunk;
            blockTokens == chunk
            || (blockTokens < chunk && (1 + subCount) * (blockTokens + 1) > requestMaxTokens > 0)
  {
    blockTokens := maxTokenChunk;
    if blockTokens <= 0 {
      blockTokens := 2048;
    }
    if requestMaxTokens > 0 {
      var budget := requestMaxTokens / (1 + subCount);
      QuotientBounds(requestMaxTokens, 1 + subCount);
      if budget < 1 {
        budget := 1;
      }
      if blockTokens > budget {
        blockTokens := budget;
      }
      ScaledAtMost(1 + subCount, blockTokens, budget);
    }
  }

  lemma QuotientBounds(a: nat, d: nat)
    requires d >= 1
    ensures d * (a / d) <= a < d * (a / d + 1)
  {
  }

  lemma ScaledAtMost(d: nat, a: int, b: int)
    requires a <= b
    ensures d * a <= d * b
  {
  }

  /** The copies of the block in one cycle, one streamed and one for each tool call, stay within
      the request's budget whenever one copy of the user text per block does. */
  lemma CycleWithinBudget(u: Unicode, text: string, mt: nat, subCount: nat, blockTokens: nat, k: nat)
    requires u.Valid() && subCount >= 1 && blockTokens >= 1
    requires (1 + subCount) * blockTokens <= Max(mt, 1 + subCount)
    requires CopiesFit(Count(u, EffectiveText(text)), blockTokens, k)
    requires var unit := EffectiveText(text); DigitsUnmixed(u, unit + unit)
    ensures (1 + subCount) * Count(u, Repeat(EffectiveText(text), k))
            <= Max(mt, (1 + subCount) * Count(u, EffectiveText(text)))
  {
    var unit := EffectiveText(text);
    var total, per := Count(u, Repeat(unit, k)), Count(u, unit);
    assert total <= Max(blockTokens, per) by { BlockBound(u, text, blockTokens, k); }
    CountBounds(u, unit);
    ScaledBound(1 + subCount, total, per, blockTokens, mt);
  }

  lemma ScaledBound(n: nat, total: nat, per: nat, block: nat, mt: nat)
    requires total <= Max(block, per) && per >= 1 && n * block <= Max(mt, n)
    ensures n * total <= Max(mt, n * per)
  {
    if total <= per {
      ScaledAtMost(n, total, per);
    } else {
      ScaledAtMost(n, total, block);
      ScaledAtMost(n, 1, per);
    }
  }

  // ---------- emission in parts of 80 runes ----------

  const PART := 80

  function Concat(parts: seq<string>): string {
    if parts == [] then "" else parts[0] + Concat(parts[1..])
  }

  function SumCounts(u: Unicode, parts: seq<string>): nat {
    if parts == [] then 0 else Count(u, parts[0]) + SumCounts(u, parts[1..])
  }

  lemma {:induction false} ConcatSnoc(parts: seq<string>, p: string)
    ensures Concat(parts + [p]) == Concat(parts) + p
  {
    if parts == [] {
      assert parts + [p] == [p] && [p][1..] == [];
    } else {
      ConcatSnoc(parts[1..], p);
      assert (parts + [p])[1..] == parts[1..] + [p];
      assert parts[0] + (Concat(parts[1..]) + p) == (parts[0] + Concat(parts[1..])) + p;
    }
  }

  lemma {:induction false} SumCountsSnoc(u: Unicode, parts: seq<string>, p: string)
    ensures SumCounts(u, parts + [p]) == SumCounts(u, parts) + Count(u, p)
  {
    if parts == [] {
      assert parts + [p] == [p] && [p][1..] == [];
    } else {
      SumCountsSnoc(u, parts[1..], p);
      assert (parts + [p])[1..] == parts[1..] + [p];
    }
  }

  /** The chunk loop of the agent cycle: what is written, and the tokens accounted for it. */
  method EmitInParts(u: Unicode, runes: string) returns (parts: seq<string>, tokens: nat)
    ensures Concat(parts) == runes
    ensures tokens == SumCounts(u, parts)
    ensures |parts| == (|runes| + 79) / 80
    ensures forall p :: 0 <= p < |parts| ==> 1 <= |parts[p]| <= 80 && (p < |parts| - 1 ==> |parts[p]| == 80)
  {
    parts, tokens := [], 0;
    var i := 0;
    while i < |runes|
      invariant i == |parts| * PART || (i >= |runes| && |parts| * PART < |runes| + PART)
      invariant i >= |runes| ==> |parts| == (|runes| + PART - 1) / PART
      invariant Concat(parts) == runes[..if i < |runes| then i else |runes|]
      invariant tokens == SumCounts(u, parts)
      invariant forall p :: 0 <= p < |parts| ==>
                  1 <= |parts[p]| <= PART && ((p < |parts| - 1 || i < |runes|) ==> |parts[p]| == PART)
    {
      var end := i + PART;
      if end > |runes| {
        end := |runes|;
      }
      var part := runes[i..end];
      var toks := CountString(u, part);
      ConcatSnoc(parts, part);
      SumCountsSnoc(u, parts, part);
      assert runes[..i] + part == runes[..end];
      tokens := tokens + toks;
      parts := parts + [part];
      i := i + PART;
    }
    assert runes[..|runes|] == runes;
  }

  /** Accounting part by part charges at most one token more per cut than the block as a whole. */
  lemma {:induction false} PartsCount(u: Unicode, parts: seq<string>)
    requires u.Valid() && DigitsUnmixed(u, Concat(parts)) && parts != []
    ensures Count(u, Concat(parts)) <= SumCounts(u, parts) <= Count(u, Concat(parts)) + |parts| - 1
  {
    var rest := parts[1..];
    if rest == [] {
      assert Concat(parts) == parts[0] + "" == parts[0];
    } else {
      UnmixedParts(u, parts[0], Concat(rest));
      PartsCount(u, rest);
      CountSeam(u, parts[0], Concat(rest));
    }
  }
}
