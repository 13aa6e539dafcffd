/**
 The canonical tokenizer.  `Count` follows the scanning loop case by case; `RunTotal` is an
 independent reading of the same number, a sum over maximal runs of runes of one class.  From the
 second form come the seam law for concatenation and the exact count of a repeated text.
 */
module Tokenizer {
  import opened Text

  // ---------- the scanning loop ----------

  datatype Class = Newline | Space | Cjk | Astral | Digit | Word | Punct

  predicate IsCjk(r: char) {
    var c := r as int;
    || 0x1100 <= c <= 0x11FF || 0x2E80 <= c <= 0x2EFF || 0x3000 <= c <= 0x303F
    || 0x3040 <= c <= 0x30FF || 0x3130 <= c <= 0x318F || 0x3400 <= c <= 0x4DBF
    || 0x4E00 <= c <= 0x9FFF || 0xA960 <= c <= 0xA97F || 0xAC00 <= c <= 0xD7A3
    || 0xD7B0 <= c <= 0xD7FF || 0xF900 <= c <= 0xFAFF || 0xFF00 <= c <= 0xFF60
    || 0xFFE0 <= c <= 0xFFE6 || 0x1B000 <= c <= 0x1B0FF || 0x20000 <= c <= 0x2A6DF
    || 0x2F800 <= c <= 0x2FA1F
  }

  predicate IsWordRune(u: Unicode, r: char) {
    u.isLetter(r) && r as int <= 0xFFFF && !IsCjk(r)
  }

  /** The case of the scanning switch that a rune at the start of a step falls into. */
  function ClassOf(u: Unicode, r: char): Class {
    if r == '\n' then Newline
    else if u.isSpace(r) then Space
    else if IsCjk(r) then Cjk
    else if r as int > 0xFFFF then Astral
    else if u.isDigit(r) then Digit
    else if IsWordRune(u, r) then Word
    else Punct
  }

  /** Does the inner loop of class `c` move past `r`?  The digit loop asks only `IsDigit`. */
  predicate Absorbs(u: Unicode, c: Class, r: char) {
    match c
    case Space => r != '\n' && u.isSpace(r)
    case Digit => u.isDigit(r)
    case Word => IsWordRune(u, r)
    case _ => false
  }

  /** How far the inner loop of class `c` gets. */
  function Reach(u: Unicode, c: Class, s: string): (k: nat)
    ensures k <= |s|
    ensures forall i :: 0 <= i < k ==> Absorbs(u, c, s[i])
    ensures k < |s| ==> !Absorbs(u, c, s[k])
  {
    if s == [] || !Absorbs(u, c, s[0]) then 0 else 1 + Reach(u, c, s[1..])
  }

  function StepWidth(u: Unicode, s: string): (w: nat)
    requires s != []
    ensures 1 <= w <= |s|
  {
    match ClassOf(u, s[0])
    case Space => Reach(u, Space, s)
    case Word => Reach(u, Word, s)
    case Digit => var k := Reach(u, Digit, s); if k < 3 then k else 3
    case _ => 1
  }

  function StepTokens(c: Class, w: nat): nat {
    match c
    case Space => (w + 3) / 4
    case Word => (w + 3) / 4
    case Astral => 2
    case _ => 1
  }

  function Count(u: Unicode, s: string): nat {
    if s == [] then 0
    else var w := StepWidth(u, s); StepTokens(ClassOf(u, s[0]), w) + Count(u, s[w..])
  }

  /** The loop of `countString`. */
  method CountString(u: Unicode, runes: string) returns (n: int)
    ensures n == Count(u, runes)
  {
    if runes == [] { return 0; }
    n := 0;
    var i := 0;
    while i < |runes|
      invariant 0 <= i <= |runes| && 0 <= n
      invariant n + Count(u, runes[i..]) == Count(u, runes)
    {
      var j, tokens := ScanCase(u, runes, i);
      assert runes[i..][j - i..] == runes[j..];
      n := n + tokens;
      if runes[i] != '\n' && u.isSpace(runes[i]) && n == 0 {
        n := 1;
      }
      i := j;
    }
  }

  /** One pass of the switch in `countString`: where the next step starts and what this one adds. */
  method ScanCase(u: Unicode, runes: string, i: nat) returns (j: nat, tokens: nat)
    requires i < |runes|
    ensures j == i + StepWidth(u, runes[i..])
    ensures tokens == StepTokens(ClassOf(u, runes[i]), j - i) >= 1
  {
    var r := runes[i];
    if r == '\n' {
      return i + 1, 1;
    } else if u.isSpace(r) {
      j := SkipRun(u, Space, runes, i, |runes|);
      return j, (j - i + 3) / 4;
    } else if IsCjk(r) {
      return i + 1, 1;
    } else if r as int > 0xFFFF {
      return i + 1, 2;
    } else if u.isDigit(r) {
      j := SkipRun(u, Digit, runes, i, i + 3);
      return j, 1;
    } else if IsWordRune(u, r) {
      j := SkipRun(u, Word, runes, i, |runes|);
      return j, (j - i + 3) / 4;
    } else {
      return i + 1, 1;
    }
  }

  /** The inner loop `for j < len(runes) && ...; j++` of a grouping class, up to `limit`. */
  method SkipRun(u: Unicode, c: Class, runes: string, i: nat, limit: nat) returns (j: nat)
    requires i < |runes| && i < limit
    ensures j == i + if Reach(u, c, runes[i..]) < limit - i then Reach(u, c, runes[i..]) else limit - i
  {
    j := i;
    while j < |runes| && j < limit && Absorbs(u, c, runes[j])
      invariant i <= j <= |runes| && j <= limit
      invariant Reach(u, c, runes[i..]) == j - i + Reach(u, c, runes[j..])
    {
      assert runes[j..][1..] == runes[j + 1..];
      j := j + 1;
    }
  }

  lemma {:induction false} ReachIs(u: Unicode, c: Class, s: string, k: nat)
    requires k <= |s|
    requires forall i :: 0 <= i < k ==> Absorbs(u, c, s[i])
    requires k < |s| ==> !Absorbs(u, c, s[k])
    ensures Reach(u, c, s) == k
  {
    if k > 0 {
      ReachIs(u, c, s[1..], k - 1);
    }
  }

  // ---------- size bounds, for every text ----------

  /** A token stands for one to four runes, and a rune for at most two tokens. */
  lemma {:induction false} CountBounds(u: Unicode, s: string)
    ensures |s| <= 4 * Count(u, s) && Count(u, s) <= 2 * |s|
    decreases |s|
  {
    if s != [] {
      CountBounds(u, s[StepWidth(u, s)..]);
    }
  }

  // ---------- maximal runs in a sequence of classes ----------

  /** Length of the maximal run of one class at the front. */
  function HeadRun(cs: seq<Class>): (k: nat)
    ensures k <= |cs| && (cs != [] ==> k >= 1)
    ensures forall i :: 0 <= i < k ==> cs[i] == cs[0]
    ensures 0 < k < |cs| ==> cs[k] != cs[0]
  {
    if |cs| <= 1 then |cs|
    else if cs[1] == cs[0] then 1 + HeadRun(cs[1..])
    else 1
  }

  /** Runes of these classes are charged in groups: four blanks, four letters, three digits. */
  predicate Grouped(c: Class) {
    c == Space || c == Word || c == Digit
  }

  function Group(c: Class): (d: nat) {
    if c == Digit then 3 else if Grouped(c) then 4 else 1
  }

  function RunCost(c: Class, k: nat): nat {
    match c
    case Space => (k + 3) / 4
    case Word => (k + 3) / 4
    case Digit => (k + 2) / 3
    case Astral => 2 * k
    case _ => k
  }

  function RunTotal(cs: seq<Class>): nat {
    if cs == [] then 0
    else var k := HeadRun(cs); RunCost(cs[0], k) + RunTotal(cs[k..])
  }

  lemma {:induction false} HeadRunIs(cs: seq<Class>, k: nat)
    requires 0 < k <= |cs|
    requires forall i :: 0 <= i < k ==> cs[i] == cs[0]
    requires k < |cs| ==> cs[k] != cs[0]
    ensures HeadRun(cs) == k
  {
    if k > 1 {
      HeadRunIs(cs[1..], k - 1);
    }
  }

  /** The first run is charged on its own. */
  lemma RunTotalIs(cs: seq<Class>, k: nat)
    requires 0 < k <= |cs|
    requires forall i :: 0 <= i < k ==> cs[i] == cs[0]
    requires k < |cs| ==> cs[k] != cs[0]
    ensures HeadRun(cs) == k && RunTotal(cs) == RunCost(cs[0], k) + RunTotal(cs[k..])
  {
    HeadRunIs(cs, k);
  }

  lemma RunCostSplit(c: Class, k: nat, j: nat)
    requires j <= k && (j == k || j % Group(c) == 0)
    ensures RunCost(c, k) == RunCost(c, j) + RunCost(c, k - j)
  {
  }

  lemma RunCostJoin(c: Class, k: nat, m: nat)
    ensures RunCost(c, k) + RunCost(c, m) - 1 <= RunCost(c, k + m) <= RunCost(c, k) + RunCost(c, m)
    ensures !Grouped(c) ==> RunCost(c, k + m) == RunCost(c, k) + RunCost(c, m)
  {
  }

  /** A run may be charged in two parts when the first part fills whole groups. */
  lemma Peel(cs: seq<Class>, j: nat)
    requires cs != [] && 0 < j <= HeadRun(cs)
    requires j == HeadRun(cs) || j % Group(cs[0]) == 0
    ensures RunTotal(cs) == RunCost(cs[0], j) + RunTotal(cs[j..])
  {
    var k := HeadRun(cs);
    RunTotalIs(cs, k);
    if j < k {
      RestOfRun(cs, j, k);
      RunCostSplit(cs[0], k, j);
    }
  }

  lemma RestOfRun(cs: seq<Class>, j: nat, k: nat)
    requires 0 < j < k <= |cs|
    requires forall i :: 0 <= i < k ==> cs[i] == cs[0]
    requires k < |cs| ==> cs[k] != cs[0]
    ensures RunTotal(cs[j..]) == RunCost(cs[0], k - j) + RunTotal(cs[k..])
  {
    RunTotalIs(cs[j..], k - j);
    assert cs[j..][k - j..] == cs[k..];
  }

  // ---------- the count as a sum over maximal runs ----------

  function Classes(u: Unicode, s: string): (cs: seq<Class>)
    ensures |cs| == |s|
    ensures forall i :: 0 <= i < |s| ==> cs[i] == ClassOf(u, s[i])
  {
    seq(|s|, i requires 0 <= i < |s| => ClassOf(u, s[i]))
  }

  lemma ClassesConcat(u: Unicode, a: string, b: string)
    ensures Classes(u, a + b) == Classes(u, a) + Classes(u, b)
  {
    var left, right := Classes(u, a + b), Classes(u, a) + Classes(u, b);
    forall i | 0 <= i < |left| ensures left[i] == right[i] {
      if i < |a| { assert (a + b)[i] == a[i]; } else { assert (a + b)[i] == b[i - |a|]; }
    }
  }

  /** No digit of the digit class is directly followed by a digit rune of another class
      (full-width or astral), which the digit loop would absorb. */
  ghost predicate DigitsUnmixed(u: Unicode, s: string) {
    forall i :: 0 <= i < |s| - 1 ==> SameKind(u, s[i], s[i + 1])
  }

  predicate SameKind(u: Unicode, d: char, x: char) {
    ClassOf(u, d) == Digit && u.isDigit(x) ==> ClassOf(u, x) == Digit
  }

  lemma UnmixedSlice(u: Unicode, s: string, lo: nat, hi: nat)
    requires lo <= hi <= |s| && DigitsUnmixed(u, s)
    ensures DigitsUnmixed(u, s[lo..hi])
  {
    forall i | 0 <= i < hi - lo - 1 ensures SameKind(u, s[lo..hi][i], s[lo..hi][i + 1]) {
      assert SameKind(u, s[lo + i], s[lo + i + 1]);
    }
  }

  lemma UnmixedParts(u: Unicode, a: string, b: string)
    requires DigitsUnmixed(u, a + b)
    ensures DigitsUnmixed(u, a) && DigitsUnmixed(u, b)
  {
    UnmixedSlice(u, a + b, 0, |a|);
    UnmixedSlice(u, a + b, |a|, |a + b|);
    assert (a + b)[0..|a|] == a && (a + b)[|a|..|a + b|] == b;
  }

  /** Where an inner loop stops is where the class changes. */
  lemma ReachIsHeadRun(u: Unicode, s: string, c: Class)
    requires u.Valid() && DigitsUnmixed(u, s) && s != []
    requires c == ClassOf(u, s[0]) && Grouped(c)
    ensures Reach(u, c, s) == HeadRun(Classes(u, s))
  {
    var cs := Classes(u, s);
    var k := HeadRun(cs);
    forall i | 0 <= i < k ensures Absorbs(u, c, s[i]) {
      assert cs[i] == cs[0];
    }
    if k < |s| {
      assert SameKind(u, s[k - 1], s[k]);
      assert cs[k] != cs[0];
    }
    ReachIs(u, c, s, k);
  }

  lemma StepIsPeel(u: Unicode, s: string)
    requires u.Valid() && DigitsUnmixed(u, s) && s != []
    ensures var c, w, k := ClassOf(u, s[0]), StepWidth(u, s), HeadRun(Classes(u, s));
            w <= k && (w == k || w % Group(c) == 0) && StepTokens(c, w) == RunCost(c, w)
  {
    var c := ClassOf(u, s[0]);
    if Grouped(c) {
      ReachIsHeadRun(u, s, c);
    }
  }

  /** The scanning loop computes the sum over maximal runs. */
  lemma {:induction false} CountIsRunTotal(u: Unicode, s: string)
    requires u.Valid() && DigitsUnmixed(u, s)
    ensures Count(u, s) == RunTotal(Classes(u, s))
    decreases |s|
  {
    if s != [] {
      var w := StepWidth(u, s);
      StepIsPeel(u, s);
      UnmixedSlice(u, s, w, |s|);
      assert s[w..|s|] == s[w..];
      CountIsRunTotal(u, s[w..]);
      ClassesDrop(u, s, w);
      Peel(Classes(u, s), w);
      CountStep(u, s);
    }
  }

  lemma CountStep(u: Unicode, s: string)
    requires s != []
    ensures Count(u, s) == StepTokens(ClassOf(u, s[0]), StepWidth(u, s)) + Count(u, s[StepWidth(u, s)..])
  {
  }

  lemma ClassesDrop(u: Unicode, s: string, w: nat)
    requires w <= |s|
    ensures Classes(u, s[w..]) == Classes(u, s)[w..]
  {
  }

  // ---------- what kinds of text cost ----------

  ghost predicate AllIn(s: string, lo: int, hi: int) {
    forall i :: 0 <= i < |s| ==> lo <= s[i] as int <= hi
  }

  ghost predicate NoSpace(u: Unicode, s: string) {
    forall i :: 0 <= i < |s| ==> !u.isSpace(s[i])
  }

  /** A text of one class is one run. */
  lemma OneClassText(u: Unicode, s: string, c: Class)
    requires u.Valid() && forall i :: 0 <= i < |s| ==> ClassOf(u, s[i]) == c
    ensures Count(u, s) == RunCost(c, |s|)
  {
    CountIsRunTotal(u, s);
    if s != "" {
      RunTotalIs(Classes(u, s), |s|);
      assert Classes(u, s)[|s|..] == [];
    }
  }

  /** The blocks of ideographs, kana, Hangul and full-width forms. */
  const CJK_BLOCKS := [(0x1100, 0x11FF), (0x2E80, 0x2EFF), (0x3000, 0x303F), (0x3040, 0x30FF), (0x3130, 0x318F),
                       (0x3400, 0x4DBF), (0x4E00, 0x9FFF), (0xA960, 0xA97F), (0xAC00, 0xD7A3), (0xD7B0, 0xD7FF),
                       (0xF900, 0xFAFF), (0xFF00, 0xFF60), (0xFFE0, 0xFFE6), (0x1B000, 0x1B0FF), (0x20000, 0x2A6DF),
                       (0x2F800, 0x2FA1F)]

  predicate InBlock(r: char) {
    exists k :: 0 <= k < |CJK_BLOCKS| && CJK_BLOCKS[k].0 <= r as int <= CJK_BLOCKS[k].1
  }

  /** A text of those blocks counts a token a rune, in every plane and also where its runes are letters or
      digits; every other rune beyond the basic plane counts two. */
  lemma RuneByRune(u: Unicode, s: string)
    requires u.Valid() && NoSpace(u, s)
    ensures (forall i :: 0 <= i < |s| ==> InBlock(s[i])) ==> Count(u, s) == |s|
    ensures (forall i :: 0 <= i < |s| ==> s[i] as int > 0xFFFF && !InBlock(s[i])) ==> Count(u, s) == 2 * |s|
  {
    forall i | 0 <= i < |s| ensures ClassOf(u, s[i]) != Space && ClassOf(u, s[i]) != Newline {
      assert u.isSpace('\n');
    }
    forall i | 0 <= i < |s| ensures InBlock(s[i]) == IsCjk(s[i]) {
      BlocksAreCjk(s[i]);
    }
    if forall i :: 0 <= i < |s| ==> InBlock(s[i]) {
      OneClassText(u, s, Cjk);
    } else if forall i :: 0 <= i < |s| ==> s[i] as int > 0xFFFF && !InBlock(s[i]) {
      OneClassText(u, s, Astral);
    }
  }

  lemma BlocksAreCjk(r: char)
    ensures InBlock(r) <==> IsCjk(r)
  {
    if IsCjk(r) {
      BlockOfCjk(r);
    }
  }

  lemma BlockOfCjk(r: char)
    requires IsCjk(r)
    ensures InBlock(r)
  {
    var c := r as int;
    var k := if c <= 0x11FF then 0 else if c <= 0x2EFF then 1 else if c <= 0x303F then 2 else if c <= 0x30FF then 3
             else if c <= 0x318F then 4 else if c <= 0x4DBF then 5 else if c <= 0x9FFF then 6
             else if c <= 0xA97F then 7 else if c <= 0xD7A3 then 8 else if c <= 0xD7FF then 9
             else if c <= 0xFAFF then 10 else if c <= 0xFF60 then 11 else if c <= 0xFFE6 then 12
             else if c <= 0x1B0FF then 13 else if c <= 0x2A6DF then 14 else 15;
    assert CJK_BLOCKS[k].0 <= c <= CJK_BLOCKS[k].1;
  }

  /** Letters and blanks count in groups of four, ASCII digits in groups of three, and newlines and ASCII
      punctuation one by one; what is a blank to the tables is a blank even among the ideographs. */
  lemma InGroups(u: Unicode, s: string)
    requires u.Valid()
    ensures AllIn(s, 'a' as int, 'z' as int) ==> Count(u, s) == (|s| + 3) / 4
    ensures (forall i :: 0 <= i < |s| ==> s[i] != '\n' && u.isSpace(s[i])) ==> Count(u, s) == (|s| + 3) / 4
    ensures AllIn(s, '0' as int, '9' as int) && (forall i :: 0 <= i < |s| ==> u.isDigit(s[i])) ==>
              Count(u, s) == (|s| + 2) / 3
    ensures (forall i :: 0 <= i < |s| ==> s[i] == '\n' || IsAsciiPunct(s[i])) ==> Count(u, s) == |s|
  {
    if forall i :: 0 <= i < |s| ==> s[i] == '\n' || IsAsciiPunct(s[i]) {
      OneByOne(u, s);
    }
    if AllIn(s, 'a' as int, 'z' as int) {
      OneClassText(u, s, Word);
    } else if AllIn(s, '0' as int, '9' as int) && (forall i :: 0 <= i < |s| ==> u.isDigit(s[i])) {
      OneClassText(u, s, Digit);
    } else if forall i :: 0 <= i < |s| ==> s[i] != '\n' && u.isSpace(s[i]) {
      OneClassText(u, s, Space);
    }
  }

  lemma {:induction false} OneByOne(u: Unicode, s: string)
    requires u.Valid() && forall i :: 0 <= i < |s| ==> s[i] == '\n' || IsAsciiPunct(s[i])
    ensures Count(u, s) == |s|
  {
    if s != "" {
      OneByOne(u, s[1..]);
    }
  }

  // ---------- concatenation ----------

  /** Length of the maximal run of one class at the end. */
  function TailRun(cs: seq<Class>): (k: nat)
    ensures k <= |cs| && (cs != [] ==> k >= 1)
  {
    if HeadRun(cs) == |cs| then |cs| else TailRun(cs[HeadRun(cs)..])
  }

  /** What two texts save by being counted together: the groups that merge where they meet. */
  function SeamSaving(a: seq<Class>, b: seq<Class>): (d: int)
    ensures 0 <= d <= 1
  {
    if a == [] || b == [] || a[|a| - 1] != b[0] then 0
    else
      RunCostJoin(b[0], TailRun(a), HeadRun(b));
      RunCost(b[0], TailRun(a)) + RunCost(b[0], HeadRun(b)) - RunCost(b[0], TailRun(a) + HeadRun(b))
  }

  lemma {:induction false} RunTotalSeam(a: seq<Class>, b: seq<Class>)
    ensures RunTotal(a + b) == RunTotal(a) + RunTotal(b) - SeamSaving(a, b)
    decreases |a|
  {
    if a == [] {
      assert a + b == b;
    } else if b == [] {
      assert a + b == a;
    } else if HeadRun(a) < |a| {
      var k := HeadRun(a);
      HeadRunIs(a + b, k);
      assert (a + b)[k..] == a[k..] + b;
      RunTotalSeam(a[k..], b);
    } else {
      SingleRunSeam(a, b);
    }
  }

  lemma SingleRunSeam(a: seq<Class>, b: seq<Class>)
    requires a != [] && b != [] && HeadRun(a) == |a|
    ensures RunTotal(a + b) == RunTotal(a) + RunTotal(b) - SeamSaving(a, b)
  {
    RunTotalIs(a, |a|);
    assert RunTotal(a[|a|..]) == 0;
    if b[0] == a[0] {
      SameRunTotal(a, b, HeadRun(b));
    } else {
      RunTotalIs(a + b, |a|);
      assert (a + b)[|a|..] == b;
    }
  }

  lemma SameRunTotal(a: seq<Class>, b: seq<Class>, h: nat)
    requires a != [] && 0 < h <= |b| && b[0] == a[0]
    requires forall i :: 0 <= i < |a| ==> a[i] == a[0]
    requires forall i :: 0 <= i < h ==> b[i] == b[0]
    requires h < |b| ==> b[h] != b[0]
    ensures RunTotal(a + b) == RunTotal(b) - RunCost(a[0], h) + RunCost(a[0], |a| + h)
  {
    var cs, k := a + b, |a| + h;
    JoinedRun(a, b, h);
    RunTotalFrom(b, b[0], h, b[h..]);
    assert cs[k..] == b[h..];
    RunTotalFrom(cs, a[0], k, b[h..]);
  }

  lemma RunTotalFrom(cs: seq<Class>, c: Class, k: nat, rest: seq<Class>)
    requires 0 < k <= |cs| && cs[0] == c && cs[k..] == rest
    requires forall i :: 0 <= i < k ==> cs[i] == cs[0]
    requires k < |cs| ==> cs[k] != cs[0]
    ensures RunTotal(cs) == RunCost(c, k) + RunTotal(rest)
  {
    RunTotalIs(cs, k);
  }

  lemma JoinedRun(a: seq<Class>, b: seq<Class>, h: nat)
    requires a != [] && 0 < h <= |b| && b[0] == a[0]
    requires forall i :: 0 <= i < |a| ==> a[i] == a[0]
    requires forall i :: 0 <= i < h ==> b[i] == b[0]
    ensures var cs := a + b; forall i :: 0 <= i < |a| + h ==> cs[i] == cs[0]
    ensures h < |b| ==> (a + b)[|a| + h] == b[h]
  {
    var cs := a + b;
    forall i | 0 <= i < |a| + h ensures cs[i] == cs[0] {
      if i >= |a| { assert cs[i] == b[i - |a|]; }
    }
  }

  /** Counting a concatenation differs from counting its parts by exactly the seam saving. */
  lemma CountSeam(u: Unicode, a: string, b: string)
    requires u.Valid() && DigitsUnmixed(u, a + b)
    ensures Count(u, a + b) == Count(u, a) + Count(u, b) - SeamSaving(Classes(u, a), Classes(u, b))
    ensures NearAdditive(u, a, b)
  {
    UnmixedParts(u, a, b);
    CountIsRunTotal(u, a);
    CountIsRunTotal(u, b);
    CountIsRunTotal(u, a + b);
    ClassesConcat(u, a, b);
    RunTotalSeam(Classes(u, a), Classes(u, b));
  }

  // ---------- when near-additivity holds ----------

  ghost predicate NearAdditive(u: Unicode, a: string, b: string) {
    Count(u, a) + Count(u, b) - 1 <= Count(u, a + b) <= Count(u, a) + Count(u, b)
  }

  ghost predicate Over(alphabet: set<char>, s: string) {
    forall i :: 0 <= i < |s| ==> s[i] in alphabet
  }

  /** The alphabet does not hold both a plain digit and a full-width or astral one. */
  ghost predicate OneKindOfDigit(u: Unicode, alphabet: set<char>) {
    forall d, x :: d in alphabet && x in alphabet ==> SameKind(u, d, x)
  }

  /** A plain digit `d` before a full-width or astral digit `x`: "dd" and "dxx" count one token
      each, but "dddxx" counts one for the three plain digits and at least one for each `x`. */
  lemma MixedDigitsOvershoot(u: Unicode, d: char, x: char)
    requires u.Valid() && !SameKind(u, d, x)
    ensures Count(u, [d, d]) == 1 && Count(u, [d, x, x]) == 1 && Count(u, [d, d] + [d, x, x]) >= 3
  {
    var s := [d, d] + [d, x, x];
    ReachIs(u, Digit, [d, d], 2);
    ReachIs(u, Digit, [d, x, x], 3);
    ReachIs(u, Digit, s, 5);
    assert [d, d][2..] == [] && [d, x, x][3..] == [] && s[3..] == [x, x];
    TwoForeignDigits(u, x);
  }

  lemma TwoForeignDigits(u: Unicode, x: char)
    requires u.Valid() && u.isDigit(x) && ClassOf(u, x) != Digit
    ensures Count(u, [x, x]) >= 2
  {
    assert StepWidth(u, [x, x]) == 1 && [x, x][1..] == [x];
    CountBounds(u, [x]);
  }

  /** Near-additivity holds for all texts over an alphabet exactly when the alphabet has one
      kind of digit at most. */
  lemma NearAdditiveExactly(u: Unicode, alphabet: set<char>)
    requires u.Valid()
    ensures OneKindOfDigit(u, alphabet)
            <==> forall a, b :: Over(alphabet, a) && Over(alphabet, b) ==> NearAdditive(u, a, b)
  {
    if OneKindOfDigit(u, alphabet) {
      forall a, b | Over(alphabet, a) && Over(alphabet, b) ensures NearAdditive(u, a, b) {
        assert forall i :: 0 <= i < |a + b| ==> (a + b)[i] in alphabet;
        CountSeam(u, a, b);
      }
    } else {
      var d, x :| d in alphabet && x in alphabet && !SameKind(u, d, x);
      MixedDigitsOvershoot(u, d, x);
      assert Over(alphabet, [d, d]) && Over(alphabet, [d, x, x]);
      assert !NearAdditive(u, [d, d], [d, x, x]);
    }
  }

  // ---------- repetition ----------

  lemma {:induction false} UnmixedRepeat(u: Unicode, text: string, k: nat)
    requires DigitsUnmixed(u, text + text) && text != []
    ensures DigitsUnmixed(u, Repeat(text, k))
  {
    if k > 0 {
      UnmixedRepeat(u, text, k - 1);
      var rest := Repeat(text, k - 1);
      var s, tt := text + rest, text + text;
      assert rest != [] ==> rest[0] == text[0];
      forall i | 0 <= i < |s| - 1 ensures SameKind(u, s[i], s[i + 1]) {
        if i < |text| {
          assert SameKind(u, tt[i], tt[i + 1]);
        } else {
          assert SameKind(u, rest[i - |text|], rest[i - |text| + 1]);
        }
      }
    }
  }

  /** Repeating several runs: every seam is the seam of the text with itself. */
  lemma {:induction false} RepeatRunTotal(cs: seq<Class>, k: nat)
    requires HeadRun(cs) < |cs| && k >= 1
    ensures RunTotal(Repeat(cs, k)) == k * RunTotal(cs) - (k - 1) * SeamSaving(cs, cs)
  {
    if k == 1 {
      assert Repeat(cs, 1) == cs;
    } else {
      RepeatRunTotal(cs, k - 1);
      OneCopyMore(cs, k - 1);
      RepeatArithmetic(RunTotal(cs), SeamSaving(cs, cs), k);
    }
  }

  lemma OneCopyMore(cs: seq<Class>, k: nat)
    requires HeadRun(cs) < |cs| && k >= 1
    ensures RunTotal(Repeat(cs, k + 1)) == RunTotal(cs) + RunTotal(Repeat(cs, k)) - SeamSaving(cs, cs)
  {
    var rest := Repeat(cs, k);
    RunTotalSeam(cs, rest);
    SameSeam(cs, Repeat(cs, k - 1));
    assert Repeat(cs, k + 1) == cs + rest && rest == cs + Repeat(cs, k - 1);
  }

  lemma RepeatArithmetic(t: int, d: int, k: int)
    ensures t + ((k - 1) * t - (k - 2) * d) - d == k * t - (k - 1) * d
  {
  }

  /** A seam depends on the first run after it only. */
  lemma SameSeam(cs: seq<Class>, more: seq<Class>)
    requires HeadRun(cs) < |cs|
    ensures SeamSaving(cs, cs + more) == SeamSaving(cs, cs)
  {
    HeadRunIs(cs + more, HeadRun(cs));
  }

  lemma {:induction false} RepeatOneClass(cs: seq<Class>, k: nat)
    requires HeadRun(cs) == |cs| > 0
    ensures forall i :: 0 <= i < |Repeat(cs, k)| ==> Repeat(cs, k)[i] == cs[0]
  {
    if k > 0 {
      RepeatOneClass(cs, k - 1);
    }
  }

  /** Repeating one run gives one longer run. */
  lemma RepeatSingleRun(cs: seq<Class>, k: nat)
    requires HeadRun(cs) == |cs| > 0 && k >= 1
    ensures RunTotal(Repeat(cs, k)) == RunCost(cs[0], k * |cs|)
  {
    var s := Repeat(cs, k);
    RepeatOneClass(cs, k);
    RepeatLength(cs, k);
    assert s == cs + Repeat(cs, k - 1);
    HeadRunIs(s, |s|);
    assert s[|s|..] == [];
  }

  lemma {:induction false} RunCostRepeat(c: Class, m: nat, k: nat)
    requires k >= 1
    ensures k * RunCost(c, m) - (k - 1) <= RunCost(c, k * m) <= k * RunCost(c, m)
    ensures !Grouped(c) ==> RunCost(c, k * m) == k * RunCost(c, m)
  {
    var t := RunCost(c, m);
    OneMore(k, m);
    OneMore(k, t);
    if k > 1 {
      RunCostRepeat(c, m, k - 1);
      RunCostJoin(c, (k - 1) * m, m);
    }
  }

  lemma OneMore(k: nat, m: nat)
    requires k >= 1
    ensures k * m == (k - 1) * m + m && (k - 1) * m >= 0
  {
  }

  lemma {:induction false} ClassesRepeat(u: Unicode, text: string, k: nat)
    ensures Classes(u, Repeat(text, k)) == Repeat(Classes(u, text), k)
  {
    if k > 0 {
      ClassesRepeat(u, text, k - 1);
      ClassesConcat(u, text, Repeat(text, k - 1));
    }
  }

  /** Counting `k` copies: at most `k` times the count of one, and at most `k - 1` less.  The
      product is exact when the text starts with a class that does not group, or when its ends
      differ in class. */
  lemma RepeatCount(u: Unicode, text: string, k: nat)
    requires u.Valid() && text != [] && k >= 1 && DigitsUnmixed(u, text + text)
    ensures k * Count(u, text) - (k - 1) <= Count(u, Repeat(text, k)) <= k * Count(u, text)
    ensures !Grouped(ClassOf(u, text[0])) || ClassOf(u, text[0]) != ClassOf(u, text[|text| - 1])
            ==> Count(u, Repeat(text, k)) == k * Count(u, text)
  {
    UnmixedRepeat(u, text, k);
    UnmixedParts(u, text, text);
    CountIsRunTotal(u, Repeat(text, k));
    CountIsRunTotal(u, text);
    ClassesRepeat(u, text, k);
    RepeatRunBounds(Classes(u, text), k);
  }

  lemma RepeatRunBounds(cs: seq<Class>, k: nat)
    requires cs != [] && k >= 1
    ensures k * RunTotal(cs) - (k - 1) <= RunTotal(Repeat(cs, k)) <= k * RunTotal(cs)
    ensures !Grouped(cs[0]) || cs[0] != cs[|cs| - 1] ==> RunTotal(Repeat(cs, k)) == k * RunTotal(cs)
  {
    if HeadRun(cs) == |cs| {
      RepeatSingleRun(cs, k);
      RunCostRepeat(cs[0], |cs|, k);
      assert RunTotal(cs) == RunCost(cs[0], |cs|);
    } else {
      RepeatRunTotal(cs, k);
      SavingBounds(k, SeamSaving(cs, cs));
    }
  }

  lemma SavingBounds(k: nat, d: int)
    requires k >= 1 && 0 <= d <= 1
    ensures 0 <= (k - 1) * d <= k - 1 && (d == 0 ==> (k - 1) * d == 0)
  {
  }

  /** The count of `k` copies in closed form, from the classes of one. */
  function CopiesTotal(cs: seq<Class>, k: nat): int
    requires cs != []
  {
    if HeadRun(cs) == |cs| then RunCost(cs[0], k * |cs|)
    else k * RunTotal(cs) - (k - 1) * SeamSaving(cs, cs)
  }

  lemma CopiesCount(u: Unicode, text: string, k: nat)
    requires u.Valid() && text != [] && k >= 1 && DigitsUnmixed(u, text + text)
    ensures Count(u, Repeat(text, k)) == CopiesTotal(Classes(u, text), k)
  {
    UnmixedRepeat(u, text, k);
    CountIsRunTotal(u, Repeat(text, k));
    ClassesRepeat(u, text, k);
    var cs := Classes(u, text);
    if HeadRun(cs) == |cs| {
      RepeatSingleRun(cs, k);
    } else {
      RepeatRunTotal(cs, k);
    }
  }

  // ---------- punctuation ----------

  /** No run goes on into a punctuation rune. */
  lemma {:induction false} CountBefore(u: Unicode, a: string, b: string)
    requires b != "" && ClassOf(u, b[0]) == Punct
    ensures Count(u, a + b) == Count(u, a) + Count(u, b)
    decreases |a|
  {
    if a == "" {
      assert a + b == b;
    } else {
      var w := StepWidth(u, a);
      StepBefore(u, a, b);
      assert (a + b)[w..] == a[w..] + b && (a + b)[0] == a[0];
      CountBefore(u, a[w..], b);
    }
  }

  lemma StepBefore(u: Unicode, a: string, b: string)
    requires a != "" && b != "" && ClassOf(u, b[0]) == Punct
    ensures StepWidth(u, a + b) == StepWidth(u, a)
  {
    var s, c := a + b, ClassOf(u, a[0]);
    assert s[0] == a[0];
    var k := Reach(u, c, a);
    assert forall i :: 0 <= i < |a| ==> s[i] == a[i];
    assert s[|a|] == b[0];
    ReachIs(u, c, s, k);
  }

  /** And none goes on from it. */
  lemma CountAfter(u: Unicode, a: string, b: string)
    requires a != "" && ClassOf(u, a[|a| - 1]) == Punct
    ensures Count(u, a + b) == Count(u, a) + Count(u, b)
  {
    var front, last := a[..|a| - 1], a[|a| - 1..];
    assert front + last == a && front + (last + b) == a + b;
    CountBefore(u, front, last);
    CountBefore(u, front, last + b);
    assert last[1..] == "" && (last + b)[1..] == b;
  }

  /** A text between a punctuation rune and a punctuation rune is counted on its own. */
  lemma CountBetween(u: Unicode, a: string, x: string, b: string)
    requires a != "" && ClassOf(u, a[|a| - 1]) == Punct && b != "" && ClassOf(u, b[0]) == Punct
    ensures Count(u, a + (x + b)) == Count(u, a) + Count(u, x) + Count(u, b)
  {
    CountAfter(u, a, x + b);
    CountBefore(u, x, b);
  }

  /** A text of runes that are charged one by one. */
  ghost predicate Ungrouped(u: Unicode, s: string) {
    forall i :: 0 <= i < |s| ==> !Grouped(ClassOf(u, s[i]))
  }

  lemma {:induction false} UngroupedConcat(u: Unicode, a: string, b: string)
    requires Ungrouped(u, a)
    ensures Count(u, a + b) == Count(u, a) + Count(u, b)
    decreases |a|
  {
    if a == "" {
      assert a + b == b;
    } else {
      assert (a + b)[0] == a[0] && (a + b)[1..] == a[1..] + b;
      assert forall i :: 0 <= i < |a[1..]| ==> a[1..][i] == a[i + 1];
      UngroupedConcat(u, a[1..], b);
    }
  }

  lemma {:induction false} UngroupedRepeat(u: Unicode, s: string, k: nat)
    requires Ungrouped(u, s)
    ensures Ungrouped(u, Repeat(s, k)) && Count(u, Repeat(s, k)) == k * Count(u, s)
  {
    if k > 0 {
      var rest, c := Repeat(s, k - 1), Count(u, s);
      UngroupedRepeat(u, s, k - 1);
      UngroupedConcat(u, s, rest);
      UngroupedJoin(u, s, rest);
      OneMore(k, c);
      assert Count(u, s + rest) == c + (k - 1) * c;
    }
  }

  lemma UngroupedJoin(u: Unicode, a: string, b: string)
    requires Ungrouped(u, a) && Ungrouped(u, b)
    ensures Ungrouped(u, a + b)
  {
  }
}
