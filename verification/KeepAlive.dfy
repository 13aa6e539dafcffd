/**
 The stream shared by two goroutines: the runner, which writes frames and ends the stream, and the
 keep-alive goroutine, which writes a comment on every tick.  A write looks at the closed flag first
 and takes the lock afterwards, so the flag may be stored between the two.  Every such step is an
 event of its own here, and runs interleave them freely.
 */
module KeepAlive {
  import StreamWriter

  /** `role`: the chunk that opens the answer names the assistant. */
  datatype Frame = Content(role: bool) | Other | Done | Comment

  /** A frame on the wire, whole or cut off by a failing write. */
  datatype Sent = Sent(frame: Frame, whole: bool)

  /** What the runner's goroutine does one step at a time; `give` abandons the operation on an error. */
  datatype Micro = Put(frame: Frame, give: bool) | Store

  datatype Op =
    | Open
    | Text
    | Raw
    | Note
    | Finish
    | FailClose
    | FailHttp
    | FailMalformed
    | FailEvent
    | Disconnect

  /** The operation as its steps; `first` says that a content chunk was begun before. */
  function Steps(op: Op, first: bool, hasDone: bool): seq<Micro> {
    match op
    case Open => [Put(Comment, false)]
    case Text => [Put(Content(!first), false)]
    case Raw => [Put(Other, false)]
    case Note => [Put(Comment, false)]
    case Finish => if hasDone then [Put(Other, true), Put(Done, false), Store] else [Put(Other, true), Store]
    case FailClose => [Store]
    case FailHttp => if hasDone then [Put(Other, false), Put(Done, false), Store] else [Put(Other, false), Store]
    case FailMalformed => [Put(Other, false), Store]
    case FailEvent => [Put(Other, false), Store]
    case Disconnect => [Store]
  }

  /** The frames kept for the inspector, with their numbers, and the count of all. */
  datatype Numbered = Numbered(num: nat, frame: Frame)

  datatype Ring = Ring(kept: seq<Numbered>, count: nat)

  /** The keep-alive goroutine: asleep, past its own check, past the writer's check, gone. */
  datatype Keeper = Asleep | Awake | Writing | Gone

  datatype State = State(
    hasDone: bool,
    closed: bool,
    first: bool,
    todo: seq<Micro>,
    holds: bool,
    keeper: Keeper,
    wire: seq<Sent>,
    ring: Ring)

  function Init(hasDone: bool): State {
    State(hasDone, false, false, [], false, Asleep, [], Ring([], 0))
  }

  /** What a locked write does: the whole frame, a part of it and an error, nothing and an error. */
  datatype Outcome = Whole | Cut | Lost

  datatype Event =
    | Begin(op: Op)
    | Check
    | Write(o: Outcome)
    | StoreClosed
    | Tick
    | KeeperCheck
    | KeeperWrite(o: Outcome)
    | KeeperStop

  predicate Enabled(s: State, e: Event) {
    match e
    case Begin(_) => s.todo == []
    case Check => s.todo != [] && s.todo[0].Put? && !s.holds
    case Write(_) => s.todo != [] && s.todo[0].Put? && s.holds
    case StoreClosed => s.todo != [] && s.todo[0].Store?
    case Tick => s.keeper.Asleep?
    case KeeperCheck => s.keeper.Awake?
    case KeeperWrite(_) => s.keeper.Writing?
    case KeeperStop => s.keeper.Asleep?
  }

  function Extended(wire: seq<Sent>, f: Frame, o: Outcome): seq<Sent> {
    match o
    case Whole => wire + [Sent(f, true)]
    case Cut => wire + [Sent(f, false)]
    case Lost => wire
  }

  /** `captureFrame`, inside the locked write: only a whole frame is kept. */
  function Captured(r: Ring, f: Frame, o: Outcome): Ring {
    if !o.Whole? then r
    else
      var longer := r.kept + [Numbered(r.count + 1, f)];
      Ring(if |longer| > StreamWriter.RING then longer[|longer| - StreamWriter.RING..] else longer, r.count + 1)
  }

  /** The rest of the operation after its next frame succeeded or not. */
  function Rest(todo: seq<Micro>, ok: bool): seq<Micro>
    requires todo != [] && todo[0].Put?
  {
    if !ok && todo[0].give then [] else todo[1..]
  }

  function Next(s: State, e: Event): State
    requires Enabled(s, e)
  {
    match e
    case Begin(op) => s.(todo := Steps(op, s.first, s.hasDone), first := s.first || op.Text?)
    case Check => if s.closed then s.(todo := Rest(s.todo, false)) else s.(holds := true)
    case Write(o) =>
      s.(wire := Extended(s.wire, s.todo[0].frame, o), ring := Captured(s.ring, s.todo[0].frame, o),
         todo := Rest(s.todo, o.Whole?), holds := false, closed := s.closed || !o.Whole?)
    case StoreClosed => s.(closed := true, todo := s.todo[1..])
    case Tick => s.(keeper := if s.closed then Gone else Awake)
    case KeeperCheck => s.(keeper := if s.closed then Asleep else Writing)
    case KeeperWrite(o) =>
      s.(wire := Extended(s.wire, Comment, o), ring := Captured(s.ring, Comment, o), keeper := Asleep,
         closed := s.closed || !o.Whole?)
    case KeeperStop => s.(keeper := Gone)
  }

  predicate Runnable(s: State, run: seq<Event>)
    decreases |run|
  {
    run == [] || (Enabled(s, run[0]) && Runnable(Next(s, run[0]), run[1..]))
  }

  function Run(s: State, run: seq<Event>): State
    requires Runnable(s, run)
    decreases |run|
  {
    if run == [] then s else Run(Next(s, run[0]), run[1..])
  }

  // ----- the shape of the wire -----

  predicate HasDone(wire: seq<Sent>) {
    exists i :: 0 <= i < |wire| && wire[i].frame.Done?
  }

  predicate HasContent(wire: seq<Sent>) {
    exists i :: 0 <= i < |wire| && wire[i].frame.Content?
  }

  /** How many frames come after the first done frame. */
  function AfterDone(wire: seq<Sent>): (n: nat) {
    if wire == [] then 0
    else
      var before := wire[..|wire| - 1];
      AfterDone(before) + (if HasDone(before) then 1 else 0)
  }

  /** The done frame comes at most once and nothing but comments after it. */
  predicate EndsOnce(wire: seq<Sent>) {
    forall i, j :: 0 <= i < j < |wire| && wire[i].frame.Done? ==> wire[j].frame.Comment?
  }

  /** The first content frame, and no other, carries the role. */
  predicate RoleFirst(wire: seq<Sent>) {
    forall j :: 0 <= j < |wire| && wire[j].frame.Content? ==>
      (wire[j].frame.role <==> !HasContent(wire[..j]))
  }

  // ----- the invariant -----

  /** The rest of some operation: a done frame is only ever followed by the store. */
  predicate WellPlanned(todo: seq<Micro>) {
    && (forall k :: 0 <= k < |todo| && todo[k].Put? && todo[k].frame.Done? ==> k == |todo| - 2 && todo[k + 1].Store?)
    && (forall k :: 0 <= k < |todo| && todo[k].Store? ==> k == |todo| - 1)
    && (forall k :: 0 < k < |todo| && todo[k].Put? ==> !todo[k].frame.Content?)
  }

  /** The writes already past their check. */
  function InFlight(s: State): nat {
    (if s.holds then 1 else 0) + (if s.keeper.Writing? then 1 else 0)
  }

  predicate DonePart(s: State) {
    && EndsOnce(s.wire)
    && (HasDone(s.wire) ==> !s.holds && (s.closed || s.todo == [Store]))
  }

  /** Content pending at the head of the plan, if any. */
  predicate ContentNext(s: State) {
    s.todo != [] && s.todo[0].Put? && s.todo[0].frame.Content?
  }

  predicate RolePart(s: State) {
    && RoleFirst(s.wire)
    && (ContentNext(s) ==> s.first)
    && (HasContent(s.wire) ==> s.first)
    && (ContentNext(s) && s.todo[0].frame.role ==> !HasContent(s.wire))
    && (ContentNext(s) && s.holds && !s.todo[0].frame.role ==> HasContent(s.wire))
    && (s.first && !HasContent(s.wire) ==> s.closed || (ContentNext(s) && s.todo[0].frame.role))
  }

  predicate Inv(s: State) {
    && WellPlanned(s.todo)
    && (s.holds ==> s.todo != [] && s.todo[0].Put?)
    && (s.closed ==> InFlight(s) <= 1)
    && DonePart(s)
    && RolePart(s)
  }

  lemma PlanShrinks(todo: seq<Micro>)
    requires WellPlanned(todo) && todo != []
    ensures WellPlanned(todo[1..])
    ensures forall k :: 0 <= k < |todo[1..]| && todo[1..][k].Put? ==> !todo[1..][k].frame.Content?
    ensures todo[0].Put? && todo[0].frame.Done? ==> todo[1..] == [Store]
  {
    var t := todo[1..];
    assert forall k :: 0 <= k < |t| ==> t[k] == todo[k + 1];
  }

  lemma WireGrows(wire: seq<Sent>, x: Sent)
    requires EndsOnce(wire) && RoleFirst(wire)
    requires HasDone(wire) ==> x.frame.Comment?
    requires x.frame.Content? ==> (x.frame.role <==> !HasContent(wire))
    ensures EndsOnce(wire + [x]) && RoleFirst(wire + [x])
    ensures HasDone(wire + [x]) <==> HasDone(wire) || x.frame.Done?
    ensures HasContent(wire + [x]) <==> HasContent(wire) || x.frame.Content?
  {
    var w := wire + [x];
    assert w[|wire|] == x;
    assert forall i :: 0 <= i < |wire| ==> w[i] == wire[i];
    forall j | 0 <= j < |w| && w[j].frame.Content?
      ensures w[j].frame.role <==> !HasContent(w[..j])
    {
      assert w[..j] == wire[..j];
      assert wire[..|wire|] == wire;
    }
  }

  lemma StepKeeps(s: State, e: Event)
    requires Inv(s) && Enabled(s, e)
    ensures Inv(Next(s, e))
  {
    match e
    case Begin(op) =>
    case Check => PlanShrinks(s.todo);
    case Write(o) =>
      PlanShrinks(s.todo);
      WireGrows(s.wire, Sent(s.todo[0].frame, o.Whole?));
    case StoreClosed => PlanShrinks(s.todo);
    case Tick =>
    case KeeperCheck =>
    case KeeperWrite(o) => WireGrows(s.wire, Sent(Comment, o.Whole?));
    case KeeperStop =>
  }

  lemma {:induction false} RunKeeps(s: State, run: seq<Event>)
    requires Inv(s) && Runnable(s, run)
    ensures Inv(Run(s, run))
    decreases |run|
  {
    if run != [] {
      StepKeeps(s, run[0]);
      RunKeeps(Next(s, run[0]), run[1..]);
    }
  }

  /**
   In every run the done frame is written at most once and only comments follow it, whatever the
   runner does after ending the stream; the first content chunk, and no other, carries the role.
   */
  lemma StreamShape(hasDone: bool, run: seq<Event>)
    requires Runnable(Init(hasDone), run)
    ensures EndsOnce(Run(Init(hasDone), run).wire)
    ensures RoleFirst(Run(Init(hasDone), run).wire)
  {
    RunKeeps(Init(hasDone), run);
  }

  /** Once the flag is stored, only the writes already past their check can still reach the client. */
  lemma {:induction false} ClosedWire(s: State, run: seq<Event>)
    requires Inv(s) && s.closed && Runnable(s, run)
    ensures var t := Run(s, run);
            t.closed && s.wire <= t.wire && |t.wire| + InFlight(t) <= |s.wire| + InFlight(s)
    ensures !s.holds ==> forall k :: |s.wire| <= k < |Run(s, run).wire| ==> Run(s, run).wire[k].frame.Comment?
    decreases |run|
  {
    if run != [] {
      StepKeeps(s, run[0]);
      ClosedWire(Next(s, run[0]), run[1..]);
    }
  }

  lemma {:induction false} RunSplits(s: State, run: seq<Event>, more: seq<Event>)
    requires Runnable(s, run) && Runnable(Run(s, run), more)
    ensures Runnable(s, run + more) && Run(s, run + more) == Run(Run(s, run), more)
    decreases |run|
  {
    if run == [] {
      assert run + more == more;
    } else {
      RunSplits(Next(s, run[0]), run[1..], more);
      assert (run + more)[1..] == run[1..] + more;
    }
  }

  /**
   From the moment the closed flag is stored at most one more frame reaches the client, and when the
   runner stored it, that frame is a comment.
   */
  lemma OneFrameAfterClosed(hasDone: bool, run: seq<Event>, more: seq<Event>)
    requires Runnable(Init(hasDone), run) && Runnable(Run(Init(hasDone), run), more)
    requires Run(Init(hasDone), run).closed
    ensures Runnable(Init(hasDone), run + more)
    ensures var before := Run(Init(hasDone), run);
            var after := Run(Init(hasDone), run + more).wire;
            && before.wire <= after
            && |after| <= |before.wire| + 1
            && (!before.holds && |after| > |before.wire| ==> after[|before.wire|].frame.Comment?)
  {
    RunKeeps(Init(hasDone), run);
    RunSplits(Init(hasDone), run, more);
    ClosedWire(Run(Init(hasDone), run), more);
  }

  // ----- the inspector's ring, and torn frames -----

  /** The frames that went out whole. */
  function WholeFrames(wire: seq<Sent>): seq<Frame> {
    if wire == [] then []
    else
      var last := wire[|wire| - 1];
      WholeFrames(wire[..|wire| - 1]) + (if last.whole then [last.frame] else [])
  }

  /** The ring, read off the frames. */
  ghost predicate IsRing(r: Ring, frames: seq<Frame>) {
    && r.count == |frames|
    && |r.kept| == (if |frames| <= StreamWriter.RING then |frames| else StreamWriter.RING)
    && forall k :: 0 <= k < |r.kept| ==>
         r.kept[k] == Numbered(|frames| - |r.kept| + k + 1, frames[|frames| - |r.kept| + k])
  }

  lemma RingGrows(r: Ring, frames: seq<Frame>, f: Frame)
    requires IsRing(r, frames)
    ensures IsRing(Captured(r, f, Whole), frames + [f])
  {
    var ring, all := Captured(r, f, Whole).kept, frames + [f];
    forall k | 0 <= k < |ring| ensures ring[k] == Numbered(|all| - |ring| + k + 1, all[|all| - |ring| + k]) {
      if k < |ring| - 1 {
        assert all[|all| - |ring| + k] == frames[|all| - |ring| + k];
      }
    }
  }

  lemma WireRing(wire: seq<Sent>, r: Ring, f: Frame, o: Outcome)
    requires IsRing(r, WholeFrames(wire))
    ensures IsRing(Captured(r, f, o), WholeFrames(Extended(wire, f, o)))
  {
    if !o.Lost? {
      var w := Extended(wire, f, o);
      assert w[..|w| - 1] == wire;
      if o.Whole? {
        RingGrows(r, WholeFrames(wire), f);
      } else {
        assert WholeFrames(wire) + [] == WholeFrames(wire);
      }
    }
  }

  lemma {:induction false} RunRing(s: State, run: seq<Event>)
    requires Runnable(s, run) && IsRing(s.ring, WholeFrames(s.wire))
    ensures IsRing(Run(s, run).ring, WholeFrames(Run(s, run).wire))
    decreases |run|
  {
    if run != [] {
      match run[0] {
        case Write(o) => WireRing(s.wire, s.ring, s.todo[0].frame, o);
        case KeeperWrite(o) => WireRing(s.wire, s.ring, Comment, o);
        case _ =>
      }
      RunRing(Next(s, run[0]), run[1..]);
    }
  }

  /** In every interleaving the ring holds the last 200 of the frames that went out whole, in the order of
      the wire and numbered without a gap. */
  lemma RingOfRun(hasDone: bool, run: seq<Event>)
    requires Runnable(Init(hasDone), run)
    ensures IsRing(Run(Init(hasDone), run).ring, WholeFrames(Run(Init(hasDone), run).wire))
  {
    RunRing(Init(hasDone), run);
  }

  /** After a torn frame only a write already in flight is still to come. */
  ghost predicate TornLast(s: State) {
    forall i :: 0 <= i < |s.wire| && !s.wire[i].whole ==> s.closed && |s.wire| + InFlight(s) <= i + 2
  }

  lemma TornStep(s: State, e: Event)
    requires Inv(s) && TornLast(s) && Enabled(s, e)
    ensures TornLast(Next(s, e))
  {
    StepKeeps(s, e);
    var t := Next(s, e);
    assert forall i :: 0 <= i < |s.wire| ==> t.wire[i] == s.wire[i];
  }

  lemma {:induction false} TornRun(s: State, run: seq<Event>)
    requires Inv(s) && TornLast(s) && Runnable(s, run)
    ensures TornLast(Run(s, run))
    decreases |run|
  {
    if run != [] {
      TornStep(s, run[0]);
      StepKeeps(s, run[0]);
      TornRun(Next(s, run[0]), run[1..]);
    }
  }

  /** In every interleaving a torn frame closes the stream, and at most one more frame, a write of the other
      goroutine that was already past its check, comes after it. */
  lemma TornOfRun(hasDone: bool, run: seq<Event>)
    requires Runnable(Init(hasDone), run)
    ensures var s := Run(Init(hasDone), run);
            forall i :: 0 <= i < |s.wire| && !s.wire[i].whole ==> s.closed && |s.wire| <= i + 2
  {
    TornRun(Init(hasDone), run);
  }

  // ----- comments after the done frame -----

  predicate DoneWritten(s: State, e: Event)
    requires Enabled(s, e)
  {
    e.Write? && !e.o.Lost? && s.todo[0].frame.Done?
  }

  /** The keep-alive goroutine passes the writer's check although the done frame is out already. */
  predicate LatePass(s: State, e: Event) {
    e.KeeperCheck? && !s.closed && HasDone(s.wire)
  }

  /** The comments this step adds to those that follow the done frame, written or about to be. */
  function Due(s: State, e: Event): int
    requires Enabled(s, e)
  {
    if LatePass(s, e) then 1
    else if DoneWritten(s, e) && s.keeper.Writing? then 1
    else if e.KeeperWrite? && e.o.Lost? && HasDone(s.wire) then -1
    else 0
  }

  function LatePasses(s: State, run: seq<Event>): nat
    requires Runnable(s, run)
    decreases |run|
  {
    if run == [] then 0 else (if LatePass(s, run[0]) then 1 else 0) + LatePasses(Next(s, run[0]), run[1..])
  }

  function Trailing(s: State): nat {
    AfterDone(s.wire) + (if HasDone(s.wire) && s.keeper.Writing? then 1 else 0)
  }

  lemma AfterDoneGrows(wire: seq<Sent>, x: Sent)
    ensures AfterDone(wire + [x]) == AfterDone(wire) + (if HasDone(wire) then 1 else 0)
    ensures HasDone(wire + [x]) <==> HasDone(wire) || x.frame.Done?
  {
    var w := wire + [x];
    assert w[..|w| - 1] == wire;
    assert w[|wire|] == x;
    assert forall i :: 0 <= i < |wire| ==> w[i] == wire[i];
  }

  lemma {:induction false} NoDoneNoTail(wire: seq<Sent>)
    requires !HasDone(wire)
    ensures AfterDone(wire) == 0
  {
    if wire != [] {
      NoDoneNoTail(wire[..|wire| - 1]);
    }
  }

  lemma StepDue(s: State, e: Event)
    requires Inv(s) && Enabled(s, e)
    ensures Trailing(Next(s, e)) == Trailing(s) + Due(s, e)
    ensures HasDone(s.wire) ==> HasDone(Next(s, e).wire)
    ensures DoneWritten(s, e) ==> HasDone(Next(s, e).wire) && !HasDone(s.wire)
  {
    match e
    case Write(o) => WriteDue(s, o);
    case KeeperWrite(o) => KeeperDue(s, o);
    case _ => assert Next(s, e).wire == s.wire;
  }

  lemma WriteDue(s: State, o: Outcome)
    requires !HasDone(s.wire) && Enabled(s, Write(o))
    ensures Trailing(Next(s, Write(o))) == Trailing(s) + Due(s, Write(o))
    ensures DoneWritten(s, Write(o)) ==> HasDone(Next(s, Write(o)).wire)
  {
    NoDoneNoTail(s.wire);
    if !o.Lost? {
      FirstDone(s.wire, Sent(s.todo[0].frame, o.Whole?));
    }
  }

  lemma FirstDone(wire: seq<Sent>, x: Sent)
    requires !HasDone(wire)
    ensures AfterDone(wire + [x]) == 0 && (HasDone(wire + [x]) <==> x.frame.Done?)
  {
    NoDoneNoTail(wire);
    AfterDoneGrows(wire, x);
  }

  lemma KeeperDue(s: State, o: Outcome)
    requires Enabled(s, KeeperWrite(o))
    ensures Trailing(Next(s, KeeperWrite(o))) == Trailing(s) + Due(s, KeeperWrite(o))
    ensures HasDone(Next(s, KeeperWrite(o)).wire) == HasDone(s.wire)
  {
    if !o.Lost? {
      AfterDoneGrows(s.wire, Sent(Comment, o.Whole?));
    }
  }

  lemma {:induction false} RunDue(s: State, run: seq<Event>)
    requires Inv(s) && Runnable(s, run)
    ensures Trailing(Run(s, run)) <= Trailing(s) + LatePasses(s, run) + (if HasDone(s.wire) then 0 else 1)
    decreases |run|
  {
    if run != [] {
      StepDue(s, run[0]);
      StepKeeps(s, run[0]);
      RunDue(Next(s, run[0]), run[1..]);
    }
  }

  /** At most one comment follows the done frame, and one more for each pass of the check that the
      keep-alive makes between the done frame and the store. */
  lemma CommentsAfterDone(hasDone: bool, run: seq<Event>)
    requires Runnable(Init(hasDone), run)
    ensures AfterDone(Run(Init(hasDone), run).wire) <= 1 + LatePasses(Init(hasDone), run)
  {
    RunDue(Init(hasDone), run);
  }

  lemma StepThen(s: State, run: seq<Event>, t: State)
    requires run != [] && Enabled(s, run[0]) && Next(s, run[0]) == t && Runnable(t, run[1..])
    ensures Runnable(s, run) && Run(s, run) == Run(t, run[1..])
  {
  }

  lemma {:induction false} Settled(s: State, run: seq<Event>)
    requires Inv(s) && HasDone(s.wire) && (s.closed || s.keeper.Gone?) && Runnable(s, run)
    ensures Trailing(Run(s, run)) <= Trailing(s)
    decreases |run|
  {
    if run != [] {
      StepDue(s, run[0]);
      StepKeeps(s, run[0]);
      Settled(Next(s, run[0]), run[1..]);
    }
  }

  /** The goroutine's own steps from where it is to its next comment. */
  function ToComment(keeper: Keeper): seq<Event> {
    match keeper
    case Asleep => [Tick, KeeperCheck, KeeperWrite(Whole)]
    case Awake => [KeeperCheck, KeeperWrite(Whole)]
    case Writing => [KeeperWrite(Whole)]
    case Gone => []
  }

  function Commented(s: State): State {
    s.(keeper := Asleep, wire := s.wire + [Sent(Comment, true)], ring := Captured(s.ring, Comment, Whole))
  }

  lemma ToCommentRuns(s: State)
    requires !s.closed && !s.keeper.Gone?
    ensures Runnable(s, ToComment(s.keeper))
    ensures Run(s, ToComment(s.keeper)) == Commented(s)
  {
    var s1, s2 := s.(keeper := Awake), s.(keeper := Writing);
    var s3 := Commented(s);
    StepThen(s2, [KeeperWrite(Whole)], s3);
    StepThen(s1, [KeeperCheck, KeeperWrite(Whole)], s2);
    if s.keeper.Asleep? {
      StepThen(s, [Tick, KeeperCheck, KeeperWrite(Whole)], s1);
    }
  }

  /** From then on as many comments as there are ticks. */
  lemma {:induction false} MoreComments(s: State, k: nat) returns (run: seq<Event>)
    requires !s.closed && s.keeper.Asleep? && HasDone(s.wire)
    ensures Runnable(s, run) && AfterDone(Run(s, run).wire) == AfterDone(s.wire) + k
    ensures !Run(s, run).closed && Run(s, run).todo == s.todo
    decreases k
  {
    run := [];
    if k > 0 {
      var c := Sent(Comment, true);
      var t := Commented(s);
      ToCommentRuns(s);
      AfterDoneGrows(s.wire, c);
      var rest := MoreComments(t, k - 1);
      run := ToComment(s.keeper) + rest;
      RunSplits(s, ToComment(s.keeper), rest);
    }
  }

  /**
   Once the done frame is out, the comments that follow it are those written and the one in flight, in
   every continuation, exactly when the closed flag is stored or the keep-alive goroutine is gone.
   */
  lemma CommentsExactly(s: State)
    requires Inv(s) && HasDone(s.wire)
    ensures s.closed || s.keeper.Gone?
            <==> forall run :: Runnable(s, run) ==> AfterDone(Run(s, run).wire) <= Trailing(s)
  {
    if s.closed || s.keeper.Gone? {
      forall run | Runnable(s, run) ensures AfterDone(Run(s, run).wire) <= Trailing(s) {
        Settled(s, run);
      }
    } else {
      var run := OneTooMany(s);
    }
  }

  lemma OneTooMany(s: State) returns (run: seq<Event>)
    requires HasDone(s.wire) && !s.closed && !s.keeper.Gone?
    ensures Runnable(s, run) && AfterDone(Run(s, run).wire) == Trailing(s) + 1
  {
    var c := Sent(Comment, true);
    var t := Commented(s);
    ToCommentRuns(s);
    AfterDoneGrows(s.wire, c);
    var rest := MoreComments(t, if s.keeper.Writing? then 1 else 0);
    run := ToComment(s.keeper) + rest;
    RunSplits(s, ToComment(s.keeper), rest);
  }

  /** The run up to the done frame: the keep-alive passed its checks just before. */
  function UpToDone(): seq<Event> {
    [Begin(Finish), Check, Write(Whole), Tick, KeeperCheck, Check, Write(Whole)]
  }

  lemma UpToDoneRuns()
    ensures Runnable(Init(true), UpToDone())
    ensures var s := Run(Init(true), UpToDone());
            s == State(true, false, false, [Store], false, Writing, [Sent(Other, true), Sent(Done, true)], s.ring)
  {
    var s0 := Init(true);
    var p := [Put(Other, true), Put(Done, false), Store];
    var w := [Sent(Other, true)];
    var s1 := s0.(todo := p);
    var s2 := s1.(holds := true);
    var s3 := s1.(todo := [Put(Done, false), Store], wire := w, ring := Captured(s1.ring, Other, Whole));
    var s4 := s3.(keeper := Awake);
    var s5 := s3.(keeper := Writing);
    var s6 := s5.(holds := true);
    var s7 := s5.(todo := [Store], wire := w + [Sent(Done, true)], ring := Captured(s5.ring, Done, Whole));
    var r := UpToDone();
    assert Next(s6, r[6]) == s7;
    StepThen(s6, r[6..], s7);
    StepThen(s5, r[5..], s6);
    StepThen(s4, r[4..], s5);
    StepThen(s3, r[3..], s4);
    StepThen(s2, r[2..], s3);
    StepThen(s1, r[1..], s2);
    StepThen(s0, r, s1);
  }

  /** So "at most one comment follows the done frame" fails: while the runner is delayed before the store
      any number of them does, though nothing errs. */
  lemma AnyNumberOfComments(k: nat) returns (run: seq<Event>)
    requires k >= 1
    ensures Runnable(Init(true), run)
    ensures AfterDone(Run(Init(true), run).wire) == k
    ensures !Run(Init(true), run).closed && Run(Init(true), run).todo == [Store]
  {
    UpToDoneRuns();
    var s := Run(Init(true), UpToDone());
    var c := Sent(Comment, true);
    assert HasDone(s.wire) by { assert s.wire[1].frame.Done?; }
    NoDoneNoTail([Sent(Other, true)]);
    AfterDoneGrows([Sent(Other, true)], Sent(Done, true));
    assert s.wire == [Sent(Other, true)] + [Sent(Done, true)];
    AfterDoneGrows(s.wire, c);
    ToCommentRuns(s);
    var rest := MoreComments(Run(s, ToComment(s.keeper)), k - 1);
    RunSplits(s, ToComment(s.keeper), rest);
    run := UpToDone() + (ToComment(s.keeper) + rest);
    RunSplits(Init(true), UpToDone(), ToComment(s.keeper) + rest);
  }

  // ----- how a stream ends -----

  /** The operations after which the stream is over. */
  predicate Ends(op: Op) {
    op.Finish? || op.FailClose? || op.FailHttp? || op.FailMalformed? || op.FailEvent? || op.Disconnect?
  }

  /** The flag is stored, or storing it is the last thing planned. */
  predicate WillClose(s: State) {
    s.closed || (s.todo != [] && s.todo[|s.todo| - 1].Store?)
  }

  lemma StepWillClose(s: State, e: Event)
    requires Inv(s) && WillClose(s) && Enabled(s, e)
    ensures WillClose(Next(s, e))
  {
    if s.todo != [] {
      PlanShrinks(s.todo);
    }
  }

  lemma {:induction false} RunWillClose(s: State, run: seq<Event>)
    requires Inv(s) && WillClose(s) && Runnable(s, run)
    ensures WillClose(Run(s, run))
    decreases |run|
  {
    if run != [] {
      StepWillClose(s, run[0]);
      StepKeeps(s, run[0]);
      RunWillClose(Next(s, run[0]), run[1..]);
    }
  }

  /** Finishing, failing in each of the four modes and disconnecting leave the stream closed once the
      operation is over, however its writes fall and whatever the keep-alive does. */
  lemma EndsClosed(s: State, op: Op, run: seq<Event>)
    requires Inv(s) && s.todo == [] && Ends(op) && Runnable(Next(s, Begin(op)), run)
    ensures var t := Run(Next(s, Begin(op)), run); t.todo == [] ==> t.closed
  {
    StepKeeps(s, Begin(op));
    RunWillClose(Next(s, Begin(op)), run);
  }

  /** The frames that an operation writes when no write fails. */
  function FramesOf(op: Op, first: bool, hasDone: bool): seq<Frame> {
    match op
    case Open => [Comment]
    case Text => [Content(!first)]
    case Raw => [Other]
    case Note => [Comment]
    case Finish => [Other] + if hasDone then [Done] else []
    case FailHttp => [Other] + if hasDone then [Done] else []
    case FailMalformed => [Other]
    case FailEvent => [Other]
    case _ => []
  }

  function SentWhole(fs: seq<Frame>): (ws: seq<Sent>)
    ensures |ws| == |fs| && forall k :: 0 <= k < |fs| ==> ws[k] == Sent(fs[k], true)
  {
    seq(|fs|, k requires 0 <= k < |fs| => Sent(fs[k], true))
  }

  /** The runner's own steps through a plan when no write fails. */
  function Drive(todo: seq<Micro>): seq<Event> {
    if todo == [] then []
    else (if todo[0].Put? then [Check, Write(Whole)] else [StoreClosed]) + Drive(todo[1..])
  }

  function PlannedFrames(todo: seq<Micro>): seq<Frame> {
    if todo == [] then [] else (if todo[0].Put? then [todo[0].frame] else []) + PlannedFrames(todo[1..])
  }

  function Driven(s: State, todo: seq<Micro>): seq<Sent> {
    s.wire + SentWhole(PlannedFrames(todo))
  }

  lemma {:induction false} DriveRuns(s: State)
    requires WellPlanned(s.todo) && !s.closed && !s.holds
    ensures Runnable(s, Drive(s.todo))
    ensures var t := Run(s, Drive(s.todo));
            && t.todo == [] && t.wire == Driven(s, s.todo) && t.first == s.first
            && t.closed == (s.todo != [] && s.todo[|s.todo| - 1].Store?)
    decreases |s.todo|
  {
    if s.todo == [] {
      assert SentWhole([]) == [] && s.wire + [] == s.wire;
    } else {
      PlanShrinks(s.todo);
      if s.todo[0].Put? {
        DrivePut(s);
      } else {
        DriveStore(s);
      }
    }
  }

  lemma DriveStore(s: State)
    requires WellPlanned(s.todo) && !s.closed && s.todo != [] && s.todo[0].Store?
    ensures s.todo == [Store]
    ensures Runnable(s, Drive(s.todo))
    ensures Run(s, Drive(s.todo)) == s.(closed := true, todo := []) && Driven(s, s.todo) == s.wire
  {
    assert s.todo == [Store];
    assert Drive(s.todo) == [StoreClosed] + [] == [StoreClosed];
    StepThen(s, [StoreClosed], s.(closed := true, todo := []));
    assert PlannedFrames(s.todo) == [] + [];
    assert SentWhole([]) == [] && s.wire + [] == s.wire;
  }

  lemma DrivePut(s: State)
    requires WellPlanned(s.todo) && !s.closed && !s.holds && s.todo != [] && s.todo[0].Put?
    ensures Runnable(s, Drive(s.todo))
    ensures var t := Run(s, Drive(s.todo));
            && t.todo == [] && t.wire == Driven(s, s.todo) && t.first == s.first
            && t.closed == (s.todo != [] && s.todo[|s.todo| - 1].Store?)
    decreases |s.todo|, 0
  {
    var x, rest := Sent(s.todo[0].frame, true), s.todo[1..];
    var s1 := s.(holds := true);
    var s2 := s.(wire := s.wire + [x], ring := Captured(s.ring, x.frame, Whole), todo := rest);
    PlanShrinks(s.todo);
    DriveRuns(s2);
    DriveFirst(s.todo);
    StepThen(s1, Drive(s.todo)[1..], s2);
    StepThen(s, Drive(s.todo), s1);
    WholeFirst(s, rest);
  }

  lemma DriveFirst(todo: seq<Micro>)
    requires todo != [] && todo[0].Put?
    ensures var run := Drive(todo);
            && |run| >= 2 && run[0] == Check && run[1..][0] == Write(Whole) && run[1..][1..] == Drive(todo[1..])
  {
    assert Drive(todo) == [Check, Write(Whole)] + Drive(todo[1..]);
  }

  lemma WholeFirst(s: State, rest: seq<Micro>)
    requires s.todo != [] && s.todo[0].Put? && rest == s.todo[1..]
    ensures (s.wire + [Sent(s.todo[0].frame, true)]) + SentWhole(PlannedFrames(rest)) == Driven(s, s.todo)
  {
    assert PlannedFrames(s.todo) == [s.todo[0].frame] + PlannedFrames(rest);
  }

  /** What each operation sends, and whether the stream is over: alone on an open stream, with no failing
      write, it sends exactly its frames and closes the stream exactly when it is one that ends it. */
  lemma OperationAlone(s: State, op: Op)
    requires s.todo == [] && !s.holds && !s.closed
    ensures var s' := Next(s, Begin(op));
            && Runnable(s', Drive(s'.todo))
            && var t := Run(s', Drive(s'.todo));
               && t.wire == s.wire + SentWhole(FramesOf(op, s.first, s.hasDone))
               && t.closed == Ends(op) && t.todo == [] && t.first == (s.first || op.Text?)
  {
    var s' := Next(s, Begin(op));
    DriveRuns(s');
    PlanOf(op, s.first, s.hasDone);
  }

  lemma PlanOf(op: Op, first: bool, hasDone: bool)
    ensures var todo := Steps(op, first, hasDone);
            && PlannedFrames(todo) == FramesOf(op, first, hasDone)
            && (Ends(op) <==> todo != [] && todo[|todo| - 1].Store?)
  {
    var todo := Steps(op, first, hasDone);
    PlannedUpToThree(todo);
  }

  lemma PlannedUpToThree(todo: seq<Micro>)
    requires 1 <= |todo| <= 3
    ensures |todo| == 1 ==> PlannedFrames(todo) == Planned(todo[0])
    ensures |todo| == 2 ==> PlannedFrames(todo) == Planned(todo[0]) + Planned(todo[1])
    ensures |todo| == 3 ==> PlannedFrames(todo) == Planned(todo[0]) + Planned(todo[1]) + Planned(todo[2])
  {
    if |todo| == 1 {
      assert todo[1..] == [];
    } else {
      PlannedUpToThree(todo[1..]);
    }
  }

  function Planned(m: Micro): seq<Frame> {
    if m.Put? then [m.frame] else []
  }

  function Ticks(run: seq<Event>): nat {
    if run == [] then 0 else (if run[0].Tick? then 1 else 0) + Ticks(run[1..])
  }

  /** The keep-alive of a closed stream is gone after one more tick. */
  lemma {:induction false} KeeperLeaves(s: State, run: seq<Event>)
    requires s.closed && Runnable(s, run)
    ensures Ticks(run) <= if s.keeper.Gone? then 0 else 1
    decreases |run|
  {
    if run != [] {
      KeeperLeaves(Next(s, run[0]), run[1..]);
    }
  }
}
