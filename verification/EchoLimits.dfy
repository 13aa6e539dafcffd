/**
 What a runner writes: the trace of its units under the modes read for them, the count at which a
 fault fires, and what may still change once it has stopped.
 */
module EchoLimits {
  import opened Text
  import opened SessionControl
  import opened EchoLoop
  import Tokenizer
  import EchoText

  // ---------- the trace ----------

  /** Unit `i` under the echo mode `mode`. */
  function UnitAt(cfg: Config, mode: string, i: nat): string {
    if cfg.isMax then cfg.text else EchoText.Delta(EchoText.Normalize(mode), cfg.text, i)
  }

  /** The step that passes the pause check reads the echo mode for the next unit. */
  predicate Draws(s: Loop, e: LoopEvent) {
    e.Go? && s.pc == CheckPause && StateOf(s.ctl.regs) != Paused
  }

  function DrawnNow(s: Loop, e: LoopEvent): seq<string> {
    if Draws(s, e) then [EchoModeOf(s.ctl.regs)] else []
  }

  /** The echo modes read at the pause checks of a run. */
  function Drawn(cfg: Config, s: Loop, es: seq<LoopEvent>): seq<string>
    decreases |es|
  {
    if es == [] then [] else DrawnNow(s, es[0]) + Drawn(cfg, Next(cfg, s, es[0]), es[1..])
  }

  predicate UnitPending(pc: Pc) {
    pc.Waiting? || pc.Writing?
  }

  /** Every unit is the one of its place under the mode read for it; at most one more was read, for the
      unit in hand. */
  ghost predicate Traced(cfg: Config, s: Loop, modes: seq<string>) {
    && |s.units| == s.n <= |modes| <= s.n + 1
    && (forall i :: 0 <= i < s.n ==> s.units[i] == UnitAt(cfg, modes[i], i))
    && (UnitPending(s.pc) ==> |modes| == s.n + 1 && s.pc.delta != "" && s.pc.delta == UnitAt(cfg, modes[s.n], s.n))
    && (!UnitPending(s.pc) && !s.pc.Stopped? ==> |modes| == s.n)
  }

  /** How a step changes the units: nothing, or the delta of the loop counter is appended. */
  ghost predicate Appends(cfg: Config, s: Loop, s': Loop) {
    var unit := if s.pc.Waiting? || s.pc.Writing? then s.pc.delta else UnitText(cfg, s.ctl.regs, s.n);
    && s.n <= s'.n <= s.n + 1
    && s'.units == (if s'.n > s.n then s.units + [unit] else s.units)
    && (s'.pc.Waiting? || s'.pc.Writing? ==>
          s'.n == s.n && s'.pc.delta == unit && (unit == "" ==> s.pc.Waiting? || s.pc.Writing?))
  }

  lemma GoAppends(cfg: Config, s: Loop)
    ensures Appends(cfg, s, GoStep(cfg, s))
  {
  }

  lemma StepAppends(cfg: Config, s: Loop, e: LoopEvent)
    ensures Appends(cfg, s, Next(cfg, s, e))
  {
    if e.Go? {
      GoAppends(cfg, s);
    }
  }

  /** When a mode is read, a unit is written at once or is in hand; when a unit is written or given up,
      its mode was read. */
  lemma StepDraws(cfg: Config, s: Loop, e: LoopEvent)
    ensures var s' := Next(cfg, s, e);
            && (Draws(s, e) ==> (s'.n == s.n + 1) != UnitPending(s'.pc) && !s'.pc.Stopped?)
            && (!Draws(s, e) ==>
                 && (s'.n > s.n ==> UnitPending(s.pc) && !UnitPending(s'.pc))
                 && (UnitPending(s'.pc) ==> UnitPending(s.pc))
                 && (UnitPending(s.pc) ==> s'.n > s.n || UnitPending(s'.pc) || s'.pc.Stopped?)
                 && (s.pc.Stopped? ==> s'.pc.Stopped?))
  {
  }

  lemma TracedStep(cfg: Config, s: Loop, e: LoopEvent, modes: seq<string>)
    requires Traced(cfg, s, modes)
    ensures Traced(cfg, Next(cfg, s, e), modes + DrawnNow(s, e))
  {
    StepAppends(cfg, s, e);
    StepDraws(cfg, s, e);
    if Draws(s, e) {
      assert UnitText(cfg, s.ctl.regs, s.n) == UnitAt(cfg, EchoModeOf(s.ctl.regs), s.n);
    }
    TracedGrows(cfg, s, Next(cfg, s, e), modes, modes + DrawnNow(s, e));
  }

  lemma TracedGrows(cfg: Config, s: Loop, s': Loop, modes: seq<string>, modes': seq<string>)
    requires Traced(cfg, s, modes) && modes <= modes' && s'.n <= |modes'| <= s'.n + 1
    requires s.n <= s'.n <= s.n + 1 && |s'.units| == s'.n && s.units <= s'.units
    requires s'.n > s.n ==> s'.units[s.n] == UnitAt(cfg, modes'[s.n], s.n)
    requires UnitPending(s'.pc) ==>
               |modes'| == s'.n + 1 && s'.pc.delta != "" && s'.pc.delta == UnitAt(cfg, modes'[s'.n], s'.n)
    requires !UnitPending(s'.pc) && !s'.pc.Stopped? ==> |modes'| == s'.n
    ensures Traced(cfg, s', modes')
  {
  }

  /** Whatever happens in a run, `n` units were written, the i-th one being the repetition made for
      place i under the mode read at its pause check. */
  lemma {:induction false} TracedRun(cfg: Config, s: Loop, es: seq<LoopEvent>, modes: seq<string>)
    requires Traced(cfg, s, modes)
    ensures Traced(cfg, Execute(cfg, s, es), modes + Drawn(cfg, s, es))
    decreases |es|
  {
    if es == [] {
      assert modes + [] == modes;
    } else {
      var now := DrawnNow(s, es[0]);
      var rest := Drawn(cfg, Next(cfg, s, es[0]), es[1..]);
      TracedStep(cfg, s, es[0], modes);
      TracedRun(cfg, Next(cfg, s, es[0]), es[1..], modes + now);
      assert (modes + now) + rest == modes + (now + rest);
    }
  }

  function Written(units: seq<string>): string {
    if units == [] then "" else Written(units[..|units| - 1]) + units[|units| - 1]
  }

  predicate TouchesMode(cmd: Command) {
    cmd.SetEchoMode?
  }

  /** Nothing in the session sets the echo mode. */
  ghost predicate ModeFixed(ctl: Ctl, mode: string) {
    && EchoModeOf(ctl.regs) == mode
    && (forall i :: 0 <= i < |ctl.queue| ==> !TouchesMode(ctl.queue[i]))
    && (forall a :: a in ctl.admins ==> !TouchesMode(ctl.admins[a].cmd))
    && (forall i :: 0 <= i < |ctl.current| ==> ctl.current[i].reg != REchoMode)
  }

  predicate KeepsMode(e: LoopEvent) {
    !(e.Admin? && e.e.Begin? && TouchesMode(e.e.cmd))
  }

  lemma ModeWrites(cmd: Command)
    requires !TouchesMode(cmd)
    ensures forall i :: 0 <= i < |Writes(cmd)| ==> Writes(cmd)[i].reg != REchoMode
    ensures forall i :: 0 <= i < |DirectWrites(cmd)| ==> DirectWrites(cmd)[i].reg != REchoMode
  {
  }

  lemma ModeFixedCtl(c: Ctl, e: SessionControl.Event, mode: string)
    requires ModeFixed(c, mode) && (e.Begin? ==> !TouchesMode(e.cmd))
    ensures ModeFixed(SessionControl.Step(c, e), mode)
  {
    if e.Take? && c.queue != [] {
      ModeWrites(c.queue[0]);
    }
    if e.Direct? && e.admin in c.admins {
      ModeWrites(c.admins[e.admin].cmd);
    }
  }

  lemma ModeFixedStep(cfg: Config, s: Loop, e: LoopEvent, mode: string)
    requires ModeFixed(s.ctl, mode) && KeepsMode(e)
    ensures ModeFixed(Next(cfg, s, e).ctl, mode)
  {
    StepMoves(cfg, s, e);
    var c := Next(cfg, s, e).ctl;
    if e.Admin? {
      ModeFixedCtl(s.ctl, e.e, mode);
    } else if OnlyState(s.ctl, c) {
      assert EchoModeOf(c.regs) == EchoModeOf(s.ctl.regs);
    } else {
      ModeFixedCtl(s.ctl, SessionControl.Take, mode);
      ModeFixedCtl(s.ctl, Replay, mode);
    }
  }

  ghost predicate Accumulated(cfg: Config, s: Loop, mode: string) {
    && ModeFixed(s.ctl, mode)
    && Written(s.units) == EchoText.Streamed(EchoText.Normalize(mode), cfg.text, s.n)
    && (s.pc.Waiting? || s.pc.Writing? ==> s.pc.delta == EchoText.Delta(EchoText.Normalize(mode), cfg.text, s.n))
  }

  lemma AccumulatedStep(cfg: Config, s: Loop, e: LoopEvent, mode: string)
    requires Accumulated(cfg, s, mode) && KeepsMode(e) && !cfg.isMax
    ensures Accumulated(cfg, Next(cfg, s, e), mode)
  {
    var s' := Next(cfg, s, e);
    ModeFixedStep(cfg, s, e, mode);
    StepUnits(cfg, s, e);
    StepAppends(cfg, s, e);
    if s'.n > s.n {
      assert s'.units[..|s'.units| - 1] == s.units;
    }
  }

  /** With one echo mode in force the client has received the streamed text of `n` repetitions. */
  lemma {:induction false} EchoTrace(cfg: Config, s: Loop, es: seq<LoopEvent>, mode: string)
    requires Accumulated(cfg, s, mode) && !cfg.isMax && forall i :: 0 <= i < |es| ==> KeepsMode(es[i])
    ensures var s' := Execute(cfg, s, es);
            Written(s'.units) == EchoText.Streamed(EchoText.Normalize(mode), cfg.text, s'.n)
    decreases |es|
  {
    if es != [] {
      AccumulatedStep(cfg, s, es[0], mode);
      EchoTrace(cfg, Next(cfg, s, es[0]), es[1..], mode);
    }
  }

  lemma StartAccumulated(cfg: Config, regs: Regs)
    ensures Accumulated(cfg, Start(regs), EchoModeOf(regs)) && Traced(cfg, Start(regs), []) && Tidy(Start(regs))
  {
  }

  /** A whole session: every unit under the mode read for it; and with the echo mode left alone, the
      stream of the text. */
  lemma SessionTrace(cfg: Config, regs: Regs, es: seq<LoopEvent>)
    ensures var s, modes := Execute(cfg, Start(regs), es), Drawn(cfg, Start(regs), es);
            |s.units| == s.n <= |modes| && forall i :: 0 <= i < s.n ==> s.units[i] == UnitAt(cfg, modes[i], i)
    ensures !cfg.isMax && (forall i :: 0 <= i < |es| ==> KeepsMode(es[i])) ==>
              var s := Execute(cfg, Start(regs), es);
              Written(s.units) == EchoText.Streamed(EchoText.Normalize(EchoModeOf(regs)), cfg.text, s.n)
  {
    StartAccumulated(cfg, regs);
    TracedRun(cfg, Start(regs), es, []);
    assert [] + Drawn(cfg, Start(regs), es) == Drawn(cfg, Start(regs), es);
    if !cfg.isMax && forall i :: 0 <= i < |es| ==> KeepsMode(es[i]) {
      EchoTrace(cfg, Start(regs), es, EchoModeOf(regs));
    }
  }

  // ---------- chunk-count faults ----------

  /** Units whose checks are done. */
  function Checked(s: Loop): int {
    if s.pc == Checks then s.n - 1 else s.n
  }

  function FaultTarget(s: Loop, chunks: int): int {
    if chunks > Checked(s) + 1 then chunks else Checked(s) + 1
  }

  /** A fault armed now has its target ahead. */
  ghost predicate FaultAhead(s: Loop, f: FaultSpec, base: int, target: int) {
    && s.pending == Armed(f) && f.afterChunks > 0
    && target == (if f.afterChunks > base + 1 then f.afterChunks else base + 1)
    && base <= Checked(s) && Checked(s) < target
  }

  ghost predicate FaultOver(s: Loop, target: int) {
    s.pc.Stopped? && (s.pc.reason == FaultFired ==> s.n == target) && s.n <= target
  }

  /** The counters only matter at the checks: elsewhere a step keeps them or writes a unit. */
  lemma FaultStep(cfg: Config, s: Loop, e: LoopEvent, f: FaultSpec, base: int, target: int)
    requires FaultAhead(s, f, base, target) && !s.pc.Stopped? && !e.Arm? && !cfg.isMax
    ensures var s' := Next(cfg, s, e); if s'.pc.Stopped? then FaultOver(s', target) else FaultAhead(s', f, base, target)
  {
    StepUnits(cfg, s, e);
  }

  lemma {:induction false} FaultRun(cfg: Config, s: Loop, es: seq<LoopEvent>, f: FaultSpec, base: int, target: int)
    requires if s.pc.Stopped? then FaultOver(s, target) else FaultAhead(s, f, base, target)
    requires !cfg.isMax && forall i :: 0 <= i < |es| ==> !es[i].Arm?
    ensures var s' := Execute(cfg, s, es);
            if s'.pc.Stopped? then FaultOver(s', target) else FaultAhead(s', f, base, target)
    decreases |es|
  {
    if es != [] {
      if !s.pc.Stopped? {
        FaultStep(cfg, s, es[0], f, base, target);
      }
      FaultRun(cfg, Next(cfg, s, es[0]), es[1..], f, base, target);
    }
  }

  /** A chunk-count fault, once armed and not replaced, fires after exactly its count of units, or
      after the next unit when that many are done; and the loop never gets past that unit, whatever
      pauses, takeovers and manual messages come in between. */
  lemma FaultFiresExactly(cfg: Config, s: Loop, f: FaultSpec, es: seq<LoopEvent>)
    requires !cfg.isMax && f.afterChunks > 0 && !s.pc.Stopped? && forall i :: 0 <= i < |es| ==> !es[i].Arm?
    ensures var s' := Execute(cfg, s, [Arm(f)] + es);
            var target := FaultTarget(s, f.afterChunks);
            && (s'.pc == Stopped(FaultFired) ==> s'.n == target)
            && s'.n <= target
            && (!s'.pc.Stopped? ==> s'.n < target || s'.pc == Checks)
            && (s'.pc == Checks && s'.n == target ==>
                 Next(cfg, s', Go).pc == Stopped(if LengthReached(cfg, s') then Length else FaultFired))
  {
    assert ([Arm(f)] + es)[1..] == es;
    FaultRun(cfg, Next(cfg, s, Arm(f)), es, f, Checked(s), FaultTarget(s, f.afterChunks));
  }

  // ---------- after the end ----------

  /** Nobody guards a closed session's state: a request that finds it late writes over ENDED. */
  lemma EndedIsOverwritten(cfg: Config, s: Loop, a: nat)
    requires s.pc.Stopped? && a !in s.ctl.admins
    ensures StateOf(Execute(cfg, s, [Admin(Begin(a, Pause)), Admin(Direct(a)), Admin(Direct(a))]).ctl.regs) == Paused
  {
    var s1 := Next(cfg, s, Admin(Begin(a, Pause)));
    assert s1.ctl.admins[a] == AdminOp(Pause, 0, Trying);
    ExecuteTwo(cfg, s1, Admin(Direct(a)), Admin(Direct(a)));
    assert [Admin(Begin(a, Pause)), Admin(Direct(a)), Admin(Direct(a))][1..] == [Admin(Direct(a)), Admin(Direct(a))];
  }

  /** With no request in progress and none begun, a stopped session keeps its registers for good. */
  lemma {:induction false} EndedStays(cfg: Config, s: Loop, es: seq<LoopEvent>)
    requires s.pc.Stopped? && s.closed && s.ctl.admins == map[]
    requires forall i :: 0 <= i < |es| ==> !(es[i].Admin? && es[i].e.Begin?)
    ensures Execute(cfg, s, es).ctl == s.ctl
    decreases |es|
  {
    if es != [] {
      EndedStays(cfg, Next(cfg, s, es[0]), es[1..]);
    }
  }

  // ---------- why a session stops ----------

  /** What the checks after a unit, and the commands, stop a session for. */
  predicate Justified(cfg: Config, s: Loop) {
    s.pc.Stopped? ==>
      match s.pc.reason
      case Length => cfg.maxTokens > 0 && !cfg.hasTools && s.output >= cfg.maxTokens
      case FaultFired => !cfg.isMax && s.pending.Armed? && s.n >= 1
      case ResourceLimit =>
        !cfg.isMax && 0 < cfg.maxEvents <= s.n && (cfg.action == Disconnect || cfg.action == ErrorFrame)
      case ByCommand(cmd) => IsTerminal(cmd) && s.closed
      case ClientGone => s.closed
  }

  /** Checks follow a unit. */
  predicate Counted(s: Loop) {
    s.pc == Checks ==> s.n >= 1
  }

  lemma CheckJustified(cfg: Config, s: Loop)
    requires s.pc == Checks && s.n >= 1
    ensures Justified(cfg, AfterUnit(cfg, s)) && Counted(AfterUnit(cfg, s))
  {
  }

  lemma StepJustified(cfg: Config, s: Loop, e: LoopEvent)
    requires Justified(cfg, s) && Counted(s)
    ensures Justified(cfg, Next(cfg, s, e)) && Counted(Next(cfg, s, e))
  {
    if s.pc == Checks {
      CheckJustified(cfg, s);
    }
  }

  /** In every run: a session stops for its length only when it has a limit, no tools, and has sent that
      much; for a fault only when one was armed; at the resource limit only when that is reached and its
      action says so; a MAX session for neither of the last two.  However it stops, it is closed. */
  lemma {:induction false} StopsForAReason(cfg: Config, s: Loop, es: seq<LoopEvent>)
    requires Justified(cfg, s) && Counted(s)
    ensures Justified(cfg, Execute(cfg, s, es)) && Counted(Execute(cfg, s, es))
    decreases |es|
  {
    if es != [] {
      StepJustified(cfg, s, es[0]);
      StopsForAReason(cfg, Next(cfg, s, es[0]), es[1..]);
    }
  }

  /** From its start, with tools declared, a session never stops for its length, whatever limit it has. */
  lemma NeverForLength(cfg: Config, regs: Regs, es: seq<LoopEvent>)
    requires cfg.hasTools || cfg.maxTokens <= 0
    ensures Execute(cfg, Start(regs), es).pc != Stopped(Length)
  {
    StopsForAReason(cfg, Start(regs), es);
  }

  /** What the checks after a unit come to, in their order: the length, an armed fault of the echo loop, its
      resource limit; and otherwise the pacing with the interval now set. */
  lemma CheckOrder(cfg: Config, s: Loop)
    requires s.pc == Checks
    ensures var after := Next(cfg, s, Go);
            var long := cfg.maxTokens > 0 && !cfg.hasTools && s.output >= cfg.maxTokens;
            var fault := !cfg.isMax && s.pending.Armed? && 0 < s.pending.fault.afterChunks <= s.n;
            var over := !cfg.isMax && 0 < cfg.maxEvents <= s.n;
            && after.n == s.n && after.units == s.units && after.output == s.output && after.ctl.queue == s.ctl.queue
            && (long || fault || (over && (cfg.action == Disconnect || cfg.action == ErrorFrame)) ==>
                  && after.pc == Stopped(if long then Length else if fault then FaultFired else ResourceLimit)
                  && after.closed
                  && after.ctl.regs == if s.closed then s.ctl.regs else CloseRegs(s.ctl.regs, Ended))
            && (!long && !fault && over && cfg.action == PauseSession ==>
                  after.pc == Top && after.ctl.regs == s.ctl.regs[RState := S(Paused)] && after.closed == s.closed)
            && (!long && !fault && (!over || cfg.action == OtherAction) ==>
                  after == s.(pc := Pace(IntervalOf(s.ctl.regs))))
  {
  }
}
