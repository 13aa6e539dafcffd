/**
 The runner of a streaming session: the loops of `runEcho` and `runEchoMax` as a machine whose steps
 interleave with the administrators of `SessionControl`.  A step that is not possible changes
 nothing, so a run is any sequence of events.
 */
module EchoLoop {
  import opened Text
  import opened SessionControl
  import Tokenizer
  import EchoText

  datatype ResourceAction = Disconnect | ErrorFrame | PauseSession | OtherAction

  /** What a run takes from the request, the model and the runtime configuration.  For `runEchoMax`
      (`isMax`) `text` is the aggregated block. */
  datatype Config = Config(
    u: Unicode,
    text: string,
    isMax: bool,
    hasTools: bool,
    maxTokens: int,
    maxEvents: int,
    action: ResourceAction,
    capsEchoRate: bool)

  /** Which select a command was taken in. */
  datatype From = AtTop | InPausedBlock | InPace | InManual

  datatype Reason = ByCommand(cmd: Command) | Length | FaultFired | ResourceLimit | ClientGone

  /** Where the runner is: replaying its start-up or a command, polling for commands, about to check
      for pause, in the paused block, waiting for the limiter, about to write, at the checks after a
      unit, pacing with the interval read, in the manual phase, or stopped. */
  datatype Pc =
    | Starting
    | Handling(cmd: Command, from: From)
    | Top
    | CheckPause
    | PausedBlock
    | Waiting(delta: string)
    | Writing(delta: string)
    | Checks
    | Pace(interval: int)
    | ManualPhase
    | Stopped(reason: Reason)

  /** `n` and `units` are the loop counter and the deltas written; `output` counts output tokens;
      `closed` is the session's done channel. */
  datatype Loop = Loop(ctl: Ctl, pc: Pc, n: nat, units: seq<string>, output: nat, pending: Pending, closed: bool)

  function Start(regs: Regs): Loop {
    Loop(SessionControl.Init(regs), Starting, 0, [], 0, NoFault, false)
  }

  function StateOf(regs: Regs): State {
    if RState in regs && regs[RState].S? then regs[RState].state else Connected
  }

  predicate IsPausedFlag(regs: Regs) {
    RPaused in regs && regs[RPaused] == B(true)
  }

  function EchoModeOf(regs: Regs): string {
    if REchoMode in regs && regs[REchoMode].T? then regs[REchoMode].text else ""
  }

  function IntervalOf(regs: Regs): int {
    if RInterval in regs && regs[RInterval].I? then regs[RInterval].num else 0
  }

  /** What the loop reads of its registers: state, pause flag, interval, echo mode. */
  predicate Reads(regs: Regs, state: State, paused: bool, interval: int, mode: string) {
    StateOf(regs) == state && IsPausedFlag(regs) == paused && IntervalOf(regs) == interval && EchoModeOf(regs) == mode
  }

  /** What a replayed command means to the loop: each changes what its name says and nothing else. */
  lemma CommandMeans(regs: Regs, cmd: Command)
    ensures var after := PutAll(regs, Writes(cmd));
            var state, paused, interval, mode := StateOf(regs), IsPausedFlag(regs), IntervalOf(regs), EchoModeOf(regs);
            match cmd
            case Pause => Reads(after, Paused, true, interval, mode)
            case Resume => Reads(after, Echoing, false, interval, mode)
            case TakeOver => Reads(after, Manual, paused, interval, mode)
            case ReturnToEcho => Reads(after, Echoing, paused, interval, mode)
            case SetRate(_, _) => Reads(after, state, paused, interval, mode)
            case SetInterval(ms) => Reads(after, state, paused, if ms < 0 then 0 else ms, mode)
            case SetEchoMode(m) => Reads(after, state, paused, interval, m)
            case _ => Reads(after, Ended, false, interval, mode)
  {
    if cmd.SetRate? {
      RateMeansNothing(regs, cmd.rate, cmd.rateMode);
    } else {
      PutAllUnfolds(regs, Writes(cmd));
    }
  }

  lemma RateMeansNothing(regs: Regs, rate: int, rateMode: string)
    ensures var after := PutAll(regs, Writes(SetRate(rate, rateMode)));
            Reads(after, StateOf(regs), IsPausedFlag(regs), IntervalOf(regs), EchoModeOf(regs))
  {
    RateLeaves(regs, rate, rateMode, RState);
    RateLeaves(regs, rate, rateMode, RPaused);
    RateLeaves(regs, rate, rateMode, RInterval);
    RateLeaves(regs, rate, rateMode, REchoMode);
  }

  lemma RateLeaves(regs: Regs, rate: int, rateMode: string, r: Reg)
    requires r == RState || r == RPaused || r == RInterval || r == REchoMode
    ensures Same(PutAll(regs, Writes(SetRate(rate, rateMode))), regs, r)
  {
    WritesDistinct(SetRate(rate, rateMode));
    PutAllAt(regs, Writes(SetRate(rate, rateMode)), r);
  }

  /** The text of unit `n` under the echo mode now in force. */
  function UnitText(cfg: Config, regs: Regs, n: nat): string {
    if cfg.isMax then cfg.text else EchoText.Delta(EchoText.Normalize(EchoModeOf(regs)), cfg.text, n)
  }

  datatype LoopEvent =
    | Admin(e: SessionControl.Event)      // a step of an administrator
    | Abandon(admin: nat)                 // a send finds the session closed and gives up
    | Arm(fault: FaultSpec)               // a pending fault is set
    | CloseSession(st: State)             // another goroutine closes the session
    | Go                                  // the runner's next deterministic step
    | TakeCommand                         // a select takes a command
    | Tick                                // a select takes its timer
    | Leave                               // a select takes ctx.Done or ses.Done
    | Waited(ok: bool)                    // the limiter's Wait returns
    | Wrote(ok: bool)                     // the write returns
    | Deliver(tokens: nat)                // a manual message goes out

  function CloseRegs(regs: Regs, st: State): Regs {
    regs[RState := S(st)][RPaused := B(false)]
  }

  /** `Session.Close`: only the first one writes. */
  function Close(s: Loop, st: State): Loop {
    if s.closed then s else s.(closed := true, ctl := s.ctl.(regs := CloseRegs(s.ctl.regs, st)))
  }

  function Stop(s: Loop, st: State, reason: Reason): Loop {
    Close(s, st).(pc := Stopped(reason))
  }

  /** Taking a command; one that would close a closed session writes nothing. */
  function Take(s: Loop, from: From): Loop
    requires s.ctl.queue != []
  {
    var cmd := s.ctl.queue[0];
    var ctl := SessionControl.Step(s.ctl, SessionControl.Take);
    s.(ctl := if IsTerminal(cmd) && s.closed then ctl.(current := []) else ctl, pc := Handling(cmd, from))
  }

  /** After the last write of a command. */
  function Handled(s: Loop, cmd: Command, from: From): Loop {
    if IsTerminal(cmd) then s.(pc := Stopped(ByCommand(cmd)), closed := true)
    else if from == InPausedBlock then s.(pc := Top)
    else if StateOf(s.ctl.regs) == Manual then s.(pc := ManualPhase)
    else s.(pc := Top)
  }

  predicate LengthReached(cfg: Config, s: Loop) {
    cfg.maxTokens > 0 && !cfg.hasTools && s.output >= cfg.maxTokens
  }

  predicate FaultReached(cfg: Config, s: Loop) {
    !cfg.isMax && s.pending.Armed? && s.pending.fault.afterChunks > 0 && s.n >= s.pending.fault.afterChunks
  }

  predicate ResourceReached(cfg: Config, s: Loop) {
    !cfg.isMax && cfg.maxEvents > 0 && s.n >= cfg.maxEvents
  }

  /** The checks after a unit, in the order of the loop. */
  function AfterUnit(cfg: Config, s: Loop): Loop {
    if LengthReached(cfg, s) then Stop(s, Ended, Length)
    else if FaultReached(cfg, s) then Stop(s, Ended, FaultFired)
    else if ResourceReached(cfg, s) && (cfg.action == Disconnect || cfg.action == ErrorFrame) then
      Stop(s, Ended, ResourceLimit)
    else if ResourceReached(cfg, s) && cfg.action == PauseSession then
      s.(pc := Top, ctl := s.ctl.(regs := Put(s.ctl.regs, Write(RState, S(Paused)))))
    else s.(pc := Pace(IntervalOf(s.ctl.regs)))
  }

  function GoStep(cfg: Config, s: Loop): Loop {
    match s.pc
    case Starting =>
      if s.ctl.current != [] then s.(ctl := SessionControl.Step(s.ctl, Replay)) else s.(pc := Top)
    case Handling(cmd, from) =>
      if s.ctl.current != [] then s.(ctl := SessionControl.Step(s.ctl, Replay)) else Handled(s, cmd, from)
    case Top => if s.ctl.queue != [] then Take(s, AtTop) else s.(pc := CheckPause)
    case CheckPause =>
      if StateOf(s.ctl.regs) == Paused then s.(pc := PausedBlock)
      else
        var delta := UnitText(cfg, s.ctl.regs, s.n);
        if delta == "" then s.(pc := Checks, n := s.n + 1, units := s.units + [""]) else s.(pc := Waiting(delta))
    case Checks => AfterUnit(cfg, s)
    case _ => s
  }

  /** The pacing select listens to commands unless MAX runs without an interval; to the context and
      the done channel only where the code does. */
  predicate PaceTakes(cfg: Config, interval: int) {
    interval > 0 || !cfg.isMax
  }

  predicate PaceLeaves(cfg: Config, interval: int) {
    interval > 0 || (!cfg.isMax && cfg.capsEchoRate)
  }

  function TakeStep(cfg: Config, s: Loop): Loop {
    if s.ctl.queue == [] then s
    else
      match s.pc
      case PausedBlock => Take(s, InPausedBlock)
      case Pace(interval) => if PaceTakes(cfg, interval) then Take(s, InPace) else s
      case ManualPhase => Take(s, InManual)
      case _ => s
  }

  /** The request of administrator `a` is at the first select of its send. */
  predicate WantsToSend(c: Ctl, a: nat) {
    a in c.admins && c.admins[a].phase == Trying && c.admins[a].written >= |DirectWrites(c.admins[a].cmd)|
  }

  function Next(cfg: Config, s: Loop, e: LoopEvent): Loop {
    match e
    case Admin(a) => if a.Take? || a.Replay? then s else s.(ctl := SessionControl.Step(s.ctl, a))
    case Abandon(a) => if s.closed && WantsToSend(s.ctl, a) then s.(ctl := s.ctl.(admins := s.ctl.admins - {a})) else s
    case Arm(f) => s.(pending := Armed(f))
    case CloseSession(st) => Close(s, st)
    case Go => GoStep(cfg, s)
    case TakeCommand => TakeStep(cfg, s)
    case Tick => if s.pc == PausedBlock || s.pc.Pace? then s.(pc := Top) else s
    case Leave =>
      if s.pc == PausedBlock || s.pc == ManualPhase || (s.pc.Pace? && PaceLeaves(cfg, s.pc.interval)) then
        Stop(s, ClientDisconnected, ClientGone)
      else s
    case Waited(ok) =>
      if !s.pc.Waiting? then s
      else if !ok then Stop(s, ClientDisconnected, ClientGone)
      else if IsPausedFlag(s.ctl.regs) then s
      else s.(pc := Writing(s.pc.delta))
    case Wrote(ok) =>
      if !s.pc.Writing? then s
      else
        var s' := s.(output := s.output + Tokenizer.Count(cfg.u, s.pc.delta));
        if !ok then Stop(s', ClientDisconnected, ClientGone)
        else s'.(pc := Checks, n := s.n + 1, units := s.units + [s.pc.delta])
    case Deliver(tokens) => if s.pc == ManualPhase then s.(output := s.output + tokens) else s
  }

  function Execute(cfg: Config, s: Loop, es: seq<LoopEvent>): Loop
    decreases |es|
  {
    if es == [] then s else Execute(cfg, Next(cfg, s, es[0]), es[1..])
  }

  lemma ExecuteOne(cfg: Config, s: Loop, e: LoopEvent)
    ensures Execute(cfg, s, [e]) == Next(cfg, s, e)
  {
    assert [e][1..] == [];
  }

  lemma ExecuteTwo(cfg: Config, s: Loop, e: LoopEvent, f: LoopEvent)
    ensures Execute(cfg, s, [e, f]) == Next(cfg, Next(cfg, s, e), f)
  {
    assert [e, f][1..] == [f];
    ExecuteOne(cfg, Next(cfg, s, e), f);
  }

  lemma {:induction false} ExecuteConcat(cfg: Config, s: Loop, es: seq<LoopEvent>, fs: seq<LoopEvent>)
    ensures Execute(cfg, s, es + fs) == Execute(cfg, Execute(cfg, s, es), fs)
    decreases |es|
  {
    if es == [] {
      assert es + fs == fs;
    } else {
      assert (es + fs)[1..] == es[1..] + fs;
      ExecuteConcat(cfg, Next(cfg, s, es[0]), es[1..], fs);
    }
  }

  // ---------- what a step does to the session ----------

  /** Only the state and the pause flag of the registers differ. */
  predicate OnlyState(c: Ctl, c': Ctl) {
    && c'.queue == c.queue && c'.admins == c.admins && c'.current == c.current && c'.log == c.log
    && (forall r: Reg :: r != RState && r != RPaused ==> Same(c'.regs, c.regs, r))
  }

  ghost predicate RunnerMove(s: Loop, s': Loop) {
    var c, c' := s.ctl, s'.ctl;
    || c' == SessionControl.Step(c, Replay)
    || c' == SessionControl.Step(c, SessionControl.Take)
    || (s.closed && c' == SessionControl.Step(c, SessionControl.Take).(current := []))
  }

  lemma CloseMoves(s: Loop, st: State, reason: Reason)
    ensures OnlyState(s.ctl, Close(s, st).ctl) && OnlyState(s.ctl, Stop(s, st, reason).ctl)
  {
  }

  lemma GoMoves(cfg: Config, s: Loop)
    ensures OnlyState(s.ctl, GoStep(cfg, s).ctl) || RunnerMove(s, GoStep(cfg, s))
  {
    if s.pc == Checks {
      CloseMoves(s, Ended, Length);
    }
  }

  /** A step of the loop is a step of the control protocol, or it writes the state. */
  lemma StepMoves(cfg: Config, s: Loop, e: LoopEvent)
    ensures var s' := Next(cfg, s, e);
            || OnlyState(s.ctl, s'.ctl)
            || (e.Admin? && s'.ctl == SessionControl.Step(s.ctl, e.e) && !e.e.Take? && !e.e.Replay?)
            || (e.Abandon? && s'.ctl == s.ctl.(admins := s.ctl.admins - {e.admin}))
            || (!e.Admin? && !e.Abandon? && RunnerMove(s, s'))
  {
    match e
    case Admin(_) =>
    case Go => GoMoves(cfg, s);
    case TakeCommand =>
    case CloseSession(st) => CloseMoves(s, st, ClientGone);
    case _ => CloseMoves(s, ClientDisconnected, ClientGone);
  }

  // ---------- commands have priority ----------

  /** Between the poll that found no command and the write of the unit. */
  predicate PastPoll(pc: Pc) {
    pc == CheckPause || pc.Waiting? || pc.Writing?
  }

  function Popped(s: Loop, s': Loop): nat {
    if |s'.ctl.queue| < |s.ctl.queue| then 1 else 0
  }

  /** The states of a run, from its start to its end. */
  function Trace(cfg: Config, s: Loop, es: seq<LoopEvent>): (t: seq<Loop>)
    ensures |t| == |es| + 1 && t[0] == s
    decreases |es|
  {
    [s] + if es == [] then [] else Trace(cfg, Next(cfg, s, es[0]), es[1..])
  }

  /** Units written while the command at place `k` of the first state's queue (counted from 1) is
      waiting. */
  function WrittenWhileWaiting(states: seq<Loop>, k: nat): int {
    if |states| < 2 || k == 0 then 0
    else states[1].n - states[0].n + WrittenWhileWaiting(states[1..], k - Popped(states[0], states[1]))
  }

  /** One step: the queue loses its head or grows at the end, and a unit is written only past the
      poll, which ends it. */
  lemma StepQueue(cfg: Config, s: Loop, e: LoopEvent)
    ensures QueueMoves(s.ctl.queue, Next(cfg, s, e).ctl.queue)
  {
    if e.Go? {
      GoQueue(cfg, s);
    }
  }

  predicate QueueMoves(queue: seq<Command>, queue': seq<Command>) {
    || queue' == queue
    || (queue != [] && queue' == queue[1..])
    || (|queue'| == |queue| + 1 && queue'[..|queue|] == queue)
  }

  lemma GoQueue(cfg: Config, s: Loop)
    ensures QueueMoves(s.ctl.queue, GoStep(cfg, s).ctl.queue)
  {
  }

  lemma StepUnits(cfg: Config, s: Loop, e: LoopEvent)
    ensures var s' := Next(cfg, s, e);
            && s.n <= s'.n <= s.n + 1
            && (s'.n > s.n ==> PastPoll(s.pc) && s'.pc == Checks)
            && (PastPoll(s'.pc) && !PastPoll(s.pc) ==> s.ctl.queue == [] && s'.ctl.queue == [])
  {
  }

  /** What `StepQueue` and `StepUnits` say of one step, without its queue's contents. */
  predicate Advances(s: Loop, s': Loop) {
    && s.n <= s'.n <= s.n + 1
    && (s'.n > s.n ==> PastPoll(s.pc) && s'.pc == Checks)
    && (PastPoll(s'.pc) && !PastPoll(s.pc) ==> s.ctl.queue == [])
    && |s'.ctl.queue| >= |s.ctl.queue| - 1
  }

  predicate AllAdvance(t: seq<Loop>) {
    forall i :: 0 < i < |t| ==> Advances(t[i - 1], t[i])
  }

  lemma {:induction false} TraceAdvances(cfg: Config, s: Loop, es: seq<LoopEvent>)
    ensures AllAdvance(Trace(cfg, s, es))
    decreases |es|
  {
    if es != [] {
      var s' := Next(cfg, s, es[0]);
      StepQueue(cfg, s, es[0]);
      StepUnits(cfg, s, es[0]);
      TraceAdvances(cfg, s', es[1..]);
      TraceCons(s, Trace(cfg, s', es[1..]));
    }
  }

  lemma TraceCons(s: Loop, t: seq<Loop>)
    requires t != [] && Advances(s, t[0]) && AllAdvance(t)
    ensures AllAdvance([s] + t)
  {
    var t' := [s] + t;
    forall i | 0 < i < |t'| ensures Advances(t'[i - 1], t'[i]) {
      assert t'[i] == t[i - 1];
      if i > 1 { assert t'[i - 1] == t[i - 2] && Advances(t[i - 2], t[i - 1]); }
    }
  }

  lemma {:induction false} WaitingBound(t: seq<Loop>, k: nat)
    requires t != [] && k <= |t[0].ctl.queue|
    requires AllAdvance(t)
    ensures WrittenWhileWaiting(t, k) <= if PastPoll(t[0].pc) && k > 0 then 1 else 0
  {
    if |t| >= 2 && k > 0 {
      assert Advances(t[0], t[1]);
      forall i | 0 < i < |t[1..]| ensures Advances(t[1..][i - 1], t[1..][i]) {
        assert t[1..][i] == t[i + 1] && t[1..][i - 1] == t[i];
      }
      WaitingBound(t[1..], k - Popped(t[0], t[1]));
    }
  }

  /** From the moment a command is enqueued, at most one more unit is written before it is taken, and
      none when the runner has not polled since the last unit. */
  lemma CommandPriority(cfg: Config, s: Loop, es: seq<LoopEvent>, k: nat)
    requires k <= |s.ctl.queue|
    ensures WrittenWhileWaiting(Trace(cfg, s, es), k) <= if PastPoll(s.pc) then 1 else 0
  {
    TraceAdvances(cfg, s, es);
    WaitingBound(Trace(cfg, s, es), k);
  }

  // ---------- what follows an enqueued command ----------

  /** Writes are in hand only while the runner starts up or handles a command. */
  predicate Tidy(s: Loop) {
    s.ctl.current != [] ==> s.pc == Starting || s.pc.Handling?
  }

  lemma StepTidy(cfg: Config, s: Loop, e: LoopEvent)
    requires Tidy(s)
    ensures Tidy(Next(cfg, s, e))
  {
  }

  /** So it is in every state of every run. */
  lemma {:induction false} RunTidy(cfg: Config, s: Loop, es: seq<LoopEvent>)
    requires Tidy(s)
    ensures Tidy(Execute(cfg, s, es))
    decreases |es|
  {
    if es != [] {
      StepTidy(cfg, s, es[0]);
      RunTidy(cfg, Next(cfg, s, es[0]), es[1..]);
    }
  }

  /** A full queue loses its head to a newer command. */
  predicate Displaces(cfg: Config, s: Loop, e: LoopEvent) {
    e.Admin? && Popped(s, Next(cfg, s, e)) == 1
  }

  /** The command at place `k` is not displaced in the run. */
  ghost predicate NeverDisplaced(cfg: Config, s: Loop, es: seq<LoopEvent>, k: nat)
    decreases |es|
  {
    es == [] || k == 0
    || (var s' := Next(cfg, s, es[0]);
        !(k == 1 && Displaces(cfg, s, es[0])) && NeverDisplaced(cfg, s', es[1..], k - Popped(s, s')))
  }

  /** When the runner takes a command, it has it in hand with all its writes. */
  lemma TakenInHand(cfg: Config, s: Loop, e: LoopEvent)
    requires Tidy(s) && Popped(s, Next(cfg, s, e)) == 1 && !Displaces(cfg, s, e)
    ensures var s' := Next(cfg, s, e);
            && s'.pc.Handling? && s'.pc.cmd == s.ctl.queue[0] && s'.n == s.n
            && s'.ctl.admins == s.ctl.admins && s'.ctl.queue == s.ctl.queue[1..] && s'.ctl.regs == s.ctl.regs
            && (s'.ctl.current == Writes(s.ctl.queue[0]) || (IsTerminal(s.ctl.queue[0]) && s'.ctl.current == []))
  {
  }

  predicate Ending(pc: Pc) {
    pc.Stopped? || (pc.Handling? && IsTerminal(pc.cmd))
  }

  /** Once a terminal command is in hand nothing more is written. */
  lemma {:induction false} EndingStays(cfg: Config, s: Loop, es: seq<LoopEvent>)
    requires Ending(s.pc)
    ensures Execute(cfg, s, es).n == s.n && Ending(Execute(cfg, s, es).pc)
    decreases |es|
  {
    if es != [] {
      EndingStep(cfg, s, es[0]);
      EndingStays(cfg, Next(cfg, s, es[0]), es[1..]);
    }
  }

  lemma EndingStep(cfg: Config, s: Loop, e: LoopEvent)
    requires Ending(s.pc)
    ensures Ending(Next(cfg, s, e).pc) && Next(cfg, s, e).n == s.n
  {
  }

  /** One step while the command at place `k` waits: it keeps its place but for a pop, and a unit is
      written only past the poll. */
  lemma WaitStep(cfg: Config, s: Loop, e: LoopEvent, k: nat)
    requires Tidy(s) && 0 < k <= |s.ctl.queue|
    ensures var s' := Next(cfg, s, e);
            && Tidy(s')
            && (k > Popped(s, s') ==>
                 k - Popped(s, s') <= |s'.ctl.queue| && s'.ctl.queue[k - Popped(s, s') - 1] == s.ctl.queue[k - 1])
            && s'.n + (if PastPoll(s'.pc) then 1 else 0) <= s.n + (if PastPoll(s.pc) then 1 else 0)
  {
    StepTidy(cfg, s, e);
    StepQueue(cfg, s, e);
    StepUnits(cfg, s, e);
  }

  /** A command that ends the session waits at place `k`. */
  ghost predicate EndAt(s: Loop, k: nat) {
    Tidy(s) && 0 < k <= |s.ctl.queue| && IsTerminal(s.ctl.queue[k - 1])
  }

  lemma StillThere(cfg: Config, s: Loop, es: seq<LoopEvent>, k: nat)
    requires es != [] && k > 0 && NeverDisplaced(cfg, s, es, k)
    ensures var left := k - Popped(s, Next(cfg, s, es[0]));
            !(k == 1 && Displaces(cfg, s, es[0])) && NeverDisplaced(cfg, Next(cfg, s, es[0]), es[1..], left)
  {
  }

  lemma EndTurn(cfg: Config, s: Loop, e: LoopEvent, k: nat) returns (s': Loop, left: nat)
    requires EndAt(s, k) && !(k == 1 && Displaces(cfg, s, e))
    ensures s' == Next(cfg, s, e) && left == k - Popped(s, s')
    ensures s'.n + (if PastPoll(s'.pc) then 1 else 0) <= s.n + (if PastPoll(s.pc) then 1 else 0)
    ensures if left == 0 then Ending(s'.pc) else EndAt(s', left)
  {
    s' := Next(cfg, s, e);
    left := k - Popped(s, s');
    WaitStep(cfg, s, e, k);
    if left == 0 {
      TakenInHand(cfg, s, e);
    }
  }

  /** At most one unit follows an enqueued finish, drop or inject. */
  lemma {:induction false} TerminalStops(cfg: Config, s: Loop, es: seq<LoopEvent>, k: nat)
    requires EndAt(s, k) && NeverDisplaced(cfg, s, es, k)
    ensures Execute(cfg, s, es).n <= s.n + if PastPoll(s.pc) then 1 else 0
    decreases |es|
  {
    if es != [] {
      StillThere(cfg, s, es, k);
      var s', left := EndTurn(cfg, s, es[0], k);
      if left == 0 {
        EndingStays(cfg, s', es[1..]);
      } else {
        TerminalStops(cfg, s', es[1..], left);
      }
    }
  }

  // ---------- pause ----------

  /** Commands that leave the limiter's pause flag set. */
  predicate KeepsFlag(cmd: Command) {
    !cmd.Resume?
  }

  ghost predicate FlagKeepers(ctl: Ctl, from: nat) {
    && (forall i :: from <= i < |ctl.queue| ==> KeepsFlag(ctl.queue[i]))
    && (forall a :: a in ctl.admins ==> KeepsFlag(ctl.admins[a].cmd))
  }

  /** Events that resume nothing: no new resume, and nobody closes the session. */
  predicate NoRelease(e: LoopEvent) {
    !e.CloseSession? && !(e.Admin? && e.e.Begin? && !KeepsFlag(e.e.cmd))
  }

  /** The limiter refuses every unit: the flag is set or about to be, and nothing clears it. */
  ghost predicate HeldByFlag(s: Loop) {
    Ending(s.pc) || (
      && Tidy(s) && FlagKeepers(s.ctl, 0) && !s.pc.Writing?
      && (IsPausedFlag(s.ctl.regs) || (s.pc.Handling? && s.ctl.current == Writes(Pause)))
      && forall i :: 0 <= i < |s.ctl.current| && s.ctl.current[i].reg == RPaused ==> s.ctl.current[i].val == B(true))
  }

  lemma FlagDirect(cmd: Command, i: nat)
    requires KeepsFlag(cmd) && i < |DirectWrites(cmd)| && DirectWrites(cmd)[i].reg == RPaused
    ensures DirectWrites(cmd)[i].val == B(true)
  {
  }

  lemma FlagReplay(cmd: Command, i: nat)
    requires KeepsFlag(cmd) && !IsTerminal(cmd) && i < |Writes(cmd)| && Writes(cmd)[i].reg == RPaused
    ensures Writes(cmd)[i].val == B(true)
  {
  }

  /** An administrator's step keeps the queue and the requests to commands of one kind. */
  lemma AdminKeepers(s: Ctl, e: SessionControl.Event)
    requires FlagKeepers(s, 0) && (e.Begin? ==> KeepsFlag(e.cmd)) && !e.Take? && !e.Replay?
    ensures FlagKeepers(SessionControl.Step(s, e), 0)
    ensures IsPausedFlag(s.regs) ==> IsPausedFlag(SessionControl.Step(s, e).regs)
    ensures SessionControl.Step(s, e).current == s.current
  {
    if e.Direct? && e.admin in s.admins && s.admins[e.admin].written < |DirectWrites(s.admins[e.admin].cmd)| {
      var op := s.admins[e.admin];
      if DirectWrites(op.cmd)[op.written].reg == RPaused {
        FlagDirect(op.cmd, op.written);
      }
    }
  }

  lemma HeldGo(cfg: Config, s: Loop)
    requires HeldByFlag(s) && !Ending(s.pc) && cfg.text != ""
    ensures HeldByFlag(GoStep(cfg, s)) && GoStep(cfg, s).n == s.n
  {
    if s.pc == Top && s.ctl.queue != [] {
      HeldTake(cfg, s, AtTop);
    } else if s.ctl.current != [] {
      assert forall i :: 0 <= i < |s.ctl.current[1..]| ==> s.ctl.current[1..][i] == s.ctl.current[i + 1];
    }
  }

  lemma HeldTake(cfg: Config, s: Loop, from: From)
    requires HeldByFlag(s) && !Ending(s.pc) && s.ctl.queue != [] && s.pc != Starting && !s.pc.Handling?
    ensures HeldByFlag(Take(s, from))
  {
    var cmd := s.ctl.queue[0];
    if !IsTerminal(cmd) {
      forall i | 0 <= i < |Writes(cmd)| && Writes(cmd)[i].reg == RPaused ensures Writes(cmd)[i].val == B(true) {
        FlagReplay(cmd, i);
      }
    }
  }

  lemma HeldStep(cfg: Config, s: Loop, e: LoopEvent)
    requires HeldByFlag(s) && NoRelease(e) && cfg.text != ""
    ensures HeldByFlag(Next(cfg, s, e)) && Next(cfg, s, e).n == s.n
  {
    if Ending(s.pc) {
      EndingStep(cfg, s, e);
    } else if e.Admin? {
      if !e.e.Take? && !e.e.Replay? {
        AdminKeepers(s.ctl, e.e);
      }
    } else if e.Go? {
      HeldGo(cfg, s);
    } else if e.TakeCommand? {
      if s.ctl.queue != [] && (s.pc == PausedBlock || s.pc.Pace? || s.pc == ManualPhase) {
        HeldTake(cfg, s, if s.pc == PausedBlock then InPausedBlock else if s.pc.Pace? then InPace else InManual);
      }
    }
  }

  lemma {:induction false} HeldRun(cfg: Config, s: Loop, es: seq<LoopEvent>)
    requires HeldByFlag(s) && cfg.text != "" && forall i :: 0 <= i < |es| ==> NoRelease(es[i])
    ensures Execute(cfg, s, es).n == s.n
    decreases |es|
  {
    if es != [] {
      HeldStep(cfg, s, es[0]);
      HeldRun(cfg, Next(cfg, s, es[0]), es[1..]);
    }
  }

  /** A pause waits at place `k`, and nothing behind it resumes. */
  ghost predicate PauseAt(s: Loop, k: nat) {
    Tidy(s) && 0 < k <= |s.ctl.queue| && s.ctl.queue[k - 1] == Pause && FlagKeepers(s.ctl, k)
  }

  lemma PauseTaken(cfg: Config, s: Loop, e: LoopEvent)
    requires Tidy(s) && s.ctl.queue != [] && s.ctl.queue[0] == Pause && FlagKeepers(s.ctl, 1)
    requires Popped(s, Next(cfg, s, e)) == 1 && !Displaces(cfg, s, e)
    ensures HeldByFlag(Next(cfg, s, e))
  {
    StepTidy(cfg, s, e);
    TakenInHand(cfg, s, e);
  }

  lemma PauseTurn(cfg: Config, s: Loop, e: LoopEvent, k: nat) returns (s': Loop, left: nat)
    requires PauseAt(s, k) && NoRelease(e) && !(k == 1 && Displaces(cfg, s, e))
    ensures s' == Next(cfg, s, e) && left == k - Popped(s, s')
    ensures s'.n + (if PastPoll(s'.pc) then 1 else 0) <= s.n + (if PastPoll(s.pc) then 1 else 0)
    ensures if left == 0 then HeldByFlag(s') else PauseAt(s', left)
  {
    s' := Next(cfg, s, e);
    left := k - Popped(s, s');
    WaitStep(cfg, s, e, k);
    if left == 0 {
      PauseTaken(cfg, s, e);
    } else {
      KeepersBehind(cfg, s, e, k);
    }
  }

  /** At most one unit follows an enqueued pause until a resume is issued after it: takeovers and
      returns do not release the limiter. */
  lemma {:induction false} PauseHolds(cfg: Config, s: Loop, es: seq<LoopEvent>, k: nat)
    requires cfg.text != "" && PauseAt(s, k) && NeverDisplaced(cfg, s, es, k)
    requires forall i :: 0 <= i < |es| ==> NoRelease(es[i])
    ensures Execute(cfg, s, es).n <= s.n + if PastPoll(s.pc) then 1 else 0
    decreases |es|
  {
    if es != [] {
      StillThere(cfg, s, es, k);
      var s', left := PauseTurn(cfg, s, es[0], k);
      if left == 0 {
        HeldRun(cfg, s', es[1..]);
      } else {
        PauseHolds(cfg, s', es[1..], left);
      }
    }
  }

  lemma KeepersBehind(cfg: Config, s: Loop, e: LoopEvent, k: nat)
    requires 0 < k <= |s.ctl.queue| && FlagKeepers(s.ctl, k) && NoRelease(e)
    ensures var s' := Next(cfg, s, e); k > Popped(s, s') ==> FlagKeepers(s'.ctl, k - Popped(s, s'))
  {
    StepMoves(cfg, s, e);
    var c, c' := s.ctl, Next(cfg, s, e).ctl;
    if e.Admin? {
      AdminKeepersBehind(c, e.e, k);
    }
    if c'.queue == c.queue[1..] {
      assert forall i :: 0 <= i < |c'.queue| ==> c'.queue[i] == c.queue[i + 1];
    }
  }

  lemma AdminKeepersBehind(c: Ctl, e: SessionControl.Event, k: nat)
    requires 0 < k <= |c.queue| && FlagKeepers(c, k) && (e.Begin? ==> KeepsFlag(e.cmd))
    ensures var c' := SessionControl.Step(c, e);
            var popped := if |c'.queue| < |c.queue| then 1 else 0;
            k > popped ==> FlagKeepers(c', k - popped)
  {
  }
}
