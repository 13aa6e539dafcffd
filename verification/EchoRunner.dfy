/**
 The runner of a streaming session as the source writes it: an endless loop with its polls, selects
 and early returns, the manual phase as a loop of its own, and commands replayed setter by setter.
 What the scheduler decides comes from a script; whatever it is, the run is a run of `EchoLoop`, and it
 is the session that the script determines.
 */
module EchoRunner {
  import opened Text
  import opened SessionControl
  import opened EchoLoop
  import opened EchoBudget
  import opened EchoScript
  import EchoLimits
  import EchoText
  import Tokenizer

  /** An administrator's step does not look at what the runner still owes. */
  lemma StepIgnoresCurrent(c: Ctl, e: SessionControl.Event)
    requires !e.Take? && !e.Replay?
    ensures SessionControl.Step(c, e) == SessionControl.Step(c.(current := []), e).(current := c.current)
  {
  }

  lemma TakeIs(cfg: Config, s: Loop, from: From)
    requires s.ctl.queue != [] && CanTake(cfg, s.pc, from)
    ensures Next(cfg, s, if from == AtTop then Go else TakeCommand) == EchoLoop.Take(s, from)
  {
  }

  predicate CanTake(cfg: Config, pc: Pc, from: From) {
    match from
    case AtTop => pc == Top
    case InPausedBlock => pc == PausedBlock
    case InPace => pc.Pace? && PaceTakes(cfg, pc.interval)
    case InManual => pc == ManualPhase
  }

  /** The tokens of the units from place `from` up to place `to` under one echo mode. */
  function Cost(cfg: Config, mode: string, from: nat, to: nat): nat {
    if to <= from then 0
    else Cost(cfg, mode, from, to - 1) + Tokenizer.Count(cfg.u, EchoLimits.UnitAt(cfg, mode, to - 1))
  }

  lemma {:induction false} CostGrows(cfg: Config, mode: string, from: nat, to: nat, to': nat)
    requires to <= to'
    ensures Cost(cfg, mode, from, to) <= Cost(cfg, mode, from, to')
    decreases to'
  {
    if to < to' {
      CostGrows(cfg, mode, from, to, to' - 1);
    }
  }

  /** The place behind the last unit before the resource limit is looked at and reached. */
  function LastUnit(cfg: Config, n: nat): nat {
    if n < cfg.maxEvents then cfg.maxEvents else n + 1
  }

  /** Two units of one token each. */
  lemma MarksCost(cfg: Config, mode: string)
    requires cfg.u.Valid() && cfg.text == "!" && !cfg.isMax && EchoText.Normalize(mode) == EchoText.Exact
    ensures Cost(cfg, mode, 0, 2) == 2
  {
    assert "!"[1..] == "";
    assert Tokenizer.Count(cfg.u, "!") == 1;
    assert EchoLimits.UnitAt(cfg, mode, 0) == "!" && EchoLimits.UnitAt(cfg, mode, 1) == "!";
    assert Cost(cfg, mode, 0, 1) == 1;
  }

  /** What the history of a session says about it. */
  lemma SessionTold(cfg: Config, o: Origin, h: History, rest: seq<Turn>, now: Loop)
    requires InStep(cfg, o, h, rest, now) && (cfg.isMax ==> cfg.text != "")
    ensures now == Execute(cfg, Start(o.first), h.trace)
    ensures now.n == |now.units| <= |EchoLimits.Drawn(cfg, Start(o.first), h.trace)|
    ensures forall i :: 0 <= i < now.n ==>
              now.units[i] == EchoLimits.UnitAt(cfg, EchoLimits.Drawn(cfg, Start(o.first), h.trace)[i], i)
    ensures Settle(cfg, now) == Play(cfg, Start(o.first), h.played)
    ensures h.played + rest == o.script + Repeat([ALONE], h.idle) && (rest != [] ==> h.idle == 0)
  {
    EchoLimits.SessionTrace(cfg, o.first, h.trace);
    ContinuesNow(cfg, Start(o.first), h.played, now);
    assert h.played + [] == h.played;
  }

  class Runner {
    const cfg: Config
    var regs: Regs
    var queue: seq<Command>
    var admins: map<nat, AdminOp>
    var log: seq<Entry>
    var n: nat
    var units: seq<string>
    var output: nat
    var pending: Pending
    var closed: bool
    var turns: seq<Turn>
    ghost const origin: Origin
    ghost var at: Pc
    ghost var owed: seq<Write>
    ghost var hist: History

    ghost function View(): Loop
      reads this
    {
      Loop(Ctl(regs, queue, admins, owed, log), at, n, units, output, pending, closed)
    }

    /** The session so far is a run of the machine, and the one that its script determines. */
    ghost predicate Valid()
      reads this
    {
      InStep(cfg, origin, hist, turns, View()) && (cfg.isMax ==> cfg.text != "")
    }

    /** The others of turn `t` have run, and the runner's answer is due. */
    ghost predicate Due(t: Turn)
      reads this
    {
      IsDue(cfg, origin, hist, t, turns, View()) && (cfg.isMax ==> cfg.text != "")
    }

    constructor (cfg: Config, regs: Regs, script: seq<Turn>)
      requires cfg.isMax ==> cfg.text != ""
      ensures Valid() && at == Starting && owed == START_UP && hist == BEGIN && origin == Origin(regs, script)
      ensures this.cfg == cfg && turns == script
    {
      this.cfg, this.regs, turns, origin := cfg, regs, script, Origin(regs, script);
      queue, admins, log, n, units, output, pending, closed := [], map[], [], 0, [], 0, NoFault, false;
      at, owed, hist := Starting, START_UP, BEGIN;
      StartInStep(cfg, Origin(regs, script));
    }

    /** The step with which the runner answers turn `t`. */
    ghost method Answers(t: Turn, e: LoopEvent, before: Loop)
      requires IsDue(cfg, origin, hist, t, turns, before)
      requires Answer(cfg, before, t) == [e] && Next(cfg, before, e) == View()
      requires cfg.isMax ==> cfg.text != ""
      modifies this`hist
      ensures Valid() && hist == Answered(old(hist), t, [e])
    {
      AnswerInStep(cfg, origin, hist, t, turns, before, e);
      hist := Answered(hist, t, [e]);
    }

    /** A turn on which the runner goes on waiting. */
    ghost method Waits(t: Turn)
      requires Due(t) && Answer(cfg, View(), t) == []
      modifies this`hist
      ensures Valid()
    {
      WaitInStep(cfg, origin, hist, t, turns, View());
      hist := Answered(hist, t, []);
    }

    /** A step that the runner takes without a turn. */
    ghost method GoesOn(e: LoopEvent, before: Loop)
      requires InStep(cfg, origin, hist, turns, before) && Free(cfg, before) == [e] && Next(cfg, before, e) == View()
      requires cfg.isMax ==> cfg.text != ""
      modifies this`hist
      ensures Valid()
    {
      FreeInStep(cfg, origin, hist, turns, before, e);
      hist := hist.(trace := hist.trace + [e]);
    }

    // ----- the other goroutines -----

    method AdminStep(a: SessionControl.Event)
      requires !a.Take? && !a.Replay?
      modifies this`regs, this`queue, this`admins, this`log
      ensures View() == Next(cfg, old(View()), Admin(a))
    {
      ghost var before := View();
      var c := SessionControl.Step(Ctl(regs, queue, admins, [], log), a);
      StepIgnoresCurrent(before.ctl, a);
      regs, queue, admins, log := c.regs, c.queue, c.admins, c.log;
      assert View() == before.(ctl := SessionControl.Step(before.ctl, a));
    }

    method Other(e: LoopEvent)
      requires IsOther(e)
      modifies this`regs, this`queue, this`admins, this`log, this`pending, this`closed
      ensures View() == Next(cfg, old(View()), e)
    {
      match e {
        case Admin(a) =>
          if !a.Take? && !a.Replay? {
            AdminStep(a);
          }
        case Abandon(a) =>
          if closed && WantsToSend(Ctl(regs, queue, admins, [], log), a) {
            admins := admins - {a};
          }
        case Arm(f) =>
          pending := Armed(f);
        case CloseSession(st) =>
          CloseOnce(st);
      }
    }

    /** Before a step of the runner: the next turn of the script. */
    method Others() returns (t: Turn)
      requires Valid() && Free(cfg, View()) == []
      modifies this`regs, this`queue, this`admins, this`log, this`pending, this`closed, this`turns, this`hist
      ensures Due(t)
      ensures turns == if old(turns) == [] then [] else old(turns)[1..]
      ensures old(turns) == [] ==> t == ALONE && unchanged(`regs, `queue, `admins, `pending, `closed)
    {
      NextTurn(cfg, origin, hist, turns, View());
      if turns == [] {
        hist := hist.(idle := hist.idle + 1);
        t := ALONE;
      } else {
        t := turns[0];
        turns := turns[1..];
      }
      RunOthers(t);
    }

    method RunOthers(t: Turn)
      requires Tracks(cfg, origin, hist, [t], turns, View()) && Continues(cfg, Start(origin.first), hist.played, View())
      requires Free(cfg, View()) == [] && (cfg.isMax ==> cfg.text != "")
      modifies this`regs, this`queue, this`admins, this`log, this`pending, this`closed, this`hist
      ensures Due(t)
      ensures t == ALONE ==> unchanged(`regs, `queue, `admins, `pending, `closed)
    {
      ghost var base := View();
      for i := 0 to |t.others|
        invariant Tracks(cfg, origin, hist, [t], turns, View()) && View() == Interfere(cfg, base, t.others[..i])
        invariant hist == old(hist).(trace := hist.trace)
        invariant i == 0 ==> unchanged(`regs, `queue, `admins, `pending, `closed)
      {
        assert t.others[..i + 1][..i] == t.others[..i];
        if IsOther(t.others[i]) {
          OtherTracks(cfg, origin, hist, [t], turns, View(), t.others[i]);
          Other(t.others[i]);
          hist := hist.(trace := hist.trace + [t.others[i]]);
        }
      }
      assert t.others[..|t.others|] == t.others;
      OthersDue(cfg, origin, hist, t, turns, base, View());
    }

    // ----- the session's methods, one lock section at a time -----

    /** `closeOnce`: only the first call writes. */
    method CloseOnce(st: State)
      modifies this`regs, this`closed
      ensures closed && regs == if old(closed) then old(regs) else CloseRegs(old(regs), st)
    {
      if !closed {
        regs := regs[RState := S(st)][RPaused := B(false)];
        closed := true;
      }
    }

    /** The next write of the start-up or of a replayed command. */
    method Store(w: Write)
      requires Valid() && owed != [] && owed[0] == w && (at == Starting || at.Handling?)
      modifies this
      ensures Valid() && owed == old(owed)[1..] && at == old(at) && |turns| <= |old(turns)|
      ensures old(turns) == [] ==> turns == [] && regs == Put(old(regs), w)
                                   && unchanged(`queue, `admins, `pending, `closed, `n, `units, `output)
    {
      ghost var t := Others();
      ghost var before := View();
      regs := Put(regs, w);
      owed := owed[1..];
      Answers(t, Go, before);
    }

    /** The setters of a command that goes on, in the order of their lock sections. */
    method Apply(cmd: Command)
      requires Valid() && at.Handling? && !IsTerminal(cmd) && owed == Writes(cmd)
      modifies this
      ensures Valid() && at == old(at) && owed == [] && |turns| <= |old(turns)|
    {
      match cmd {
        case Pause =>
          Store(Write(RPaused, B(true)));
          Store(Write(RState, S(Paused)));
        case Resume =>
          Store(Write(RPaused, B(false)));
          Store(Write(RState, S(Echoing)));
        case TakeOver =>
          Store(Write(RMode, M(ManualMode)));
          Store(Write(RState, S(Manual)));
        case ReturnToEcho =>
          Store(Write(RMode, M(EchoMode)));
          Store(Write(RState, S(Echoing)));
        case SetRate(rate, mode) => ApplyRate(rate, mode);
        case SetInterval(ms) =>
          Store(Write(RInterval, I(if ms < 0 then 0 else ms)));
        case SetEchoMode(m) =>
          Store(Write(REchoMode, T(m)));
      }
    }

    method ApplyRate(rate: int, mode: string)
      requires Valid() && at.Handling? && owed == Writes(SetRate(rate, mode))
      modifies this
      ensures Valid() && at == old(at) && owed == [] && |turns| <= |old(turns)|
    {
      Store(Write(RBucketRate, I(rate)));
      if mode != "" {
        Store(Write(RBucketMode, T(mode)));
      }
      Store(Write(RRate, I(rate)));
      if mode != "" {
        Store(Write(RRateMode, T(mode)));
      }
    }

    /** Taking the command at the head of the queue; `late` says that the session was closed already. */
    method Pop(ghost from: From, ghost t: Turn) returns (cmd: Command, late: bool)
      requires Due(t) && queue != [] && owed == []
      requires CanTake(cfg, at, from) && Answer(cfg, View(), t) == [if from == AtTop then Go else TakeCommand]
      modifies this
      ensures Valid() && at == Handling(cmd, from) && turns == old(turns)
      ensures owed == if IsTerminal(cmd) && late then [] else Writes(cmd)
    {
      ghost var before := View();
      cmd, late := queue[0], closed;
      queue := queue[1..];
      log := log + [Entry(cmd, false)];
      owed := if IsTerminal(cmd) && late then [] else Writes(cmd);
      at := Handling(cmd, from);
      assert View() == EchoLoop.Take(before, from);
      TakeIs(cfg, before, from);
      Answers(t, if from == AtTop then Go else TakeCommand, before);
    }

    /** `handleCommand`: true when the session must end. */
    method HandleCommand(cmd: Command, late: bool) returns (done: bool)
      requires Valid() && at.Handling? && at.cmd == cmd
      requires owed == if IsTerminal(cmd) && late then [] else Writes(cmd)
      modifies this
      ensures Valid() && owed == [] && |turns| <= |old(turns)|
      ensures done == IsTerminal(cmd) && at == if done then Stopped(ByCommand(cmd)) else old(at)
    {
      match cmd {
        case Finish => End(cmd, late);
        case Drop => End(cmd, late);
        case Inject(_) => End(cmd, late);
        case _ => Apply(cmd);
      }
      done := IsTerminal(cmd);
    }

    method End(cmd: Command, late: bool)
      requires Valid() && at.Handling? && at.cmd == cmd && IsTerminal(cmd) && owed == if late then [] else Writes(cmd)
      modifies this
      ensures Valid() && at == Stopped(ByCommand(cmd)) && owed == [] && |turns| <= |old(turns)|
    {
      if !late {
        Store(Write(RState, S(Ended)));
        Store(Write(RPaused, B(false)));
      }
      ghost var before := View();
      closed := true;
      at := Stopped(ByCommand(cmd));
      GoesOn(Go, before);
    }

    method Serve(ghost from: From, ghost t: Turn) returns (done: bool)
      requires Due(t) && queue != [] && owed == []
      requires CanTake(cfg, at, from) && Answer(cfg, View(), t) == [if from == AtTop then Go else TakeCommand]
      modifies this
      ensures Valid() && owed == [] && |turns| <= |old(turns)|
      ensures if done then at.Stopped? else at.Handling? && at.from == from && !IsTerminal(at.cmd)
    {
      var cmd, late := Pop(from, t);
      done := HandleCommand(cmd, late);
    }

    /** The runner finds the client or the session gone. */
    method GiveUp(ghost e: LoopEvent, ghost t: Turn)
      requires Due(t) && Answer(cfg, View(), t) == [e] && (e == Leave || e == Waited(false))
      requires if e == Leave then at == PausedBlock || at == ManualPhase || (at.Pace? && PaceLeaves(cfg, at.interval))
               else at.Waiting?
      modifies this
      ensures Valid() && at == Stopped(ClientGone) && owed == old(owed) && turns == old(turns)
      ensures unchanged(`n, `units, `output)
    {
      ghost var before := View();
      CloseOnce(ClientDisconnected);
      at := Stopped(ClientGone);
      Answers(t, e, before);
    }

    // ----- manual phase -----

    /** After a command outside the paused block the state decides: the manual phase or the loop. */
    method IsManual() returns (manual: bool)
      requires Valid() && at.Handling? && at.from != InPausedBlock && !IsTerminal(at.cmd) && owed == []
      modifies this
      ensures Valid() && owed == [] && |turns| <= |old(turns)| && at == if manual then ManualPhase else Top
    {
      ghost var t := Others();
      ghost var before := View();
      manual := StateOf(regs) == Manual;
      at := if manual then ManualPhase else Top;
      Answers(t, Go, before);
    }

    method AfterCommand() returns (done: bool)
      requires Valid() && at.Handling? && at.from != InPausedBlock && !IsTerminal(at.cmd) && owed == []
      modifies this
      ensures Valid() && owed == [] && |turns| <= |old(turns)|
      ensures if done then at.Stopped? || turns == [] else at == Top
    {
      var manual := IsManual();
      done := false;
      if manual {
        done := RunManualPhase();
      }
    }

    /** A command taken outside the paused block and the manual phase. */
    method ServeHere(ghost from: From, ghost t: Turn) returns (done: bool)
      requires Due(t) && queue != [] && owed == [] && (from == AtTop || from == InPace) && CanTake(cfg, at, from)
      requires Answer(cfg, View(), t) == [if from == AtTop then Go else TakeCommand]
      modifies this
      ensures Valid() && owed == [] && |turns| <= |old(turns)|
      ensures if done then at.Stopped? || turns == [] else at == Top
    {
      done := Serve(from, t);
      if !done {
        done := AfterCommand();
      }
    }

    /** `deliverManual`, as far as tokens go. */
    method DeliverManual(tokens: nat, ghost t: Turn)
      requires Due(t) && at == ManualPhase && owed == [] && t.pick == PickMessage(tokens)
      modifies this
      ensures Valid() && at == ManualPhase && owed == [] && turns == old(turns)
    {
      ghost var before := View();
      output := output + tokens;
      Answers(t, Deliver(tokens), before);
    }

    /** `runManualPhase`: true when the session must end (or the script does). */
    method RunManualPhase() returns (done: bool)
      requires Valid() && at == ManualPhase && owed == []
      modifies this
      ensures Valid() && owed == [] && |turns| <= |old(turns)|
      ensures if done then at.Stopped? || turns == [] else at == Top
    {
      while turns != []
        invariant Valid() && at == ManualPhase && owed == [] && |turns| <= |old(turns)|
        decreases |turns|
      {
        var t := Others();
        match t.pick {
          case PickGone =>
            GiveUp(Leave, t);
            return true;
          case PickCommand =>
            if queue == [] {
              Waits(t);
            } else {
              done := Serve(InManual, t);
              if done {
                return;
              }
              var manual := IsManual();
              if !manual {
                return false;
              }
            }
          case PickMessage(tokens) => DeliverManual(tokens, t);
          case PickTimer => Waits(t);
        }
      }
      done := true;
    }

    // ----- the parts of an iteration -----

    /** The select of a paused session; the manual phase is not looked for here. */
    method WaitPaused() returns (done: bool)
      requires Valid() && at == PausedBlock && owed == []
      modifies this
      ensures Valid() && owed == [] && |turns| <= |old(turns)|
      ensures if done then at.Stopped? else at == Top
    {
      var t := Others();
      if t.pick.PickCommand? && queue != [] {
        done := Serve(InPausedBlock, t);
        if !done {
          ghost var before := View();
          at := Top;
          GoesOn(Go, before);
        }
      } else if t.pick.PickGone? {
        GiveUp(Leave, t);
        done := true;
      } else {
        ghost var before := View();
        at := Top;
        Answers(t, Tick, before);
        done := false;
      }
    }

    /** The limiter: it holds the unit back while the session is paused there. */
    method Wait() returns (ok: bool)
      requires Valid() && at.Waiting? && owed == []
      modifies this
      ensures Valid() && owed == [] && |turns| <= |old(turns)|
      ensures ok ==> at == Writing(old(at).delta)
      ensures !ok ==> at.Stopped? || turns == []
      ensures unchanged(`n, `units, `output)
      ensures old(turns) == [] && !IsPausedFlag(old(regs)) ==>
                ok && turns == [] && unchanged(`regs, `queue, `admins, `pending, `closed)
    {
      var t := Others();
      while t.ok && IsPausedFlag(regs) && turns != []
        invariant Due(t) && at == old(at) && owed == [] && |turns| <= |old(turns)| && unchanged(`n, `units, `output)
        invariant old(turns) == [] ==> t == ALONE && turns == [] && unchanged(`regs, `queue, `admins, `pending, `closed)
        decreases |turns|
      {
        Answers(t, Waited(true), View());
        t := Others();
      }
      if !t.ok {
        GiveUp(Waited(false), t);
        return false;
      }
      if IsPausedFlag(regs) {
        Answers(t, Waited(true), View());
        return false;
      }
      ghost var before := View();
      at := Writing(at.delta);
      Answers(t, Waited(true), before);
      ok := true;
    }

    /** Accounting, limiter, write and counters of one unit. */
    method Emit(delta: string) returns (done: bool)
      requires Valid() && at == Waiting(delta) && owed == []
      modifies this
      ensures Valid() && owed == [] && |turns| <= |old(turns)|
      ensures if done then at.Stopped? || turns == [] else at == Checks
      ensures old(turns) == [] && !IsPausedFlag(old(regs)) ==>
                && !done && turns == [] && unchanged(`regs, `queue, `admins, `pending, `closed)
                && n == old(n) + 1 && units == old(units) + [delta]
                && output == old(output) + Tokenizer.Count(cfg.u, delta)
    {
      var tokens := Tokenizer.CountString(cfg.u, delta);
      var granted := Wait();
      if !granted {
        return true;
      }
      var t := Others();
      done := WriteOut(delta, tokens, t.ok, t);
    }

    method WriteOut(delta: string, tokens: nat, ok: bool, ghost t: Turn) returns (done: bool)
      requires Due(t) && t.ok == ok
      requires at == Writing(delta) && owed == [] && tokens == Tokenizer.Count(cfg.u, delta)
      modifies this
      ensures Valid() && owed == [] && turns == old(turns)
      ensures done == !ok && at == if done then Stopped(ClientGone) else Checks
      ensures ok ==> n == old(n) + 1 && units == old(units) + [delta] && output == old(output) + tokens
                     && unchanged(`regs, `queue, `admins, `pending, `closed)
    {
      if !ok {
        FailToWrite(tokens, t);
        return true;
      }
      ghost var before := View();
      output := output + tokens;
      n := n + 1;
      units := units + [delta];
      at := Checks;
      Answers(t, Wrote(true), before);
      done := false;
    }

    method FailToWrite(tokens: nat, ghost t: Turn)
      requires Due(t) && !t.ok && at.Writing? && owed == [] && tokens == Tokenizer.Count(cfg.u, at.delta)
      modifies this
      ensures Valid() && at == Stopped(ClientGone) && owed == [] && turns == old(turns)
    {
      ghost var before := View();
      output := output + tokens;
      CloseOnce(ClientDisconnected);
      at := Stopped(ClientGone);
      Answers(t, Wrote(false), before);
    }

    /** A check that ends the session. */
    method EndWith(reason: Reason, ghost t: Turn)
      requires Due(t) && at == Checks && owed == [] && AfterUnit(cfg, View()) == Stop(View(), Ended, reason)
      modifies this`regs, this`closed, this`at, this`hist
      ensures Valid() && at == Stopped(reason)
    {
      ghost var before := View();
      CloseOnce(Ended);
      at := Stopped(reason);
      assert View() == Stop(before, Ended, reason);
      Answers(t, Go, before);
    }

    /** The end of a token-limited request, the same in both loops. */
    method LengthStop(ghost t: Turn) returns (done: bool)
      requires Due(t) && at == Checks && owed == []
      modifies this
      ensures owed == [] && turns == old(turns) && if done then Valid() else Due(t)
      ensures done == LengthReached(cfg, old(View()))
      ensures if done then at == Stopped(Length)
               && unchanged(`n, `units, `output, `queue, `admins, `pending) else unchanged(this)
    {
      if cfg.maxTokens > 0 && !cfg.hasTools && output >= cfg.maxTokens {
        EndWith(Length, t);
        return true;
      }
      done := false;
    }

    /** What follows a unit of `runEcho`. */
    method AfterEcho() returns (done: bool, again: bool)
      requires Valid() && at == Checks && owed == [] && !cfg.isMax
      modifies this
      ensures Valid() && owed == [] && |turns| <= |old(turns)|
      ensures if done then at.Stopped? else at == if again then Top else Pace(IntervalOf(regs))
      ensures unchanged(`n, `units, `output)
      ensures old(turns) == [] ==> turns == [] && unchanged(`queue, `admins, `pending)
      ensures LengthReached(cfg, old(View())) ==> at == Stopped(Length)
      ensures old(turns) == [] && !LengthReached(cfg, old(View())) && pending == NoFault ==>
                if !ResourceReached(cfg, old(View())) || cfg.action == OtherAction then
                  !done && !again && unchanged(`regs, `closed)
                else if cfg.action == PauseSession then
                  !done && again && regs == Put(old(regs), Write(RState, S(Paused))) && closed == old(closed)
                else at == Stopped(ResourceLimit)
    {
      ghost var t := Others();
      done, again := CheckEcho(t);
    }

    /** The checks: the length, the pending fault, the resource limit. */
    method CheckEcho(ghost t: Turn) returns (done: bool, again: bool)
      requires Due(t) && at == Checks && owed == [] && !cfg.isMax
      modifies this
      ensures Valid() && owed == [] && turns == old(turns)
      ensures if done then at.Stopped? else at == if again then Top else Pace(IntervalOf(regs))
      ensures unchanged(`n, `units, `output, `queue, `admins, `pending)
      ensures LengthReached(cfg, old(View())) ==> at == Stopped(Length)
      ensures !LengthReached(cfg, old(View())) && pending == NoFault ==>
                if !ResourceReached(cfg, old(View())) || cfg.action == OtherAction then
                  !done && !again && unchanged(`regs, `closed)
                else if cfg.action == PauseSession then
                  !done && again && regs == Put(old(regs), Write(RState, S(Paused))) && closed == old(closed)
                else at == Stopped(ResourceLimit)
    {
      done := LengthStop(t);
      again := false;
      if done {
        return;
      }
      if pending.Armed? && pending.fault.afterChunks > 0 {
        if n >= pending.fault.afterChunks {
          EndWith(FaultFired, t);
          return true, false;
        }
      }
      if cfg.maxEvents > 0 && n >= cfg.maxEvents {
        if cfg.action == Disconnect || cfg.action == ErrorFrame {
          EndWith(ResourceLimit, t);
          return true, false;
        } else if cfg.action == PauseSession {
          ghost var before := View();
          regs := regs[RState := S(Paused)];
          at := Top;
          Answers(t, Go, before);
          return false, true;
        }
      }
      ghost var before := View();
      at := Pace(IntervalOf(regs));
      Answers(t, Go, before);
    }

    /** `runEchoMax` looks at the length only. */
    method AfterBlock() returns (done: bool)
      requires Valid() && at == Checks && owed == [] && cfg.isMax
      modifies this
      ensures Valid() && owed == [] && |turns| <= |old(turns)|
      ensures done == LengthReached(cfg, old(View())) && at == if done then Stopped(Length) else Pace(IntervalOf(regs))
      ensures unchanged(`n, `units, `output)
      ensures old(turns) == [] ==> turns == [] && unchanged(`queue, `admins, `pending)
      ensures old(turns) == [] && !done ==> unchanged(`regs, `closed)
    {
      ghost var t := Others();
      done := LengthStop(t);
      if !done {
        ghost var before := View();
        at := Pace(IntervalOf(regs));
        Answers(t, Go, before);
      }
    }

    method Ticked(ghost t: Turn)
      requires Due(t) && at.Pace? && owed == [] && Answer(cfg, View(), t) == [Tick]
      modifies this`at, this`hist
      ensures Valid() && at == Top
    {
      ghost var before := View();
      at := Top;
      Answers(t, Tick, before);
    }

    /** The pacing select with a timer, a command, and the client or the session leaving. */
    method Select() returns (done: bool)
      requires Valid() && at.Pace? && owed == [] && PaceTakes(cfg, at.interval) && PaceLeaves(cfg, at.interval)
      modifies this
      ensures Valid() && owed == [] && |turns| <= |old(turns)|
      ensures if done then at.Stopped? || turns == [] else at == Top
      ensures old(turns) == [] && old(queue) == [] ==>
                !done && turns == [] && unchanged(`regs, `queue, `admins, `pending, `closed, `n, `units, `output)
    {
      var t := Others();
      if t.pick.PickCommand? && queue != [] {
        done := ServeHere(InPace, t);
      } else if t.pick.PickGone? {
        GiveUp(Leave, t);
        done := true;
      } else {
        Ticked(t);
        done := false;
      }
    }

    /** Pacing without an interval and without a cap on the rate: a command if there is one. */
    method Peek() returns (done: bool)
      requires Valid() && at.Pace? && owed == [] && PaceTakes(cfg, at.interval) && !PaceLeaves(cfg, at.interval)
      modifies this
      ensures Valid() && owed == [] && |turns| <= |old(turns)|
      ensures if done then at.Stopped? || turns == [] else at == Top
      ensures old(turns) == [] && old(queue) == [] ==>
                !done && turns == [] && unchanged(`regs, `queue, `admins, `pending, `closed, `n, `units, `output)
    {
      ghost var t := Others();
      if queue != [] {
        done := ServeHere(InPace, t);
      } else {
        Ticked(t);
        done := false;
      }
    }

    method PaceEcho(interval: int) returns (done: bool)
      requires Valid() && at == Pace(interval) && owed == [] && !cfg.isMax
      modifies this
      ensures Valid() && owed == [] && |turns| <= |old(turns)|
      ensures if done then at.Stopped? || turns == [] else at == Top
      ensures old(turns) == [] && old(queue) == [] ==>
                !done && turns == [] && unchanged(`regs, `queue, `admins, `pending, `closed, `n, `units, `output)
    {
      if interval > 0 || cfg.capsEchoRate {
        done := Select();
      } else {
        done := Peek();
      }
    }

    /** Without an interval the MAX loop listens to nobody here. */
    method PaceMax(interval: int) returns (done: bool)
      requires Valid() && at == Pace(interval) && owed == [] && cfg.isMax
      modifies this
      ensures Valid() && owed == [] && |turns| <= |old(turns)|
      ensures if done then at.Stopped? || turns == [] else at == Top
      ensures old(turns) == [] && old(queue) == [] ==>
                !done && turns == [] && unchanged(`regs, `queue, `admins, `pending, `closed, `n, `units, `output)
    {
      if interval <= 0 {
        ghost var before := View();
        at := Top;
        GoesOn(Tick, before);
        done := false;
      } else {
        done := Select();
      }
    }

    // ----- the loops -----

    /** Nobody else runs, nothing waits, and the session echoes. */
    ghost predicate Alone()
      reads this
    {
      owed == [] && at == Top && Calm()
    }

    ghost predicate Calm()
      reads this
    {
      && turns == [] && queue == [] && pending == NoFault && cfg.text != ""
      && StateOf(regs) == Echoing && !IsPausedFlag(regs)
    }

    /** From `s` one unit was written and its checks were made. */
    ghost predicate OneUnit(s: Loop, done: bool)
      reads this
    {
      && n == s.n + 1 && units != [] && units[|units| - 1] == UnitText(cfg, s.ctl.regs, s.n) != ""
      && (!done && Alone() ==> regs == s.ctl.regs)
      && output == s.output + Tokenizer.Count(cfg.u, units[|units| - 1])
      && turns == [] && queue == [] && admins == s.ctl.admins && Outcome(done)
    }

    /** What the checks after a unit come to when nobody interferes. */
    ghost predicate Outcome(done: bool)
      reads this
    {
      if LengthReached(cfg, View()) then done && at == Stopped(Length)
      else if !ResourceReached(cfg, View()) || cfg.action == OtherAction then !done && Alone()
      else if cfg.action == PauseSession then !done && at == Top && StateOf(regs) == Paused
      else done && at == Stopped(ResourceLimit)
    }

    /** The poll found no command. */
    method Polled(ghost t: Turn)
      requires Due(t) && at == Top && owed == [] && queue == []
      modifies this`at, this`hist
      ensures Valid() && at == CheckPause
    {
      ghost var before := View();
      at := CheckPause;
      Answers(t, Go, before);
    }

    method EnterPause(ghost t: Turn)
      requires Due(t) && at == CheckPause && owed == [] && StateOf(regs) == Paused
      modifies this`at, this`hist
      ensures Valid() && at == PausedBlock
    {
      ghost var before := View();
      at := PausedBlock;
      Answers(t, Go, before);
    }

    /** The next unit: an empty one is only counted. */
    method Draw(delta: string, ghost t: Turn)
      requires Due(t) && at == CheckPause && owed == [] && StateOf(regs) != Paused && delta == UnitText(cfg, regs, n)
      modifies this`at, this`hist, this`n, this`units
      ensures Valid() && at == if delta == "" then Checks else Waiting(delta)
      ensures delta != "" ==> unchanged(`n, `units)
    {
      ghost var before := View();
      if delta == "" {
        n := n + 1;
        units := units + [""];
        at := Checks;
      } else {
        at := Waiting(delta);
      }
      Answers(t, Go, before);
    }

    /** The head of both loops: commands have priority, then a pause is waited for; `go` says that the
        next unit is due. */
    method Poll() returns (go: bool, done: bool, ghost t: Turn)
      requires Valid() && at == Top && owed == []
      modifies this
      ensures owed == [] && (|turns| < |old(turns)| || turns == [])
      ensures if go then Due(t) else Valid()
      ensures if go then !done && at == CheckPause && StateOf(regs) != Paused
              else if done then at.Stopped? || turns == [] else at == Top
      ensures old(Alone()) ==>
                go && turns == [] && unchanged(`regs, `queue, `admins, `pending, `closed, `n, `units, `output)
    {
      t := Others();
      if queue != [] {
        done := ServeHere(AtTop, t);
        return false, done, t;
      }
      Polled(t);
      go, done, t := LookForPause();
    }

    method LookForPause() returns (go: bool, done: bool, ghost t: Turn)
      requires Valid() && at == CheckPause && owed == []
      modifies this
      ensures owed == [] && |turns| <= |old(turns)|
      ensures if go then Due(t) else Valid()
      ensures if go then !done && at == CheckPause && StateOf(regs) != Paused
              else if done then at.Stopped? || turns == [] else at == Top
      ensures old(turns) == [] && StateOf(old(regs)) != Paused ==>
                go && turns == [] && unchanged(`regs, `queue, `admins, `pending, `closed, `n, `units, `output)
    {
      t := Others();
      go, done := StateOf(regs) != Paused, false;
      if !go {
        EnterPause(t);
        done := WaitPaused();
      }
    }

    /** The unit of this iteration, unless it is empty. */
    method WriteUnit(delta: string, ghost t: Turn) returns (done: bool)
      requires Due(t) && at == CheckPause && owed == [] && StateOf(regs) != Paused && delta == UnitText(cfg, regs, n)
      modifies this
      ensures Valid() && owed == [] && |turns| <= |old(turns)|
      ensures if done then at.Stopped? || turns == [] else at == Checks
      ensures old(turns) == [] && !IsPausedFlag(old(regs)) && delta != "" ==>
                && !done && turns == [] && unchanged(`regs, `queue, `admins, `pending, `closed)
                && n == old(n) + 1 && units == old(units) + [delta]
                && output == old(output) + Tokenizer.Count(cfg.u, delta)
    {
      Draw(delta, t);
      done := false;
      if delta != "" {
        done := Emit(delta);
      }
    }

    /** One iteration of `runEcho`. */
    method EchoTurn() returns (done: bool)
      requires Valid() && at == Top && owed == [] && !cfg.isMax
      modifies this
      ensures Valid() && owed == [] && (|turns| < |old(turns)| || turns == [])
      ensures if done then at.Stopped? || turns == [] else at == Top
      ensures old(Alone()) ==> OneUnit(old(View()), done)
    {
      var go;
      ghost var t;
      go, done, t := Poll();
      if !go {
        return;
      }
      var delta := EchoText.Delta(EchoText.Normalize(EchoModeOf(regs)), cfg.text, n);
      done := WriteUnit(delta, t);
      if done {
        return;
      }
      done := CheckAndPace();
    }

    method CheckAndPace() returns (done: bool)
      requires Valid() && at == Checks && owed == [] && !cfg.isMax
      modifies this
      ensures Valid() && owed == [] && |turns| <= |old(turns)|
      ensures if done then at.Stopped? || turns == [] else at == Top
      ensures old(Calm()) ==> Outcome(done) && turns == [] && queue == [] && unchanged(`n, `units, `output, `admins)
      ensures old(Calm()) && !done && Alone() ==> regs == old(regs)
    {
      var again;
      done, again := AfterEcho();
      if !done && !again {
        done := PaceEcho(IntervalOf(regs));
      }
    }

    /** One iteration of `runEchoMax`. */
    method MaxTurn() returns (done: bool)
      requires Valid() && at == Top && owed == [] && cfg.isMax
      modifies this
      ensures Valid() && owed == [] && (|turns| < |old(turns)| || turns == [])
      ensures if done then at.Stopped? || turns == [] else at == Top
      ensures old(Alone()) ==> OneUnit(old(View()), done)
    {
      var go;
      ghost var t;
      go, done, t := Poll();
      if !go {
        return;
      }
      done := WriteUnit(cfg.text, t);
      if !done {
        done := CheckBlock();
      }
    }

    method CheckBlock() returns (done: bool)
      requires Valid() && at == Checks && owed == [] && cfg.isMax
      modifies this
      ensures Valid() && owed == [] && |turns| <= |old(turns)|
      ensures if done then at.Stopped? || turns == [] else at == Top
      ensures old(Calm()) ==> Outcome(done) && turns == [] && queue == [] && unchanged(`n, `units, `output, `admins)
      ensures old(Calm()) && !done && Alone() ==> regs == old(regs)
    {
      done := AfterBlock();
      if !done {
        done := PaceMax(IntervalOf(regs));
      }
    }

    method Iterate() returns (done: bool)
      requires Valid() && at == Top && owed == []
      modifies this
      ensures Valid() && owed == [] && (|turns| < |old(turns)| || turns == [])
      ensures if done then at.Stopped? || turns == [] else at == Top
      ensures old(Alone()) ==> OneUnit(old(View()), done)
    {
      if cfg.isMax {
        done := MaxTurn();
      } else {
        done := EchoTurn();
      }
    }

    method StartUp()
      requires Valid() && at == Starting && owed == START_UP
      modifies this
      ensures Valid() && at == Top && owed == [] && |turns| <= |old(turns)|
      ensures old(turns) == [] ==> turns == [] && regs == PutAll(old(regs), START_UP)
                                   && unchanged(`queue, `admins, `pending, `closed, `n, `units, `output)
    {
      PutAllUnfolds(regs, START_UP);
      Store(Write(RMode, M(EchoMode)));
      Store(Write(RState, S(Echoing)));
      ghost var before := View();
      at := Top;
      GoesOn(Go, before);
    }

    /** `runEcho` and `runEchoMax`, for as long as the script goes: whatever the other goroutines do and
        however the selects fall, the session has gone through a run of the machine, so all that holds
        of its runs holds here, and unit `i` is the repetition for place `i` under the mode read for it.
        And it is the session that the script determines: every turn up to its end, or up to where it
        stopped, has been answered with the step that the turn's case asks for. */
    method RunEcho()
      requires Valid() && at == Starting && owed == START_UP
      modifies this
      ensures View() == Execute(cfg, Start(origin.first), hist.trace)
      ensures at.Stopped? || turns == []
      ensures n == |units| <= |EchoLimits.Drawn(cfg, Start(origin.first), hist.trace)|
      ensures forall i :: 0 <= i < n ==>
                units[i] == EchoLimits.UnitAt(cfg, EchoLimits.Drawn(cfg, Start(origin.first), hist.trace)[i], i)
      ensures Settle(cfg, View()) == Play(cfg, Start(origin.first), hist.played)
      ensures hist.played + turns == origin.script + Repeat([ALONE], hist.idle) && (turns != [] ==> hist.idle == 0)
    {
      StartUp();
      var done := false;
      while !done && turns != []
        invariant Valid() && owed == []
        invariant if done then at.Stopped? || turns == [] else at == Top
        decreases |turns|, !done
      {
        done := Iterate();
      }
      SessionTold(cfg, origin, hist, turns, View());
    }

    ghost predicate Limited() {
      !cfg.isMax && cfg.maxEvents > 0 && cfg.action != OtherAction
    }

    /** Since unit `first`, before which `before` tokens had been sent, the output has grown by the cost of
        the units; the run goes on, or its last unit decided it. */
    ghost predicate Progress(mode: string, first: nat, before: nat, done: bool)
      reads this
    {
      && TokenLimited(cfg) && turns == [] && queue == []
      && n <= output && first <= n && output == before + Cost(cfg, mode, first, n)
      && if !done && Alone() then
           && EchoModeOf(regs) == mode && output < cfg.maxTokens
           && (Limited() ==> n == first || n < cfg.maxEvents)
         else
           && units != [] && Outcome(done) && n <= cfg.maxTokens
           && output < cfg.maxTokens + Tokenizer.Count(cfg.u, units[|units| - 1])
           && (Limited() ==> first < n <= LastUnit(cfg, first))
    }

    lemma Progresses(s: Loop, mode: string, first: nat, before: nat, done: bool)
      requires TokenLimited(cfg) && OneUnit(s, done) && EchoModeOf(s.ctl.regs) == mode && !s.pc.Stopped?
      requires s.n <= s.output < cfg.maxTokens && s.n < cfg.maxTokens && first <= s.n
      requires s.output == before + Cost(cfg, mode, first, s.n)
      requires Limited() ==> s.n == first || s.n < cfg.maxEvents
      ensures Progress(mode, first, before, done) && output > s.output
    {
      UnitCosts(s, mode, first, done);
      assert output == before + Cost(cfg, mode, first, n);
      Decided(s, mode, first, done);
    }

    lemma UnitCosts(s: Loop, mode: string, first: nat, done: bool)
      requires OneUnit(s, done) && EchoModeOf(s.ctl.regs) == mode && first <= s.n
      ensures output == s.output + Tokenizer.Count(cfg.u, units[|units| - 1]) > s.output
      ensures Cost(cfg, mode, first, n) == Cost(cfg, mode, first, s.n) + Tokenizer.Count(cfg.u, units[|units| - 1])
    {
      var unit := units[|units| - 1];
      Tokenizer.CountBounds(cfg.u, unit);
      assert unit == EchoLimits.UnitAt(cfg, mode, s.n);
    }

    /** Either the run goes on below both limits, or its last unit came at most at the resource limit. */
    lemma Decided(s: Loop, mode: string, first: nat, done: bool)
      requires TokenLimited(cfg) && OneUnit(s, done) && EchoModeOf(s.ctl.regs) == mode && first <= s.n
      requires Limited() ==> s.n == first || s.n < cfg.maxEvents
      requires s.n <= s.output < cfg.maxTokens && output > s.output
      ensures if !done && Alone() then
                EchoModeOf(regs) == mode && output < cfg.maxTokens && (Limited() ==> n < cfg.maxEvents)
              else Outcome(done) && (Limited() ==> first < n <= LastUnit(cfg, first))
    {
    }

    method Advance(ghost mode: string, ghost first: nat, ghost before: nat) returns (done: bool)
      requires Valid() && Progress(mode, first, before, false) && Alone()
      modifies this
      ensures Valid() && Progress(mode, first, before, done) && admins == old(admins) && output > old(output)
    {
      ghost var s := View();
      done := Iterate();
      Progresses(s, mode, first, before, done);
    }

    lemma Concluded(mode: string, first: nat, before: nat, done: bool)
      requires Progress(mode, first, before, done) && !(!done && Alone())
      ensures at == Stopped(Length)
              <==> !Limited() || cfg.maxTokens <= before + Cost(cfg, mode, first, LastUnit(cfg, first))
      ensures at == Stopped(Length) <==> cfg.maxTokens <= output
      ensures at != Stopped(Length) ==>
                && n == LastUnit(cfg, first)
                && (if cfg.action == PauseSession then at == Top && StateOf(regs) == Paused
                    else at == Stopped(ResourceLimit))
    {
      if Limited() {
        CostGrows(cfg, mode, first, n, LastUnit(cfg, first));
      }
    }

    /** A tool-less request with a token limit that nobody interferes with goes on until its output has
        reached the limit, and stops there, overshooting by less than its last unit, exactly when no
        resource limit is in force or the units up to it cost enough; otherwise the resource limit ends
        it or leaves it paused. */
    method RunToLength() returns (done: bool)
      requires Valid() && Alone() && TokenLimited(cfg) && n <= output < cfg.maxTokens
      modifies this
      ensures Valid() && units != [] && turns == [] && queue == [] && admins == old(admins)
      ensures at == Stopped(Length)
              <==> cfg.isMax || cfg.maxEvents <= 0 || cfg.action == OtherAction
                   || cfg.maxTokens <= old(output) + Cost(cfg, EchoModeOf(old(regs)), old(n), LastUnit(cfg, old(n)))
      ensures output == old(output) + Cost(cfg, EchoModeOf(old(regs)), old(n), n)
      ensures at == Stopped(Length) ==>
                n <= cfg.maxTokens <= output < cfg.maxTokens + Tokenizer.Count(cfg.u, units[|units| - 1])
      ensures at != Stopped(Length) ==>
                && n == LastUnit(cfg, old(n)) && output < cfg.maxTokens
                && (if cfg.action == PauseSession then at == Top && StateOf(regs) == Paused
                    else at == Stopped(ResourceLimit))
      ensures cfg.maxTokens <= cfg.maxEvents ==> at == Stopped(Length)
      ensures at != Stopped(Length) && admins == map[] ==> LeftPaused(View())
    {
      done := false;
      ghost var mode, first, before := EchoModeOf(regs), n, output;
      while !done && StateOf(regs) != Paused
        invariant Valid() && Progress(mode, first, before, done) && admins == old(admins)
        decreases cfg.maxTokens - output, !done
      {
        done := Advance(mode, first, before);
      }
      Concluded(mode, first, before, done);
    }
  }

  /** A request that does not reach its length: a limit of five tokens, the text "!", and a resource limit
      of two echoes that pauses. */
  method UnreachedLength(cfg: Config, regs: Regs) returns (r: Runner)
    requires cfg.u.Valid() && cfg.text == "!" && !cfg.isMax && !cfg.hasTools && cfg.maxTokens == 5
    requires cfg.maxEvents == 2 && cfg.action == PauseSession
    requires EchoText.Normalize(EchoModeOf(regs)) == EchoText.Exact && !IsPausedFlag(regs)
    ensures r.Valid() && r.at == Top && StateOf(r.regs) == Paused && r.n == 2 && r.output == 2
    ensures LeftPaused(r.View())
  {
    r := new Runner(cfg, regs, []);
    r.StartUp();
    StartUpRegs(regs);
    MarksCost(cfg, EchoModeOf(regs));
    assert LastUnit(cfg, 0) == 2;
    var _ := r.RunToLength();
  }

  /** What the start-up changes. */
  lemma StartUpRegs(regs: Regs)
    ensures var after := PutAll(regs, START_UP);
            && StateOf(after) == Echoing && IsPausedFlag(after) == IsPausedFlag(regs)
            && EchoModeOf(after) == EchoModeOf(regs)
  {
    PutAllUnfolds(regs, START_UP);
  }
}
