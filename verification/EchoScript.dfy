/**
 What the scheduler decides for a session, as a script: before each step of the runner other goroutines
 run, and then its select takes one of its cases.  `Play` is the session that a script determines, turn
 by turn; the loops of `EchoRunner` play it.
 */
module EchoScript {
  import opened Text
  import opened SessionControl
  import opened EchoLoop
  import Tokenizer

  /** The case a select takes when it is ready. */
  datatype Pick = PickCommand | PickTimer | PickGone | PickMessage(tokens: nat)

  /** What happens before a step of the runner, and how the step's choice falls: other goroutines run,
      then a select takes `pick`, or a wait or a write succeeds or not. */
  datatype Turn = Turn(others: seq<LoopEvent>, pick: Pick, ok: bool)

  /** The turn of a runner that is left alone. */
  const ALONE := Turn([], PickTimer, true)

  predicate IsOther(e: LoopEvent) {
    e.Admin? || e.Abandon? || e.Arm? || e.CloseSession?
  }

  /** The steps of the other goroutines. */
  function Interfere(cfg: Config, s: Loop, es: seq<LoopEvent>): Loop {
    if es == [] then s
    else
      var s', e := Interfere(cfg, s, es[..|es| - 1]), es[|es| - 1];
      if IsOther(e) then Next(cfg, s', e) else s'
  }

  /** A select with a timer: a command when it is picked and there is one, leaving when that is picked. */
  function Selected(queue: seq<Command>, pick: Pick): LoopEvent {
    if pick == PickCommand && queue != [] then TakeCommand
    else if pick == PickGone then Leave
    else Tick
  }

  /** The step with which the runner answers a turn, none when its select goes on waiting. */
  function Answer(cfg: Config, s: Loop, t: Turn): seq<LoopEvent> {
    match s.pc
    case PausedBlock => [Selected(s.ctl.queue, t.pick)]
    case Pace(interval) =>
      if PaceLeaves(cfg, interval) then [Selected(s.ctl.queue, t.pick)]
      else [if s.ctl.queue != [] then TakeCommand else Tick]
    case ManualPhase =>
      (match t.pick
       case PickGone => [Leave]
       case PickCommand => if s.ctl.queue != [] then [TakeCommand] else []
       case PickMessage(tokens) => [Deliver(tokens)]
       case PickTimer => [])
    case Waiting(_) => [Waited(t.ok)]
    case Writing(_) => [Wrote(t.ok)]
    case Stopped(_) => []
    case _ => [Go]
  }

  /** The step that the runner takes without a turn: behind the last write of its start-up, of a command
      that ends the session or was taken while paused; and pacing without an interval in the MAX loop. */
  function Free(cfg: Config, s: Loop): seq<LoopEvent> {
    match s.pc
    case Starting => if s.ctl.current == [] then [Go] else []
    case Handling(cmd, from) =>
      if s.ctl.current == [] && (IsTerminal(cmd) || from == InPausedBlock) then [Go] else []
    case Pace(interval) => if cfg.isMax && interval <= 0 then [Tick] else []
    case _ => []
  }

  function Do(cfg: Config, s: Loop, es: seq<LoopEvent>): Loop {
    if es == [] then s else Next(cfg, s, es[0])
  }

  /** Up to the next step that needs a turn. */
  function Settle(cfg: Config, s: Loop): Loop {
    Do(cfg, s, Free(cfg, s))
  }

  /** One turn: the other goroutines run, then the runner answers. */
  function PlayTurn(cfg: Config, s: Loop, t: Turn): Loop {
    var s' := Interfere(cfg, s, t.others);
    Do(cfg, s', Answer(cfg, s', t))
  }

  /** The session that a script determines from `s`. */
  function Play(cfg: Config, s: Loop, ts: seq<Turn>): Loop
    decreases |ts|
  {
    if ts == [] then Settle(cfg, s) else Play(cfg, PlayTurn(cfg, Settle(cfg, s), ts[0]), ts[1..])
  }

  lemma FreeSettles(cfg: Config, s: Loop)
    requires Free(cfg, s) != []
    ensures Settle(cfg, s) == Next(cfg, s, Free(cfg, s)[0]) && Free(cfg, Settle(cfg, s)) == []
  {
  }

  // ---------- what a turn does ----------

  /** The other goroutines move nothing of the runner. */
  predicate SameRunner(s: Loop, s': Loop) {
    && s'.pc == s.pc && s'.n == s.n && s'.units == s.units && s'.output == s.output
    && s'.ctl.current == s.ctl.current
  }

  lemma OtherKeeps(cfg: Config, s: Loop, e: LoopEvent)
    requires IsOther(e)
    ensures SameRunner(s, Next(cfg, s, e))
  {
  }

  lemma {:induction false} InterfereKeeps(cfg: Config, s: Loop, es: seq<LoopEvent>)
    ensures SameRunner(s, Interfere(cfg, s, es))
  {
    if es != [] {
      var s', e := Interfere(cfg, s, es[..|es| - 1]), es[|es| - 1];
      InterfereKeeps(cfg, s, es[..|es| - 1]);
      if IsOther(e) {
        OtherKeeps(cfg, s', e);
      }
    }
  }

  /** The command at the head has moved from the queue of `s` to the log, and is being handled. */
  predicate HeadTaken(s: Loop, s': Loop, from: From) {
    && s.ctl.queue != []
    && s'.ctl.queue == s.ctl.queue[1..] && s'.ctl.log == s.ctl.log + [Entry(s.ctl.queue[0], false)]
    && s'.pc == Handling(s.ctl.queue[0], from)
    && s'.ctl.regs == s.ctl.regs && s'.n == s.n && s'.units == s.units && s'.output == s.output
  }

  /** The runner has left a session that the client, or another goroutine, has ended. */
  predicate Left(s: Loop, s': Loop) {
    && s'.pc == Stopped(ClientGone) && s'.closed && s'.ctl.queue == s.ctl.queue && s'.ctl.log == s.ctl.log
    && s'.n == s.n && s'.units == s.units && s'.output == s.output
    && s'.ctl.regs == if s.closed then s.ctl.regs else s.ctl.regs[RState := S(ClientDisconnected)][RPaused := B(false)]
  }

  /** A turn of the manual phase does what it picks: it takes the command at the head, leaves with the
      client, delivers the message, or goes on waiting. */
  lemma ManualTurn(cfg: Config, s: Loop, t: Turn)
    requires s.pc == ManualPhase && s.ctl.current == []
    ensures var now, after := Interfere(cfg, s, t.others), PlayTurn(cfg, s, t);
            && (t.pick == PickCommand && now.ctl.queue != [] ==> HeadTaken(now, after, InManual))
            && (t.pick == PickGone ==> Left(now, after))
            && (t.pick.PickMessage? ==> after == now.(output := s.output + t.pick.tokens) && after.pc == ManualPhase)
            && (t.pick == PickTimer || (t.pick == PickCommand && now.ctl.queue == []) ==>
                  after == now && after.pc == ManualPhase)
  {
    InterfereKeeps(cfg, s, t.others);
  }

  /** A turn of the paused block, or of the pacing of a loop that listens to its client: a command that is
      picked and is there is taken, leaving is leaving, and otherwise the loop goes on. */
  lemma SelectTurn(cfg: Config, s: Loop, t: Turn)
    requires s.pc == PausedBlock || (s.pc.Pace? && (s.pc.interval > 0 || (!cfg.isMax && cfg.capsEchoRate)))
    requires s.ctl.current == []
    ensures var now, after := Interfere(cfg, s, t.others), PlayTurn(cfg, s, t);
            if t.pick == PickCommand && now.ctl.queue != [] then
              HeadTaken(now, after, if s.pc == PausedBlock then InPausedBlock else InPace)
            else if t.pick == PickGone then Left(now, after)
            else after == now.(pc := Top)
  {
    InterfereKeeps(cfg, s, t.others);
  }

  /** Where the loop only looks for commands, at its top and in a pacing without a timer, it takes one if
      there is one. */
  lemma PollTurn(cfg: Config, s: Loop, t: Turn)
    requires s.pc == Top || (s.pc.Pace? && s.pc.interval <= 0 && !cfg.isMax && !cfg.capsEchoRate)
    requires s.ctl.current == []
    ensures var now, after := Interfere(cfg, s, t.others), PlayTurn(cfg, s, t);
            if now.ctl.queue != [] then HeadTaken(now, after, if s.pc == Top then AtTop else InPace)
            else after == now.(pc := if s.pc == Top then CheckPause else Top)
  {
    InterfereKeeps(cfg, s, t.others);
  }

  /** Pacing without an interval, the MAX loop goes on at once: no command is taken there. */
  lemma MaxGoesOn(cfg: Config, s: Loop)
    requires cfg.isMax && s.pc.Pace? && s.pc.interval <= 0
    ensures Settle(cfg, s) == s.(pc := Top)
  {
  }

  /** A turn of the limiter's wait and of the write: it fails, and the runner leaves; or the unit goes out,
      but not into a paused limiter.  A unit that is not written whole has been counted as output. */
  lemma UnitTurn(cfg: Config, s: Loop, t: Turn)
    requires s.pc.Waiting? || s.pc.Writing?
    ensures var now, after := Interfere(cfg, s, t.others), PlayTurn(cfg, s, t);
            && now.pc == s.pc
            && (!t.ok && s.pc.Waiting? ==> Left(now, after))
            && (!t.ok && s.pc.Writing? ==> after.pc == Stopped(ClientGone) && after.n == s.n && after.units == s.units)
            && (s.pc.Writing? ==> after.output == s.output + Tokenizer.Count(cfg.u, s.pc.delta))
            && (t.ok && s.pc.Waiting? ==>
                  after == if IsPausedFlag(now.ctl.regs) then now else now.(pc := Writing(s.pc.delta)))
            && (t.ok && s.pc.Writing? ==> after.pc == Checks && after.n == s.n + 1
                                          && after.units == s.units + [s.pc.delta] && after.ctl == now.ctl)
  {
    InterfereKeeps(cfg, s, t.others);
  }

  // ---------- what a command comes to ----------

  /** One write of a command in hand. */
  lemma ReplayTurn(cfg: Config, s: Loop, t: Turn)
    requires s.pc.Handling? && s.ctl.current != []
    ensures Free(cfg, s) == []
    ensures var now, after := Interfere(cfg, s, t.others), PlayTurn(cfg, s, t);
            after == now.(ctl := now.ctl.(regs := Put(now.ctl.regs, s.ctl.current[0]), current := s.ctl.current[1..]))
  {
    InterfereKeeps(cfg, s, t.others);
  }

  /** A command in hand is over after a turn for each of its writes, whatever else happens meanwhile: a
      terminal one has ended the session then, one from the paused block leads to the top of the loop. */
  lemma {:induction false} CommandEnds(cfg: Config, s: Loop, ts: seq<Turn>)
    requires s.pc.Handling? && |ts| == |s.ctl.current|
    ensures var after := Play(cfg, s, ts);
            && after.ctl.current == [] && after.n == s.n && after.units == s.units
            && after.pc == (if IsTerminal(s.pc.cmd) then Stopped(ByCommand(s.pc.cmd))
                            else if s.pc.from == InPausedBlock then Top
                            else s.pc)
            && (IsTerminal(s.pc.cmd) ==> after.closed)
    decreases |ts|
  {
    if ts != [] {
      ReplayTurn(cfg, s, ts[0]);
      InterfereKeeps(cfg, s, ts[0].others);
      CommandEnds(cfg, PlayTurn(cfg, s, ts[0]), ts[1..]);
    }
  }

  /** Behind its last write the state decides: the manual phase goes on, or the loop does. */
  lemma DecisionTurn(cfg: Config, s: Loop, t: Turn)
    requires s.pc.Handling? && s.ctl.current == [] && !IsTerminal(s.pc.cmd) && s.pc.from != InPausedBlock
    ensures Free(cfg, s) == []
    ensures var now := Interfere(cfg, s, t.others);
            PlayTurn(cfg, s, t) == now.(pc := if StateOf(now.ctl.regs) == Manual then ManualPhase else Top)
  {
    InterfereKeeps(cfg, s, t.others);
  }

  /** A terminal command that is taken in the manual phase ends the session in the turns of its writes,
      whatever the others do meanwhile. */
  lemma TerminalTaken(cfg: Config, s: Loop, t: Turn, ts: seq<Turn>)
    requires s.pc == ManualPhase && s.ctl.current == [] && t.pick == PickCommand
    requires var now := Interfere(cfg, s, t.others);
             && now.ctl.queue != [] && IsTerminal(now.ctl.queue[0])
             && |ts| == if now.closed then 0 else |Writes(now.ctl.queue[0])|
    ensures var now, after := Interfere(cfg, s, t.others), Play(cfg, s, [t] + ts);
            after.pc == Stopped(ByCommand(now.ctl.queue[0])) && after.closed && after.units == s.units
  {
    var now := Interfere(cfg, s, t.others);
    InterfereKeeps(cfg, s, t.others);
    ManualTurn(cfg, s, t);
    PlayFirst(cfg, s, t, ts);
    TakenOwes(cfg, now, t);
    CommandEnds(cfg, PlayTurn(cfg, s, t), ts);
  }

  lemma TakenOwes(cfg: Config, now: Loop, t: Turn)
    requires now.pc == ManualPhase && now.ctl.current == [] && now.ctl.queue != [] && t.pick == PickCommand
    ensures var cmd := now.ctl.queue[0];
            Do(cfg, now, Answer(cfg, now, t)).ctl.current == if IsTerminal(cmd) && now.closed then [] else Writes(cmd)
  {
  }

  /** Nobody interferes. */
  ghost predicate Quiet(ts: seq<Turn>) {
    forall i :: 0 <= i < |ts| ==> ts[i].others == []
  }

  lemma QuietTurn(cfg: Config, s: Loop, t: Turn)
    requires t.others == []
    ensures Interfere(cfg, s, t.others) == s
  {
  }

  /** The writes of a command, with nobody interfering. */
  lemma {:induction false} QuietReplay(cfg: Config, s: Loop, ts: seq<Turn>, t: Turn)
    requires s.pc.Handling? && !IsTerminal(s.pc.cmd) && s.pc.from != InPausedBlock
    requires |ts| == |s.ctl.current| && Quiet(ts) && t.others == []
    ensures var regs := PutAll(s.ctl.regs, s.ctl.current);
            Play(cfg, s, ts + [t]) == s.(ctl := s.ctl.(regs := regs, current := []),
                                         pc := if StateOf(regs) == Manual then ManualPhase else Top)
    decreases |ts|
  {
    if ts == [] {
      DecisionTurn(cfg, s, t);
      QuietTurn(cfg, s, t);
      PlayFirst(cfg, s, t, []);
      assert ts + [t] == [t] + [];
    } else {
      ReplayTurn(cfg, s, ts[0]);
      QuietTurn(cfg, s, ts[0]);
      PlayFirst(cfg, s, ts[0], ts[1..] + [t]);
      assert ts + [t] == [ts[0]] + (ts[1..] + [t]);
      QuietReplay(cfg, PlayTurn(cfg, s, ts[0]), ts[1..], t);
    }
  }

  /** A command that does not end the session, taken in the manual phase and left alone: its writes are
      made, it is in the log, and the state that they leave decides whether the loop goes on. */
  lemma QuietCommand(cfg: Config, s: Loop, t: Turn, ts: seq<Turn>, last: Turn)
    requires s.pc == ManualPhase && s.ctl.current == [] && s.ctl.queue != [] && !IsTerminal(s.ctl.queue[0])
    requires t.others == [] && t.pick == PickCommand && Quiet(ts) && last.others == []
    requires |ts| == |Writes(s.ctl.queue[0])|
    ensures var cmd := s.ctl.queue[0];
            var regs := PutAll(s.ctl.regs, Writes(cmd));
            var after := Play(cfg, s, [t] + (ts + [last]));
            && after.pc == (if StateOf(regs) == Manual then ManualPhase else Top)
            && after.ctl == Ctl(regs, s.ctl.queue[1..], s.ctl.admins, [], s.ctl.log + [Entry(cmd, false)])
            && after.units == s.units && after.output == s.output
  {
    QuietTurn(cfg, s, t);
    ManualTurn(cfg, s, t);
    TakenOwes(cfg, s, t);
    TakenKeeps(cfg, s, t);
    PlayFirst(cfg, s, t, ts + [last]);
    QuietReplay(cfg, PlayTurn(cfg, s, t), ts, last);
  }

  lemma TakenKeeps(cfg: Config, now: Loop, t: Turn)
    requires now.pc == ManualPhase && t.pick == PickCommand
    ensures Do(cfg, now, Answer(cfg, now, t)).ctl.admins == now.ctl.admins
  {
  }

  /** So a session taken over that is given back echoes again: three more turns after the one that picks
      the return, it polls at the top of its loop in the state ECHOING. */
  lemma GivenBack(cfg: Config, s: Loop, t: Turn, ts: seq<Turn>, last: Turn)
    requires s.pc == ManualPhase && s.ctl.current == [] && s.ctl.queue != [] && s.ctl.queue[0] == ReturnToEcho
    requires t.others == [] && t.pick == PickCommand && |ts| == 2 && Quiet(ts) && last.others == []
    ensures var after := Play(cfg, s, [t] + (ts + [last]));
            && after.pc == Top && StateOf(after.ctl.regs) == Echoing
            && after.ctl.queue == s.ctl.queue[1..] && after.ctl.log == s.ctl.log + [Entry(ReturnToEcho, false)]
  {
    PutAllUnfolds(s.ctl.regs, Writes(ReturnToEcho));
    QuietCommand(cfg, s, t, ts, last);
  }

  // ---------- how far a session has come ----------

  /** What any further turns make of `now` is what they make of `start` after the turns `played`. */
  ghost predicate Continues(cfg: Config, start: Loop, played: seq<Turn>, now: Loop) {
    forall more {:trigger Play(cfg, now, more)} :: Play(cfg, now, more) == Play(cfg, start, played + more)
  }

  lemma ContinuesStart(cfg: Config, start: Loop)
    ensures Continues(cfg, start, [], start)
  {
    assert forall more: seq<Turn> :: [] + more == more;
  }

  /** A step without a turn. */
  lemma ContinuesFree(cfg: Config, start: Loop, played: seq<Turn>, now: Loop)
    requires Continues(cfg, start, played, now) && Free(cfg, now) != []
    ensures Continues(cfg, start, played, Next(cfg, now, Free(cfg, now)[0]))
  {
    var now' := Next(cfg, now, Free(cfg, now)[0]);
    forall more ensures Play(cfg, now', more) == Play(cfg, start, played + more) {
      PlayFree(cfg, now, more);
    }
  }

  lemma PlayFree(cfg: Config, s: Loop, ts: seq<Turn>)
    requires Free(cfg, s) != []
    ensures Play(cfg, Next(cfg, s, Free(cfg, s)[0]), ts) == Play(cfg, s, ts)
  {
    FreeSettles(cfg, s);
  }

  lemma ContinuesTurn(cfg: Config, start: Loop, played: seq<Turn>, now: Loop, t: Turn)
    requires Continues(cfg, start, played, now) && Free(cfg, now) == []
    ensures Continues(cfg, start, played + [t], PlayTurn(cfg, now, t))
  {
    var now' := PlayTurn(cfg, now, t);
    forall more ensures Play(cfg, now', more) == Play(cfg, start, (played + [t]) + more) {
      PlayFirst(cfg, now, t, more);
      assert (played + [t]) + more == played + ([t] + more);
    }
  }

  lemma PlayFirst(cfg: Config, s: Loop, t: Turn, ts: seq<Turn>)
    requires Free(cfg, s) == []
    ensures Play(cfg, s, [t] + ts) == Play(cfg, PlayTurn(cfg, s, t), ts)
  {
    assert ([t] + ts)[1..] == ts;
  }

  lemma ContinuesNow(cfg: Config, start: Loop, played: seq<Turn>, now: Loop)
    requires Continues(cfg, start, played, now)
    ensures Settle(cfg, now) == Play(cfg, start, played)
  {
    assert Play(cfg, now, []) == Play(cfg, start, played + []);
    assert played + [] == played;
  }

  /** What a session starts from. */
  datatype Origin = Origin(first: Regs, script: seq<Turn>)

  /** How it came to be: the steps taken and the turns answered so far, and for how many turns the runner
      has been left alone since the script ended. */
  datatype History = History(trace: seq<LoopEvent>, played: seq<Turn>, idle: nat)

  const BEGIN := History([], [], 0)

  /** `now` is where the machine's run over the trace leads; `rest` is what is left of the script. */
  ghost predicate Tracks(cfg: Config, o: Origin, h: History, due: seq<Turn>, rest: seq<Turn>, now: Loop) {
    && Execute(cfg, Start(o.first), h.trace) == now
    && h.played + due + rest == o.script + Repeat([ALONE], h.idle) && (rest != [] ==> h.idle == 0)
  }

  /** Every turn so far has been answered as the script says. */
  ghost predicate InStep(cfg: Config, o: Origin, h: History, rest: seq<Turn>, now: Loop) {
    Tracks(cfg, o, h, [], rest, now) && Continues(cfg, Start(o.first), h.played, now)
  }

  /** The others of turn `t` have run, and the runner's answer is due. */
  ghost predicate IsDue(cfg: Config, o: Origin, h: History, t: Turn, rest: seq<Turn>, now: Loop) {
    && Tracks(cfg, o, h, [t], rest, now)
    && Continues(cfg, Start(o.first), h.played + [t], Do(cfg, now, Answer(cfg, now, t)))
  }

  function Answered(h: History, t: Turn, es: seq<LoopEvent>): History {
    h.(trace := h.trace + es, played := h.played + [t])
  }

  lemma StartInStep(cfg: Config, o: Origin)
    ensures InStep(cfg, o, BEGIN, o.script, Start(o.first))
  {
    ContinuesStart(cfg, Start(o.first));
  }

  lemma AnswerInStep(cfg: Config, o: Origin, h: History, t: Turn, rest: seq<Turn>, now: Loop, e: LoopEvent)
    requires IsDue(cfg, o, h, t, rest, now) && Answer(cfg, now, t) == [e]
    ensures InStep(cfg, o, Answered(h, t, [e]), rest, Next(cfg, now, e))
  {
    ExecuteSnoc(cfg, Start(o.first), h.trace, e);
  }

  lemma WaitInStep(cfg: Config, o: Origin, h: History, t: Turn, rest: seq<Turn>, now: Loop)
    requires IsDue(cfg, o, h, t, rest, now) && Answer(cfg, now, t) == []
    ensures InStep(cfg, o, Answered(h, t, []), rest, now)
  {
    assert h.trace + [] == h.trace;
  }

  lemma FreeInStep(cfg: Config, o: Origin, h: History, rest: seq<Turn>, now: Loop, e: LoopEvent)
    requires InStep(cfg, o, h, rest, now) && Free(cfg, now) == [e]
    ensures InStep(cfg, o, h.(trace := h.trace + [e]), rest, Next(cfg, now, e))
  {
    ExecuteSnoc(cfg, Start(o.first), h.trace, e);
    ContinuesFree(cfg, Start(o.first), h.played, now);
  }

  /** The others of turn `t` have run from `base`. */
  lemma OthersDue(cfg: Config, o: Origin, h: History, t: Turn, rest: seq<Turn>, base: Loop, now: Loop)
    requires Tracks(cfg, o, h, [t], rest, now)
    requires Continues(cfg, Start(o.first), h.played, base) && Free(cfg, base) == []
    requires now == Interfere(cfg, base, t.others)
    ensures IsDue(cfg, o, h, t, rest, now)
  {
    ContinuesTurn(cfg, Start(o.first), h.played, base, t);
  }

  lemma NextTurn(cfg: Config, o: Origin, h: History, rest: seq<Turn>, now: Loop)
    requires Tracks(cfg, o, h, [], rest, now)
    ensures rest != [] ==> Tracks(cfg, o, h, [rest[0]], rest[1..], now)
    ensures rest == [] ==> Tracks(cfg, o, h.(idle := h.idle + 1), [ALONE], [], now)
  {
    assert h.played + [] == h.played;
    RepeatSnoc([ALONE], h.idle);
    if rest != [] {
      assert h.played + rest == h.played + [rest[0]] + rest[1..];
    } else {
      assert h.played + [ALONE] + [] == o.script + (Repeat([ALONE], h.idle) + [ALONE]);
    }
  }

  lemma OtherTracks(cfg: Config, o: Origin, h: History, due: seq<Turn>, rest: seq<Turn>, now: Loop, e: LoopEvent)
    requires Tracks(cfg, o, h, due, rest, now)
    ensures Tracks(cfg, o, h.(trace := h.trace + [e]), due, rest, Next(cfg, now, e))
  {
    ExecuteSnoc(cfg, Start(o.first), h.trace, e);
  }

  lemma {:induction false} ExecuteSnoc(cfg: Config, s: Loop, es: seq<LoopEvent>, e: LoopEvent)
    ensures Execute(cfg, s, es + [e]) == Next(cfg, Execute(cfg, s, es), e)
  {
    ExecuteConcat(cfg, s, es, [e]);
    ExecuteOne(cfg, Execute(cfg, s, es), e);
  }
}
