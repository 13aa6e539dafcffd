/**
 What a takeover does to the echo: where it stops it for good, and the place where it does not.
 */
module EchoTakeover {
  import opened Text
  import opened SessionControl
  import opened EchoLoop
  import Tokenizer
  import EchoText

  // ---------- what may happen after a takeover ----------

  /** Commands that do not give the session back: everything but resume and return. */
  predicate KeepsHold(cmd: Command) {
    !cmd.Resume? && !cmd.ReturnToEcho?
  }

  ghost predicate HoldersFrom(ctl: Ctl, from: nat) {
    && (forall i :: from <= i < |ctl.queue| ==> KeepsHold(ctl.queue[i]))
    && (forall a :: a in ctl.admins ==> KeepsHold(ctl.admins[a].cmd))
  }

  /** Nobody gives the session back, and nobody else closes it. */
  predicate HoldEvent(e: LoopEvent) {
    !e.CloseSession? && !(e.Admin? && e.e.Begin? && !KeepsHold(e.e.cmd))
  }

  predicate AllHold(es: seq<LoopEvent>) {
    forall i :: 0 <= i < |es| ==> HoldEvent(es[i])
  }

  /** Moreover nobody asks to finish and nobody injects an error. */
  predicate CalmEvent(e: LoopEvent) {
    HoldEvent(e) && !(e.Admin? && e.e.Begin? && (e.e.cmd.Finish? || e.e.cmd.Inject?))
  }

  predicate AllCalm(es: seq<LoopEvent>) {
    forall i :: 0 <= i < |es| ==> CalmEvent(es[i])
  }

  /** The request will write a state other than MANUAL, and will not pause the limiter before that. */
  predicate Escapes(op: AdminOp) {
    (op.cmd.Pause? && op.written == 1) || ((op.cmd.Finish? || op.cmd.Inject?) && op.written == 0)
  }

  ghost predicate NoneEscapes(ctl: Ctl) {
    forall a :: a in ctl.admins ==> !Escapes(ctl.admins[a])
  }

  // ---------- the manual phase holds ----------

  /** Every state the writes in hand will set is MANUAL, and they leave the limiter alone. */
  ghost predicate StaysManual(ctl: Ctl) {
    && (StateOf(ctl.regs) == Manual || exists i :: 0 <= i < |ctl.current| && ctl.current[i].reg == RState)
    && (forall i :: 0 <= i < |ctl.current| && ctl.current[i].reg == RState ==> ctl.current[i].val == S(Manual))
    && (forall i :: 0 <= i < |ctl.current| ==> ctl.current[i].reg != RPaused)
  }

  /** The session is in the manual phase or on its way there, and nothing leads out. */
  ghost predicate HeldByManual(s: Loop) {
    && Tidy(s) && HoldersFrom(s.ctl, 0) && NoneEscapes(s.ctl) && StaysManual(s.ctl)
    && (s.pc == ManualPhase || (s.pc.Handling? && s.pc.from != InPausedBlock && !IsTerminal(s.pc.cmd)))
  }

  /** One of the two holds, and a pause leads from the first to the second. */
  ghost predicate Held(s: Loop) {
    HeldByManual(s) || HeldByFlag(s)
  }

  lemma HoldersKeepFlag(ctl: Ctl)
    requires HoldersFrom(ctl, 0)
    ensures FlagKeepers(ctl, 0)
  {
  }

  /** A direct write of a request that neither escapes nor pauses. */
  lemma HeldDirect(cmd: Command, i: nat)
    requires KeepsHold(cmd) && i < |DirectWrites(cmd)| && !Escapes(AdminOp(cmd, i, Trying))
    ensures cmd.Pause? ==> i == 0 && DirectWrites(cmd)[i] == Write(RPaused, B(true))
    ensures !cmd.Pause? ==> DirectWrites(cmd)[i].reg != RPaused
                            && (DirectWrites(cmd)[i].reg == RState ==> DirectWrites(cmd)[i].val == S(Manual))
  {
  }

  lemma HeldAdmin(cfg: Config, s: Loop, e: SessionControl.Event)
    requires HeldByManual(s) && CalmEvent(Admin(e)) && !e.Take? && !e.Replay?
    ensures Held(Next(cfg, s, Admin(e)))
  {
    match e
    case Begin(a, cmd) =>
    case Direct(a) =>
      if a in s.ctl.admins && s.ctl.admins[a].written < |DirectWrites(s.ctl.admins[a].cmd)| {
        HeldAtDirect(cfg, s, a);
      }
    case SendStep(a) => HeldAtSend(cfg, s, a);
  }

  lemma HeldAtDirect(cfg: Config, s: Loop, a: nat)
    requires HeldByManual(s) && a in s.ctl.admins && s.ctl.admins[a].written < |DirectWrites(s.ctl.admins[a].cmd)|
    ensures Held(Next(cfg, s, Admin(Direct(a))))
  {
    var op, s' := s.ctl.admins[a], Next(cfg, s, Admin(Direct(a)));
    HeldDirect(op.cmd, op.written);
    HoldersKeepFlag(s.ctl);
    assert s'.ctl.current == s.ctl.current && s'.ctl.queue == s.ctl.queue && HoldersFrom(s'.ctl, 0);
    if op.cmd.Pause? {
      assert IsPausedFlag(s'.ctl.regs);
      assert HeldByFlag(s');
    } else {
      assert StateOf(s'.ctl.regs) == StateOf(s.ctl.regs) || StateOf(s'.ctl.regs) == Manual;
      assert NoneEscapes(s'.ctl);
    }
  }

  lemma HeldAtSend(cfg: Config, s: Loop, a: nat)
    requires HeldByManual(s)
    ensures HeldByManual(Next(cfg, s, Admin(SendStep(a))))
  {
    var c' := Next(cfg, s, Admin(SendStep(a))).ctl;
    assert forall b :: b in c'.admins ==> b in s.ctl.admins
                                          && c'.admins[b].(phase := Trying) == s.ctl.admins[b].(phase := Trying);
    assert c'.regs == s.ctl.regs && c'.current == s.ctl.current;
  }

  lemma ReplayManual(ctl: Ctl)
    requires ctl.current != [] && StaysManual(ctl)
    ensures StaysManual(SessionControl.Step(ctl, Replay))
  {
    var ctl' := SessionControl.Step(ctl, Replay);
    assert forall i :: 0 <= i < |ctl'.current| ==> ctl'.current[i] == ctl.current[i + 1];
    if ctl.current[0].reg != RState && StateOf(ctl.regs) != Manual {
      var i :| 0 <= i < |ctl.current| && ctl.current[i].reg == RState;
      assert ctl'.current[i - 1].reg == RState;
    }
  }

  /** The writes of a command taken in the manual phase. */
  lemma HeldWrites(cmd: Command)
    requires KeepsHold(cmd) && !IsTerminal(cmd) && !cmd.Pause?
    ensures forall i :: 0 <= i < |Writes(cmd)| ==>
              Writes(cmd)[i].reg != RPaused && (Writes(cmd)[i].reg == RState ==> Writes(cmd)[i].val == S(Manual))
  {
  }

  lemma HeldAtTake(cfg: Config, s: Loop)
    requires HeldByManual(s) && s.pc == ManualPhase && s.ctl.queue != []
    ensures Held(EchoLoop.Take(s, InManual))
  {
    var cmd := s.ctl.queue[0];
    HoldersKeepFlag(s.ctl);
    if !IsTerminal(cmd) && !cmd.Pause? {
      HeldWrites(cmd);
    }
  }

  lemma HeldManualStep(cfg: Config, s: Loop, e: LoopEvent)
    requires HeldByManual(s) && CalmEvent(e)
    ensures Held(Next(cfg, s, e)) && Next(cfg, s, e).n == s.n
  {
    if e.Admin? {
      if !e.e.Take? && !e.e.Replay? {
        HeldAdmin(cfg, s, e.e);
      }
    } else if e.Go? {
      if s.ctl.current != [] {
        ReplayManual(s.ctl);
      }
    } else if e.TakeCommand? {
      if s.ctl.queue != [] && s.pc == ManualPhase {
        HeldAtTake(cfg, s);
      }
    }
  }

  lemma CalmKeepsFlag(e: LoopEvent)
    requires HoldEvent(e)
    ensures NoRelease(e)
  {
  }

  lemma {:induction false} HeldOn(cfg: Config, s: Loop, es: seq<LoopEvent>)
    requires Held(s) && cfg.text != "" && AllCalm(es)
    ensures Execute(cfg, s, es).n == s.n
    decreases |es|
  {
    if es != [] {
      CalmKeepsFlag(es[0]);
      if HeldByManual(s) {
        HeldManualStep(cfg, s, es[0]);
      } else {
        HeldStep(cfg, s, es[0]);
      }
      HeldOn(cfg, Next(cfg, s, es[0]), es[1..]);
    }
  }

  lemma HeldByFlagOn(cfg: Config, s: Loop, es: seq<LoopEvent>)
    requires HeldByFlag(s) && cfg.text != "" && AllHold(es)
    ensures Execute(cfg, s, es).n == s.n
  {
    forall i | 0 <= i < |es| ensures NoRelease(es[i]) {
      CalmKeepsFlag(es[i]);
    }
    HeldRun(cfg, s, es);
  }

  // ---------- the paused block misses it ----------

  /** The takeover is replayed and the loop goes back to its top. */
  lemma MissedReplay(cfg: Config, s: Loop) returns (s4: Loop)
    requires s.pc == Handling(TakeOver, InPausedBlock) && s.ctl.current == Writes(TakeOver) && s.ctl.queue == []
    ensures s4 == Execute(cfg, Execute(cfg, s, [Go, Go]), [Go, Go])
    ensures s4.pc == CheckPause && StateOf(s4.ctl.regs) == Manual
             && IsPausedFlag(s4.ctl.regs) == IsPausedFlag(s.ctl.regs)
    ensures s4 == s.(pc := CheckPause, ctl := s.ctl.(regs := s4.ctl.regs, current := []))
  {
    ExecuteTwo(cfg, s, Go, Go);
    var s2 := Next(cfg, Next(cfg, s, Go), Go);
    assert s2.ctl.current == [] && StateOf(s2.ctl.regs) == Manual && s2.pc == s.pc;
    ExecuteTwo(cfg, s2, Go, Go);
    s4 := Next(cfg, Next(cfg, s2, Go), Go);
  }

  lemma MissedUnit(cfg: Config, s: Loop)
    requires s.pc == CheckPause && StateOf(s.ctl.regs) != Paused && !IsPausedFlag(s.ctl.regs) && cfg.text != ""
    ensures Execute(cfg, s, [Go] + [Waited(true), Wrote(true)]).n == s.n + 1
  {
    var s1 := Next(cfg, s, Go);
    assert s1.pc.Waiting? && s1.n == s.n && !IsPausedFlag(s1.ctl.regs);
    ExecuteConcat(cfg, s, [Go], [Waited(true), Wrote(true)]);
    ExecuteOne(cfg, s, Go);
    ExecuteTwo(cfg, s1, Waited(true), Wrote(true));
  }

  lemma {:induction false} FreshNat(used: set<nat>) returns (a: nat)
    ensures forall b :: b in used ==> b < a
  {
    a := 0;
    if used != {} {
      var x :| x in used;
      var above := FreshNat(used - {x});
      a := if above <= x then x + 1 else above;
      forall b | b in used ensures b < a {
        assert b == x || b in used - {x};
      }
    }
  }

  /** Other senders were at work: the queue and its log changed, the requests in progress went on. */
  ghost predicate QueueOnly(s: Loop, s': Loop) {
    && s' == s.(ctl := s.ctl.(queue := s'.ctl.queue, admins := s'.ctl.admins, log := s'.ctl.log))
    && forall a :: a in s.ctl.admins ==> a in s'.ctl.admins && s'.ctl.admins[a] == s.ctl.admins[a]
  }

  /** A new drop request arrives and tries to send. */
  lemma Arrives(cfg: Config, s: Loop, a: nat) returns (s': Loop)
    requires a !in s.ctl.admins
    ensures s' == Execute(cfg, s, [Admin(Begin(a, Drop)), Admin(SendStep(a))]) && QueueOnly(s, s')
    ensures if |s.ctl.queue| < QUEUE then |s'.ctl.queue| == |s.ctl.queue| + 1
            else s'.ctl.queue == s.ctl.queue && a in s'.ctl.admins && s'.ctl.admins[a] == AdminOp(Drop, 0, Dropping)
  {
    ExecuteTwo(cfg, s, Admin(Begin(a, Drop)), Admin(SendStep(a)));
    var s1 := Next(cfg, s, Admin(Begin(a, Drop)));
    assert s1.ctl == s.ctl.(admins := s.ctl.admins[a := AdminOp(Drop, 0, Trying)]) && DirectWrites(Drop) == [];
    s' := Next(cfg, s1, Admin(SendStep(a)));
    if |s.ctl.queue| < QUEUE {
      assert s'.ctl.admins == s.ctl.admins;
    } else {
      assert s'.ctl == s.ctl.(admins := s.ctl.admins[a := AdminOp(Drop, 0, Dropping)]);
    }
  }

  lemma {:induction false} Fills(cfg: Config, s: Loop) returns (es: seq<LoopEvent>)
    ensures AllCalm(es) && QueueOnly(s, Execute(cfg, s, es)) && |Execute(cfg, s, es).ctl.queue| >= QUEUE
    decreases QUEUE - |s.ctl.queue|
  {
    es := [];
    if |s.ctl.queue| < QUEUE {
      var a := FreshNat(s.ctl.admins.Keys);
      var s' := Arrives(cfg, s, a);
      var rest := Fills(cfg, s');
      es := [Admin(Begin(a, Drop)), Admin(SendStep(a))] + rest;
      ExecuteConcat(cfg, s, [Admin(Begin(a, Drop)), Admin(SendStep(a))], rest);
    }
  }

  /** A sender that has seen the queue full drops its head. */
  lemma Drops(cfg: Config, s: Loop, a: nat)
    requires a in s.ctl.admins && s.ctl.admins[a] == AdminOp(Drop, 0, Dropping) && s.ctl.queue != []
    ensures var s' := Execute(cfg, s, [Admin(SendStep(a))]);
            && s'.ctl.queue == s.ctl.queue[1..]
            && QueueOnly(s.(ctl := s.ctl.(admins := s.ctl.admins - {a})), s')
  {
    ExecuteOne(cfg, s, Admin(SendStep(a)));
  }

  /** Any number of senders may see a full queue before the first of them drops its head. */
  lemma {:induction false} Drains(cfg: Config, s: Loop, k: nat) returns (es: seq<LoopEvent>)
    requires |s.ctl.queue| >= QUEUE && k <= |s.ctl.queue|
    ensures AllCalm(es) && QueueOnly(s, Execute(cfg, s, es)) && |Execute(cfg, s, es).ctl.queue| == |s.ctl.queue| - k
    decreases k
  {
    es := [];
    if k > 0 {
      var a := FreshNat(s.ctl.admins.Keys);
      var arrival := [Admin(Begin(a, Drop)), Admin(SendStep(a))];
      var s1 := Arrives(cfg, s, a);
      var others := Drains(cfg, s1, k - 1);
      var s2 := Execute(cfg, s1, others);
      Drops(cfg, s2, a);
      es := arrival + (others + [Admin(SendStep(a))]);
      ExecuteConcat(cfg, s1, others, [Admin(SendStep(a))]);
      ExecuteConcat(cfg, s, arrival, others + [Admin(SendStep(a))]);
    }
  }

  lemma Empties(cfg: Config, s: Loop) returns (es: seq<LoopEvent>)
    ensures AllCalm(es) && QueueOnly(s, Execute(cfg, s, es)) && Execute(cfg, s, es).ctl.queue == []
  {
    var fs := Fills(cfg, s);
    var t := Execute(cfg, s, fs);
    var gs := Drains(cfg, t, |t.ctl.queue|);
    ExecuteConcat(cfg, s, fs, gs);
    es := fs + gs;
  }

  /** A takeover taken in the paused block of a session whose limiter is not paused can go on echoing,
      whatever waits behind it: the block does not look for the manual phase, and the commands behind
      may be displaced before the next poll. */
  lemma TakeoverMissed(cfg: Config, s: Loop) returns (es: seq<LoopEvent>)
    requires s.pc == Handling(TakeOver, InPausedBlock) && s.ctl.current == Writes(TakeOver)
    requires cfg.text != "" && !IsPausedFlag(s.ctl.regs)
    ensures AllCalm(es) && Execute(cfg, s, es).n == s.n + 1
  {
    var first := [];
    if s.ctl.queue != [] {
      first := Empties(cfg, s);
    }
    var t := Execute(cfg, s, first);
    assert s.ctl.queue == [] ==> t == s;
    var rest := MissedAtOnce(cfg, t);
    ExecuteConcat(cfg, s, first, rest);
    es := first + rest;
  }

  /** With nothing behind it no other sender is needed. */
  lemma MissedAtOnce(cfg: Config, s: Loop) returns (es: seq<LoopEvent>)
    requires s.pc == Handling(TakeOver, InPausedBlock) && s.ctl.current == Writes(TakeOver) && s.ctl.queue == []
    requires cfg.text != "" && !IsPausedFlag(s.ctl.regs)
    ensures AllCalm(es) && Execute(cfg, s, es).n == s.n + 1
  {
    es := [Go, Go] + ([Go, Go] + ([Go] + [Waited(true), Wrote(true)]));
    var s4 := MissedReplay(cfg, s);
    MissedUnit(cfg, s4);
    ExecuteConcat(cfg, s, [Go, Go], [Go, Go] + ([Go] + [Waited(true), Wrote(true)]));
    ExecuteConcat(cfg, Execute(cfg, s, [Go, Go]), [Go, Go], [Go] + [Waited(true), Wrote(true)]);
  }

  // ---------- requests that lead out of the manual state ----------

  /** With the takeover replayed, the request writes its state before the runner looks, and the runner
      goes back to its loop. */
  lemma LedOut(cfg: Config, s: Loop, a: nat) returns (t: Loop)
    requires s.pc.Handling? && s.pc.cmd == TakeOver && s.pc.from != InPausedBlock && s.ctl.current == Writes(TakeOver)
    requires a in s.ctl.admins && Escapes(s.ctl.admins[a]) && !IsPausedFlag(s.ctl.regs)
    ensures t == Execute(cfg, s, [Go, Go] + [Admin(Direct(a)), Go])
    ensures t == s.(pc := Top, ctl := s.ctl.(regs := t.ctl.regs, current := [], admins := t.ctl.admins))
    ensures !IsPausedFlag(t.ctl.regs)
  {
    ExecuteTwo(cfg, s, Go, Go);
    var s2 := Next(cfg, Next(cfg, s, Go), Go);
    assert s2 == s.(ctl := s.ctl.(regs := s2.ctl.regs, current := [])) && !IsPausedFlag(s2.ctl.regs);
    ExecuteConcat(cfg, s, [Go, Go], [Admin(Direct(a)), Go]);
    ExecuteTwo(cfg, s2, Admin(Direct(a)), Go);
    var s3 := Next(cfg, s2, Admin(Direct(a)));
    WrittenState(cfg, s2, a);
    t := Next(cfg, s3, Go);
  }

  lemma WrittenState(cfg: Config, s: Loop, a: nat)
    requires a in s.ctl.admins && Escapes(s.ctl.admins[a])
    ensures var t := Next(cfg, s, Admin(Direct(a)));
            && t == s.(ctl := s.ctl.(regs := t.ctl.regs, admins := t.ctl.admins))
            && StateOf(t.ctl.regs) != Manual && IsPausedFlag(t.ctl.regs) == IsPausedFlag(s.ctl.regs)
  {
  }

  /** Another takeover is requested; so far it has only written. */
  lemma TakenAgain(cfg: Config, s: Loop) returns (es: seq<LoopEvent>)
    ensures AllCalm(es)
    ensures var t := Execute(cfg, s, es);
            && t == s.(ctl := s.ctl.(regs := t.ctl.regs, admins := t.ctl.admins))
            && StateOf(t.ctl.regs) == Manual && IsPausedFlag(t.ctl.regs) == IsPausedFlag(s.ctl.regs)
  {
    var a := FreshNat(s.ctl.admins.Keys);
    var s1 := Next(cfg, s, Admin(Begin(a, TakeOver)));
    assert s1.ctl == s.ctl.(admins := s.ctl.admins[a := AdminOp(TakeOver, 0, Trying)]);
    es := [Admin(Begin(a, TakeOver))] + [Admin(Direct(a)), Admin(Direct(a))];
    ExecuteConcat(cfg, s, [Admin(Begin(a, TakeOver))], [Admin(Direct(a)), Admin(Direct(a))]);
    ExecuteOne(cfg, s, Admin(Begin(a, TakeOver)));
    ExecuteTwo(cfg, s1, Admin(Direct(a)), Admin(Direct(a)));
    TwoWrites(cfg, s1, a);
  }

  lemma TwoWrites(cfg: Config, s: Loop, a: nat)
    requires a in s.ctl.admins && s.ctl.admins[a] == AdminOp(TakeOver, 0, Trying)
    ensures var t := Next(cfg, Next(cfg, s, Admin(Direct(a))), Admin(Direct(a)));
            && t == s.(ctl := s.ctl.(regs := t.ctl.regs, admins := t.ctl.admins))
            && StateOf(t.ctl.regs) == Manual && IsPausedFlag(t.ctl.regs) == IsPausedFlag(s.ctl.regs)
  {
    var s1 := Next(cfg, s, Admin(Direct(a)));
    assert s1.ctl.admins[a] == AdminOp(TakeOver, 1, Trying);
  }

  /** From the top of the loop with nothing to take and the limiter running, a unit is written. */
  lemma UnitFromTop(cfg: Config, s: Loop)
    requires s.pc == Top && s.ctl.queue == [] && StateOf(s.ctl.regs) != Paused && !IsPausedFlag(s.ctl.regs)
             && cfg.text != ""
    ensures Execute(cfg, s, [Go] + ([Go] + [Waited(true), Wrote(true)])).n == s.n + 1
  {
    var s1 := Next(cfg, s, Go);
    assert s1 == s.(pc := CheckPause);
    ExecuteConcat(cfg, s, [Go], [Go] + [Waited(true), Wrote(true)]);
    ExecuteOne(cfg, s, Go);
    MissedUnit(cfg, s1);
  }

  lemma EchoesFromTop(cfg: Config, s: Loop) returns (es: seq<LoopEvent>)
    requires s.pc == Top && !IsPausedFlag(s.ctl.regs) && cfg.text != ""
    ensures AllCalm(es) && Execute(cfg, s, es).n == s.n + 1
  {
    var again := TakenAgain(cfg, s);
    var t := Execute(cfg, s, again);
    var drain := Empties(cfg, t);
    var unit := [Go] + ([Go] + [Waited(true), Wrote(true)]);
    UnitFromTop(cfg, Execute(cfg, t, drain));
    ExecuteConcat(cfg, t, drain, unit);
    ExecuteConcat(cfg, s, again, drain + unit);
    es := again + (drain + unit);
  }

  lemma LedOutEchoes(cfg: Config, s: Loop, a: nat) returns (es: seq<LoopEvent>)
    requires s.pc.Handling? && s.pc.cmd == TakeOver && s.pc.from != InPausedBlock && s.ctl.current == Writes(TakeOver)
    requires a in s.ctl.admins && Escapes(s.ctl.admins[a]) && !IsPausedFlag(s.ctl.regs) && cfg.text != ""
    ensures AllCalm(es) && Execute(cfg, s, es).n == s.n + 1
  {
    var t := LedOut(cfg, s, a);
    var rest := EchoesFromTop(cfg, t);
    es := ([Go, Go] + [Admin(Direct(a)), Go]) + rest;
    ExecuteConcat(cfg, s, [Go, Go] + [Admin(Direct(a)), Go], rest);
  }

  // ---------- exactly ----------

  /** A takeover in hand, with nobody giving the session back. */
  ghost predicate InHandOf(s: Loop) {
    && Tidy(s) && s.pc.Handling? && s.pc.cmd == TakeOver && s.ctl.current == Writes(TakeOver) && HoldersFrom(s.ctl, 0)
  }

  /** What can be seen of it when it is taken. */
  ghost predicate Stops(s: Loop) {
    IsPausedFlag(s.ctl.regs) || (s.pc.Handling? && s.pc.from != InPausedBlock && NoneEscapes(s.ctl))
  }

  lemma StopsHeld(s: Loop)
    requires InHandOf(s) && Stops(s)
    ensures Held(s)
  {
    HoldersKeepFlag(s.ctl);
    if !IsPausedFlag(s.ctl.regs) {
      assert s.ctl.current[1].reg == RState;
    }
  }

  /** Until a resume or return is issued, or the session finished, closed or an error injected, a takeover
      in hand stops the echo for good exactly when the limiter is paused, or it was not taken in the paused
      block and no request in progress will write another state: a finish or an injection before its
      write, or a pause whose flag was cleared behind its back. */
  lemma TakeOverExactly(cfg: Config, s: Loop)
    requires InHandOf(s) && cfg.text != ""
    ensures Stops(s) <==> forall es :: AllCalm(es) ==> Execute(cfg, s, es).n == s.n
  {
    if Stops(s) {
      StopsHeld(s);
      forall es | AllCalm(es) ensures Execute(cfg, s, es).n == s.n {
        HeldOn(cfg, s, es);
      }
    } else if s.pc.from == InPausedBlock {
      var es := TakeoverMissed(cfg, s);
    } else {
      var a :| a in s.ctl.admins && Escapes(s.ctl.admins[a]);
      var es := LedOutEchoes(cfg, s, a);
    }
  }

  /** A finish request that arrives in time restarts the echo, however the takeover was taken. */
  lemma FinishRestarts(cfg: Config, s: Loop) returns (es: seq<LoopEvent>)
    requires InHandOf(s) && !IsPausedFlag(s.ctl.regs) && cfg.text != ""
    ensures AllHold(es) && Execute(cfg, s, es).n == s.n + 1
  {
    if s.pc.from == InPausedBlock {
      es := TakeoverMissed(cfg, s);
    } else {
      var a := FreshNat(s.ctl.admins.Keys);
      var s1 := Next(cfg, s, Admin(Begin(a, Finish)));
      assert s1.ctl == s.ctl.(admins := s.ctl.admins[a := AdminOp(Finish, 0, Trying)]);
      var rest := LedOutEchoes(cfg, s1, a);
      es := [Admin(Begin(a, Finish))] + rest;
      ExecuteConcat(cfg, s, [Admin(Begin(a, Finish))], rest);
      ExecuteOne(cfg, s, Admin(Begin(a, Finish)));
      forall i | 0 <= i < |es| ensures HoldEvent(es[i]) {
        if i > 0 { assert es[i] == rest[i - 1]; }
      }
    }
  }

  /** So if finishing and injecting count as going on, until a resume or return only a paused limiter
      stops the echo. */
  lemma OnlyThePauseHolds(cfg: Config, s: Loop)
    requires InHandOf(s) && cfg.text != ""
    ensures IsPausedFlag(s.ctl.regs) <==> forall es :: AllHold(es) ==> Execute(cfg, s, es).n == s.n
  {
    if IsPausedFlag(s.ctl.regs) {
      HoldersKeepFlag(s.ctl);
      forall es | AllHold(es) ensures Execute(cfg, s, es).n == s.n {
        HeldByFlagOn(cfg, s, es);
      }
    } else {
      var es := FinishRestarts(cfg, s);
    }
  }

  // ---------- and it can happen ----------

  /** Nobody else is around: no request, no command, no fault, the limiter not paused. */
  ghost predicate Undisturbed(s: Loop) {
    && s.ctl.queue == [] && s.ctl.admins == map[] && s.ctl.current == [] && s.pending == NoFault
    && !IsPausedFlag(s.ctl.regs) && !s.closed
  }

  /** The start-up's two writes and the first unit. */
  lemma FirstUnit(cfg: Config, regs: Regs)
    requires !cfg.isMax && cfg.text != "" && !IsPausedFlag(regs)
    ensures var s := Execute(cfg, Start(regs), [Go, Go] + ([Go, Go] + ([Go] + [Waited(true), Wrote(true)])));
            && s.pc == Checks && s.n == 1 && Undisturbed(s)
            && s.output == Tokenizer.Count(cfg.u, UnitText(cfg, regs, 0))
  {
    var s0 := Start(regs);
    ExecuteTwo(cfg, s0, Go, Go);
    var s2 := Next(cfg, Next(cfg, s0, Go), Go);
    assert s2.ctl.current == [] && s2.pc == Starting && StateOf(s2.ctl.regs) == Echoing && Undisturbed(s2);
    assert EchoModeOf(s2.ctl.regs) == EchoModeOf(regs);
    ExecuteTwo(cfg, s2, Go, Go);
    var s4 := Next(cfg, Next(cfg, s2, Go), Go);
    assert s4 == s2.(pc := CheckPause);
    OneUnit(cfg, s4);
    ExecuteConcat(cfg, s2, [Go, Go], [Go] + [Waited(true), Wrote(true)]);
    ExecuteConcat(cfg, s0, [Go, Go], [Go, Go] + ([Go] + [Waited(true), Wrote(true)]));
  }

  lemma OneUnit(cfg: Config, s: Loop)
    requires s.pc == CheckPause && StateOf(s.ctl.regs) != Paused && Undisturbed(s) && cfg.text != "" && !cfg.isMax
    ensures var delta := UnitText(cfg, s.ctl.regs, s.n);
            Execute(cfg, s, [Go] + [Waited(true), Wrote(true)])
            == s.(pc := Checks, n := s.n + 1, units := s.units + [delta],
                  output := s.output + Tokenizer.Count(cfg.u, delta))
  {
    var delta := UnitText(cfg, s.ctl.regs, s.n);
    var s1 := s.(pc := Waiting(delta));
    assert delta != "" && Next(cfg, s, Go) == s1;
    ExecuteConcat(cfg, s, [Go], [Waited(true), Wrote(true)]);
    ExecuteOne(cfg, s, Go);
    ExecuteTwo(cfg, s1, Waited(true), Wrote(true));
    GoesOut(cfg, s1, delta);
  }

  lemma GoesOut(cfg: Config, s: Loop, delta: string)
    requires s.pc == Waiting(delta) && !IsPausedFlag(s.ctl.regs)
    ensures Next(cfg, Next(cfg, s, Waited(true)), Wrote(true))
            == s.(pc := Checks, n := s.n + 1, units := s.units + [delta],
                  output := s.output + Tokenizer.Count(cfg.u, delta))
  {
    assert Next(cfg, s, Waited(true)) == s.(pc := Writing(delta));
  }

  /** A resource limit of one pauses the session. */
  lemma PausedByLimit(cfg: Config, s: Loop)
    requires !cfg.isMax && cfg.maxEvents == 1 && cfg.action == PauseSession
    requires s.pc == Checks && s.n == 1 && Undisturbed(s) && !LengthReached(cfg, s)
    ensures var t := Execute(cfg, s, [Go] + [Go, Go]);
            t.pc == PausedBlock && t.n == 1 && Undisturbed(t)
  {
    ExecuteConcat(cfg, s, [Go], [Go, Go]);
    ExecuteOne(cfg, s, Go);
    var s1 := Next(cfg, s, Go);
    assert s1.pc == Top && StateOf(s1.ctl.regs) == Paused && Undisturbed(s1);
    ExecuteTwo(cfg, s1, Go, Go);
  }

  /** A takeover is requested, sent, and taken in the paused block. */
  lemma TakenWhilePaused(cfg: Config, s: Loop)
    requires s.pc == PausedBlock && Undisturbed(s)
    ensures var es := [Admin(Begin(0, TakeOver)), Admin(Direct(0))]
                      + ([Admin(Direct(0)), Admin(SendStep(0))] + [TakeCommand]);
            var t := Execute(cfg, s, es);
            && t.pc == Handling(TakeOver, InPausedBlock) && t.ctl.current == Writes(TakeOver) && t.n == s.n
            && t.ctl.queue == [] && t.ctl.admins == map[] && !IsPausedFlag(t.ctl.regs)
  {
    Requested(cfg, s);
    var s2 := Execute(cfg, s, [Admin(Begin(0, TakeOver)), Admin(Direct(0))]);
    SentOff(cfg, s2);
    var s4 := Execute(cfg, s2, [Admin(Direct(0)), Admin(SendStep(0))]);
    ExecuteOne(cfg, s4, TakeCommand);
    ExecuteConcat(cfg, s2, [Admin(Direct(0)), Admin(SendStep(0))], [TakeCommand]);
    ExecuteConcat(cfg, s, [Admin(Begin(0, TakeOver)), Admin(Direct(0))],
                  [Admin(Direct(0)), Admin(SendStep(0))] + [TakeCommand]);
  }

  lemma Requested(cfg: Config, s: Loop)
    requires Undisturbed(s)
    ensures var t := Execute(cfg, s, [Admin(Begin(0, TakeOver)), Admin(Direct(0))]);
            && t == s.(ctl := s.ctl.(regs := t.ctl.regs, admins := map[0 := AdminOp(TakeOver, 1, Trying)]))
            && !IsPausedFlag(t.ctl.regs)
  {
    ExecuteTwo(cfg, s, Admin(Begin(0, TakeOver)), Admin(Direct(0)));
    var s1 := Next(cfg, s, Admin(Begin(0, TakeOver)));
    assert s1.ctl.admins == map[0 := AdminOp(TakeOver, 0, Trying)];
    assert Next(cfg, s1, Admin(Direct(0))).ctl.admins == map[0 := AdminOp(TakeOver, 1, Trying)];
  }

  lemma SentOff(cfg: Config, s: Loop)
    requires s.ctl.admins == map[0 := AdminOp(TakeOver, 1, Trying)] && s.ctl.queue == [] && !IsPausedFlag(s.ctl.regs)
    ensures var t := Execute(cfg, s, [Admin(Direct(0)), Admin(SendStep(0))]);
            && t == s.(ctl := s.ctl.(regs := t.ctl.regs, queue := [TakeOver], admins := map[]))
            && !IsPausedFlag(t.ctl.regs)
  {
    ExecuteTwo(cfg, s, Admin(Direct(0)), Admin(SendStep(0)));
    var s1 := Next(cfg, s, Admin(Direct(0)));
    assert s1.ctl.admins == map[0 := AdminOp(TakeOver, 2, Trying)] && !IsPausedFlag(s1.ctl.regs);
    assert Next(cfg, s1, Admin(SendStep(0))).ctl.admins == map[];
  }

  /** A whole session from its start: the resource limit pauses it after its first unit, an administrator
      takes it over, and nevertheless it echoes once more. */
  lemma MissedInARun(cfg: Config, regs: Regs) returns (es: seq<LoopEvent>, fs: seq<LoopEvent>)
    requires !cfg.isMax && cfg.maxEvents == 1 && cfg.action == PauseSession && cfg.text != "" && !IsPausedFlag(regs)
    requires cfg.maxTokens <= 0 || cfg.hasTools || Tokenizer.Count(cfg.u, UnitText(cfg, regs, 0)) < cfg.maxTokens
    ensures var s := Execute(cfg, Start(regs), es);
            && s.pc == Handling(TakeOver, InPausedBlock) && s.n == 1
            && s.ctl.current == Writes(TakeOver) && HoldersFrom(s.ctl, 0)
            && AllCalm(fs) && Execute(cfg, s, fs).n == 2
    ensures Execute(cfg, Start(regs), es + fs).n == 2
  {
    var unit := [Go, Go] + ([Go, Go] + ([Go] + [Waited(true), Wrote(true)]));
    var pause := [Go] + [Go, Go];
    var take := [Admin(Begin(0, TakeOver)), Admin(Direct(0))]
                + ([Admin(Direct(0)), Admin(SendStep(0))] + [TakeCommand]);
    FirstUnit(cfg, regs);
    var s1 := Execute(cfg, Start(regs), unit);
    PausedByLimit(cfg, s1);
    var s2 := Execute(cfg, s1, pause);
    TakenWhilePaused(cfg, s2);
    ExecuteConcat(cfg, s1, pause, take);
    ExecuteConcat(cfg, Start(regs), unit, pause + take);
    es := unit + (pause + take);
    fs := MissedAtOnce(cfg, Execute(cfg, s2, take));
    ExecuteConcat(cfg, Start(regs), es, fs);
  }

  // ---------- a finish and an injection after a takeover ----------

  lemma StartedUp(cfg: Config, regs: Regs)
    requires !IsPausedFlag(regs)
    ensures var s := Execute(cfg, Start(regs), [Go, Go] + [Go]); s.pc == Top && s.n == 0 && Undisturbed(s)
  {
    var s0 := Start(regs);
    ExecuteTwo(cfg, s0, Go, Go);
    var s2 := Next(cfg, Next(cfg, s0, Go), Go);
    assert s2.ctl.current == [] && s2.pc == Starting && Undisturbed(s2);
    ExecuteConcat(cfg, s0, [Go, Go], [Go]);
    ExecuteOne(cfg, s2, Go);
  }

  /** A takeover is requested, sent, and taken at the top of the loop. */
  lemma TakenAtTop(cfg: Config, s: Loop)
    requires s.pc == Top && Undisturbed(s)
    ensures var es := [Admin(Begin(0, TakeOver)), Admin(Direct(0))] + ([Admin(Direct(0)), Admin(SendStep(0))] + [Go]);
            var t := Execute(cfg, s, es);
            && t.pc == Handling(TakeOver, AtTop) && t.ctl.current == Writes(TakeOver) && t.n == s.n
            && t.ctl.queue == [] && t.ctl.admins == map[] && !IsPausedFlag(t.ctl.regs)
  {
    Requested(cfg, s);
    var s2 := Execute(cfg, s, [Admin(Begin(0, TakeOver)), Admin(Direct(0))]);
    SentOff(cfg, s2);
    var s4 := Execute(cfg, s2, [Admin(Direct(0)), Admin(SendStep(0))]);
    ExecuteOne(cfg, s4, Go);
    ExecuteConcat(cfg, s2, [Admin(Direct(0)), Admin(SendStep(0))], [Go]);
    ExecuteConcat(cfg, s, [Admin(Begin(0, TakeOver)), Admin(Direct(0))],
                  [Admin(Direct(0)), Admin(SendStep(0))] + [Go]);
  }

  /** A session that an administrator takes over right after its start. */
  lemma TakenOverInARun(cfg: Config, regs: Regs) returns (es: seq<LoopEvent>)
    requires !IsPausedFlag(regs)
    ensures var s := Execute(cfg, Start(regs), es);
            InHandOf(s) && s.pc.from == AtTop && s.n == 0 && s.ctl.queue == [] && s.ctl.admins == map[]
            && !IsPausedFlag(s.ctl.regs)
  {
    var start := [Go, Go] + [Go];
    var take := [Admin(Begin(0, TakeOver)), Admin(Direct(0))] + ([Admin(Direct(0)), Admin(SendStep(0))] + [Go]);
    StartedUp(cfg, regs);
    TakenAtTop(cfg, Execute(cfg, Start(regs), start));
    ExecuteConcat(cfg, Start(regs), start, take);
    es := start + take;
  }

  /** It echoes although nobody gave it back: a finish request writes ENDING between the replay of the
      takeover and the look at the state. */
  lemma FinishInARun(cfg: Config, regs: Regs) returns (es: seq<LoopEvent>, fs: seq<LoopEvent>)
    requires !IsPausedFlag(regs) && cfg.text != ""
    ensures InHandOf(Execute(cfg, Start(regs), es)) && AllHold(fs)
    ensures Execute(cfg, Start(regs), es).n == 0 && Execute(cfg, Start(regs), es + fs).n == 1
  {
    es := TakenOverInARun(cfg, regs);
    var s := Execute(cfg, Start(regs), es);
    fs := FinishRestarts(cfg, s);
    ExecuteConcat(cfg, Start(regs), es, fs);
  }

  /** The manual phase after a takeover. */
  lemma IntoManual(cfg: Config, s: Loop)
    requires InHandOf(s) && s.pc.from == AtTop
    ensures var t := Execute(cfg, s, [Go, Go] + [Go]);
            && t == s.(pc := ManualPhase, ctl := s.ctl.(regs := t.ctl.regs, current := []))
            && IsPausedFlag(t.ctl.regs) == IsPausedFlag(s.ctl.regs)
  {
    ExecuteTwo(cfg, s, Go, Go);
    var s2 := Next(cfg, Next(cfg, s, Go), Go);
    assert s2 == s.(ctl := s.ctl.(regs := s2.ctl.regs, current := [])) && StateOf(s2.ctl.regs) == Manual;
    ExecuteConcat(cfg, s, [Go, Go], [Go]);
    ExecuteOne(cfg, s2, Go);
  }

  /** The two requests: an injection writes ERROR_PENDING and waits before it sends; an interval is sent. */
  function Requests(f: FaultSpec): seq<LoopEvent> {
    [Admin(Begin(0, Inject(f))), Admin(Direct(0))]
    + ([Admin(Begin(1, SetInterval(0))), Admin(Direct(1))] + [Admin(SendStep(1))])
  }

  lemma RequestsRun(cfg: Config, s: Loop, f: FaultSpec)
    requires f.afterChunks <= 0 && s.ctl.queue == [] && s.ctl.admins == map[]
    ensures var t := Execute(cfg, s, Requests(f));
            && t == s.(ctl := s.ctl.(regs := t.ctl.regs, queue := [SetInterval(0)], admins := t.ctl.admins))
            && StateOf(t.ctl.regs) == ErrorPending && IsPausedFlag(t.ctl.regs) == IsPausedFlag(s.ctl.regs)
  {
    var inject := [Admin(Begin(0, Inject(f))), Admin(Direct(0))];
    var interval := [Admin(Begin(1, SetInterval(0))), Admin(Direct(1))];
    InjectWrites(cfg, s, f);
    var s2 := Execute(cfg, s, inject);
    IntervalWrites(cfg, s2, f);
    var s4 := Execute(cfg, s2, interval);
    ExecuteConcat(cfg, s, inject, interval + [Admin(SendStep(1))]);
    ExecuteConcat(cfg, s2, interval, [Admin(SendStep(1))]);
    ExecuteOne(cfg, s4, Admin(SendStep(1)));
  }

  lemma InjectWrites(cfg: Config, s: Loop, f: FaultSpec)
    requires f.afterChunks <= 0 && s.ctl.admins == map[]
    ensures var t := Execute(cfg, s, [Admin(Begin(0, Inject(f))), Admin(Direct(0))]);
            && t == s.(ctl := s.ctl.(regs := t.ctl.regs, admins := map[0 := AdminOp(Inject(f), 1, Trying)]))
            && StateOf(t.ctl.regs) == ErrorPending && IsPausedFlag(t.ctl.regs) == IsPausedFlag(s.ctl.regs)
  {
    ExecuteTwo(cfg, s, Admin(Begin(0, Inject(f))), Admin(Direct(0)));
    var s1 := Next(cfg, s, Admin(Begin(0, Inject(f))));
    assert s1.ctl.admins == map[0 := AdminOp(Inject(f), 0, Trying)];
    assert Next(cfg, s1, Admin(Direct(0))).ctl.admins == map[0 := AdminOp(Inject(f), 1, Trying)];
  }

  lemma IntervalWrites(cfg: Config, s: Loop, f: FaultSpec)
    requires s.ctl.admins == map[0 := AdminOp(Inject(f), 1, Trying)]
    ensures var t := Execute(cfg, s, [Admin(Begin(1, SetInterval(0))), Admin(Direct(1))]);
            && t == s.(ctl := s.ctl.(regs := t.ctl.regs, admins := t.ctl.admins))
            && 1 in t.ctl.admins && t.ctl.admins[1] == AdminOp(SetInterval(0), 1, Trying)
            && StateOf(t.ctl.regs) == StateOf(s.ctl.regs) && IsPausedFlag(t.ctl.regs) == IsPausedFlag(s.ctl.regs)
  {
    ExecuteTwo(cfg, s, Admin(Begin(1, SetInterval(0))), Admin(Direct(1)));
    var s1 := Next(cfg, s, Admin(Begin(1, SetInterval(0))));
    assert s1.ctl.admins[1] == AdminOp(SetInterval(0), 0, Trying);
  }

  /** In the manual phase the interval command is taken, and the state is no longer MANUAL. */
  lemma LeavesManual(cfg: Config, s: Loop)
    requires s.pc == ManualPhase && s.ctl.queue == [SetInterval(0)] && s.ctl.current == []
    requires StateOf(s.ctl.regs) == ErrorPending
    ensures var t := Execute(cfg, s, [TakeCommand, Go] + [Go]);
            && t.pc == Top && t.ctl.queue == [] && t.n == s.n && StateOf(t.ctl.regs) == ErrorPending
            && IsPausedFlag(t.ctl.regs) == IsPausedFlag(s.ctl.regs)
  {
    ExecuteTwo(cfg, s, TakeCommand, Go);
    var s1 := Next(cfg, s, TakeCommand);
    assert s1.ctl.current == [Write(RInterval, I(0))] && s1.ctl.queue == []
      && s1.pc == Handling(SetInterval(0), InManual);
    var s2 := Next(cfg, s1, Go);
    assert s2.ctl.current == [] && StateOf(s2.ctl.regs) == ErrorPending;
    ExecuteConcat(cfg, s, [TakeCommand, Go], [Go]);
    ExecuteOne(cfg, s2, Go);
  }

  /** An injection whose command is delayed ends the manual phase at the next command, and the echo goes
      on: no race is needed. */
  lemma InjectionRestarts(cfg: Config, s: Loop, f: FaultSpec) returns (es: seq<LoopEvent>)
    requires s.pc == ManualPhase && s.ctl.queue == [] && s.ctl.admins == map[] && s.ctl.current == []
    requires f.afterChunks <= 0 && !IsPausedFlag(s.ctl.regs) && cfg.text != ""
    ensures AllHold(es) && Execute(cfg, s, es).n == s.n + 1
  {
    var leave, unit := [TakeCommand, Go] + [Go], [Go] + ([Go] + [Waited(true), Wrote(true)]);
    RequestsRun(cfg, s, f);
    var t := Execute(cfg, s, Requests(f));
    LeavesManual(cfg, t);
    UnitFromTop(cfg, Execute(cfg, t, leave));
    ExecuteConcat(cfg, t, leave, unit);
    ExecuteConcat(cfg, s, Requests(f), leave + unit);
    es := Requests(f) + (leave + unit);
  }

  /** A whole session: taken over, in the manual phase, an error injected with a delay, and it echoes. */
  lemma InjectionInARun(cfg: Config, regs: Regs, f: FaultSpec) returns (es: seq<LoopEvent>, fs: seq<LoopEvent>)
    requires !IsPausedFlag(regs) && cfg.text != "" && f.afterChunks <= 0
    ensures Execute(cfg, Start(regs), es).pc == ManualPhase && AllHold(fs)
    ensures Execute(cfg, Start(regs), es).n == 0 && Execute(cfg, Start(regs), es + fs).n == 1
  {
    var take := TakenOverInARun(cfg, regs);
    var s := Execute(cfg, Start(regs), take);
    IntoManual(cfg, s);
    ExecuteConcat(cfg, Start(regs), take, [Go, Go] + [Go]);
    es := take + ([Go, Go] + [Go]);
    fs := InjectionRestarts(cfg, Execute(cfg, Start(regs), es), f);
    ExecuteConcat(cfg, Start(regs), es, fs);
  }

  // ---------- a takeover of a paused limiter ----------

  /** A unit waits for the paused limiter, and nobody is about to resume it. */
  ghost predicate StuckInLimiter(s: Loop) {
    s.pc.Stopped? || (s.pc.Waiting? && IsPausedFlag(s.ctl.regs) && FlagKeepers(s.ctl, 0))
  }

  lemma StuckStep(cfg: Config, s: Loop, e: LoopEvent)
    requires StuckInLimiter(s) && Tidy(s) && NoRelease(e)
    ensures var s' := Next(cfg, s, e); StuckInLimiter(s') && Tidy(s') && s'.n == s.n && s'.output == s.output
  {
    if e.Admin? && !s.pc.Stopped? && !e.e.Take? && !e.e.Replay? {
      AdminKeepers(s.ctl, e.e);
    }
  }

  lemma {:induction false} StuckRun(cfg: Config, s: Loop, es: seq<LoopEvent>)
    requires StuckInLimiter(s) && Tidy(s) && forall i :: 0 <= i < |es| ==> NoRelease(es[i])
    ensures Execute(cfg, s, es).output == s.output && Execute(cfg, s, es).n == s.n
    decreases |es|
  {
    if es != [] {
      StuckStep(cfg, s, es[0]);
      StuckRun(cfg, Next(cfg, s, es[0]), es[1..]);
    }
  }

  /** Taken in the paused block of a session whose limiter is paused, a takeover with nothing behind it
      brings the runner into the limiter's wait: until a resume nothing at all is sent, and so no manual
      message either. */
  lemma TakenIntoLimiter(cfg: Config, s: Loop, es: seq<LoopEvent>)
    requires Tidy(s) && s.pc == Handling(TakeOver, InPausedBlock) && s.ctl.current == Writes(TakeOver)
    requires s.ctl.queue == [] && FlagKeepers(s.ctl, 0) && cfg.text != "" && IsPausedFlag(s.ctl.regs)
    requires forall i :: 0 <= i < |es| ==> NoRelease(es[i])
    ensures var t := Execute(cfg, s, [Go, Go] + ([Go, Go] + [Go]));
            t.pc.Waiting? && StateOf(t.ctl.regs) == Manual && Execute(cfg, t, es).output == s.output
  {
    var s4 := MissedReplay(cfg, s);
    ExecuteConcat(cfg, Execute(cfg, s, [Go, Go]), [Go, Go], [Go]);
    ExecuteConcat(cfg, s, [Go, Go], [Go, Go] + [Go]);
    EntersLimiter(cfg, s4);
    StuckRun(cfg, Execute(cfg, s4, [Go]), es);
  }

  lemma EntersLimiter(cfg: Config, s: Loop)
    requires s.pc == CheckPause && StateOf(s.ctl.regs) == Manual && cfg.text != ""
    ensures var t := Execute(cfg, s, [Go]); t.pc.Waiting? && t.ctl == s.ctl && t.output == s.output
  {
    ExecuteOne(cfg, s, Go);
  }

  // ---------- a takeover in the queue ----------

  lemma HoldersBehind(cfg: Config, s: Loop, e: LoopEvent, k: nat)
    requires 0 < k <= |s.ctl.queue| && HoldersFrom(s.ctl, k) && HoldEvent(e)
    ensures var s' := Next(cfg, s, e); k > Popped(s, s') ==> HoldersFrom(s'.ctl, k - Popped(s, s'))
  {
    StepMoves(cfg, s, e);
    var c, c' := s.ctl, Next(cfg, s, e).ctl;
    if e.Admin? {
      AdminHoldersBehind(c, e.e, k);
    }
    if c'.queue == c.queue[1..] {
      assert forall i :: 0 <= i < |c'.queue| ==> c'.queue[i] == c.queue[i + 1];
    }
  }

  lemma AdminHoldersBehind(c: Ctl, e: SessionControl.Event, k: nat)
    requires 0 < k <= |c.queue| && HoldersFrom(c, k) && (e.Begin? ==> KeepsHold(e.cmd))
    ensures var c' := SessionControl.Step(c, e);
            var popped := if |c'.queue| < |c.queue| then 1 else 0;
            k > popped ==> HoldersFrom(c', k - popped)
  {
  }

  /** A takeover waits at place `k`, and nobody behind it gives the session back. */
  ghost predicate TakeOverAt(s: Loop, k: nat) {
    Tidy(s) && 0 < k <= |s.ctl.queue| && s.ctl.queue[k - 1] == TakeOver && HoldersFrom(s.ctl, k)
  }

  /** The command at place `k` is not displaced, and when it is taken it is where `TakeOverExactly` says
      that it stops the echo. */
  ghost predicate TakesEffect(cfg: Config, s: Loop, es: seq<LoopEvent>, k: nat)
    decreases |es|
  {
    es == [] || k == 0
    || (var s' := Next(cfg, s, es[0]);
        var left := k - Popped(s, s');
        && !(k == 1 && Displaces(cfg, s, es[0])) && (left == 0 ==> Stops(s')) && TakesEffect(cfg, s', es[1..], left))
  }

  lemma EffectTurn(cfg: Config, s: Loop, es: seq<LoopEvent>, k: nat, s': Loop, left: nat)
    requires es != [] && k > 0 && TakesEffect(cfg, s, es, k) && s' == Next(cfg, s, es[0]) && left == k - Popped(s, s')
    ensures !(k == 1 && Displaces(cfg, s, es[0])) && (left == 0 ==> Stops(s')) && TakesEffect(cfg, s', es[1..], left)
  {
  }

  lemma TakeOverTurn(cfg: Config, s: Loop, e: LoopEvent, k: nat) returns (s': Loop, left: nat)
    requires TakeOverAt(s, k) && CalmEvent(e) && !(k == 1 && Displaces(cfg, s, e))
    requires k == Popped(s, Next(cfg, s, e)) ==> Stops(Next(cfg, s, e))
    ensures s' == Next(cfg, s, e) && left == k - Popped(s, s')
    ensures s'.n + (if PastPoll(s'.pc) then 1 else 0) <= s.n + (if PastPoll(s.pc) then 1 else 0)
    ensures if left == 0 then Held(s') else TakeOverAt(s', left)
  {
    s' := Next(cfg, s, e);
    left := k - Popped(s, s');
    WaitStep(cfg, s, e, k);
    if left == 0 {
      TakenInHand(cfg, s, e);
      StopsHeld(s');
    } else {
      HoldersBehind(cfg, s, e, k);
    }
  }

  /** At most one unit follows an enqueued takeover until somebody gives the session back, finishes it or
      injects an error, unless it is taken where it does not stop the echo. */
  lemma {:induction false} TakeOverHolds(cfg: Config, s: Loop, es: seq<LoopEvent>, k: nat)
    requires cfg.text != "" && TakeOverAt(s, k) && AllCalm(es) && TakesEffect(cfg, s, es, k)
    ensures Execute(cfg, s, es).n <= s.n + if PastPoll(s.pc) then 1 else 0
    decreases |es|
  {
    if es != [] {
      EffectTurn(cfg, s, es, k, Next(cfg, s, es[0]), k - Popped(s, Next(cfg, s, es[0])));
      var s', left := TakeOverTurn(cfg, s, es[0], k);
      if left == 0 {
        HeldOn(cfg, s', es[1..]);
      } else {
        TakeOverHolds(cfg, s', es[1..], left);
      }
    }
  }
}
