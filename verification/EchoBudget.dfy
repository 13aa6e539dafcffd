/**
 Bounds on a whole run of the echo loop: its budget under a resource limit, and the end of a
 token-limited request; and the convergence of the registers while it runs.
 */
module EchoBudget {
  import opened Text
  import opened SessionControl
  import opened EchoLoop
  import Tokenizer
  import EchoText

  // ---------- resource limit with action pause ----------

  predicate PausesAtLimit(cfg: Config) {
    !cfg.isMax && cfg.maxEvents > 0 && cfg.action == PauseSession
  }

  predicate WakingWrite(w: Write) {
    w.reg == RState && w.val != S(Paused)
  }

  /** The step writes a state other than PAUSED: an administrator directly, the runner replaying a
      command, or whoever closes the session. */
  function Wake(s: Loop, e: LoopEvent): nat {
    match e
    case Admin(Direct(a)) =>
      if a in s.ctl.admins && s.ctl.admins[a].written < |DirectWrites(s.ctl.admins[a].cmd)|
         && WakingWrite(DirectWrites(s.ctl.admins[a].cmd)[s.ctl.admins[a].written]) then 1 else 0
    case Go => if s.pc.Handling? && s.ctl.current != [] && WakingWrite(s.ctl.current[0]) then 1 else 0
    case CloseSession(_) => if s.closed then 0 else 1
    case _ => 0
  }

  function Wakes(cfg: Config, s: Loop, es: seq<LoopEvent>): nat
    decreases |es|
  {
    if es == [] then 0 else Wake(s, es[0]) + Wakes(cfg, Next(cfg, s, es[0]), es[1..])
  }

  /** Units that can still be written if no state but PAUSED is written any more. */
  function Allowance(cfg: Config, s: Loop): nat
    requires PausesAtLimit(cfg)
  {
    if s.pc.Stopped? then 0
    else if s.n < cfg.maxEvents then cfg.maxEvents - s.n
    else if s.pc == Checks then 0
    else if s.pc.Waiting? || s.pc.Writing? then 1
    else if StateOf(s.ctl.regs) == Paused then 0
    else 1
  }

  lemma AllowanceAdmin(cfg: Config, s: Loop, a: SessionControl.Event)
    requires PausesAtLimit(cfg)
    ensures Allowance(cfg, Next(cfg, s, Admin(a))) <= Allowance(cfg, s) + Wake(s, Admin(a))
  {
    var s' := Next(cfg, s, Admin(a));
    if a.Direct? && Wake(s, Admin(a)) == 0 {
      assert StateOf(s'.ctl.regs) == StateOf(s.ctl.regs) || StateOf(s'.ctl.regs) == Paused;
    }
  }

  lemma AllowanceGo(cfg: Config, s: Loop)
    requires PausesAtLimit(cfg) && (s.pc == Starting ==> s.n < cfg.maxEvents)
    ensures GoStep(cfg, s).n - s.n + Allowance(cfg, GoStep(cfg, s)) <= Allowance(cfg, s) + Wake(s, Go)
  {
  }

  lemma AllowanceStep(cfg: Config, s: Loop, e: LoopEvent)
    requires PausesAtLimit(cfg) && (s.pc == Starting ==> s.n < cfg.maxEvents)
    ensures var s' := Next(cfg, s, e); s'.n - s.n + Allowance(cfg, s') <= Allowance(cfg, s) + Wake(s, e)
    ensures Next(cfg, s, e).pc == Starting ==> Next(cfg, s, e).n < cfg.maxEvents
  {
    match e
    case Admin(a) => AllowanceAdmin(cfg, s, a);
    case Go => AllowanceGo(cfg, s);
    case _ =>
  }

  lemma {:induction false} AllowanceRun(cfg: Config, s: Loop, es: seq<LoopEvent>)
    requires PausesAtLimit(cfg) && (s.pc == Starting ==> s.n < cfg.maxEvents)
    ensures Execute(cfg, s, es).n <= s.n + Allowance(cfg, s) + Wakes(cfg, s, es)
    decreases |es|
  {
    if es != [] {
      AllowanceStep(cfg, s, es[0]);
      AllowanceRun(cfg, Next(cfg, s, es[0]), es[1..]);
    }
  }

  // ---------- how often control commands can wake a session ----------

  predicate OwesState(op: AdminOp) {
    exists i :: op.written <= i < |DirectWrites(op.cmd)| && DirectWrites(op.cmd)[i].reg == RState
  }

  function Owing(admins: map<nat, AdminOp>): set<nat> {
    set a | a in admins && OwesState(admins[a])
  }

  ghost predicate HoldsState(s: Loop) {
    s.pc.Handling? && Touches(s.ctl.current, RState)
  }

  /** State writes still to come from the requests and commands on their way. */
  ghost function Owed(s: Loop): nat {
    |Owing(s.ctl.admins)| + |s.ctl.admins| + |s.ctl.queue| + if HoldsState(s) then 1 else 0
  }

  function Begun(e: LoopEvent): nat {
    if e.Admin? && e.e.Begin? then 1 else 0
  }

  function Requests(es: seq<LoopEvent>): nat {
    if es == [] then 0 else Begun(es[0]) + Requests(es[1..])
  }

  function Closes(es: seq<LoopEvent>): nat {
    if es == [] then 0 else (if es[0].CloseSession? then 1 else 0) + Closes(es[1..])
  }

  lemma {:induction false} Subset(a: set<nat>, b: set<nat>)
    requires a <= b
    ensures |a| <= |b|
    decreases b
  {
    if x :| x in a {
      Subset(a - {x}, b - {x});
    }
  }

  lemma SubsetLess(a: set<nat>, b: set<nat>, x: nat)
    requires a <= b && x in b && x !in a
    ensures |a| < |b|
  {
    Subset(a, b - {x});
  }

  /** The direct write of the state is the last one of a request. */
  lemma StateLast(cmd: Command, i: nat)
    requires i < |DirectWrites(cmd)| && DirectWrites(cmd)[i].reg == RState
    ensures forall j :: i < j < |DirectWrites(cmd)| ==> DirectWrites(cmd)[j].reg != RState
  {
  }

  lemma OwedBegin(c: Ctl, a: nat, cmd: Command)
    requires a !in c.admins
    ensures var m := c.admins[a := AdminOp(cmd, 0, Trying)];
            |Owing(m)| <= |Owing(c.admins)| + 1 && |m| == |c.admins| + 1
  {
    var m := c.admins[a := AdminOp(cmd, 0, Trying)];
    forall b | b in Owing(m) ensures b in Owing(c.admins) + {a} {
      assert b != a ==> m[b] == c.admins[b];
    }
    Subset(Owing(m), Owing(c.admins) + {a});
    assert m.Keys == c.admins.Keys + {a};
  }

  lemma OwedDirect(c: Ctl, a: nat)
    requires a in c.admins && c.admins[a].written < |DirectWrites(c.admins[a].cmd)|
    ensures var op := c.admins[a];
            var m := c.admins[a := op.(written := op.written + 1)];
            && |Owing(m)| + (if DirectWrites(op.cmd)[op.written].reg == RState then 1 else 0) <= |Owing(c.admins)|
            && |m| == |c.admins|
  {
    var op := c.admins[a];
    var m := c.admins[a := op.(written := op.written + 1)];
    assert m.Keys == c.admins.Keys;
    assert OwesState(m[a]) ==> OwesState(op);
    assert Owing(m) <= Owing(c.admins);
    if DirectWrites(op.cmd)[op.written].reg == RState {
      StateLast(op.cmd, op.written);
      assert OwesState(op) && !OwesState(m[a]);
      SubsetLess(Owing(m), Owing(c.admins), a);
    } else {
      Subset(Owing(m), Owing(c.admins));
    }
  }

  lemma OwedSend(c: Ctl, a: nat)
    requires a in c.admins
    ensures var c' := SendCommand(c, a, c.admins[a]);
            |Owing(c'.admins)| <= |Owing(c.admins)| && |c'.admins| + |c'.queue| <= |c.admins| + |c.queue|
  {
    var c' := SendCommand(c, a, c.admins[a]);
    assert forall b :: b in c'.admins ==>
             b in c.admins && c'.admins[b].written == c.admins[b].written && c'.admins[b].cmd == c.admins[b].cmd;
    assert Owing(c'.admins) <= Owing(c.admins);
    Subset(Owing(c'.admins), Owing(c.admins));
    assert c'.admins.Keys == c.admins.Keys || c'.admins.Keys == c.admins.Keys - {a};
  }

  lemma OwedAtBegin(cfg: Config, s: Loop, b: nat, cmd: Command)
    ensures Wake(s, Admin(Begin(b, cmd))) + Owed(Next(cfg, s, Admin(Begin(b, cmd)))) <= Owed(s) + 2
  {
    if b !in s.ctl.admins {
      OwedBegin(s.ctl, b, cmd);
    }
  }

  lemma OwedAtDirect(cfg: Config, s: Loop, b: nat)
    ensures Wake(s, Admin(Direct(b))) + Owed(Next(cfg, s, Admin(Direct(b)))) <= Owed(s)
  {
    if b in s.ctl.admins && s.ctl.admins[b].written < |DirectWrites(s.ctl.admins[b].cmd)| {
      OwedDirect(s.ctl, b);
    }
  }

  lemma OwedAtSend(cfg: Config, s: Loop, b: nat)
    ensures Wake(s, Admin(SendStep(b))) + Owed(Next(cfg, s, Admin(SendStep(b)))) <= Owed(s)
  {
    if b in s.ctl.admins {
      OwedSend(s.ctl, b);
    }
  }

  lemma OwedAdmin(cfg: Config, s: Loop, a: SessionControl.Event)
    ensures Wake(s, Admin(a)) + Owed(Next(cfg, s, Admin(a))) <= Owed(s) + 2 * Begun(Admin(a))
  {
    match a
    case Begin(b, cmd) => OwedAtBegin(cfg, s, b, cmd);
    case Direct(b) => OwedAtDirect(cfg, s, b);
    case SendStep(b) => OwedAtSend(cfg, s, b);
    case _ =>
  }

  lemma OwedGo(cfg: Config, s: Loop)
    requires Distinct(s.ctl.current) && Tidy(s)
    ensures Wake(s, Go) + Owed(GoStep(cfg, s)) <= Owed(s)
    ensures Distinct(GoStep(cfg, s).ctl.current)
  {
    var s' := GoStep(cfg, s);
    if s.pc.Handling? && s.ctl.current != [] {
      assert s'.ctl.current == s.ctl.current[1..];
      ReplayTouches(s.ctl, RState);
      assert Touches(s.ctl.current[1..], RState) && s.ctl.current[0].reg == RState ==> false;
    } else if s.pc == Top && s.ctl.queue != [] {
      WritesDistinct(s.ctl.queue[0]);
    } else {
      assert !HoldsState(s');
    }
  }

  lemma OwedStep(cfg: Config, s: Loop, e: LoopEvent)
    requires Distinct(s.ctl.current) && Tidy(s)
    ensures Wake(s, e) + Owed(Next(cfg, s, e)) <= Owed(s) + 2 * Begun(e) + (if e.CloseSession? then 1 else 0)
    ensures Distinct(Next(cfg, s, e).ctl.current)
  {
    match e
    case Admin(a) => OwedAdmin(cfg, s, a);
    case Go => OwedGo(cfg, s);
    case TakeCommand => OwedTake(cfg, s);
    case Abandon(a) => OwedAtAbandon(cfg, s, a);
    case _ => OwedOther(cfg, s, e);
  }

  lemma OwedTake(cfg: Config, s: Loop)
    requires Distinct(s.ctl.current) && Tidy(s)
    ensures Wake(s, TakeCommand) + Owed(Next(cfg, s, TakeCommand)) <= Owed(s)
    ensures Distinct(Next(cfg, s, TakeCommand).ctl.current)
  {
    if s.ctl.queue != [] {
      WritesDistinct(s.ctl.queue[0]);
    }
  }

  lemma OwedOther(cfg: Config, s: Loop, e: LoopEvent)
    requires Tidy(s) && !e.Admin? && !e.Go? && !e.TakeCommand? && !e.Abandon?
    ensures Wake(s, e) + Owed(Next(cfg, s, e)) <= Owed(s) + (if e.CloseSession? then 1 else 0)
    ensures Next(cfg, s, e).ctl.current == s.ctl.current
  {
    assert Next(cfg, s, e).ctl.admins == s.ctl.admins && Next(cfg, s, e).ctl.queue == s.ctl.queue;
  }

  lemma OwedAtAbandon(cfg: Config, s: Loop, a: nat)
    ensures Wake(s, Abandon(a)) + Owed(Next(cfg, s, Abandon(a))) <= Owed(s)
    ensures Next(cfg, s, Abandon(a)).ctl.current == s.ctl.current
  {
    OwedAbandon(s.ctl.admins, a);
  }

  lemma OwedAbandon(admins: map<nat, AdminOp>, a: nat)
    ensures |Owing(admins - {a})| <= |Owing(admins)| && |admins - {a}| <= |admins|
  {
    var rest := admins - {a};
    Subset(Owing(rest), Owing(admins));
    assert rest.Keys == admins.Keys - {a};
    Subset(rest.Keys, admins.Keys);
  }

  /** Each request wakes a session at most twice, once directly and once when it is replayed. */
  lemma {:induction false} WakesBounded(cfg: Config, s: Loop, es: seq<LoopEvent>)
    requires Distinct(s.ctl.current) && Tidy(s)
    ensures Wakes(cfg, s, es) <= Owed(s) + 2 * Requests(es) + Closes(es)
    decreases |es|
  {
    if es != [] {
      StepTidy(cfg, s, es[0]);
      OwedStep(cfg, s, es[0]);
      WakesBounded(cfg, Next(cfg, s, es[0]), es[1..]);
    }
  }

  /** With a limit of L units and action pause a session writes at most L units plus one for every
      write of another state, hence L plus two for every control request. */
  lemma PauseBudget(cfg: Config, regs: Regs, es: seq<LoopEvent>)
    requires PausesAtLimit(cfg)
    ensures var n := Execute(cfg, Start(regs), es).n;
            && n <= cfg.maxEvents + Wakes(cfg, Start(regs), es)
            && n <= cfg.maxEvents + 2 * Requests(es) + Closes(es)
  {
    AllowanceRun(cfg, Start(regs), es);
    assert Owing(map[]) == {};
    WakesBounded(cfg, Start(regs), es);
  }

  // ---------- resource limit that ends the session ----------

  ghost predicate WithinLimit(cfg: Config, s: Loop) {
    s.n <= cfg.maxEvents && (s.n == cfg.maxEvents ==> s.pc == Checks || s.pc.Stopped?)
  }

  lemma WithinLimitStep(cfg: Config, s: Loop, e: LoopEvent)
    requires !cfg.isMax && cfg.maxEvents > 0 && (cfg.action == Disconnect || cfg.action == ErrorFrame)
             && WithinLimit(cfg, s)
    ensures WithinLimit(cfg, Next(cfg, s, e))
  {
    StepUnits(cfg, s, e);
  }

  /** With action disconnect or error a session never writes more than L units. */
  lemma {:induction false} HardLimit(cfg: Config, s: Loop, es: seq<LoopEvent>)
    requires !cfg.isMax && cfg.maxEvents > 0 && (cfg.action == Disconnect || cfg.action == ErrorFrame)
             && WithinLimit(cfg, s)
    ensures WithinLimit(cfg, Execute(cfg, s, es))
    decreases |es|
  {
    if es != [] {
      WithinLimitStep(cfg, s, es[0]);
      HardLimit(cfg, Next(cfg, s, es[0]), es[1..]);
    }
  }

  // ---------- token-limited requests ----------

  predicate TokenLimited(cfg: Config) {
    cfg.maxTokens > 0 && !cfg.hasTools && cfg.text != ""
  }

  /** Every unit costs a token; the limit was not reached before the last unit. */
  ghost predicate BelowLimit(cfg: Config, s: Loop) {
    && s.n <= s.output
    && (s.pc.Waiting? || s.pc.Writing? ==> s.pc.delta != "")
    && if s.pc == Checks || s.pc == Stopped(Length) then
         s.units != [] && s.output < cfg.maxTokens + Tokenizer.Count(cfg.u, s.units[|s.units| - 1])
         && s.n <= cfg.maxTokens && (s.pc == Stopped(Length) ==> cfg.maxTokens <= s.output)
       else s.n <= cfg.maxTokens && (!s.pc.Stopped? ==> s.output < cfg.maxTokens)
  }

  lemma UnitNotEmpty(cfg: Config, regs: Regs, n: nat)
    requires cfg.text != ""
    ensures UnitText(cfg, regs, n) != ""
  {
  }

  lemma BelowLimitGo(cfg: Config, s: Loop)
    requires TokenLimited(cfg) && BelowLimit(cfg, s) && !s.pc.Waiting? && !s.pc.Writing?
    ensures BelowLimit(cfg, GoStep(cfg, s))
  {
    UnitNotEmpty(cfg, s.ctl.regs, s.n);
  }

  lemma BelowLimitWrote(cfg: Config, s: Loop, ok: bool)
    requires TokenLimited(cfg) && BelowLimit(cfg, s) && s.pc.Writing?
    ensures BelowLimit(cfg, Next(cfg, s, Wrote(ok)))
  {
    var cost := Tokenizer.Count(cfg.u, s.pc.delta);
    assert cost >= 1 by { Tokenizer.CountBounds(cfg.u, s.pc.delta); }
    var s' := Next(cfg, s, Wrote(ok));
    assert s'.output == s.output + cost;
    assert ok ==> s'.units[|s'.units| - 1] == s.pc.delta;
  }

  lemma BelowLimitStep(cfg: Config, s: Loop, e: LoopEvent)
    requires TokenLimited(cfg) && BelowLimit(cfg, s) && !e.Deliver?
    ensures BelowLimit(cfg, Next(cfg, s, e))
  {
    match e
    case Go => if !s.pc.Waiting? && !s.pc.Writing? { BelowLimitGo(cfg, s); }
    case Wrote(ok) => if s.pc.Writing? { BelowLimitWrote(cfg, s, ok); }
    case _ =>
  }

  /** A request with a token limit m, no tools and no manual messages is stopped within m units, and
      when it stops for its length the output has reached m and overshoots by less than its last unit. */
  lemma {:induction false} TokenLimitedRun(cfg: Config, s: Loop, es: seq<LoopEvent>)
    requires TokenLimited(cfg) && BelowLimit(cfg, s) && forall i :: 0 <= i < |es| ==> !es[i].Deliver?
    ensures BelowLimit(cfg, Execute(cfg, s, es)) && Execute(cfg, s, es).n <= cfg.maxTokens
    decreases |es|
  {
    if es != [] {
      BelowLimitStep(cfg, s, es[0]);
      TokenLimitedRun(cfg, Next(cfg, s, es[0]), es[1..]);
    }
  }

  lemma StartBelowLimit(cfg: Config, regs: Regs)
    ensures cfg.maxTokens > 0 ==> BelowLimit(cfg, Start(regs))
    ensures cfg.maxEvents > 0 ==> WithinLimit(cfg, Start(regs))
  {
  }

  /** A whole session with a token limit and no manual deliveries. */
  lemma SessionLength(cfg: Config, regs: Regs, es: seq<LoopEvent>)
    requires TokenLimited(cfg) && forall i :: 0 <= i < |es| ==> !es[i].Deliver?
    ensures var s := Execute(cfg, Start(regs), es);
            && s.n <= cfg.maxTokens
            && (s.pc == Stopped(Length) ==>
                 s.units != []
                   && cfg.maxTokens <= s.output < cfg.maxTokens + Tokenizer.Count(cfg.u, s.units[|s.units| - 1]))
  {
    StartBelowLimit(cfg, regs);
    TokenLimitedRun(cfg, Start(regs), es);
  }

  /** A whole session with a hard limit on its echoes. */
  lemma SessionLimit(cfg: Config, regs: Regs, es: seq<LoopEvent>)
    requires !cfg.isMax && cfg.maxEvents > 0 && (cfg.action == Disconnect || cfg.action == ErrorFrame)
    ensures Execute(cfg, Start(regs), es).n <= cfg.maxEvents
  {
    StartBelowLimit(cfg, regs);
    HardLimit(cfg, Start(regs), es);
  }

  // ---------- convergence while the loop runs ----------

  /** The runner itself writes the state: at a resource limit, or when it stops. */
  ghost predicate Alive(s: Loop) {
    !s.closed && !s.pc.Stopped?
  }

  /** The resource limit has not paused the session: it pauses only after its last unit. */
  predicate BeforeLimit(cfg: Config, s: Loop) {
    PausesAtLimit(cfg) ==> s.n < cfg.maxEvents
  }

  /** A resource pause writes the state and no other register. */
  lemma LoopAgrees(start: Regs, cfg: Config, s: Loop, e: LoopEvent, r: Reg)
    requires Agrees(start, s.ctl, r) && (r == RState ==> BeforeLimit(cfg, s)) && Alive(Next(cfg, s, e)) && Alive(s)
    ensures Agrees(start, Next(cfg, s, e).ctl, r)
  {
    match e
    case Admin(a) => if !a.Take? && !a.Replay? { StepAgrees(start, s.ctl, a, r); }
    case Go => GoAgrees(start, cfg, s, r);
    case TakeCommand => StepAgrees(start, s.ctl, SessionControl.Take, r);
    case _ =>
  }

  lemma GoAgrees(start: Regs, cfg: Config, s: Loop, r: Reg)
    requires Agrees(start, s.ctl, r) && (r == RState ==> BeforeLimit(cfg, s)) && Alive(GoStep(cfg, s)) && Alive(s)
    ensures Agrees(start, GoStep(cfg, s).ctl, r)
  {
    if s.pc == Top {
      StepAgrees(start, s.ctl, SessionControl.Take, r);
    } else if s.pc == Starting || s.pc.Handling? {
      StepAgrees(start, s.ctl, Replay, r);
    } else if s.pc == Checks && r != RState {
      PauseAgrees(start, cfg, s, r);
    }
  }

  lemma PauseAgrees(start: Regs, cfg: Config, s: Loop, r: Reg)
    requires Agrees(start, s.ctl, r) && r != RState && !AfterUnit(cfg, s).pc.Stopped?
    ensures Agrees(start, AfterUnit(cfg, s).ctl, r)
  {
    assert Same(AfterUnit(cfg, s).ctl.regs, s.ctl.regs, r);
  }

  lemma {:induction false} LoopAgreesRun(start: Regs, cfg: Config, s: Loop, es: seq<LoopEvent>, r: Reg)
    requires Agrees(start, s.ctl, r) && Alive(Execute(cfg, s, es))
    requires r == RState ==> BeforeLimit(cfg, Execute(cfg, s, es))
    ensures Agrees(start, Execute(cfg, s, es).ctl, r)
    decreases |es|
  {
    AliveBefore(cfg, s, es);
    UnitsGrow(cfg, s, es);
    if es != [] {
      AliveBefore(cfg, Next(cfg, s, es[0]), es[1..]);
      LoopAgrees(start, cfg, s, es[0], r);
      LoopAgreesRun(start, cfg, Next(cfg, s, es[0]), es[1..], r);
    }
  }

  lemma {:induction false} UnitsGrow(cfg: Config, s: Loop, es: seq<LoopEvent>)
    ensures s.n <= Execute(cfg, s, es).n
    decreases |es|
  {
    if es != [] {
      StepUnits(cfg, s, es[0]);
      UnitsGrow(cfg, Next(cfg, s, es[0]), es[1..]);
    }
  }

  lemma {:induction false} AliveBefore(cfg: Config, s: Loop, es: seq<LoopEvent>)
    requires Alive(Execute(cfg, s, es))
    ensures Alive(s)
    decreases |es|
  {
    if es != [] {
      AliveBefore(cfg, Next(cfg, s, es[0]), es[1..]);
    }
  }

  /** Whenever a running loop has nothing left to replay, a register has the value of the sequential
      reading of the commands so far, unless the last command on it was lost to a full queue; the
      state, unless the resource limit was reached. */
  lemma RegisterConverges(cfg: Config, regs: Regs, es: seq<LoopEvent>, r: Reg)
    requires var s := Execute(cfg, Start(regs), es);
             Alive(s) && Quiet(s.ctl) && !LastLost(s.ctl.log, r) && (r == RState ==> BeforeLimit(cfg, s))
    ensures var c := Execute(cfg, Start(regs), es).ctl; Same(c.regs, Fold(PutAll(regs, START_UP), c.log), r)
  {
    InitAgrees(regs, r);
    LoopAgreesRun(PutAll(regs, START_UP), cfg, Start(regs), es, r);
  }

  /** With nothing lost and the resource limit not reached, all of them do. */
  lemma RunnerConverges(cfg: Config, regs: Regs, es: seq<LoopEvent>)
    requires var s := Execute(cfg, Start(regs), es);
             Alive(s) && Quiet(s.ctl) && BeforeLimit(cfg, s) && forall i :: 0 <= i < |s.ctl.log| ==> !s.ctl.log[i].lost
    ensures var c := Execute(cfg, Start(regs), es).ctl; c.regs == Fold(PutAll(regs, START_UP), c.log)
  {
    var c := Execute(cfg, Start(regs), es).ctl;
    var reading := Fold(PutAll(regs, START_UP), c.log);
    forall r: Reg ensures Same(c.regs, reading, r) {
      NothingLost(c.log, r);
      RegisterConverges(cfg, regs, es, r);
    }
    assert forall r :: r in c.regs ==> Same(c.regs, reading, r);
    assert forall r :: r in reading ==> Same(c.regs, reading, r);
    assert c.regs == reading;
  }

  // ---------- after the end ----------

  /** No new request arrives. */
  predicate NoNews(es: seq<LoopEvent>) {
    forall i :: 0 <= i < |es| ==> !(es[i].Admin? && es[i].e.Begin?)
  }

  ghost predicate NobodyOwes(c: Ctl) {
    forall a :: a in c.admins ==> !OwesState(c.admins[a])
  }

  lemma NobodyOwesStep(cfg: Config, s: Loop, e: LoopEvent)
    requires s.pc.Stopped? && s.closed && NobodyOwes(s.ctl) && !(e.Admin? && e.e.Begin?)
    ensures var s' := Next(cfg, s, e);
            s'.pc.Stopped? && s'.closed && NobodyOwes(s'.ctl) && StateOf(s'.ctl.regs) == StateOf(s.ctl.regs)
  {
    if e.Admin? && e.e.Direct? && e.e.admin in s.ctl.admins {
      var op := s.ctl.admins[e.e.admin];
      if op.written < |DirectWrites(op.cmd)| {
        assert DirectWrites(op.cmd)[op.written].reg != RState;
        assert OwesState(op.(written := op.written + 1)) ==> OwesState(op);
      }
    }
  }

  lemma {:induction false} NobodyOwesRun(cfg: Config, s: Loop, es: seq<LoopEvent>)
    requires s.pc.Stopped? && s.closed && NobodyOwes(s.ctl) && NoNews(es)
    ensures StateOf(Execute(cfg, s, es).ctl.regs) == StateOf(s.ctl.regs)
    decreases |es|
  {
    if es != [] {
      NobodyOwesStep(cfg, s, es[0]);
      NobodyOwesRun(cfg, Next(cfg, s, es[0]), es[1..]);
    }
  }

  lemma DirectState(cmd: Command, i: nat)
    requires i < |DirectWrites(cmd)| && DirectWrites(cmd)[i].reg == RState
    ensures DirectWrites(cmd)[i].val.S? && DirectWrites(cmd)[i].val.state !in {Ended, ClientDisconnected}
  {
  }

  /** An administrator goes on with its direct writes up to the one at place `i`. */
  lemma {:induction false} WritesOver(cfg: Config, s: Loop, a: nat, i: nat) returns (es: seq<LoopEvent>)
    requires a in s.ctl.admins && s.ctl.admins[a].written <= i < |DirectWrites(s.ctl.admins[a].cmd)|
    requires DirectWrites(s.ctl.admins[a].cmd)[i].reg == RState
    ensures NoNews(es) && StateOf(Execute(cfg, s, es).ctl.regs) !in {Ended, ClientDisconnected}
    decreases i - s.ctl.admins[a].written
  {
    var op, s' := s.ctl.admins[a], Next(cfg, s, Admin(Direct(a)));
    DirectState(op.cmd, i);
    var rest := [];
    if op.written < i {
      assert s'.ctl.admins[a] == op.(written := op.written + 1);
      rest := WritesOver(cfg, s', a, i);
    }
    es := [Admin(Direct(a))] + rest;
    assert es[1..] == rest;
  }

  /** A session that has ended keeps its final state, whatever else is still going on, exactly when no
      request in progress has a direct write of the state before it. */
  lemma EndedExactly(cfg: Config, s: Loop)
    requires s.pc.Stopped? && s.closed && StateOf(s.ctl.regs) in {Ended, ClientDisconnected}
    ensures NobodyOwes(s.ctl)
            <==> forall es :: NoNews(es) ==> StateOf(Execute(cfg, s, es).ctl.regs) == StateOf(s.ctl.regs)
  {
    if NobodyOwes(s.ctl) {
      forall es | NoNews(es) ensures StateOf(Execute(cfg, s, es).ctl.regs) == StateOf(s.ctl.regs) {
        NobodyOwesRun(cfg, s, es);
      }
    } else {
      var a :| a in s.ctl.admins && OwesState(s.ctl.admins[a]);
      var op := s.ctl.admins[a];
      var i :| op.written <= i < |DirectWrites(op.cmd)| && DirectWrites(op.cmd)[i].reg == RState;
      var es := WritesOver(cfg, s, a, i);
    }
  }

  // ---------- a request alone at a resource pause ----------

  /** Nobody is left to resume a session that the resource limit has paused. */
  ghost predicate LeftPaused(s: Loop) {
    s.pc.Stopped? || (
      && StateOf(s.ctl.regs) == Paused && s.ctl.queue == [] && s.ctl.admins == map[]
      && (s.pc == Top || s.pc == CheckPause || s.pc == PausedBlock))
  }

  lemma {:induction false} LeftPausedRun(cfg: Config, s: Loop, es: seq<LoopEvent>)
    requires LeftPaused(s) && NoNews(es) && forall i :: 0 <= i < |es| ==> !es[i].CloseSession?
    ensures Execute(cfg, s, es).n == s.n && LeftPaused(Execute(cfg, s, es))
    ensures Execute(cfg, s, es).pc == Stopped(Length) ==> s.pc == Stopped(Length)
    decreases |es|
  {
    if es != [] {
      LeftPausedRun(cfg, Next(cfg, s, es[0]), es[1..]);
    }
  }
}
