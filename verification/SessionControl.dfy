/**
 Session control: the registers of a live session, the bounded command queue, and the protocol by
 which administrators write registers directly and the runner replays every command later.
 */
module SessionControl {
  import opened Text

  // ---------- registers and commands ----------

  datatype State = Connected | Echoing | Paused | Manual | ErrorPending | Ending | Ended | ClientDisconnected

  datatype Mode = EchoMode | ManualMode

  datatype Reg = RState | RMode | RPaused | RInterval | REchoMode | RBucketRate | RBucketMode | RRate | RRateMode

  datatype Val = S(state: State) | M(mode: Mode) | B(flag: bool) | I(num: int) | T(text: string)

  datatype Write = Write(reg: Reg, val: Val)

  type Regs = map<Reg, Val>

  /** What of an injected error matters here: a name for it, and the chunk count that triggers it. */
  datatype FaultSpec = FaultSpec(id: nat, afterChunks: int)

  datatype Pending = NoFault | Armed(fault: FaultSpec)

  datatype Command =
    | Pause | Resume | TakeOver | ReturnToEcho
    | SetRate(rate: int, rateMode: string)
    | SetInterval(ms: int)
    | SetEchoMode(echoMode: string)
    | Finish | Drop | Inject(fault: FaultSpec)

  predicate IsTerminal(cmd: Command) {
    cmd.Finish? || cmd.Drop? || cmd.Inject?
  }

  function Put(regs: Regs, w: Write): Regs {
    regs[w.reg := w.val]
  }

  function PutAll(regs: Regs, ws: seq<Write>): Regs
    decreases |ws|
  {
    if ws == [] then regs else PutAll(Put(regs, ws[0]), ws[1..])
  }

  function OptText(reg: Reg, text: string): seq<Write> {
    if text != "" then [Write(reg, T(text))] else []
  }

  /** The register writes of a command when the runner replays it, one lock section after another.
      A terminal command closes the session. */
  function Writes(cmd: Command): seq<Write> {
    match cmd
    case Pause => [Write(RPaused, B(true)), Write(RState, S(Paused))]
    case Resume => [Write(RPaused, B(false)), Write(RState, S(Echoing))]
    case TakeOver => [Write(RMode, M(ManualMode)), Write(RState, S(Manual))]
    case ReturnToEcho => [Write(RMode, M(EchoMode)), Write(RState, S(Echoing))]
    case SetRate(rate, mode) =>
      [Write(RBucketRate, I(rate))] + OptText(RBucketMode, mode) + [Write(RRate, I(rate))] + OptText(RRateMode, mode)
    case SetInterval(ms) => [Write(RInterval, I(if ms < 0 then 0 else ms))]
    case SetEchoMode(mode) => [Write(REchoMode, T(mode))]
    case _ => [Write(RState, S(Ended)), Write(RPaused, B(false))]
  }

  /** What the administrator's request writes before it sends the command. */
  function DirectWrites(cmd: Command): seq<Write> {
    match cmd
    case Finish => [Write(RState, S(Ending))]
    case Drop => []
    case Inject(_) => [Write(RState, S(ErrorPending))]
    case _ => Writes(cmd)
  }

  const QUEUE := 64

  // ---------- the session object ----------

  class Session {
    var state: State
    var mode: Mode
    var paused: bool
    var intervalMS: int
    var echoMode: string
    var bucketRate: int
    var bucketMode: string
    var rateVal: int
    var rateModeVal: string
    var endReason: string
    var closed: bool
    var pendingFault: Pending
    var cmdCh: seq<Command>

    constructor (interval: int, echoMode: string, rate: int, rateMode: string)
      ensures cmdCh == [] && !closed && state == Connected && mode == EchoMode && !paused
      ensures intervalMS == (if interval < 0 then 0 else interval) && this.echoMode == echoMode
      ensures bucketRate == rate && bucketMode == rateMode && rateVal == 0 && rateModeVal == ""
    {
      state, mode, paused := Connected, EchoMode, false;
      intervalMS := if interval < 0 then 0 else interval;
      this.echoMode := echoMode;
      bucketRate, bucketMode, rateVal, rateModeVal := rate, rateMode, 0, "";
      endReason, closed, pendingFault, cmdCh := "", false, NoFault, [];
    }

    function Registers(): Regs
      reads this
    {
      map[RState := S(state), RMode := M(mode), RPaused := B(paused), RInterval := I(intervalMS),
          REchoMode := T(echoMode), RBucketRate := I(bucketRate), RBucketMode := T(bucketMode),
          RRate := I(rateVal), RRateMode := T(rateModeVal)]
    }

    ghost predicate Valid()
      reads this
    {
      |cmdCh| <= QUEUE
    }

    method Pause()
      modifies this`paused, this`state
      ensures Registers() == old(Registers())[RPaused := B(true)][RState := S(State.Paused)]
    {
      paused := true;
      state := State.Paused;
    }

    method Resume()
      modifies this`paused, this`state
      ensures Registers() == old(Registers())[RPaused := B(false)][RState := S(Echoing)]
    {
      paused := false;
      state := Echoing;
    }

    method TakeOver()
      modifies this`mode, this`state
      ensures Registers() == old(Registers())[RMode := M(ManualMode)][RState := S(Manual)]
    {
      mode := ManualMode;
      state := Manual;
    }

    method ReturnToEcho()
      modifies this`mode, this`state
      ensures Registers() == old(Registers())[RMode := M(EchoMode)][RState := S(Echoing)]
    {
      mode := EchoMode;
      state := Echoing;
    }

    method SetRate(rate: int, rateMode: string)
      modifies this`bucketRate, this`bucketMode, this`rateVal, this`rateModeVal
      ensures bucketRate == rateVal == rate
      ensures rateMode != "" ==> bucketMode == rateModeVal == rateMode
      ensures rateMode == "" ==> bucketMode == old(bucketMode) && rateModeVal == old(rateModeVal)
    {
      bucketRate := rate;
      if rateMode != "" {
        bucketMode := rateMode;
      }
      rateVal := rate;
      if rateMode != "" {
        rateModeVal := rateMode;
      }
    }

    method SetInterval(ms: int)
      modifies this`intervalMS
      ensures Registers() == old(Registers())[RInterval := I(if ms < 0 then 0 else ms)]
    {
      intervalMS := if ms < 0 then 0 else ms;
    }

    method SetEchoMode(m: string)
      modifies this`echoMode
      ensures Registers() == old(Registers())[REchoMode := T(m)]
    {
      echoMode := m;
    }

    method SetPendingFault(f: FaultSpec)
      modifies this`pendingFault
      ensures pendingFault == Armed(f)
    {
      pendingFault := Armed(f);
    }

    /** The synchronous half; the command follows from a goroutine of its own. */
    method InjectFault(f: FaultSpec)
      modifies this`pendingFault, this`state
      ensures pendingFault == Armed(f)
      ensures Registers() == old(Registers())[RState := S(ErrorPending)]
    {
      pendingFault := Armed(f);
      state := ErrorPending;
    }

    /** `pickDone` is Go's choice between two ready cases of a select. */
    method Send(cmd: Command, pickDone: bool) returns (ok: bool)
      requires Valid()
      modifies this`cmdCh
      ensures Valid()
      ensures |cmdCh| <= 64 && ok == !(closed && (pickDone || |old(cmdCh)| == 64))
      ensures cmdCh == if !ok then old(cmdCh)
                       else (if |old(cmdCh)| == 64 then old(cmdCh)[1..] else old(cmdCh)) + [cmd]
    {
      if closed && (pickDone || |cmdCh| == QUEUE) {
        return false;
      }
      if |cmdCh| == QUEUE {
        cmdCh := cmdCh[1..];
      }
      cmdCh := cmdCh + [cmd];
      return true;
    }

    /** Only the first call has an effect. */
    method Close(st: State, reason: string)
      modifies this`state, this`paused, this`endReason, this`closed
      ensures closed
      ensures Registers() == if old(closed) then old(Registers())
                             else old(Registers())[RState := S(st)][RPaused := B(false)]
      ensures endReason == if old(closed) then old(endReason) else reason
    {
      if !closed {
        state := st;
        endReason := reason;
        closed := true;
        paused := false;
      }
    }

    /** The setters behind the commands that do not end the session. */
    method Apply(cmd: Command)
      requires !IsTerminal(cmd)
      modifies this`state, this`mode, this`paused, this`intervalMS, this`echoMode, this`bucketRate,
               this`bucketMode, this`rateVal, this`rateModeVal
      ensures Registers() == PutAll(old(Registers()), Writes(cmd))
    {
      PutAllUnfolds(Registers(), Writes(cmd));
      match cmd
      case Pause => Pause();
      case Resume => Resume();
      case TakeOver => TakeOver();
      case ReturnToEcho => ReturnToEcho();
      case SetRate(rate, m) => SetRate(rate, m);
      case SetInterval(ms) => SetInterval(ms);
      case SetEchoMode(m) => SetEchoMode(m);
    }

    /** The runner's half: replays one command; `done` ends the session. */
    method HandleCommand(cmd: Command) returns (done: bool)
      modifies this`state, this`mode, this`paused, this`intervalMS, this`echoMode, this`bucketRate,
               this`bucketMode, this`rateVal, this`rateModeVal, this`endReason, this`closed
      ensures done == IsTerminal(cmd)
      ensures Registers() == if done && old(closed) then old(Registers()) else PutAll(old(Registers()), Writes(cmd))
      ensures closed == (done || old(closed))
    {
      PutAllUnfolds(Registers(), Writes(cmd));
      match cmd {
        case Finish => Close(Ended, "finish_normally");
        case Drop => Close(Ended, "drop_connection");
        case Inject(_) => Close(Ended, "fault_injected");
        case _ => Apply(cmd);
      }
      done := IsTerminal(cmd);
    }

    /** The direct writes of the administrator's half. */
    method ApplyDirect(cmd: Command)
      modifies this`state, this`mode, this`paused, this`intervalMS, this`echoMode, this`bucketRate,
               this`bucketMode, this`rateVal, this`rateModeVal, this`endReason, this`pendingFault
      ensures Registers() == if cmd.Inject? && cmd.fault.afterChunks > 0 then old(Registers())
                             else PutAll(old(Registers()), DirectWrites(cmd))
      ensures pendingFault == if cmd.Inject? then Armed(cmd.fault) else old(pendingFault)
    {
      PutAllUnfolds(Registers(), DirectWrites(cmd));
      match cmd
      case Finish => state, endReason := Ending, "stop";
      case Drop =>
      case Inject(f) =>
        if f.afterChunks > 0 {
          SetPendingFault(f);
        } else {
          InjectFault(f);
        }
      case _ => Apply(cmd);
    }

    /** The administrator's half: direct writes, then the command.  A fault with a chunk count is
        only armed; the command of an immediate one is sent later, by a goroutine of its own. */
    method SessionControl(cmd: Command, pickDone: bool)
      requires Valid()
      modifies this
      ensures Valid() && closed == old(closed)
      ensures Registers() == if cmd.Inject? && cmd.fault.afterChunks > 0 then old(Registers())
                             else PutAll(old(Registers()), DirectWrites(cmd))
      ensures pendingFault == if cmd.Inject? then Armed(cmd.fault) else old(pendingFault)
      ensures cmdCh == if cmd.Inject? || (closed && (pickDone || |old(cmdCh)| == QUEUE)) then old(cmdCh)
                       else (if |old(cmdCh)| == QUEUE then old(cmdCh)[1..] else old(cmdCh)) + [cmd]
    {
      ApplyDirect(cmd);
      if !cmd.Inject? {
        var _ := Send(cmd, pickDone);
      }
    }
  }

  lemma PutAllUnfolds(regs: Regs, ws: seq<Write>)
    ensures |ws| == 0 ==> PutAll(regs, ws) == regs
    ensures |ws| == 1 ==> PutAll(regs, ws) == Put(regs, ws[0])
    ensures |ws| == 2 ==> PutAll(regs, ws) == Put(Put(regs, ws[0]), ws[1])
    ensures |ws| == 4 ==> PutAll(regs, ws) == Put(Put(Put(Put(regs, ws[0]), ws[1]), ws[2]), ws[3])
    decreases |ws|
  {
    if ws != [] {
      PutAllUnfolds(Put(regs, ws[0]), ws[1..]);
    }
    if |ws| == 4 {
      assert ws[1..][1..][1..][1..] == [] && ws[1..][1..][0] == ws[2] && ws[1..][1..][1..][0] == ws[3];
    }
  }

  // ---------- the protocol, step by step ----------

  /** An administrator's request in progress: how many of its direct writes are done, and how far its
      send has come. */
  datatype Phase = Trying | Dropping | Retrying

  datatype AdminOp = AdminOp(cmd: Command, written: nat, phase: Phase)

  /** A command that is no longer waiting: replayed, or lost to a full queue. */
  datatype Entry = Entry(cmd: Command, lost: bool)

  /** `current` are the writes that the runner still owes for the command in hand, at first those of
      its own start-up; `log` is every command that is no longer waiting, in queue order. */
  datatype Ctl = Ctl(regs: Regs, queue: seq<Command>, admins: map<nat, AdminOp>, current: seq<Write>, log: seq<Entry>)

  const START_UP := [Write(RMode, M(EchoMode)), Write(RState, S(Echoing))]

  function Init(regs: Regs): Ctl {
    Ctl(regs, [], map[], START_UP, [])
  }

  datatype Event = Begin(admin: nat, cmd: Command) | Direct(admin: nat) | SendStep(admin: nat) | Take | Replay

  predicate OnlyArms(cmd: Command) {
    cmd.Inject? && cmd.fault.afterChunks > 0
  }

  /** One step of an administrator or of the runner; a step that is not possible changes nothing. */
  function Step(c: Ctl, e: Event): Ctl {
    match e
    case Begin(a, cmd) =>
      if a in c.admins || OnlyArms(cmd) then c else c.(admins := c.admins[a := AdminOp(cmd, 0, Trying)])
    case Direct(a) =>
      if a !in c.admins || c.admins[a].written >= |DirectWrites(c.admins[a].cmd)| then c
      else
        var op := c.admins[a];
        c.(regs := Put(c.regs, DirectWrites(op.cmd)[op.written]),
           admins := c.admins[a := op.(written := op.written + 1)])
    case SendStep(a) =>
      if a !in c.admins || c.admins[a].written < |DirectWrites(c.admins[a].cmd)| then c
      else SendCommand(c, a, c.admins[a])
    case Take =>
      if c.current != [] || c.queue == [] then c
      else c.(queue := c.queue[1..], current := Writes(c.queue[0]), log := c.log + [Entry(c.queue[0], false)])
    case Replay =>
      if c.current == [] then c else c.(regs := Put(c.regs, c.current[0]), current := c.current[1..])
  }

  /** One select of `Send` at a time: between seeing a full queue, dropping its head and trying again
      other goroutines may run. */
  function SendCommand(c: Ctl, a: nat, op: AdminOp): Ctl {
    if op.phase == Dropping then
      var c' := c.(admins := c.admins[a := op.(phase := Retrying)]);
      if c.queue == [] then c' else c'.(queue := c.queue[1..], log := c.log + [Entry(c.queue[0], true)])
    else if |c.queue| < QUEUE then c.(queue := c.queue + [op.cmd], admins := c.admins - {a})
    else if op.phase == Trying then c.(admins := c.admins[a := op.(phase := Dropping)])
    else c.(admins := c.admins - {a}, log := c.log + [Entry(op.cmd, true)])
  }

  /** A send that nobody interrupts enqueues its command: at once when there is room, and on a full queue
      in three steps, at the price of the oldest command. */
  lemma SendAlone(c: Ctl, a: nat)
    requires a in c.admins && c.admins[a].phase == Trying && |c.queue| <= 64
    requires c.admins[a].written >= |DirectWrites(c.admins[a].cmd)|
    ensures var cmd, done := c.admins[a].cmd, c.admins - {a};
            if |c.queue| < 64 then
              Step(c, SendStep(a)) == c.(queue := c.queue + [cmd], admins := done)
            else
              Step(Step(Step(c, SendStep(a)), SendStep(a)), SendStep(a))
              == c.(queue := c.queue[1..] + [cmd], admins := done, log := c.log + [Entry(c.queue[0], true)])
  {
    if |c.queue| == 64 {
      var c1 := Step(c, SendStep(a));
      var c2 := Step(c1, SendStep(a));
      assert c2.admins - {a} == c.admins - {a};
    }
  }

  /** No interleaving of senders and runner ever makes the queue longer than its capacity. */
  lemma {:induction false} QueueBounded(c: Ctl, es: seq<Event>)
    requires |c.queue| <= 64
    ensures |Run(c, es).queue| <= 64
    decreases |es|
  {
    if es != [] {
      QueueBounded(Step(c, es[0]), es[1..]);
    }
  }

  /** The direct writes of a request that nobody interrupts. */
  lemma {:induction false} DirectsAlone(c: Ctl, a: nat, n: nat)
    requires a in c.admins && c.admins[a].written + n == |DirectWrites(c.admins[a].cmd)|
    ensures var op := c.admins[a];
            Run(c, Repeat([Direct(a)], n))
            == c.(regs := PutAll(c.regs, DirectWrites(op.cmd)[op.written..]),
                  admins := c.admins[a := op.(written := op.written + n)])
    decreases n
  {
    var op := c.admins[a];
    var ws := DirectWrites(op.cmd);
    if n == 0 {
      assert c.admins[a := op] == c.admins;
    } else {
      var c' := Step(c, Direct(a));
      assert Repeat([Direct(a)], n)[1..] == Repeat([Direct(a)], n - 1);
      DirectsAlone(c', a, n - 1);
      assert ws[op.written..][1..] == ws[op.written + 1..];
      assert c'.admins[a := op.(written := op.written + n)] == c.admins[a := op.(written := op.written + n)];
    }
  }

  function Run(c: Ctl, es: seq<Event>): Ctl
    decreases |es|
  {
    if es == [] then c else Run(Step(c, es[0]), es[1..])
  }

  /** The sequential reading of a log: the commands applied one after the other. */
  function Fold(regs: Regs, log: seq<Entry>): Regs
    decreases |log|
  {
    if log == [] then regs else PutAll(Fold(regs, log[..|log| - 1]), Writes(log[|log| - 1].cmd))
  }

  // ---------- convergence ----------

  predicate Same(a: Regs, b: Regs, r: Reg) {
    (r in a <==> r in b) && (r in a ==> a[r] == b[r])
  }

  ghost predicate Touches(ws: seq<Write>, r: Reg) {
    exists i :: 0 <= i < |ws| && ws[i].reg == r
  }

  ghost predicate Distinct(ws: seq<Write>) {
    forall i, j :: 0 <= i < j < |ws| ==> ws[i].reg != ws[j].reg
  }

  /** The last command of the log that writes `r`, if there is one, was lost. */
  ghost predicate LastLost(log: seq<Entry>, r: Reg) {
    log != [] && if Touches(Writes(log[|log| - 1].cmd), r) then log[|log| - 1].lost else LastLost(log[..|log| - 1], r)
  }

  ghost predicate QueueTouches(queue: seq<Command>, r: Reg) {
    exists i :: 0 <= i < |queue| && Touches(Writes(queue[i]), r)
  }

  ghost predicate AdminTouches(admins: map<nat, AdminOp>, r: Reg) {
    exists a :: a in admins && Touches(DirectWrites(admins[a].cmd), r)
  }

  /** What a register is at the end of a run of writes. */
  lemma {:induction false} PutAllAt(regs: Regs, ws: seq<Write>, r: Reg)
    requires Distinct(ws)
    ensures !Touches(ws, r) ==> Same(PutAll(regs, ws), regs, r)
    ensures forall i :: 0 <= i < |ws| && ws[i].reg == r ==> r in PutAll(regs, ws) && PutAll(regs, ws)[r] == ws[i].val
    decreases |ws|
  {
    if ws != [] {
      var rest := ws[1..];
      assert forall i :: 0 <= i < |rest| ==> rest[i] == ws[i + 1];
      PutAllAt(Put(regs, ws[0]), rest, r);
      if ws[0].reg == r {
        assert !Touches(rest, r);
      } else {
        assert Touches(rest, r) ==> Touches(ws, r);
      }
    }
  }

  lemma WritesDistinct(cmd: Command)
    ensures Distinct(Writes(cmd))
  {
  }

  /** Every register that a request writes directly is written again by its replay. */
  lemma DirectIsReplayed(cmd: Command, r: Reg)
    requires Touches(DirectWrites(cmd), r)
    ensures Touches(Writes(cmd), r)
  {
    if IsTerminal(cmd) {
      assert Writes(cmd)[0].reg == RState;
    }
  }

  /** What holds of register `r` all along.  The writes in hand are those of the sequential reading;
      and unless a write to `r` is still to come or its last command was lost, `r` has the value of
      the sequential reading. */
  ghost predicate Agrees(start: Regs, c: Ctl, r: Reg) {
    && Distinct(c.current)
    && (LastLost(c.log, r) || (
         && InHand(Fold(start, c.log), c.current, r)
         && (ToCome(c, r) || Same(c.regs, Fold(start, c.log), r))))
  }

  ghost predicate InHand(reading: Regs, ws: seq<Write>, r: Reg) {
    forall i :: 0 <= i < |ws| && ws[i].reg == r ==> r in reading && reading[r] == ws[i].val
  }

  ghost predicate ToCome(c: Ctl, r: Reg) {
    Touches(c.current, r) || QueueTouches(c.queue, r) || AdminTouches(c.admins, r)
  }

  lemma InitAgrees(regs: Regs, r: Reg)
    ensures Agrees(PutAll(regs, START_UP), Init(regs), r)
  {
    PutAllAt(regs, START_UP, r);
  }

  /** Appending a command to the log. */
  lemma LogSnoc(start: Regs, log: seq<Entry>, e: Entry, r: Reg)
    ensures var log' := log + [e];
            if Touches(Writes(e.cmd), r) then
              LastLost(log', r) == e.lost && InHand(Fold(start, log'), Writes(e.cmd), r)
            else LastLost(log', r) == LastLost(log, r) && Same(Fold(start, log'), Fold(start, log), r)
  {
    var log' := log + [e];
    assert log'[..|log'| - 1] == log && log'[|log'| - 1] == e;
    WritesDistinct(e.cmd);
    PutAllAt(Fold(start, log), Writes(e.cmd), r);
  }

  lemma QueueTail(queue: seq<Command>, r: Reg)
    requires queue != []
    ensures QueueTouches(queue, r) <==> Touches(Writes(queue[0]), r) || QueueTouches(queue[1..], r)
  {
    if i :| 0 <= i < |queue| && Touches(Writes(queue[i]), r) {
      assert i > 0 ==> queue[i] == queue[1..][i - 1];
    }
    if j :| 0 <= j < |queue[1..]| && Touches(Writes(queue[1..][j]), r) {
      assert queue[1..][j] == queue[j + 1];
    }
  }

  lemma TakeAgrees(start: Regs, c: Ctl, r: Reg)
    requires Agrees(start, c, r) && c.current == [] && c.queue != []
    ensures Agrees(start, Step(c, Take), r)
  {
    var c' := Step(c, Take);
    WritesDistinct(c.queue[0]);
    LogSnoc(start, c.log, Entry(c.queue[0], false), r);
    QueueTail(c.queue, r);
    assert Touches(c.current, r) ==> false;
  }

  lemma ReplayAgrees(start: Regs, c: Ctl, r: Reg)
    requires Agrees(start, c, r) && c.current != []
    ensures Agrees(start, Step(c, Replay), r)
  {
    var c' := Step(c, Replay);
    assert forall i :: 0 <= i < |c'.current| ==> c'.current[i] == c.current[i + 1];
    if !LastLost(c.log, r) {
      assert InHand(Fold(start, c.log), c'.current, r);
      ReplayTouches(c, r);
      if c.current[0].reg == r {
        assert Same(c'.regs, Fold(start, c.log), r);
      } else {
        assert Same(c'.regs, c.regs, r);
      }
    }
  }

  lemma ReplayTouches(c: Ctl, r: Reg)
    requires c.current != []
    ensures Touches(c.current, r) <==> c.current[0].reg == r || Touches(c.current[1..], r)
  {
    if i :| 0 <= i < |c.current| && c.current[i].reg == r {
      assert i > 0 ==> c.current[1..][i - 1].reg == r;
    }
    if j :| 0 <= j < |c.current[1..]| && c.current[1..][j].reg == r {
      assert c.current[j + 1].reg == r;
    }
  }

  lemma AdminKeeps(admins: map<nat, AdminOp>, admins': map<nat, AdminOp>, gone: set<nat>, r: Reg)
    requires forall b :: b in admins && b !in gone ==> b in admins' && admins'[b].cmd == admins[b].cmd
    requires forall b :: b in admins && b in gone ==> !Touches(DirectWrites(admins[b].cmd), r)
    ensures AdminTouches(admins, r) ==> AdminTouches(admins', r)
  {
    if b :| b in admins && Touches(DirectWrites(admins[b].cmd), r) {
      assert b in admins' && Touches(DirectWrites(admins'[b].cmd), r);
    }
  }

  /** A command that leaves without being replayed. */
  lemma LostAgrees(start: Regs, c: Ctl, c': Ctl, cmd: Command, r: Reg)
    requires Agrees(start, c, r)
    requires c'.regs == c.regs && c'.current == c.current && c'.log == c.log + [Entry(cmd, true)]
    requires !Touches(Writes(cmd), r) && ToCome(c, r) ==> ToCome(c', r)
    ensures Agrees(start, c', r)
  {
    LogSnoc(start, c.log, Entry(cmd, true), r);
    if !LastLost(c'.log, r) {
      assert InHand(Fold(start, c'.log), c'.current, r);
    }
  }

  lemma DropAgrees(start: Regs, c: Ctl, a: nat, r: Reg)
    requires Agrees(start, c, r) && a in c.admins && c.admins[a].phase == Dropping
    ensures Agrees(start, SendCommand(c, a, c.admins[a]), r)
  {
    var c' := SendCommand(c, a, c.admins[a]);
    AdminKeeps(c.admins, c'.admins, {}, r);
    if c.queue != [] {
      QueueTail(c.queue, r);
      LostAgrees(start, c, c', c.queue[0], r);
    }
  }

  lemma LeaveAgrees(start: Regs, c: Ctl, a: nat, r: Reg)
    requires Agrees(start, c, r) && a in c.admins && c.admins[a].phase != Dropping
    ensures Agrees(start, SendCommand(c, a, c.admins[a]), r)
  {
    var op := c.admins[a];
    var c' := SendCommand(c, a, op);
    if !Touches(DirectWrites(op.cmd), r) {
      AdminKeeps(c.admins, c'.admins, {a}, r);
    } else {
      DirectIsReplayed(op.cmd, r);
    }
    if |c.queue| < QUEUE {
      QueueSnoc(c.queue, op.cmd, r);
    } else if op.phase == Trying {
      AdminKeeps(c.admins, c'.admins, {}, r);
    } else {
      LostAgrees(start, c, c', op.cmd, r);
    }
  }

  lemma QueueSnoc(queue: seq<Command>, cmd: Command, r: Reg)
    ensures QueueTouches(queue, r) || Touches(Writes(cmd), r) ==> QueueTouches(queue + [cmd], r)
  {
    var queue' := queue + [cmd];
    assert queue'[|queue|] == cmd;
    if i :| 0 <= i < |queue| && Touches(Writes(queue[i]), r) {
      assert queue'[i] == queue[i];
    }
  }

  /** A step of an administrator before the send: one register changes, and the replay of its command
      is still to come. */
  lemma WrittenAgrees(start: Regs, c: Ctl, c': Ctl, r: Reg)
    requires Agrees(start, c, r)
    requires c'.log == c.log && c'.current == c.current && c'.queue == c.queue
    requires AdminTouches(c.admins, r) ==> AdminTouches(c'.admins, r)
    requires Same(c'.regs, c.regs, r) || AdminTouches(c'.admins, r)
    ensures Agrees(start, c', r)
  {
  }

  lemma BeginAgrees(start: Regs, c: Ctl, a: nat, cmd: Command, r: Reg)
    requires Agrees(start, c, r) && a !in c.admins
    ensures Agrees(start, c.(admins := c.admins[a := AdminOp(cmd, 0, Trying)]), r)
  {
    var c' := c.(admins := c.admins[a := AdminOp(cmd, 0, Trying)]);
    AdminKeeps(c.admins, c'.admins, {}, r);
    WrittenAgrees(start, c, c', r);
  }

  lemma DirectAgrees(start: Regs, c: Ctl, a: nat, r: Reg)
    requires Agrees(start, c, r) && a in c.admins && c.admins[a].written < |DirectWrites(c.admins[a].cmd)|
    ensures Agrees(start, Step(c, Direct(a)), r)
  {
    var op, c' := c.admins[a], Step(c, Direct(a));
    var w := DirectWrites(op.cmd)[op.written];
    AdminKeeps(c.admins, c'.admins, {}, r);
    assert w.reg == r ==> AdminTouches(c'.admins, r) by {
      assert c'.admins[a].cmd == op.cmd;
      assert w.reg == r ==> Touches(DirectWrites(op.cmd), r);
    }
    WrittenAgrees(start, c, c', r);
  }

  lemma StepAgrees(start: Regs, c: Ctl, e: Event, r: Reg)
    requires Agrees(start, c, r)
    ensures Agrees(start, Step(c, e), r)
  {
    match e
    case Begin(a, cmd) => if a !in c.admins { BeginAgrees(start, c, a, cmd, r); }
    case Direct(a) =>
      if a in c.admins && c.admins[a].written < |DirectWrites(c.admins[a].cmd)| { DirectAgrees(start, c, a, r); }
    case SendStep(a) =>
      if a in c.admins {
        if c.admins[a].phase == Dropping { DropAgrees(start, c, a, r); } else { LeaveAgrees(start, c, a, r); }
      }
    case Take => if c.current == [] && c.queue != [] { TakeAgrees(start, c, r); }
    case Replay => if c.current != [] { ReplayAgrees(start, c, r); }
  }

  lemma {:induction false} RunAgrees(start: Regs, c: Ctl, es: seq<Event>, r: Reg)
    requires Agrees(start, c, r)
    ensures Agrees(start, Run(c, es), r)
    decreases |es|
  {
    if es != [] {
      StepAgrees(start, c, es[0], r);
      RunAgrees(start, Step(c, es[0]), es[1..], r);
    }
  }

  /** Nothing is waiting: no request in progress, no queued command, no write in hand. */
  predicate Quiet(c: Ctl) {
    c.admins == map[] && c.queue == [] && c.current == []
  }

  /** Every register whose last command got through has, once all is quiet, the value of the
      sequential reading over the start-up state: any number of administrators, any interleaving. */
  lemma ConvergesUnlessLost(regs: Regs, es: seq<Event>, r: Reg)
    requires var c := Run(Init(regs), es); Quiet(c) && !LastLost(c.log, r)
    ensures var c := Run(Init(regs), es); Same(c.regs, Fold(PutAll(regs, START_UP), c.log), r)
  {
    InitAgrees(regs, r);
    RunAgrees(PutAll(regs, START_UP), Init(regs), es, r);
  }

  lemma {:induction false} NothingLost(log: seq<Entry>, r: Reg)
    requires forall i :: 0 <= i < |log| ==> !log[i].lost
    ensures !LastLost(log, r)
    decreases |log|
  {
    if log != [] {
      NothingLost(log[..|log| - 1], r);
    }
  }

  /** Convergence: when no command was lost, the quiet registers are the sequential reading. */
  lemma Converges(regs: Regs, es: seq<Event>)
    requires var c := Run(Init(regs), es); Quiet(c) && forall i :: 0 <= i < |c.log| ==> !c.log[i].lost
    ensures var c := Run(Init(regs), es); c.regs == Fold(PutAll(regs, START_UP), c.log)
  {
    var c := Run(Init(regs), es);
    var reading := Fold(PutAll(regs, START_UP), c.log);
    forall r: Reg ensures Same(c.regs, Fold(PutAll(regs, START_UP), c.log), r) {
      NothingLost(c.log, r);
      ConvergesUnlessLost(regs, es, r);
    }
    assert forall r :: r in c.regs ==> Same(c.regs, reading, r);
    assert forall r :: r in reading ==> Same(c.regs, reading, r);
    assert c.regs == reading;
  }
}
