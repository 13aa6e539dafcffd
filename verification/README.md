# EpicAI: a verified model of the streaming session

EpicAI answers OpenAI-style requests by echoing them for as long as the client stays. A live session
is one runner goroutine, any number of administrators who steer it through a command queue, a
two-level token limiter, an event-stream writer shared with a keep-alive goroutine, and an admission
gate in front of all of it. Infinite echo MAX adds a token-counted text block, and agent mode adds a
printer and parser for tool calls whose subagents call the server again. This project models those
parts in Dafny 4.11 and proves what they keep over every run.

`dafny verify dfyconfig.toml` checks everything.

| file | component | source |
|---|---|---|
| `Text.dfy` | runes with abstract Unicode tables, case folding, repetition | Go's `unicode` and `strings` |
| `Tokenizer.dfy` | the canonical token count | `backend/internal/tokenizer/tokenizer.go` |
| `EchoText.dfy` | echo modes, aggregated block, block budget, emission in parts | `backend/internal/engine/echo/echo.go`, `backend/internal/api/runner.go` |
| `Json.dfy` | decoding an object of string members, sections 2, 4 and 7 of RFC 8259 | the client's side of a tool call |
| `AgentCodec.dfy` | tool-call arguments out and prompt back in | `backend/internal/engine/echo/echo.go` |
| `AgentBudget.dfy` | the tokens of a whole agent cycle against the client's limit | `backend/internal/api/runner.go` |
| `AgentCycle.dfy` | the recursion guard and the tree of model calls | `backend/internal/api/runner.go` |
| `SessionControl.dfy` | a session's registers, its queue, administrators, replay | `backend/internal/sessions/session.go`, `backend/internal/api/admin/sessions.go` |
| `EchoLoop.dfy`, `EchoLimits.dfy`, `EchoBudget.dfy` | `runEcho` and `runEchoMax` as one machine; priority, faults, budgets | `backend/internal/api/runner.go` |
| `EchoTakeover.dfy` | where a takeover stops the echo, and where it does not | `backend/internal/api/runner.go` |
| `EchoScript.dfy` | the session that a script of scheduling decisions determines, turn by turn | `backend/internal/api/runner.go` |
| `EchoRunner.dfy` | the loops as the source writes them, proved to play that session and to go through runs of the machine | `backend/internal/api/runner.go` |
| `RateLimit.dfy`, `Limiter.dfy` | one token bucket; session and global bucket together, rate window | `backend/internal/ratelimit/ratelimit.go` |
| `Admission.dfy` | admit, register, unregister | `backend/internal/sessions/session.go`, `backend/internal/api/chat.go` |
| `StreamWriter.dfy`, `KeepAlive.dfy` | the event-stream writer; runner and keep-alive racing on it | `backend/internal/engine/stream/stream.go`, `backend/internal/api/chat.go` |

## How the model is built

Objects whose methods update their fields are classes (`Session`, `Runner`, `BucketObject`,
`RateMeter`, `Manager`, `Writer`), and source loops are loops. Each method is proved equal to a step
of a specification on values, and the properties are proved about those specifications.

Concurrency is a machine whose steps are the source's lock sections, and a run is any list of steps,
so every schedule is covered. In `SessionControl` an administrator writes one register at a time,
then sends; sending to a full queue first drops the oldest command and then tries again, as two
steps, because other senders run in between. `EchoLoop` embeds that machine beside the runner.
`EchoScript` fixes what the scheduler decides: a script says, before each step of the runner, which
other goroutines run and which case its select picks, and so determines the whole session. The loops
of `EchoRunner` are proved to play exactly that session, so a loop that skipped a case of a select, or
answered it in another way, would not verify.

Time is a parameter in nanoseconds. The bucket's levels are `real`, but the truncation of a wait to
whole nanoseconds is modelled, because it decides grants: a deficit worth less than one nanosecond
gives a zero wait and counts as granted. `Slip` counts these grants, and the rate bounds carry it.

## Where the code does less than its comments say

Each of these is proved, with the exact condition under which the promise does hold.

- Counting is not additive over text that mixes ASCII digits with full-width or astral ones, because a
  digit run absorbs both (`backend/internal/tokenizer/tokenizer.go:63-70`). `NearAdditiveExactly`: an
  alphabet is near-additive if and only if it has one kind of digit; `BlockBoundExactly` is the same
  for the aggregated block's budget.
- A refused take empties the bucket (`backend/internal/ratelimit/ratelimit.go:415`), so the wait it
  returned need not suffice. `AloneExactly`: with exact wake-ups and nobody else the request is granted
  if and only if its first wait is already that of an empty bucket, and otherwise never.
  `SharedExactly`: under contention, if and only if that full wait is at most 200 microseconds.
  `KeepingIsGranted`: keeping the level on refusal repairs it.
- A request above a positive capacity is never granted (`TooLargeRefused`), and capacity 0 caps nothing.
- A takeover consumed in the paused block does not enter the manual phase
  (`backend/internal/api/runner.go:891-905`); `MissedInARun` is a session in which it happens.
  A finish (`backend/internal/sessions/session.go:693-699`) or an injection
  (`backend/internal/sessions/session.go:627-633`) writes its state at once and its command later, and in
  between a session taken over echoes again: `FinishInARun` and `InjectionInARun`. `TakeOverExactly`: short of
  these and of a resume or return, a takeover stops the echo for good if and only if the limiter is paused, or
  it was taken elsewhere and no request in progress is about to write another state. `OnlyThePauseHolds`:
  with them, if and only if the limiter is paused; and then (`TakenIntoLimiter`) a takeover from the paused
  block sends no manual message either until a resume.
- The ended state is not absorbing (`backend/internal/sessions/session.go:469-473`): `EndedIsOverwritten`
  gives the run, and `EndedExactly` the condition: no request in progress has a write of the state before it.
- An admitted request that never becomes a session keeps its counts (`backend/internal/api/chat.go:112-119`
  calls `Unregister("")`). `BalancedExactly`: when all is over a counter is back at zero if and only if
  no such request carried that name; `LockedOut`: enough of them refuse an address for ever.
- The global limit is read before the session exists, so a burst overshoots it: `GlobalLimit` gives the
  bound for a known number of requests in flight, `BurstAdmitted` that no smaller one holds.
- A comment claims that the whole agent cycle stays within the client's `max_tokens`. The cap divides the
  limit among the blocks and leaves nothing for the calls around them: `OvershootingRequest` is a request
  above its limit. For every text that does not mix digits, `WholeCycle` is the total in closed form and
  `CycleFitsExactly` and `CappedExactly` the condition on the limit, if and only if. What copies save by
  merging can make up for the calls (`KeptWithin`); a one-token text charged rune by rune saves nothing, and
  where the cap takes effect it always exceeds the limit (`OneTokenOvershoots`).
- Any number of keep-alive comments can follow the done frame when the runner is delayed before it stores
  the closed flag (`AnyNumberOfComments`); `CommentsExactly` says when no further one can.
- A token-limited request need not reach its length when a resource limit is in force (`UnreachedLength`).
  `RunToLength`: it does if and only if the units up to that limit cost what is missing; `LeftPausedRun`: a
  paused one stays so until somebody comes.
- Payloads with a backslash or a control character other than a newline do not survive the agent codec:
  `DeliveredExactly` is an if and only if.
- A text that ends in a newline (or an empty one sent more than once) loses it in a block-mode batch
  answer: `BlockBatchAgrees` is an if and only if. Message mode streams without a separator:
  `StreamingAccumulates`.

## Model

| member | source | states |
|---|---|---|
| `Tokenizer.CountString` | backend/internal/tokenizer/tokenizer.go:29-87 | the scanning loop ends and counts what the recursive definition over leading steps counts |
| `Tokenizer.ScanCase` | backend/internal/tokenizer/tokenizer.go:36-84 | one branch of the loop: it consumes at least a rune, yields at least a token, and never reads past the text |
| `Tokenizer.SkipRun` | backend/internal/tokenizer/tokenizer.go:42-83 | an inner loop stops exactly at the first rune its run does not absorb, or at its limit of runes (three for digits) |
| `Tokenizer.CountBounds` | backend/internal/tokenizer/tokenizer.go:29-87 | every text: at most four runes a token and at most two tokens a rune |
| `Tokenizer.RuneByRune` | backend/internal/tokenizer/tokenizer.go:55-62 | a text of the sixteen blocks of ideographs, kana, Hangul and full-width forms counts a token a rune, letters and digits among them included, and any other text beyond the basic plane two |
| `Tokenizer.InGroups` | backend/internal/tokenizer/tokenizer.go:39-83 | letters and blanks count in groups of four, ASCII digits of three, newlines and ASCII punctuation one by one |
| `Tokenizer.CountIsRunTotal` | backend/internal/tokenizer/tokenizer.go:29-87 | the scan equals an independent definition: the sum over maximal runs of one class, when digits are unmixed |
| `Tokenizer.RunTotalSeam` | backend/internal/tokenizer/tokenizer.go:29-87 | joining two texts saves one token exactly when a run crosses the seam with room in its last group |
| `Tokenizer.CountSeam` | backend/internal/tokenizer/tokenizer.go:29-87 | hence counting is additive up to one token, and by exactly that saving |
| `Tokenizer.MixedDigitsOvershoot` | backend/internal/tokenizer/tokenizer.go:63-70 | any ASCII digit beside any digit of another class breaks the law: two texts of one token make three |
| `Tokenizer.NearAdditiveExactly` | backend/internal/tokenizer/tokenizer.go:29-87 | over an alphabet, near-additivity holds for all pairs of texts if and only if the alphabet has one kind of digit |
| `Tokenizer.RepeatCount` | backend/internal/tokenizer/tokenizer.go:29-87 | k copies count between k times one copy less the k-1 seams and k times one copy, exactly k times when no run crosses a seam |
| `EchoText.Accumulate` | backend/internal/engine/echo/echo.go:101-116 | the loop gives the n copies run together in exact mode, separated by newlines otherwise |
| `EchoText.NonStreaming` | backend/internal/engine/echo/echo.go:56-97 | the batch answer for each mode: copies run together, lines, or lines with the trailing newlines trimmed; a count below 1 acts as 1 |
| `EchoText.StreamedIs` | backend/internal/engine/echo/echo.go:38-53 | what the stream has written after n units, in closed form for each mode |
| `EchoText.ModeOfStream` | backend/internal/engine/echo/echo.go:19-53 | by the name of the mode: line and block put each streamed repetition on a line of its own, every other name runs them together |
| `EchoText.BatchOf` | backend/internal/engine/echo/echo.go:19-97 | by the name of the mode: only exact runs a batch answer together |
| `EchoText.StreamingAccumulates` | backend/internal/engine/echo/echo.go:38-53 | stream and accumulation agree after n units if and only if the mode is not message or there is at most one unit |
| `EchoText.BlockBatchAgrees` | backend/internal/engine/echo/echo.go:80-90 | the block-mode batch answer equals the streamed lines if and only if the text does not end in a newline (empty text: only for one copy) |
| `EchoText.BuildInfiniteMaxText` | backend/internal/engine/echo/echo.go:129-155 | the block is k copies of the text ("hello" for none), k being the most that fit the budget (2048 for none), at least one and at most the cap |
| `EchoText.CopiesOfOneToken` | backend/internal/engine/echo/echo.go:129-155 | of a text of one token the copies are the budget itself, up to 500000 |
| `EchoText.BlockBound` | backend/internal/engine/echo/echo.go:118-155 | the block's own count stays within the budget (or one copy's count) and within k-1 tokens of k copies, exact when no run crosses a seam |
| `EchoText.MixedDigitBlockOverflows` | backend/internal/engine/echo/echo.go:129-155 | a block of mixed digits exceeds its budget |
| `EchoText.BlockBoundExactly` | backend/internal/engine/echo/echo.go:129-155 | over an alphabet, all blocks stay within budget if and only if it has one kind of digit |
| `EchoText.BlockTokens` | backend/internal/api/runner.go:502-517 | one block for the text and one for each subagent stay within the client's limit, and the cap is never lower than that needs |
| `EchoText.EmitInParts` | backend/internal/api/runner.go:599-630 | the 80-rune loop ends; its parts have 80 runes but the last, join to the block, and their tokens are what is accounted |
| `EchoText.PartsCount` | backend/internal/api/runner.go:599-630 | the tokens accounted lie between the block's count and that plus the number of cuts |
| `AgentBudget.ChargeCycle` | backend/internal/api/runner.go:502-630 | one cycle charges each subagent's call, name and arguments together, and the parts of the streamed text; in MAX mode of the block that the model's chunk and the client's limit determine |
| `AgentBudget.CallExactly` | backend/internal/engine/stream/stream.go:172-181 | for every text and tool list a call costs its fixed wrapping plus the text in it: no run of the text goes on into the quotes around it |
| `AgentBudget.CycleExactly` | backend/internal/api/runner.go:586-630 | hence the whole cycle's total, for every text |
| `AgentBudget.CycleBracketed` | backend/internal/api/runner.go:586-630 | for every digit-clean text without quotes and newlines the total is everybody's block and the wrapping, up to one token for each cut of the stream |
| `AgentBudget.PartsCost` | backend/internal/api/runner.go:599-630 | the streamed parts cost the block and exactly the groups that the 80-rune cuts separate |
| `AgentBudget.WholeCycle` | backend/internal/api/runner.go:586-630 | for every text that does not mix digits, blank ones, quotes and newlines included, the total of k copies in closed form from the classes of one copy: wrapping, arguments, stream, cuts |
| `AgentBudget.CycleFitsExactly` | backend/internal/api/runner.go:494-524 | so the whole cycle stays within the client's limit if and only if the closed form at the number of copies this limit asks for does: decided before the request |
| `AgentBudget.CappedExactly` | backend/internal/api/runner.go:506-517 | where the cap on the block takes effect, the copies are the rounds the limit holds, and the cycle fits if and only if what they leave over, with what merging copies save, holds the wrapping of all calls and the cuts |
| `AgentBudget.OneTokenOvershoots` | backend/internal/api/runner.go:506-517 | with a one-token text that is charged rune by rune the capped cycle always exceeds the limit |
| `AgentBudget.KeptWithin` | backend/internal/api/runner.go:506-517 | with a one-token text whose copies merge the capped cycle can stay within it |
| `AgentBudget.OvershootingRequest` | backend/internal/api/runner.go:494-517 | a concrete request that gets more than its limit |
| `AgentCodec.SpawnLiteral` | backend/internal/engine/echo/echo.go:169-176 | the layout used in the proofs renders to the text of the spawn tool's arguments |
| `AgentCodec.TaskLiteral` | backend/internal/engine/echo/echo.go:177-190 | the same for the task tool's arguments |
| `AgentCodec.ShellLiterals` | backend/internal/engine/echo/echo.go:191-224 | the same for both shell tools' arguments |
| `AgentCodec.ToolIsChosen` | backend/internal/engine/echo/echo.go:158-226 | the tool called is the first of the nine known names that the client declares in any spelling, else its first tool, else bash; its text is in the argument of that name (message, prompt, cmd or command), and it is flagged exactly when it starts a subagent |
| `AgentCodec.CallDecodes` | backend/internal/engine/echo/echo.go:158-226 | for every tool list and every text that can be carried, the arguments decode to exactly the members that the called tool reads, with the text quoted behind the echo ("hello" for a blank one) |
| `AgentCodec.UnescapeClean` | backend/internal/engine/echo/echo.go:158-168 | string unescaping (section 7 of RFC 8259) undoes the cleaning, up to newlines as spaces, on text it can carry |
| `AgentCodec.UnescapeAny` | backend/internal/engine/echo/echo.go:158-168 | on any text, the scan of the cleaned text fails, stays whole, or ends early and leaves something no object continues with |
| `AgentCodec.DecodeCarried` | backend/internal/engine/echo/echo.go:158-226 | decoding the printed arguments gives the prompt around the input, for input it can carry |
| `AgentCodec.DecodeAny` | backend/internal/engine/echo/echo.go:158-226 | for any input the arguments either do not decode or decode to the prompt's lead with a value no longer than the input when it cannot be carried |
| `AgentCodec.ExtractIs` | backend/internal/engine/echo/echo.go:241-252 | the parser returns what stands between the first quote after the marker and the last one |
| `AgentCodec.ExtractQuoted` | backend/internal/engine/echo/echo.go:241-252 | a prompt that quotes any text with its quotes escaped gives that text back, backslashes included |
| `AgentCodec.DeliveredExactly` | backend/internal/engine/echo/echo.go:158-252 | for every tool list and every input that is not blank, printing, decoding the argument that goes with the tool called, and extracting give the input with newlines as spaces if and only if it has no backslash and no control character but newline |
| `AgentCodec.SubagentPromptRecognised` | backend/internal/engine/echo/echo.go:228-237 | every prompt that decodes from a subagent tool's arguments carries the marker, whatever the input |
| `AgentCodec.PickShellTool` | backend/internal/engine/echo/echo.go:256-286 | the tool chosen is the first of the most preferred name that matches, its argument key the one that goes with it |
| `AgentCodec.ShellOrder` | backend/internal/engine/echo/echo.go:256-286 | its seven names are tried in their order, in any spelling: the first that is declared is called |
| `AgentCodec.ShellArgument` | backend/internal/engine/echo/echo.go:256-286 | only exec_command takes its command under cmd |
| `AgentCycle.RunAgentEcho` | backend/internal/api/runner.go:467-526 | a model call answers as the guard says: a marked prompt gets one shell call or a final text; any other spawns its subagents once each, and their calls carry the user's own text in normal mode and in MAX mode the most copies of it that the chunk and the client's limit, divided among the blocks, hold |
| `AgentCycle.CycleTextUnique` | backend/internal/api/runner.go:502-524 | the mode and the limits leave no choice of that text |
| `AgentCycle.CycleReachesSubagents` | backend/internal/api/runner.go:502-526 | it is what each subagent reads in its prompt, for every text that can be carried, and what is extracted from it |
| `AgentCycle.CopiesOfHi` | backend/internal/api/runner.go:502-524 | "hi" is sent 2048 times without a limit, 50 times with a limit of 100 and one subagent, and once in normal mode |
| `AgentCycle.ShellChoiceNotSubagent` | backend/internal/engine/echo/echo.go:256-286 | for any tool list the shell tool chosen is, in no spelling, one of the five that spawn a subagent |
| `AgentCycle.UnflaggedTool` | backend/internal/engine/echo/echo.go:158-226 | a subagent tool chosen without being recognised as one still gets the plain shell arguments |
| `AgentCycle.OtherFieldAbsent` | backend/internal/engine/echo/echo.go:216-225 | those arguments never hold the field a subagent tool reads its prompt from |
| `AgentCycle.RankDecreases` | backend/internal/api/runner.go:480-486 | every follow-up call of a client has a smaller rank: fresh, marked, marked with a tool result |
| `AgentCycle.CallsBounded` | backend/internal/api/runner.go:467-723 | the tree of calls of one cycle is finite: a fresh call causes at most 1 + 2 * subCount, a subagent at most two |
| `AgentCycle.CallsAttained` | backend/internal/api/runner.go:467-723 | that bound is reached by every text the calls can carry, for any tools that start subagents, so none smaller holds |
| `AgentCycle.SecondHop` | backend/internal/api/runner.go:675-708 | the subagent's shell call carries the block unchanged |
| `AgentCycle.BlockNotBlank` | backend/internal/api/runner.go:675-682 | a subagent echoes the payload of its prompt, or the whole prompt when the payload is blank: something blank only when the prompt is |
| `AgentCycle.BothHops` | backend/internal/api/runner.go:675-708 | from the user's text through the subagent's prompt to its shell command, the payload arrives with newlines as spaces |
| `SessionControl.Session.Pause` | backend/internal/sessions/session.go:563-569 | writes the paused flag and the state, nothing else |
| `SessionControl.Session.Resume` | backend/internal/sessions/session.go:572-578 | clears the flag and sets ECHOING |
| `SessionControl.Session.TakeOver` | backend/internal/sessions/session.go:549-553 | writes mode and state and leaves the paused flag as it was |
| `SessionControl.Session.ReturnToEcho` | backend/internal/sessions/session.go:556-560 | writes mode and state and leaves the paused flag as it was |
| `SessionControl.Session.SetRate` | backend/internal/sessions/session.go:580-591 | an empty mode keeps both recorded modes |
| `SessionControl.Session.SetInterval` | backend/internal/sessions/session.go:593-601 | negative intervals become 0 |
| `SessionControl.Session.SetEchoMode` | backend/internal/sessions/session.go:615-619 | replaces the echo mode only |
| `SessionControl.Session.SetPendingFault` | backend/internal/sessions/session.go:662-680 | arms the fault and touches no register |
| `SessionControl.Session.InjectFault` | backend/internal/sessions/session.go:622-652 | arms the fault and sets the error state |
| `SessionControl.Session.Send` | backend/internal/sessions/session.go:517-536 | enqueues, dropping only the oldest of 64; fails exactly when the session is closed and the select saw it, or the queue was full too |
| `SessionControl.Session.Close` | backend/internal/sessions/session.go:702-723 | only the first close writes state, flag and reason |
| `SessionControl.Session.Apply` | backend/internal/api/runner.go:1103-1141 | replaying a command that does not end the session performs exactly its listed writes |
| `SessionControl.Session.HandleCommand` | backend/internal/api/runner.go:1100-1141 | returns true exactly for the commands that end the session, and those close it |
| `SessionControl.Session.ApplyDirect` | backend/internal/api/admin/sessions.go:217-256 | the direct half of a request: its listed writes, a fault after some chunks being only armed |
| `SessionControl.Session.SessionControl` | backend/internal/api/admin/sessions.go:217-285 | a request writes directly and then enqueues, except an injection, whose command its own goroutine sends later |
| `SessionControl.DirectsAlone` | backend/internal/api/admin/sessions.go:217-256 | the direct writes of a request that nobody interrupts, as steps, are those of the one call |
| `SessionControl.SendAlone` | backend/internal/sessions/session.go:517-536 | and so is its send: at once when there is room, else in three steps at the price of the oldest command |
| `SessionControl.QueueBounded` | backend/internal/sessions/session.go:517-536 | however senders and runner interleave, the queue never exceeds 64 |
| `SessionControl.DirectIsReplayed` | backend/internal/api/admin/sessions.go:217-256 | every register an administrator writes directly is written again by the replay |
| `SessionControl.StepAgrees` | backend/internal/api/admin/sessions.go:217-256 | each step of any administrator or of the runner keeps, for each register: its value is that of the commands in queue order, or a write to it is still to come |
| `SessionControl.RunAgrees` | backend/internal/api/admin/sessions.go:217-256 | hence so does every run |
| `SessionControl.ConvergesUnlessLost` | backend/internal/api/runner.go:1100-1141 | at rest a register holds the fold of the commands in enqueue order, unless the last command on it was dropped from a full queue |
| `SessionControl.Converges` | backend/internal/api/runner.go:1100-1141 | at rest with nothing dropped all registers do: state, mode, paused flag, interval, echo mode and rate |
| `EchoLoop.RunTidy` | backend/internal/api/runner.go:850-1042 | in every state of a run from the start, writes are in hand only while a command is replayed or the runner starts up: the standing assumption of the results below |
| `EchoLoop.CommandMeans` | backend/internal/api/runner.go:1100-1141 | a replayed command changes what the loop reads as its name says: state and pause flag, interval (never negative) or echo mode, and nothing else |
| `EchoLoop.CommandPriority` | backend/internal/api/runner.go:871-887 | while a command waits, at most one unit is written, and none when the runner had not yet passed its poll |
| `EchoLoop.EndingStays` | backend/internal/api/runner.go:1116-1131 | after a command that ends the session nothing more is echoed |
| `EchoLoop.TerminalStops` | backend/internal/api/runner.go:871-930 | at most one unit follows an enqueued finish, drop or inject that is not displaced |
| `EchoLoop.PauseHolds` | backend/internal/api/runner.go:890-905 | at most one unit follows an enqueued pause until a resume is issued or the session is closed, whatever else is sent |
| `EchoTakeover.TakeoverMissed` | backend/internal/api/runner.go:891-905 | a takeover taken in the paused block is followed by another echo |
| `EchoTakeover.TakeOverExactly` | backend/internal/api/runner.go:871-905 | until a resume or return (or a finish, an injection, a foreign close) a takeover in hand stops the echo in every continuation, pauses included, if and only if the limiter is paused, or it was not taken in the paused block and no request in progress is about to write another state |
| `EchoTakeover.FinishRestarts` | backend/internal/sessions/session.go:693-699 | a finish request that comes in time restarts the echo after any takeover of a session whose limiter runs |
| `EchoTakeover.OnlyThePauseHolds` | backend/internal/api/runner.go:871-905 | so if finishing and injecting do not count as giving the session back, a takeover stops the echo if and only if the limiter is paused |
| `EchoTakeover.InjectionRestarts` | backend/internal/sessions/session.go:627-650 | in the manual phase an injection with a delay and any later command restart the echo, without a race |
| `EchoTakeover.FinishInARun` | backend/internal/sessions/session.go:693-699 | a whole session from its start in which the finish does it |
| `EchoTakeover.InjectionInARun` | backend/internal/sessions/session.go:627-650 | a whole session from its start in which the injection does it |
| `EchoTakeover.TakeOverHolds` | backend/internal/api/runner.go:1045-1065 | at most one unit follows an enqueued takeover until such a request is issued, when it is taken where `TakeOverExactly` says that it stops the echo |
| `EchoTakeover.MissedInARun` | backend/internal/api/runner.go:891-905 | a whole session from its start in which it happens: a resource pause after the first unit, a takeover, and one echo more |
| `EchoTakeover.TakenIntoLimiter` | backend/internal/api/runner.go:891-905 | with the limiter paused and nothing behind it in the queue, a takeover taken in the paused block leaves the runner in the limiter's wait, and until a resume or a close nothing is sent, manual messages included |
| `EchoLimits.EchoTrace` | backend/internal/api/runner.go:907-930 | with the mode left alone, what was written is exactly the stream of n units of the text |
| `EchoLimits.TracedRun` | backend/internal/api/runner.go:907-930 | after n iterations the written units are those of places 0 to n-1, each under the echo mode read at its own pause check |
| `EchoLimits.SessionTrace` | backend/internal/api/runner.go:850-930 | the same from the start of any session; with the mode left alone the client has the stream of its text |
| `EchoLimits.FaultFiresExactly` | backend/internal/api/runner.go:951-959 | a fault armed for k chunks fires, if it does, after exactly k echoes (or at once when they are past), across pauses and manual phases, and is then due unless the length stop comes first |
| `EchoLimits.StopsForAReason` | backend/internal/api/runner.go:932-982 | in every run a session stops for its length only with a limit, without tools and with that much sent, for a fault only when one is armed, for the resource limit only when it is reached and its action says so, a MAX session for neither of these two; and it is closed then |
| `EchoLimits.CheckOrder` | backend/internal/api/runner.go:932-982 | the checks after a unit bite in the order length, fault, resource limit; the first that does closes the session (or pauses it, by the action), and otherwise the pacing follows |
| `EchoLimits.NeverForLength` | backend/internal/api/runner.go:932-940 | so with tools declared a session never stops for its length |
| `EchoLimits.EndedIsOverwritten` | backend/internal/sessions/session.go:469-473 | an administrator who still holds an ended session can put it back to PAUSED |
| `EchoLimits.EndedStays` | backend/internal/sessions/session.go:702-723 | in particular, with no request in progress and none arriving nothing of an ended session changes any more |
| `EchoBudget.AllowanceRun` | backend/internal/api/runner.go:961-982 | with the pause action, iterations are bounded by what is left of the limit plus the wake-ups |
| `EchoBudget.WakesBounded` | backend/internal/sessions/session.go:549-578 | wake-ups are at most two a control request, plus those still owed and session closes |
| `EchoBudget.PauseBudget` | backend/internal/api/runner.go:961-982 | so a session never echoes more than the limit plus twice the control requests (and closes by others) |
| `EchoBudget.HardLimit` | backend/internal/api/runner.go:961-982 | with the disconnect or error action never more than the limit |
| `EchoBudget.SessionLimit` | backend/internal/api/runner.go:961-976 | from the start: the echo count never passes the limit |
| `EchoBudget.TokenLimitedRun` | backend/internal/api/runner.go:932-940 | a tool-less request with a token limit stops within as many units, and a length stop overshoots by less than the last delta |
| `EchoBudget.SessionLength` | backend/internal/api/runner.go:932-940 | from the start: at most the limit's number of units, and a length stop has sent at least the limit and less than its last delta more |
| `EchoBudget.EndedExactly` | backend/internal/sessions/session.go:469-473 | an ended session keeps its final state in every continuation without new requests if and only if no request in progress still has a direct write of the state before it |
| `EchoBudget.LeftPausedRun` | backend/internal/api/runner.go:974-980 | a session that the resource limit has paused, with no request or command left, never writes again nor reaches its length, unless a request comes or somebody else closes it |
| `EchoBudget.RegisterConverges` | backend/internal/api/runner.go:1100-1141 | for a session with its echo loop, from the start: at rest each register holds the fold of the commands, unless its last command was lost, and for the state, unless the resource limit was reached |
| `EchoBudget.RunnerConverges` | backend/internal/api/runner.go:1100-1141 | with nothing lost and the limit not reached, all registers do, under every configuration |
| `EchoScript.ManualTurn` | backend/internal/api/runner.go:1045-1065 | a turn of the manual phase does what its select picks: the command at the head moves from the queue to the log, the runner leaves and closes the session, a message adds its tokens, or it goes on waiting |
| `EchoScript.SelectTurn` | backend/internal/api/runner.go:890-905 | the same for the select of the paused block and of the pacing with a timer |
| `EchoScript.PollTurn` | backend/internal/api/runner.go:871-887 | and for the places that only look for a command: they take one if there is one |
| `EchoScript.UnitTurn` | backend/internal/api/runner.go:907-930 | the wait and the write of a unit succeed or end the session; a paused limiter lets nothing through; a unit counts as output even when its write fails |
| `EchoScript.CommandEnds` | backend/internal/api/runner.go:1100-1141 | a command in hand is over after one turn for each of its writes, whatever others do meanwhile: a terminal one has ended the session, one from the paused block leads to the top |
| `EchoScript.TerminalTaken` | backend/internal/api/runner.go:1054-1057 | so a terminal command picked in the manual phase ends the session with that command as the reason |
| `EchoScript.QuietCommand` | backend/internal/api/runner.go:1054-1060 | any other, left alone, makes its writes, is in the log, and the state it leaves decides whether the loop goes on |
| `EchoScript.GivenBack` | backend/internal/api/runner.go:1054-1060 | so a session given back polls at the top of its loop in the state ECHOING three turns later |
| `EchoRunner.Runner.HandleCommand` | backend/internal/api/runner.go:1100-1141 | replaying a command setter by setter owes nothing in the end, and ends the session exactly for the commands that do |
| `EchoRunner.Runner.RunManualPhase` | backend/internal/api/runner.go:1045-1065 | every turn of the script that the manual loop uses is answered as that turn says, so it plays the session of `EchoScript.Play`; it returns to the echo only when a command has led out of the manual state, and otherwise when the session ends |
| `EchoRunner.Runner.WaitPaused` | backend/internal/api/runner.go:891-905 | the same for the select of a paused session |
| `EchoRunner.Runner.Select` | backend/internal/api/runner.go:987-1041 | and of the pacing with a timer |
| `EchoRunner.Runner.Peek` | backend/internal/api/runner.go:1006-1020 | and of the pacing without one |
| `EchoRunner.Runner.EchoTurn` | backend/internal/api/runner.go:871-1041 | one pass of the echo loop with its polls, selects and early returns is a run of the machine; left alone it writes one unit and comes out as the checks say |
| `EchoRunner.Runner.MaxTurn` | backend/internal/api/runner.go:756-846 | the same for the MAX loop, whose pacing listens to nobody without an interval |
| `EchoRunner.Runner.RunEcho` | backend/internal/api/runner.go:850-1042 | whatever the other goroutines do and however the selects fall, the whole session is a run of the machine and the one session that the script determines, every turn answered as it says up to the end of the script or of the session; and its units are those of their places under the modes read for them |
| `EchoRunner.Runner.RunToLength` | backend/internal/api/runner.go:932-982 | left alone with a token limit the loop stops for its length if and only if no resource limit is in force or the units up to it cost what is missing, overshooting by less than its last unit; otherwise it is ended or left paused at the resource limit |
| `EchoRunner.UnreachedLength` | backend/internal/api/runner.go:932-982 | a concrete request that is paused before its length |
| `RateLimit.BucketObject.constructor` | backend/internal/ratelimit/ratelimit.go:371-377 | a new bucket starts full at its capacity |
| `RateLimit.BucketObject.Configure` | backend/internal/ratelimit/ratelimit.go:379-392 | the level is cut to the new capacity (to nothing when that is 0) and otherwise kept, and the clock does not move |
| `RateLimit.BucketObject.Take` | backend/internal/ratelimit/ratelimit.go:396-417 | refill, cap, then grant with 0 and leave exactly the level without the tokens taken, or refuse with the wait for what is missing and leave nothing; an unlimited bucket is left as it was |
| `RateLimit.CreditIsProduct` | backend/internal/ratelimit/ratelimit.go:401-405 | the credit used in the bounds is rate times elapsed time |
| `RateLimit.TakeLeaves` | backend/internal/ratelimit/ratelimit.go:396-417 | a covered take leaves the lesser of a positive capacity and of level plus rate times elapsed time, less its tokens; an uncovered one leaves nothing |
| `RateLimit.WaitNsIs` | backend/internal/ratelimit/ratelimit.go:413-416 | the wait returned is the last nanosecond at which the credit does not exceed the deficit |
| `RateLimit.TakeAccount` | backend/internal/ratelimit/ratelimit.go:396-417 | one take: what is granted plus what is left is at most what was there plus the credit, with the truncation's slip |
| `RateLimit.ConfiguredBound` | backend/internal/ratelimit/ratelimit.go:379-417 | over any run with reconfigurations, the total granted while limited is at most the initial level plus the highest rate times elapsed time, and the level never exceeds a positive capacity |
| `RateLimit.WindowBound` | backend/internal/ratelimit/ratelimit.go:396-417 | in every window a bucket of fixed rate grants at most its capacity plus rate times the window, plus the slips |
| `RateLimit.CoveredExactly` | backend/internal/ratelimit/ratelimit.go:396-417 | any number of takes are all covered, and then all granted at once, if and only if up to each of them they stay within the first level and what has been earned, and between any two within a full bucket and what is earned in between |
| `RateLimit.LevelIsEnough` | backend/internal/ratelimit/ratelimit.go:396-417 | so takes that together want no more than the level are all granted |
| `RateLimit.LevelLeft` | backend/internal/ratelimit/ratelimit.go:396-417 | and the level left is exactly what was not taken of the first level and the credit, or of a bucket full at one of the takes when that is less |
| `RateLimit.RetryLaw` | backend/internal/ratelimit/ratelimit.go:396-417 | after a refusal the next take is granted if and only if it fits the capacity and the credit since then covers it to within a nanosecond |
| `RateLimit.TooLargeRefused` | backend/internal/ratelimit/ratelimit.go:396-417 | a request above a positive capacity is refused at every time |
| `RateLimit.AloneExactly` | backend/internal/ratelimit/ratelimit.go:145-169 | alone and woken exactly, a refused request is ever granted if and only if its first wait was the full one, which holds for an empty bucket and fails once a nanosecond's worth was there |
| `RateLimit.SharedExactly` | backend/internal/ratelimit/ratelimit.go:173-193 | with two or more peers at every retry, if and only if the full wait is at most 200 microseconds |
| `RateLimit.SharedWaitIs` | backend/internal/ratelimit/ratelimit.go:173-193 | the wait is divided among the peers, at most sixteen, to the nanosecond, and never cut below 200 microseconds |
| `RateLimit.KeepingIsGranted` | backend/internal/ratelimit/ratelimit.go:413-416 | a bucket that keeps its level on refusal grants on the first retry |
| `Limiter.WaitLoop` | backend/internal/ratelimit/ratelimit.go:145-169 | the retry loop stops at the first grant, an unlimited bucket, or the client leaving |
| `Limiter.Wait` | backend/internal/ratelimit/ratelimit.go:131-143 | session bucket first, global bucket only after it; zero tokens touch neither |
| `Limiter.WaitTakesOnce` | backend/internal/ratelimit/ratelimit.go:145-169 | however often it retries, a wait that succeeds is granted exactly its tokens and one that fails none |
| `Limiter.PausedWaits` | backend/internal/ratelimit/ratelimit.go:145-158 | while its session is paused a wait takes nothing, however full the bucket |
| `Limiter.PausedStill` | backend/internal/ratelimit/ratelimit.go:145-158 | in every run of any number of sessions a paused one passes nothing through its own bucket |
| `Limiter.TwoLevelBound` | backend/internal/ratelimit/ratelimit.go:131-194 | in every run of any number of sessions each session's output stays within its burst and rate from its start, and the sum within what the global rate has earned, its bucket starting empty |
| `Limiter.TrimOld` | backend/internal/ratelimit/ratelimit.go:226-233 | the loop that drops old samples leaves exactly those inside the window |
| `Limiter.SumLoop` | backend/internal/ratelimit/ratelimit.go:234-237 | the loop adds up the samples |
| `Limiter.DropIsWithin` | backend/internal/ratelimit/ratelimit.go:226-233 | dropping the leading old samples of an ordered list is filtering it |
| `Limiter.WithinTwice` | backend/internal/ratelimit/ratelimit.go:226-233 | trimming again later gives what one trim of the full history gives |
| `Limiter.RateMeter.CalcRate` | backend/internal/ratelimit/ratelimit.go:220-245 | the kept samples are those of the whole history in the last two seconds, and the rate is their sum over their span, at least 0.2 seconds |
| `Limiter.RateMeter.Account` | backend/internal/ratelimit/ratelimit.go:197-218 | adds to the total and to the history, and nothing for zero tokens |
| `Admission.Manager.constructor` | backend/internal/sessions/session.go:143-153 | starts with no session and no counts |
| `Admission.Manager.Admit` | backend/internal/sessions/session.go:173-206 | checks the global, address and key limits in this order and counts only when all allow |
| `Admission.Manager.Register` | backend/internal/sessions/session.go:208-221 | makes the session live without touching the counters |
| `Admission.Manager.Unregister` | backend/internal/sessions/session.go:223-236 | takes the session and its two counts back, and nothing for an unknown id |
| `Admission.UnregisterConserved` | backend/internal/sessions/session.go:223-236 | conservation is kept, and the counter is positive whenever a live session is taken back, so its guard never bites |
| `Admission.ConservedRun` | backend/internal/sessions/session.go:173-236 | in every interleaving, each name's counter equals its live sessions plus admitted requests plus abandoned ones |
| `Admission.AdmittedExactly` | backend/internal/sessions/session.go:173-206 | in every run a request is admitted if and only if the live sessions are below the global limit, and the live, in-flight and abandoned requests of its address and of its key below theirs (a limit of 0 and an empty name having none, a key's own maximum replacing the general one); else the first full one in the order global, address, key is answered, and nothing changes |
| `Admission.OneAtATime` | backend/internal/sessions/session.go:173-206 | a limit of one session an address: its first request is admitted, a second refused, and admitted when the first is over |
| `Admission.UnregisterTwice` | backend/internal/sessions/session.go:223-236 | a second unregister changes nothing |
| `Admission.BalancedExactly` | backend/internal/api/chat.go:105-135 | with no session and no request left, a counter is zero if and only if no abandoned request carried that name |
| `Admission.NameLimit` | backend/internal/sessions/session.go:182-203 | live sessions, requests and abandoned ones of an address, or of a key whatever limits its requests bring, together never exceed the limit (the highest one brought) |
| `Admission.AddressLimit` | backend/internal/sessions/session.go:182-187 | so an address keeps its limit in every run, whatever keys it uses |
| `Admission.GlobalLimit` | backend/internal/sessions/session.go:176-181 | with at most K requests in flight at any time, live sessions and requests together exceed the global limit by at most K-1 |
| `Admission.BurstAdmitted` | backend/internal/sessions/session.go:173-206 | any number of simultaneous requests is admitted below the global limit, so no bound without K holds |
| `Admission.LockedOut` | backend/internal/api/chat.go:112-119 | once the limit's number of requests from an address was abandoned, it is never admitted again |
| `StreamWriter.Writer.constructor` | backend/internal/engine/stream/stream.go:54-68 | an open stream with nothing sent |
| `StreamWriter.Writer.CaptureFrame` | backend/internal/engine/stream/stream.go:122-134 | the ring is the last 200 of all frames, numbered without a gap |
| `StreamWriter.Writer.Emit` | backend/internal/engine/stream/stream.go:102-120 | refuses once closed, closes on a failing write, captures only whole frames, and counts every byte sent |
| `StreamWriter.Writer.Finish` | backend/internal/engine/stream/stream.go:201-212 | always leaves the stream closed; the done frame goes out only after the final chunk did |
| `StreamWriter.Writer.Fail` | backend/internal/engine/stream/stream.go:215-248 | always leaves the stream closed, with the event, the broken chunk or nothing sent as the mode says, and a done frame only in the in-band error mode |
| `StreamWriter.Writer.Disconnect` | backend/internal/engine/stream/stream.go:251-252 | closes without sending |
| `StreamWriter.WireIsFrames` | backend/internal/engine/stream/stream.go:102-120 | for the offers of one goroutine the bytes sent are the captured frames in order, and at most one torn frame after which the stream is closed |
| `StreamWriter.FramesAreTheOffersBeforeFailure` | backend/internal/engine/stream/stream.go:102-120 | for the offers of one goroutine the frames sent are exactly those before the first failing write, and the stream is closed exactly when there is one |
| `KeepAlive.StepKeeps` | backend/internal/engine/stream/stream.go:102-120 | each step of either goroutine keeps the stream's invariant |
| `KeepAlive.OperationAlone` | backend/internal/engine/stream/stream.go:201-252 | alone on an open stream and with no failing write each operation sends exactly its frames, and closes the stream exactly when it is one of the six that end it |
| `KeepAlive.EndsClosed` | backend/internal/engine/stream/stream.go:201-252 | and in every interleaving those six leave the stream closed once they are over, however their writes fall |
| `KeepAlive.KeeperLeaves` | backend/internal/api/chat.go:325-341 | the keep-alive of a closed stream is gone after one more tick |
| `KeepAlive.StreamShape` | backend/internal/api/chat.go:296-345 | in every interleaving the done frame is written at most once and only comments follow it, whatever the runner does afterwards; the first content chunk and no other carries the role |
| `KeepAlive.OneFrameAfterClosed` | backend/internal/engine/stream/stream.go:102-120 | after the closed flag is stored at most one more frame reaches the client, a comment when the runner stored it |
| `KeepAlive.RingOfRun` | backend/internal/engine/stream/stream.go:122-134 | in every interleaving the ring holds the last 200 whole frames in the order of the wire, numbered without a gap |
| `KeepAlive.TornOfRun` | backend/internal/engine/stream/stream.go:102-120 | in every interleaving a torn frame closes the stream, and at most one more frame, already past its check, comes after it |
| `KeepAlive.CommentsAfterDone` | backend/internal/api/chat.go:325-341 | at most one comment follows the done frame, and one more for each check the keep-alive passes before the flag is stored |
| `KeepAlive.CommentsExactly` | backend/internal/api/chat.go:325-341 | with the done frame out, no continuation adds a comment beyond the one in flight if and only if the closed flag is stored or the keep-alive goroutine is gone |
| `KeepAlive.AnyNumberOfComments` | backend/internal/engine/stream/stream.go:201-212 | for every number there is a run without any error in which that many comments follow the done frame |

## Left out

- HTTP handlers, routing, CORS, the embedded interface and its web socket: plumbing around the modelled parts.
- The SQLite store, asset files, logging, the event bus, audit and presets: no part of these properties.
- Request parsing and the marshalling of chunks: they belong to `encoding/json`; a frame is a string here.
- Authentication, keys and the administrator's login.
- Unicode tables: `IsSpace`, `IsDigit`, `IsLetter` and case folding are abstract predicates with the facts about ASCII the proofs need; `isCJK` is concrete.
- `Normalize`'s trimming and lower-casing of a mode name: only the comparison after them is modelled.
- Rounding of 64-bit floats and overflow of durations: levels are exact reals and times are unbounded integers.
- Changing the configured limits while a run goes on: `MaxEventsPerSession`, its action and the admission limits are fixed for a run.
- The static, hanging, dropping and manual-only behaviours of a model: each is a few straight lines.
- The finite branch of `runEcho`: its only caller passes `finite=false` (backend/internal/api/runner.go:430).
- The text of a manual delivery: a delivery adds its tokens to the output and writes no echo unit.
- The pacing clock of agent cycles across requests, the waits and the command polling of `runAgentEcho`; `AgentCycle` models what a cycle answers.
- EchoText.CycleWithinBudget: bounds the bare blocks only, because the promise for the whole cycle does not hold; the whole cycle is in AgentBudget.
- AgentBudget.WholeCycle: for texts that mix ASCII digits with other ones only the total of `CycleExactly` is given, because counting them is not additive.
- The output tokens of a subagent's own two calls.
- An injection without a fault: the administrator's endpoint never enqueues one. The delay of an injection: its goroutine sends at any later step, or never.
- A writer that cannot be created after its session was made (backend/internal/api/chat.go:287-292): the session stays live in the counts, so the conservation law covers it as live.
- Hijacking the connection on a disconnect, and the abort it falls back to: the stream is closed and nothing more is sent.
- The capture's wall-clock stamps and the trimming of frames other than trailing newlines.
- The Responses protocol's own frames: the writer is modelled with and without a done frame, with one final frame.
- The interval inside `Session.Close` between closing the done channel and clearing the pause flag: another goroutine's close is one step of `EchoLoop`; that a send may give up once the session is closed is modelled (`Abandon`).
- Goroutines as such: each modelled component is a machine over its lock sections, not running code; the classes model one goroutine's view.
