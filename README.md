# Perl debug adapter: command pipeline and session bookkeeping

This project models the core of the Perl debug adapter of the Perl language
server's VS Code client:

- `PerlRuntime` drives a `perl5db` debugger REPL over a raw socket. The
  debugger has no request framing, so the runtime keeps one command in flight.
  Later commands wait in a chain. A data handler splits at most one
  prompt-delimited response off the receive buffer per data event and resolves
  the running command with it.
- On top of that queue, `PerlRuntime` keeps two breakpoint registries (line
  and function breakpoints). Each registry is updated from substring tests on
  the debugger's textual replies. The runtime also builds the debugger command
  texts, parses the `T` stack-trace output and decides which commands
  `evaluateVariable` runs.
- `PerlDebugSession` maps debug adapter requests onto the runtime:
  - it counts live debugger connections and sends Exited and Terminated when
    sockets close;
  - the first connection gets the runtime, later ones a proxied child session;
  - it assembles the `setBreakpoints` and `setFunctionBreakpoints` responses;
  - it maps flow-control requests to stop reasons and handles stop-on-entry;
  - it builds the command lines and environment that launch the debuggee.

Modules:

- `Text` (text.dfy): the JavaScript string operations the code relies on:
  `includes`, `startsWith`, `endsWith`, `trim`, `split` and `join`, and decimal
  formatting and parsing.
- `Framing` (framing.dfy): the response regular expression, stated as a prompt
  grammar plus a leftmost, shortest-capture search.
- `RuntimeQueue` (command_queue.dfy): the command chain and data handler. The
  runtime's state is a value (`Queue`) with two transitions (`Submit`,
  `Receive`) and an invariant (`Wellformed`). The class `CommandQueue`'s
  methods are proved to perform those transitions. The socket is the log
  `written`; the emitted responses are the log `resolved`.
- `Runtime` (runtime.dfy): the debugger operations. The replies the debuggee
  sends are parameters, in the order the operation awaits them. The commands an
  operation runs are appended to the log `issued`.
- `Session` (session.dfy): the session class, its event log and the launch
  builders.

## Model

| member | source | states |
|---|---|---|
| Text.FindFrom | client/src/perlRuntime.ts:114-127 | The index found is the first one at or after the start where the pattern occurs; no index is found only when the pattern occurs nowhere there. |
| Text.FindFromFirst | client/src/perlRuntime.ts:114-127 | An occurrence with none before it is the one the search finds. |
| Text.ContainsIff | client/src/perlRuntime.ts:114-127 | The substring test (`/Can't locate/.test`, `/not breakable/.test`) holds exactly when the pattern occurs at some index. |
| Text.TrimStart | client/src/perlRuntime.ts:67-77 | The result is a suffix of the input; everything dropped is white space; the result does not start with white space. |
| Text.TrimEnd | client/src/perlRuntime.ts:67-77 | The result is a prefix of the input; everything dropped is white space; the result does not end with white space. |
| Text.Trim | client/src/perlRuntime.ts:67-77 | The trimmed reply neither starts nor ends with white space, and it is empty exactly when the reply is all white space. |
| Text.TrimAround | client/src/perlRuntime.ts:67-77 | Trimming a text surrounded by white space gives exactly that text, when it neither starts nor ends with white space. |
| Text.JoinOccurs | client/src/perlDebugSession.ts:193 | Every piece of a join occurs in the joined text. |
| Text.TrimIdempotent | client/src/perlRuntime.ts:67-77 | Trimming twice is trimming once. |
| Text.SplitSeveralIff | client/src/perlRuntime.ts:142-144 | A sub name splits into more than one segment exactly when it contains `::`. |
| Text.SplitPiecesAvoidSeparator | client/src/perlRuntime.ts:142-145 | No segment of a split contains the separator. |
| Text.JoinSplit | client/src/perlRuntime.ts:142-145 | Joining the segments of a split with the same separator gives the name back. |
| Text.JoinSnoc | client/src/perlRuntime.ts:145 | Joining one more segment puts one separator before it. |
| Text.NatToString | client/src/perlRuntime.ts:119 | The decimal text of a line number is non-empty, all digits and without a leading zero. |
| Text.NatToStringRoundTrip | client/src/perlRuntime.ts:66-69 | Reading a formatted number back gives the number. |
| Text.IntToString | client/src/perlRuntime.ts:119 | The decimal text of an integer starts with `-` exactly when the integer is negative. |
| Framing.FirstBoundary | client/src/perlRuntime.ts:34-35 | The position found is where the response-ending lookahead first holds; no position is found only when it holds nowhere. |
| Framing.FindMatch | client/src/perlRuntime.ts:34-35 | A match found has an opening prompt at its start, and its capture runs from that prompt's end to the first boundary after it. |
| Framing.FindMatchLeftmost | client/src/perlRuntime.ts:34-40 | The match found is the leftmost one; when none is found, the pattern matches nowhere. |
| Framing.Frame | client/src/perlRuntime.ts:40-44 | The captured text and the remaining buffer together are shorter than the buffer, so each match consumes input. |
| Framing.FrameSomeIff | client/src/perlRuntime.ts:40-42 | A response is framed exactly when the pattern matches somewhere in the buffer. |
| Framing.FrameSplitsBuffer | client/src/perlRuntime.ts:43-44 | The remaining buffer is a suffix of the old one, and the captured text ends the removed prefix. |
| Framing.FrameStopsAtFirstPrompt | client/src/perlRuntime.ts:34-44 | The remaining buffer begins with the prompt that closed the response, and no prompt begins inside the captured text. |
| RuntimeQueue.CommandsOf | client/src/perlRuntime.ts:43 | The commands of the resolutions, one per resolution, in order. |
| RuntimeQueue.Texts | client/src/perlRuntime.ts:48 | The socket texts of the commands, one per command, in order. |
| RuntimeQueue.CommandLine | client/src/perlRuntime.ts:251-256 | The text queued by `runCommand` is the command followed by exactly one newline. |
| RuntimeQueue.FreshWellformed | client/src/perlRuntime.ts:26-33 | A new runtime satisfies the queue invariant. |
| RuntimeQueue.SubmitPreserves | client/src/perlRuntime.ts:229-249 | `addCommand` keeps the invariant, appends the command with the next id to the submission order and resolves nothing. |
| RuntimeQueue.ConsumePreserves | client/src/perlRuntime.ts:42-52 | Handling one matched response keeps the invariant and the submission order. |
| RuntimeQueue.ReceivePreserves | client/src/perlRuntime.ts:37-53 | The data handler keeps the invariant and the submission order. |
| RuntimeQueue.AtMostOneInFlight | client/src/perlRuntime.ts:37-53 | Every written command is answered except the running one, so at most one is in flight, and none is while the queue is idle. |
| RuntimeQueue.SubmissionOrder | client/src/perlRuntime.ts:229-249 | The socket receives a prefix of the submitted commands, in submission order, and the k-th response resolves the k-th submitted command. |
| RuntimeQueue.ReceiveResolvesRunning | client/src/perlRuntime.ts:40-52 | A data event resolves at most one command. It resolves one exactly when a command runs and a response is framed, and that command is the running one, with the captured text. Earlier resolutions stay. |
| RuntimeQueue.WritesFollowResponses | client/src/perlRuntime.ts:235-248 | A data event writes only after it matched a response; `addCommand` writes exactly when nothing runs. |
| RuntimeQueue.ReceiveKeepsTail | client/src/perlRuntime.ts:38-44 | The new buffer is a suffix of the old buffer plus the chunk. It is all of it when nothing matched, and otherwise shorter and starting with a prompt. |
| RuntimeQueue.ApplyPreserves | client/src/perlRuntime.ts:37-53 | Any event, a submission or a data chunk, keeps the invariant. |
| RuntimeQueue.ApplySubmits | client/src/perlRuntime.ts:229-249 | Only an added command joins the submission order, at its end. |
| RuntimeQueue.RunWellformed | client/src/perlRuntime.ts:37-53 | The invariant holds after any sequence of events. |
| RuntimeQueue.RunSubmits | client/src/perlRuntime.ts:229-249 | The submission order is the order in which commands were added. |
| RuntimeQueue.SocketOrder | client/src/perlRuntime.ts:229-249 | From a new runtime, what the socket receives is a prefix of the added commands, in the order they were added. |
| RuntimeQueue.CommandQueue.constructor | client/src/perlRuntime.ts:26-33 | A new runtime is in the fresh state and valid. |
| RuntimeQueue.CommandQueue.AddCommand | client/src/perlRuntime.ts:229-249 | The object performs the `Submit` transition and keeps its invariant; the returned id is the new command's. |
| RuntimeQueue.CommandQueue.RunCommand | client/src/perlRuntime.ts:251-256 | Submits the command with a trailing newline and returns the id its response will carry. |
| RuntimeQueue.CommandQueue.OnData | client/src/perlRuntime.ts:37-53 | The object performs the `Receive` transition and keeps its invariant. |
| RuntimeQueue.CommandQueue.Resolve | client/src/perlRuntime.ts:42-52 | The object performs the `Consume` transition for one matched response. |
| Runtime.ClearCommands | client/src/perlRuntime.ts:196-200 | `clearBreakpoint` runs three commands. |
| Runtime.ClearAllCommandsLength | client/src/perlRuntime.ts:180-194 | Clearing a registry runs three commands per breakpoint. |
| Runtime.ClearAllCommandsAt | client/src/perlRuntime.ts:180-194 | The k-th breakpoint's `f`, `B`, `.` commands sit at positions 3k to 3k+2. |
| Runtime.ClearAllCommandsShape | client/src/perlRuntime.ts:180-194 | Clearing a registry runs `f <path>`, `B <line>`, `.` for every breakpoint, in registry order, and nothing else. |
| Runtime.ClearAllCommandsSnoc | client/src/perlRuntime.ts:181-183 | Clearing one more breakpoint appends its three commands. |
| Runtime.DigitsAt | client/src/perlRuntime.ts:210 | The digit run found is all digits and ends at a non-digit or at the end of the line. |
| Runtime.LineSpecRoundTrip | client/src/perlRuntime.ts:119-123 | The `<line>[ <condition>]` part of a break command reads back as that line and condition. |
| Runtime.BreakLineRoundTrip | client/src/perlRuntime.ts:119-123 | For a file without a colon, `b <path>:<line>[ <condition>]` reads back as its path, line and condition. |
| Runtime.LineBreakpointCommands | client/src/perlRuntime.ts:106-125 | `require '<path>'` comes first exactly for a `.pm` file. The `b` command is issued exactly unless that `require` reply says `Can't locate`. |
| Runtime.NameParts | client/src/perlRuntime.ts:142 | A sub name has at least one segment. |
| Runtime.PackageOfQualified | client/src/perlRuntime.ts:142-146 | A qualified name is its package, `::` and a last segment without `::`. |
| Runtime.QualifiedIff | client/src/perlRuntime.ts:142-144 | A package is required exactly when the name contains `::`. |
| Runtime.FunctionBreakpointOutcome | client/src/perlRuntime.ts:138-178 | A function breakpoint is registered exactly when neither the package `require` (for a qualified name) says `Can't locate` nor the `b` reply says `not found`. It carries the requested name and the reported file and line. |
| Runtime.StripQuotesQuoted | client/src/perlRuntime.ts:259 | A quoted expression loses exactly its two quotes. |
| Runtime.StripQuotesUnquoted | client/src/perlRuntime.ts:259 | An expression with no quote at either end is left alone. |
| Runtime.Normalize | client/src/perlRuntime.ts:259-271 | The expression evaluated has a sigil. It is the unquoted variable when that has one of `$ @ % & * \`, and `%` plus the unquoted variable otherwise. |
| Runtime.ShowCommandShape | client/src/perlRuntime.ts:273-292 | The command that shows the value ends with the expression. It prints with `p` exactly a scalar whose trimmed `ref` reply is empty. It dumps with `x` otherwise, and through `x \` exactly for an array, hash, code, glob or reference. |
| Runtime.EvaluationCommandsShape | client/src/perlRuntime.ts:258-293 | Exactly a scalar is probed first, with `p ref <expr>`; the last command shows the value. |
| Runtime.FileLineRoundTrip | client/src/perlRuntime.ts:210 | The `file 'f' line n` tail of a frame line reads back as its file and line. |
| Runtime.CallRoundTrip | client/src/perlRuntime.ts:210 | `<sub> called from file 'f' line n` reads back as its sub, file and line. |
| Runtime.FrameLineRoundTrip | client/src/perlRuntime.ts:206-211 | A frame line the debugger prints reads back as its sub, file and line, for a non-empty sub without spaces and a non-empty file on one line. |
| Runtime.ParsedLines | client/src/perlRuntime.ts:206-211 | One parse per output line, in order. |
| Runtime.FramesUpToSound | client/src/perlRuntime.ts:206-224 | Each frame comes from the line its id names, the ids increase, and every matching line yields a frame. |
| Runtime.StackTraceFrames | client/src/perlRuntime.ts:202-227 | The trace has one frame per output line that matches the frame pattern. Frames keep line order, each id is its line's index, and non-matching lines are skipped. |
| Runtime.ParseStackTrace | client/src/perlRuntime.ts:202-227 | The loop over the lines builds exactly the specified stack trace. |
| Runtime.PidOf | client/src/perlRuntime.ts:66-69 | A blank reply is pid 0. Otherwise the pid is the value of the trimmed reply's digits. |
| Runtime.PidRoundTrip | client/src/perlRuntime.ts:66-69 | A pid printed with white space around it reads back as itself. |
| Runtime.PerlRuntime.constructor | client/src/perlRuntime.ts:26-31 | Both registries start empty. |
| Runtime.PerlRuntime.RunCommand | client/src/perlRuntime.ts:251-256 | Runs one command and returns its reply; the registries are unchanged. |
| Runtime.PerlRuntime.SetStartupOptions | client/src/perlRuntime.ts:56-64 | Runs `o inhibit_exit=0` and the `HistFile` undef. |
| Runtime.PerlRuntime.GetPid | client/src/perlRuntime.ts:66-69 | Runs `p $$` and reads the trimmed reply as a number. |
| Runtime.PerlRuntime.GetName | client/src/perlRuntime.ts:71-73 | Runs `p $0` and returns the trimmed reply. |
| Runtime.PerlRuntime.GetHostname | client/src/perlRuntime.ts:75-77 | Runs ``p `hostname` `` and returns the trimmed reply. |
| Runtime.PerlRuntime.GetSource | client/src/perlRuntime.ts:79-84 | Runs `f <path>` and then the command that prints the file from line 1; returns that reply. |
| Runtime.PerlRuntime.Resume | client/src/perlRuntime.ts:90-104 | `c`, `n`, `s` or `r` is run; the registries are unchanged. |
| Runtime.PerlRuntime.SetBreakpoint | client/src/perlRuntime.ts:106-136 | Returns true exactly when the breakpoint is accepted, and then appends `{path, line}` to the line registry (otherwise nothing). The function registry is unchanged. Runs exactly the specified commands. |
| Runtime.PerlRuntime.SetFunctionBreakpoint | client/src/perlRuntime.ts:138-178 | Returns the outcome and appends exactly it to the function registry when there is one. The line registry is unchanged. Runs exactly the specified commands. |
| Runtime.PerlRuntime.ClearBreakpoint | client/src/perlRuntime.ts:196-200 | Runs `f <path>`, `B <line>`, `.`; the registries are unchanged. |
| Runtime.PerlRuntime.ClearAllBreakpoints | client/src/perlRuntime.ts:180-186 | Clears every line breakpoint in registry order and empties the line registry; the function registry is unchanged. |
| Runtime.PerlRuntime.ClearAllFunctionBreakpoints | client/src/perlRuntime.ts:188-194 | Clears every function breakpoint's location in registry order and empties the function registry; the line registry is unchanged. |
| Runtime.PerlRuntime.GetStackTrace | client/src/perlRuntime.ts:202-227 | Runs `T` and returns the stack trace of the reply. |
| Runtime.PerlRuntime.EvaluateVariable | client/src/perlRuntime.ts:258-293 | Runs exactly the evaluation commands of the variable and returns the last reply. |
| Runtime.Locations | client/src/perlRuntime.ts:189-190 | Each function breakpoint is cleared at its own path and line, in order. |
| Session.StartupEvents | client/src/perlDebugSession.ts:267-289 | Initialized comes last. The PadWalker warning is sent exactly when PadWalker is missing. |
| Session.AfterCloseParent | client/src/perlDebugSession.ts:235-302 | In a parent session each close lowers the count by one. Terminated is sent at that close exactly when the count reaches zero. The runtime's close sends Exited (1 on error, 0 otherwise) first. |
| Session.TerminatedOnceAtLastClose | client/src/perlDebugSession.ts:235-302 | When a parent session's n connections close in any order, the count falls by one per close. Terminated is sent exactly once, as the last event, at the last close. |
| Session.ChildRuntimeCloseTerminates | client/src/perlDebugSession.ts:293-302 | A child's runtime close leaves the count alone and sends Exited, then Terminated. |
| Session.FlowCommand | client/src/perlDebugSession.ts:367-417 | Each flow request runs one of `c`, `n`, `s`, `r`, and `c` exactly for continue. |
| Session.FlowReason | client/src/perlDebugSession.ts:367-417 | The stop reason is `breakpoint` exactly for continue and `step` for the three steps. |
| Session.AcceptedBreakpoints | client/src/perlDebugSession.ts:556-566 | At most one registered breakpoint per request, all at the requested path. |
| Session.Lines | client/src/perlDebugSession.ts:563 | The lines of the breakpoints, in order. |
| Session.LineEntries | client/src/perlDebugSession.ts:556-566 | One response entry per request, in request order, with its line and the runtime's verdict. |
| Session.AcceptedBreakpointsSnoc | client/src/perlDebugSession.ts:556-566 | One more request adds its breakpoint exactly when it is accepted. |
| Session.SetLineCommandsSnoc | client/src/perlDebugSession.ts:556-566 | One more request adds exactly its own commands. |
| Session.VerifiedLinesRegistered | client/src/perlDebugSession.ts:539-569 | The verified entries of the response are the breakpoints the runtime registered: the same lines, in the same order. |
| Session.RegisteredFunctions | client/src/perlDebugSession.ts:580-596 | At most one function breakpoint per request. |
| Session.FunctionEntries | client/src/perlDebugSession.ts:586-594 | One entry per registered function breakpoint, at its line and path. |
| Session.RegisteredFunctionsSnoc | client/src/perlDebugSession.ts:580-596 | One more request adds its breakpoint exactly when it has an outcome. |
| Session.SetFunctionCommandsSnoc | client/src/perlDebugSession.ts:580-584 | One more request adds exactly its own commands. |
| Session.FunctionEntriesSnoc | client/src/perlDebugSession.ts:586-594 | One more registered breakpoint adds its entry at the end. |
| Session.RegisteredFunctionsRequested | client/src/perlDebugSession.ts:571-599 | Every reported function breakpoint comes from a request, by name and reported location. |
| Session.Scopes | client/src/perlDebugSession.ts:529-536 | Two scopes with different variable references, neither expensive. |
| Session.BuildLocalCommand | client/src/perlDebugSession.ts:199-207 | Interpreter, `-d` or `-dt`, the interpreter's arguments, the program, then the program's arguments, each in its place. |
| Session.BuildLocalEnv | client/src/perlDebugSession.ts:209-215 | `PERLDB_OPTS` is `RemotePort=localhost:<port>` whatever the user gave. Every other variable is the user's, with the user's value. |
| Session.BuildRemoteCommand | client/src/perlDebugSession.ts:171-197 | The ssh command line starts with `PERLDB_OPTS='RemotePort=<host>:<port>'` and ends with the program and its arguments. |
| Session.EnvParts | client/src/perlDebugSession.ts:189-191 | One part per environment variable, each the variable's name followed by `='[object Object]'`, as written. |
| Session.RemoteCommandEnvPart | client/src/perlDebugSession.ts:187-196 | Every variable of the user's environment appears in the ssh command line as `<name>='[object Object]'`, whatever its value: the whole environment object is interpolated. |
| Session.PerlDebugSession.constructor | client/src/perlDebugSession.ts:22-35 | No runtime, count 0, thread 0, stop on entry, nothing sent. |
| Session.PerlDebugSession.StartRuntime | client/src/perlDebugSession.ts:267-289 | A fresh runtime with empty registries; a parent session runs the startup options; the startup events are sent. |
| Session.PerlDebugSession.OnConnection | client/src/perlDebugSession.ts:92-101 | Every connection raises the count. The runtime starts exactly on the first connection (stop-on-entry defaults to true). Every later connection sends one `startDebugging` request. |
| Session.PerlDebugSession.ConnectToProxy | client/src/perlDebugSession.ts:252-265 | A child session's runtime starts without startup options and leaves the count alone. |
| Session.PerlDebugSession.OnThread | client/src/perlDebugSession.ts:279-281 | The reported thread is stored, nothing else changes. |
| Session.PerlDebugSession.OnProxyClose | client/src/perlDebugSession.ts:235-241 | Performs the proxied close of `AfterClose`. |
| Session.PerlDebugSession.OnRuntimeClose | client/src/perlDebugSession.ts:293-302 | Performs the runtime close of `AfterClose`. |
| Session.PerlDebugSession.ConfigurationDone | client/src/perlDebugSession.ts:305-320 | With stop-on-entry, Stopped(`entry`) at once. Otherwise `c` is run and Stopped(`breakpoint`) waits for it; nothing happens without a runtime. |
| Session.PerlDebugSession.FlowControl | client/src/perlDebugSession.ts:345-417 | Responds exactly when there is a runtime. Runs the request's command and queues the Stopped event with its reason, sending nothing yet. |
| Session.PerlDebugSession.ResumeResolved | client/src/perlDebugSession.ts:359-361 | The oldest waiting Stopped event is sent when its command resolves. |
| Session.PerlDebugSession.Evaluate | client/src/perlDebugSession.ts:489-510 | A REPL expression is run as a command; anything else goes through `evaluateVariable`. There is a result exactly when there is a runtime, and it is the reply. |
| Session.PerlDebugSession.SetBreakpoints | client/src/perlDebugSession.ts:539-569 | Line breakpoints are cleared first. There is no body exactly when the path or the list is missing or the list is empty. Otherwise there is one entry per request in order, and the registry holds the accepted ones. |
| Session.PerlDebugSession.SetFunctionBreakpoints | client/src/perlDebugSession.ts:571-599 | Function breakpoints are cleared first. The response lists exactly the registered breakpoints, in request order, and can be shorter than the request. |

## Left out

- Sockets, servers and `net` calls (`createServer`, `listen`, `createConnection`, `resetAndDestroy`, `server.close`). The socket is the write log `written`, and incoming data is a sequence of chunks.
- The regular-expression engine. The response pattern of client/src/perlRuntime.ts:34-35 is restated as a prompt grammar with the same leftmost, shortest-capture choices. The frame-line pattern of line 210 is restated as a scanner. The scanner's contract is its round trip on the lines the debugger prints, not equality with the regex on every string.
- `EventEmitter`, `Symbol` and `Promise` mechanics. A command's symbol is its id. Emitted responses are the log `resolved`. In `Runtime` and `Session` each awaited reply is a parameter.
- `JSON.parse` of the `B::svref_2object` output (client/src/perlRuntime.ts:170-172). The file and line it yields are the `location` input, and that command's reply text is not modelled.
- `terminate`, `threadsRequest`, `sourceRequest`, `stackTraceRequest`, `breakpointLocationsRequest`, `variablesRequest`, `disconnectRequest`, `terminateRequest` and `initializeRequest`. They forward to runtime methods or to the transport. `getThreads`, `getBreakpointLocations`, `getVariables`, `padWalkerInstalled` and `startupTasks` are not defined in the runtime file and are not part of this model. PadWalker's presence is an input, and `startupTasks`' commands are not logged.
- `determineLocalHostname` reads the OS network interfaces, so the host is a parameter of `BuildRemoteCommand`. `startInTerminal`, `runInTerminalRequest`, the `startDebugging` round trip, the 30000 ms timeouts and the `sendResponse`/`sendEvent` transport are also left out. Sent events and `startDebugging` requests form the ordered log `sent`.
- client/src/debuggerProxy.ts, client/src/bootstrap.ts, client/src/extension.ts and client/webpack.config.js are not part of this model.
- Session.BuildRemoteCommand: its contract states the command line's first and last parts, and `RemoteCommandEnvPart` states that each environment part occurs in it. The order of the parts and the interpreter and flag in the middle are not stated. Each user environment variable is rendered as written in client/src/perlDebugSession.ts:189-191, `<name>='[object Object]'`. The whole environment object is interpolated, not the variable's value, and that is not a per-variable encoding.
- Runtime.PidOf: `Number` also accepts signs, fractions, exponents and hexadecimal. Here only blank and decimal-digit replies are numbers, and everything else is `None` (where the source would give a number or `NaN`).
- Session.PerlDebugSession.FlowControl: without a runtime the source's callback throws before any response. This is modelled as "not responded, nothing changes".
- Session.PerlDebugSession.StartRuntime: the close handler is installed only after the asynchronous startup finishes. Closes are handled by separate methods, so the case of a socket closing before Initialized is not modelled.
- A `setBreakpoints` entry's `source` is reduced to the path, and a `setFunctionBreakpoints` entry's `source` to its path (the source uses the path as the name too).
- RuntimeQueue.CommandQueue.AddCommand: the `nextCommand` chain is walked with a loop in the source. Here the chain is a sequence, and the new command is appended to its end.
- `clearAllBreakpoints` and `clearAllFunctionBreakpoints` clear every breakpoint of their own kind. No check is made whether the other kind still uses the same line. The model follows the code here.
- Each runtime and session request is modelled as running to completion alone. In the source, `setBreakPointsRequest`, `setFunctionBreakPointsRequest` and `evaluateRequest` (client/src/perlDebugSession.ts:441, 449, 489-510) start without waiting for an earlier request, and every `await` lets another request run. Their commands then interleave in the shared queue, and an interleaved `clearAll*` (client/src/perlRuntime.ts:180-194, which empties the registry only after its last `await`) can drop a registration that another request's `setBreakpoint` pushed in the meantime. The contracts of `SetBreakpoints`, `SetFunctionBreakpoints`, `Evaluate`, `ClearAllBreakpoints`, `ClearAllFunctionBreakpoints` and the lemma `VerifiedLinesRegistered` describe a request that no other request interleaves with.
- Numbers are unbounded integers. Line numbers and ports never reach JavaScript's floating-point limits in practice.
