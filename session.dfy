/** The debug adapter session: it counts the debugger connections that are
    live, starts the runtime on the first one and a proxied child session on
    each later one, sends Exited and Terminated when sockets close, turns
    flow-control requests into runtime commands followed by Stopped events,
    assembles the breakpoint responses and builds the command lines that
    launch the debuggee. The runtime's replies are parameters; the events
    and reverse requests sent to the client are an ordered log. */
module Session {
  import opened Text
  import opened Runtime

  // ---------------------------------------------------------------------
  // Events

  /** The reason of a Stopped event: `entry`, `breakpoint` or `step`. */
  datatype StopReason = Entry | BreakpointHit | Step

  /** What the session sends to the client, in order: protocol events, and
      the `startDebugging` reverse request that opens a child session for a
      proxied connection. */
  datatype Event =
    | Initialized
    | Output(text: string, category: string)
    | Stopped(reason: StopReason, thread: int)
    | Exited(exitCode: int)
    | Terminated
    | StartDebugging(stopOnEntry: bool)

  /** The warning sent when the debuggee's Perl lacks PadWalker. */
  const PadWalkerWarning: string := "PadWalker not installed. " + "Debugger will be unable " + "to list variables."

  /** The events of starting the runtime: the PadWalker warning when needed,
      then Initialized. */
  function StartupEvents(padWalkerInstalled: bool): (events: seq<Event>)
    ensures |events| >= 1 && events[|events| - 1] == Initialized
    ensures Output(PadWalkerWarning, "important") in events <==> !padWalkerInstalled
  {
    (if padWalkerInstalled then [] else [Output(PadWalkerWarning, "important")]) + [Initialized]
  }

  // ---------------------------------------------------------------------
  // Closing sockets

  /** A socket that closes: a proxied connection's, or the runtime's (with
      whether it closed on an error). */
  datatype Close = ProxyClosed | RuntimeClosed(hadError: bool)

  /** The live-connection count after a socket closes, and the events sent:
      a proxied socket only lowers the count; the runtime's sends Exited (1
      on error, else 0) and lowers the count unless the runtime is a child.
      Terminated follows once the count reaches zero, and always when a
      child's runtime closes. */
  function AfterClose(numRunning: int, child: bool, c: Close): (int, seq<Event>) {
    match c
    case ProxyClosed =>
      (numRunning - 1, if numRunning - 1 == 0 then [Terminated] else [])
    case RuntimeClosed(hadError) =>
      var n := if child then numRunning else numRunning - 1;
      (n, [Exited(if hadError then 1 else 0)] + (if child || n == 0 then [Terminated] else []))
  }

  /** The count and the events after several sockets close, in order. */
  function AfterCloses(numRunning: int, child: bool, closes: seq<Close>): (int, seq<Event>)
    decreases |closes|
  {
    if closes == [] then (numRunning, [])
    else
      var first := AfterClose(numRunning, child, closes[0]);
      var rest := AfterCloses(first.0, child, closes[1..]);
      (rest.0, first.1 + rest.1)
  }

  /** The number of Terminated events in a log. */
  function Terminations(events: seq<Event>): nat {
    multiset(events)[Terminated]
  }

  /** Each close lowers a parent session's count by one, and Terminated is
      sent at that close exactly when the count reaches zero. */
  lemma AfterCloseParent(numRunning: int, c: Close)
    ensures AfterClose(numRunning, false, c).0 == numRunning - 1
    ensures Terminations(AfterClose(numRunning, false, c).1) == if numRunning == 1 then 1 else 0
    ensures numRunning == 1 ==> EndsTerminated(AfterClose(numRunning, false, c).1)
    ensures c.RuntimeClosed? ==> AfterClose(numRunning, false, c).1[0] == Exited(if c.hadError then 1 else 0)
  {
  }

  /** The log's last event is Terminated. */
  predicate EndsTerminated(events: seq<Event>) {
    |events| > 0 && events[|events| - 1] == Terminated
  }

  /** Several closes are the first one followed by the rest. */
  lemma AfterClosesCons(n: int, child: bool, closes: seq<Close>)
    requires closes != []
    ensures AfterCloses(n, child, closes) ==
      (AfterCloses(AfterClose(n, child, closes[0]).0, child, closes[1..]).0,
       AfterClose(n, child, closes[0]).1 + AfterCloses(AfterClose(n, child, closes[0]).0, child, closes[1..]).1)
  {
  }

  /** In a parent session whose `n` connections close one by one, in any
      order of proxied and runtime sockets, the count falls to `n` minus the
      closes so far, and Terminated is sent exactly once: at the last close. */
  lemma {:induction false} TerminatedOnceAtLastClose(n: int, closes: seq<Close>)
    requires |closes| <= n
    ensures AfterCloses(n, false, closes).0 == n - |closes|
    ensures Terminations(AfterCloses(n, false, closes).1) == if |closes| == n && n > 0 then 1 else 0
    ensures |closes| == n > 0 ==> EndsTerminated(AfterCloses(n, false, closes).1)
    decreases |closes|
  {
    if closes != [] {
      var first := AfterClose(n, false, closes[0]);
      var rest := AfterCloses(first.0, false, closes[1..]);
      AfterCloseParent(n, closes[0]);
      TerminatedOnceAtLastClose(first.0, closes[1..]);
      AfterClosesCons(n, false, closes);
      TerminationsAppend(first.1, rest.1);
      if |closes| == n {
        EndsTerminatedAppend(first.1, rest.1);
      }
    }
  }

  /** A log followed by one that ends with Terminated ends with Terminated;
      so does a log that ends with it followed by nothing. */
  lemma EndsTerminatedAppend(a: seq<Event>, b: seq<Event>)
    requires EndsTerminated(b) || (EndsTerminated(a) && b == [])
    ensures EndsTerminated(a + b)
  {
  }

  lemma TerminationsAppend(a: seq<Event>, b: seq<Event>)
    ensures Terminations(a + b) == Terminations(a) + Terminations(b)
  {
  }

  /** In a child session, the runtime socket's close always ends the session. */
  lemma ChildRuntimeCloseTerminates(numRunning: int, hadError: bool)
    ensures AfterClose(numRunning, true, RuntimeClosed(hadError)).0 == numRunning
    ensures AfterClose(numRunning, true, RuntimeClosed(hadError)).1 ==
      [Exited(if hadError then 1 else 0), Terminated]
  {
  }

  // ---------------------------------------------------------------------
  // Flow control

  /** `continue`, `next`, `stepIn` and `stepOut`. */
  datatype FlowRequest = Continue | Next | StepIn | StepOut

  /** The runtime command a flow-control request runs. */
  function FlowCommand(r: FlowRequest): (cmd: string)
    ensures cmd in ["c", "n", "s", "r"]
    ensures cmd == "c" <==> r == Continue
  {
    match r
    case Continue => "c"
    case Next => "n"
    case StepIn => "s"
    case StepOut => "r"
  }

  /** The reason of the Stopped event that follows a flow-control request:
      `breakpoint` for continue, `step` for the three steps, never `entry`. */
  function FlowReason(r: FlowRequest): (reason: StopReason)
    ensures reason == BreakpointHit <==> r == Continue
    ensures reason == Step <==> r != Continue
  {
    if r == Continue then BreakpointHit else Step
  }

  // ---------------------------------------------------------------------
  // Breakpoint responses

  /** A requested line breakpoint. */
  datatype LineRequest = LineRequest(line: int, condition: Option<string>)

  /** The debugger's replies to one breakpoint's commands. */
  datatype Replies = Replies(requireReply: string, breakReply: string)

  /** An entry of the `setBreakpoints` response; `verified` is absent when
      there is no runtime to ask. */
  datatype LineEntry = LineEntry(verified: Option<bool>, line: int, source: string)

  /** The entry reported for one requested breakpoint. */
  function LineEntryFor(hasRuntime: bool, path: string, req: LineRequest, replies: Replies): LineEntry {
    LineEntry(if hasRuntime then Some(LineBreakpointAccepted(path, replies.requireReply, replies.breakReply)) else None,
              req.line, path)
  }

  /** The breakpoints the runtime registers for the requests, in order. */
  function AcceptedBreakpoints(path: string, reqs: seq<LineRequest>, replies: seq<Replies>): (bps: seq<Breakpoint>)
    requires |replies| == |reqs|
    ensures |bps| <= |reqs|
    ensures forall b :: b in bps ==> b.path == path
    decreases |reqs|
  {
    if reqs == [] then []
    else
      var n := |reqs| - 1;
      AcceptedBreakpoints(path, reqs[..n], replies[..n]) +
        (if LineBreakpointAccepted(path, replies[n].requireReply, replies[n].breakReply)
         then [Breakpoint(path, reqs[n].line)] else [])
  }

  /** The commands the runtime runs for the requests, in order. */
  function SetLineCommands(path: string, reqs: seq<LineRequest>, replies: seq<Replies>): seq<string>
    requires |replies| == |reqs|
    decreases |reqs|
  {
    if reqs == [] then []
    else
      var n := |reqs| - 1;
      SetLineCommands(path, reqs[..n], replies[..n]) +
        LineBreakpointCommands(path, reqs[n].line, reqs[n].condition, replies[n].requireReply)
  }

  /** The lines of the entries reported as verified, in order. */
  function VerifiedLines(entries: seq<LineEntry>): seq<int>
    decreases |entries|
  {
    if entries == [] then []
    else
      var n := |entries| - 1;
      VerifiedLines(entries[..n]) + (if entries[n].verified == Some(true) then [entries[n].line] else [])
  }

  /** The lines of a breakpoint list, in order. */
  function Lines(bps: seq<Breakpoint>): (lines: seq<int>)
    ensures |lines| == |bps|
    ensures forall k :: 0 <= k < |bps| ==> lines[k] == bps[k].line
  {
    seq(|bps|, k requires 0 <= k < |bps| => bps[k].line)
  }

  /** The entries a `setBreakpoints` response lists when the runtime is there. */
  function LineEntries(path: string, reqs: seq<LineRequest>, replies: seq<Replies>): (entries: seq<LineEntry>)
    requires |replies| == |reqs|
    ensures |entries| == |reqs|
    ensures forall k :: 0 <= k < |reqs| ==> entries[k] == LineEntryFor(true, path, reqs[k], replies[k])
  {
    seq(|reqs|, k requires 0 <= k < |reqs| => LineEntryFor(true, path, reqs[k], replies[k]))
  }

  /** One more request extends the registered breakpoints by its own, if accepted. */
  lemma AcceptedBreakpointsSnoc(path: string, reqs: seq<LineRequest>, replies: seq<Replies>, i: nat)
    requires |replies| == |reqs| && i < |reqs|
    ensures AcceptedBreakpoints(path, reqs[..i + 1], replies[..i + 1]) ==
      AcceptedBreakpoints(path, reqs[..i], replies[..i]) +
        (if LineBreakpointAccepted(path, replies[i].requireReply, replies[i].breakReply)
         then [Breakpoint(path, reqs[i].line)] else [])
  {
    assert reqs[..i + 1][..i] == reqs[..i] && replies[..i + 1][..i] == replies[..i];
  }

  /** One more request extends the commands by its own. */
  lemma SetLineCommandsSnoc(path: string, reqs: seq<LineRequest>, replies: seq<Replies>, i: nat)
    requires |replies| == |reqs| && i < |reqs|
    ensures SetLineCommands(path, reqs[..i + 1], replies[..i + 1]) ==
      SetLineCommands(path, reqs[..i], replies[..i]) +
        LineBreakpointCommands(path, reqs[i].line, reqs[i].condition, replies[i].requireReply)
  {
    assert reqs[..i + 1][..i] == reqs[..i] && replies[..i + 1][..i] == replies[..i];
  }

  /** The response's verified entries are exactly the breakpoints the runtime
      registered: the same lines, in the same order. */
  lemma {:induction false} VerifiedLinesRegistered(path: string, reqs: seq<LineRequest>, replies: seq<Replies>)
    requires |replies| == |reqs|
    ensures VerifiedLines(LineEntries(path, reqs, replies)) == Lines(AcceptedBreakpoints(path, reqs, replies))
    decreases |reqs|
  {
    if reqs != [] {
      var n := |reqs| - 1;
      var entries := LineEntries(path, reqs, replies);
      var ok := LineBreakpointAccepted(path, replies[n].requireReply, replies[n].breakReply);
      VerifiedLinesRegistered(path, reqs[..n], replies[..n]);
      LineEntriesPrefix(path, reqs, replies, n);
      FrontLast(entries);
      assert entries[n] == LineEntry(Some(ok), reqs[n].line, path);
      AcceptedBreakpointsSnoc(path, reqs, replies, n);
      assert reqs[..n + 1] == reqs && replies[..n + 1] == replies;
      VerifiedLinesStep(entries[..n], AcceptedBreakpoints(path, reqs[..n], replies[..n]), ok, path, reqs[n].line);
    }
  }

  /** One more entry and its breakpoint, if verified, keep the two lists of lines equal. */
  lemma VerifiedLinesStep(entries: seq<LineEntry>, bps: seq<Breakpoint>, ok: bool, path: string, line: int)
    requires VerifiedLines(entries) == Lines(bps)
    ensures VerifiedLines(entries + [LineEntry(Some(ok), line, path)]) ==
      Lines(bps + (if ok then [Breakpoint(path, line)] else []))
  {
  }

  /** The entries of a prefix of the requests are a prefix of the entries. */
  lemma LineEntriesPrefix(path: string, reqs: seq<LineRequest>, replies: seq<Replies>, n: nat)
    requires |replies| == |reqs| && n <= |reqs|
    ensures LineEntries(path, reqs, replies)[..n] == LineEntries(path, reqs[..n], replies[..n])
  {
  }

  lemma LinesAppend(a: seq<Breakpoint>, b: seq<Breakpoint>)
    ensures Lines(a + b) == Lines(a) + Lines(b)
  {
  }

  /** A requested function breakpoint. */
  datatype FunctionRequest = FunctionRequest(name: string, condition: Option<string>)

  /** The replies to one function breakpoint's commands, and the location the
      debugger reports for the sub. */
  datatype FunctionReplies = FunctionReplies(requireReply: string, breakReply: string, location: Location)

  /** An entry of the `setFunctionBreakpoints` response: always verified, at
      the sub's line, with the file as both the source's path and name. */
  datatype FunctionEntry = FunctionEntry(line: int, path: string)

  /** The function breakpoints the runtime registers for the requests, in order. */
  function RegisteredFunctions(reqs: seq<FunctionRequest>, replies: seq<FunctionReplies>): (fbs: seq<FunctionBreakpoint>)
    requires |replies| == |reqs|
    ensures |fbs| <= |reqs|
    decreases |reqs|
  {
    if reqs == [] then []
    else
      var n := |reqs| - 1;
      var outcome := FunctionBreakpointOutcome(reqs[n].name, replies[n].requireReply, replies[n].breakReply,
                                               replies[n].location);
      RegisteredFunctions(reqs[..n], replies[..n]) + (if outcome.Some? then [outcome.value] else [])
  }

  /** The commands the runtime runs for the function requests, in order. */
  function SetFunctionCommands(reqs: seq<FunctionRequest>, replies: seq<FunctionReplies>): seq<string>
    requires |replies| == |reqs|
    decreases |reqs|
  {
    if reqs == [] then []
    else
      var n := |reqs| - 1;
      SetFunctionCommands(reqs[..n], replies[..n]) +
        FunctionBreakpointCommands(reqs[n].name, reqs[n].condition, replies[n].requireReply, replies[n].breakReply)
  }

  /** The response entries for registered function breakpoints. */
  function FunctionEntries(fbs: seq<FunctionBreakpoint>): (entries: seq<FunctionEntry>)
    ensures |entries| == |fbs|
    ensures forall k :: 0 <= k < |fbs| ==> entries[k] == FunctionEntry(fbs[k].line, fbs[k].path)
  {
    seq(|fbs|, k requires 0 <= k < |fbs| => FunctionEntry(fbs[k].line, fbs[k].path))
  }

  /** One more request extends the registered function breakpoints by its own, if any. */
  lemma RegisteredFunctionsSnoc(reqs: seq<FunctionRequest>, replies: seq<FunctionReplies>, i: nat)
    requires |replies| == |reqs| && i < |reqs|
    ensures RegisteredFunctions(reqs[..i + 1], replies[..i + 1]) ==
      RegisteredFunctions(reqs[..i], replies[..i]) +
        (var outcome := FunctionBreakpointOutcome(reqs[i].name, replies[i].requireReply, replies[i].breakReply,
                                                  replies[i].location);
         if outcome.Some? then [outcome.value] else [])
  {
    assert reqs[..i + 1][..i] == reqs[..i] && replies[..i + 1][..i] == replies[..i];
  }

  /** One more request extends the function breakpoint commands by its own. */
  lemma SetFunctionCommandsSnoc(reqs: seq<FunctionRequest>, replies: seq<FunctionReplies>, i: nat)
    requires |replies| == |reqs| && i < |reqs|
    ensures SetFunctionCommands(reqs[..i + 1], replies[..i + 1]) ==
      SetFunctionCommands(reqs[..i], replies[..i]) +
        FunctionBreakpointCommands(reqs[i].name, reqs[i].condition, replies[i].requireReply, replies[i].breakReply)
  {
    assert reqs[..i + 1][..i] == reqs[..i] && replies[..i + 1][..i] == replies[..i];
  }

  /** One more registered function breakpoint adds its entry. */
  lemma FunctionEntriesSnoc(fbs: seq<FunctionBreakpoint>, fb: FunctionBreakpoint)
    ensures FunctionEntries(fbs + [fb]) == FunctionEntries(fbs) + [FunctionEntry(fb.line, fb.path)]
  {
  }

  /** A registered function breakpoint comes from a request: its name, and the
      location the debugger reported for that request. */
  predicate FromRequest(fb: FunctionBreakpoint, req: FunctionRequest, replies: FunctionReplies) {
    fb == FunctionBreakpoint(replies.location.file, req.name, replies.location.line)
  }

  /** Every registered function breakpoint is named by a request, and the
      registered ones keep the order of the requests. */
  lemma {:induction false} RegisteredFunctionsRequested(reqs: seq<FunctionRequest>, replies: seq<FunctionReplies>)
    requires |replies| == |reqs|
    ensures forall i :: 0 <= i < |RegisteredFunctions(reqs, replies)| ==>
      exists k :: 0 <= k < |reqs| && FromRequest(RegisteredFunctions(reqs, replies)[i], reqs[k], replies[k])
    decreases |reqs|
  {
    if reqs != [] {
      var n := |reqs| - 1;
      var head := RegisteredFunctions(reqs[..n], replies[..n]);
      var fbs := RegisteredFunctions(reqs, replies);
      RegisteredFunctionsRequested(reqs[..n], replies[..n]);
      RegisteredFunctionsSnoc(reqs, replies, n);
      assert reqs[..n + 1] == reqs && replies[..n + 1] == replies;
      forall i | 0 <= i < |fbs|
        ensures exists k :: 0 <= k < |reqs| && FromRequest(fbs[i], reqs[k], replies[k])
      {
        if i < |head| {
          var k :| 0 <= k < n && FromRequest(head[i], reqs[..n][k], replies[..n][k]);
          assert fbs[i] == head[i];
          assert reqs[..n][k] == reqs[k] && replies[..n][k] == replies[k];
        } else {
          assert FromRequest(fbs[i], reqs[n], replies[n]);
        }
      }
    } else {
      assert RegisteredFunctions(reqs, replies) == [];
    }
  }

  // ---------------------------------------------------------------------
  // Scopes

  datatype Scope = Scope(name: string, variablesReference: int, expensive: bool)

  /** The two scopes of every frame: lexical variables (reference 1) and
      package variables (reference 2), both cheap to list. */
  function Scopes(): (scopes: seq<Scope>)
    ensures |scopes| == 2 && scopes[0].variablesReference != scopes[1].variablesReference
    ensures forall s :: s in scopes ==> !s.expensive
  {
    [Scope("Lexical", 1, false), Scope("Package", 2, false)]
  }

  // ---------------------------------------------------------------------
  // Launch command lines

  /** `threads ? '-dt' : '-d'`. */
  function DebugFlag(threads: bool): string {
    if threads then "-dt" else "-d"
  }

  /** `x || []` for an optional list. */
  function OrEmpty(xs: Option<seq<string>>): seq<string> {
    if xs.Some? then xs.value else []
  }

  /** `buildLocalCommand`: the interpreter, the debug flag, the interpreter's
      arguments, the program and the program's arguments. */
  function BuildLocalCommand(perl: string, threads: bool, perlArgs: Option<seq<string>>, program: string,
                             args: Option<seq<string>>): (cmd: seq<string>)
    ensures var p := |OrEmpty(perlArgs)|;
      && |cmd| == 3 + p + |OrEmpty(args)|
      && cmd[0] == perl && cmd[1] == DebugFlag(threads)
      && cmd[2..2 + p] == OrEmpty(perlArgs)
      && cmd[2 + p] == program
      && cmd[3 + p..] == OrEmpty(args)
  {
    [perl, DebugFlag(threads)] + OrEmpty(perlArgs) + [program] + OrEmpty(args)
  }

  /** The debugger option that makes the debuggee connect back on `port`. */
  function RemotePortOption(host: string, port: int): string {
    "RemotePort=" + host + ":" + IntToString(port)
  }

  /** `buildLocalEnv`: the user's environment, with `PERLDB_OPTS` set to
      connect back to this host on `port` whatever the user gave for it. */
  function BuildLocalEnv(env: Option<map<string, string>>, port: int): (r: map<string, string>)
    ensures "PERLDB_OPTS" in r && r["PERLDB_OPTS"] == RemotePortOption("localhost", port)
    ensures forall k :: k != "PERLDB_OPTS" ==>
      (k in r <==> env.Some? && k in env.value) && (k in r ==> r[k] == env.value[k])
  {
    var user := if env.Some? then env.value else map[];
    user["PERLDB_OPTS" := RemotePortOption("localhost", port)]
  }

  /** `buildRemoteCommand`: one shell command line for `ssh`. Each variable
      of the user's environment is rendered as `<name>='[object Object]'`:
      the whole environment object, not the variable's value, is
      interpolated. */
  function BuildRemoteCommand(hostname: string, port: int, perl: string, threads: bool,
                              perlArgs: Option<seq<string>>, program: string, args: Option<seq<string>>,
                              envNames: seq<string>): (cmd: string)
    ensures StartsWith(cmd, "PERLDB_OPTS='" + RemotePortOption(hostname, port) + "'")
    ensures EndsWith(cmd, ProgramTail(program, args))
  {
    var parts := ["PERLDB_OPTS='" + RemotePortOption(hostname, port) + "'"] + EnvParts(envNames);
    var joinedPerlArgs := Join(OrEmpty(perlArgs), " ");
    var perlArgsText := if joinedPerlArgs != "" then " " + joinedPerlArgs + " " else "";
    var head := Join(parts, " ");
    var middle := " " + perl + " " + DebugFlag(threads) + perlArgsText;
    JoinHead(parts, " ");
    AppendStartsWith(head, middle + ProgramTail(program, args), parts[0]);
    AppendEndsWith(head + middle, ProgramTail(program, args));
    head + middle + ProgramTail(program, args)
  }

  /** `<name>='[object Object]'` for each variable name, as written. */
  function EnvParts(names: seq<string>): (parts: seq<string>)
    ensures |parts| == |names|
    ensures forall k :: 0 <= k < |names| ==> StartsWith(parts[k], names[k]) && EndsWith(parts[k], EnvValueAsWritten)
  {
    seq(|names|, k requires 0 <= k < |names| => names[k] + EnvValueAsWritten)
  }

  /** What every variable's value is rendered as: the environment object itself. */
  const EnvValueAsWritten: string := "='[object Object]'"

  /** Every variable of the user's environment appears in the remote command
      line as `<name>='[object Object]'`, whatever its value. */
  lemma RemoteCommandEnvPart(hostname: string, port: int, perl: string, threads: bool,
                             perlArgs: Option<seq<string>>, program: string, args: Option<seq<string>>,
                             envNames: seq<string>, k: nat)
    requires k < |envNames|
    ensures Contains(BuildRemoteCommand(hostname, port, perl, threads, perlArgs, program, args, envNames),
                     envNames[k] + EnvValueAsWritten)
  {
    var parts := ["PERLDB_OPTS='" + RemotePortOption(hostname, port) + "'"] + EnvParts(envNames);
    var joinedPerlArgs := Join(OrEmpty(perlArgs), " ");
    var perlArgsText := if joinedPerlArgs != "" then " " + joinedPerlArgs + " " else "";
    var head := Join(parts, " ");
    var middle := " " + perl + " " + DebugFlag(threads) + perlArgsText;
    var tail := ProgramTail(program, args);
    var cmd := BuildRemoteCommand(hostname, port, perl, threads, perlArgs, program, args, envNames);
    assert cmd == head + middle + tail;
    assert parts[k + 1] == envNames[k] + EnvValueAsWritten;
    var i := JoinOccurs(parts, " ", k + 1);
    OccursInPrefix(head, middle + tail, parts[k + 1], i);
    AppendAssoc(head, middle, tail);
    ContainsIff(cmd, envNames[k] + EnvValueAsWritten);
  }

  /** ` <program>` followed by ` <args joined by spaces>` when there are any. */
  function ProgramTail(program: string, args: Option<seq<string>>): string {
    var joined := Join(OrEmpty(args), " ");
    " " + program + (if joined != "" then " " + joined else "")
  }

  /** A join starts with its first piece. */
  lemma JoinHead(parts: seq<string>, sep: string)
    requires |parts| >= 1
    ensures StartsWith(Join(parts, sep), parts[0])
  {
  }

  lemma AppendStartsWith(a: string, b: string, prefix: string)
    requires StartsWith(a, prefix)
    ensures StartsWith(a + b, prefix)
  {
  }

  lemma AppendEndsWith(a: string, b: string)
    ensures EndsWith(a + b, b)
  {
  }

  // ---------------------------------------------------------------------
  // The session

  class PerlDebugSession {
    var runtime: PerlRuntime?
    /** Whether the runtime belongs to a child session (reached through a proxy). */
    var runtimeIsChild: bool
    var thread: int
    /** The debugger connections accepted and not yet closed. */
    var numRunning: int
    var stopOnEntry: bool
    /** What has been sent to the client, in order. */
    var sent: seq<Event>
    /** The Stopped events waiting for their runtime command to resolve, oldest first. */
    var pendingStops: seq<StopReason>

    constructor ()
      ensures runtime == null && !runtimeIsChild
      ensures numRunning == 0 && thread == 0 && stopOnEntry
      ensures sent == [] && pendingStops == []
    {
      runtime := null;
      runtimeIsChild := false;
      thread := 0;
      numRunning := 0;
      stopOnEntry := true;
      sent := [];
      pendingStops := [];
    }

    /** `startRuntime`: a fresh runtime on the socket; a parent session also
      sets the startup options; the PadWalker warning when needed, then
      Initialized. */
    method StartRuntime(child: bool, padWalkerInstalled: bool)
      modifies this
      ensures fresh(runtime) && runtimeIsChild == child
      ensures runtime.breakpoints == [] && runtime.functionBreakpoints == []
      ensures runtime.issued == if child then [] else StartupCommands
      ensures sent == old(sent) + StartupEvents(padWalkerInstalled)
      ensures numRunning == old(numRunning) && thread == old(thread) && stopOnEntry == old(stopOnEntry)
      ensures pendingStops == old(pendingStops)
    {
      var r := new PerlRuntime();
      runtime := r;
      runtimeIsChild := child;
      if !padWalkerInstalled {
        sent := sent + [Output(PadWalkerWarning, "important")];
      }
      if !child {
        r.SetStartupOptions();
      }
      sent := sent + [Initialized];
    }

    /** A debugger connects to the session's server: the count goes up; the
      first connection gets the runtime (with the request's `stopOnEntry`,
      `true` when absent), every later one a proxy and a `startDebugging`
      request for a child session. */
    method OnConnection(stopOnEntryArg: Option<bool>, padWalkerInstalled: bool) returns (startedRuntime: bool)
      modifies this
      ensures numRunning == old(numRunning) + 1
      ensures startedRuntime <==> old(runtime) == null
      ensures startedRuntime ==>
        && fresh(runtime) && !runtimeIsChild
        && runtime.issued == StartupCommands && runtime.breakpoints == [] && runtime.functionBreakpoints == []
        && stopOnEntry == (if stopOnEntryArg.Some? then stopOnEntryArg.value else true)
        && sent == old(sent) + StartupEvents(padWalkerInstalled)
      ensures !startedRuntime ==>
        && runtime == old(runtime) && runtimeIsChild == old(runtimeIsChild)
        && stopOnEntry == old(stopOnEntry)
        && sent == old(sent) + [StartDebugging(stopOnEntry)]
      ensures thread == old(thread) && pendingStops == old(pendingStops)
    {
      numRunning := numRunning + 1;
      if runtime != null {
        sent := sent + [StartDebugging(stopOnEntry)];
        startedRuntime := false;
      } else {
        stopOnEntry := if stopOnEntryArg.Some? then stopOnEntryArg.value else true;
        StartRuntime(false, padWalkerInstalled);
        startedRuntime := true;
      }
    }

    /** A child session connects to its proxy: the runtime runs without the
      startup options, and the count is left alone. */
    method ConnectToProxy(stopOnEntryArg: Option<bool>, padWalkerInstalled: bool)
      modifies this
      ensures fresh(runtime) && runtimeIsChild
      ensures runtime.issued == [] && runtime.breakpoints == [] && runtime.functionBreakpoints == []
      ensures stopOnEntry == if stopOnEntryArg.Some? then stopOnEntryArg.value else true
      ensures sent == old(sent) + StartupEvents(padWalkerInstalled)
      ensures numRunning == old(numRunning) && thread == old(thread) && pendingStops == old(pendingStops)
    {
      stopOnEntry := if stopOnEntryArg.Some? then stopOnEntryArg.value else true;
      StartRuntime(true, padWalkerInstalled);
    }

    /** The session's `'thread'` listener (client/src/perlDebugSession.ts:279-281).
      The runtime of client/src/perlRuntime.ts never emits `'thread'`: it emits
      only the symbols of its commands (line 43). So in the source this listener
      never runs, and `thread` keeps its initial value 0. */
    method OnThread(t: int)
      modifies this
      ensures thread == t
      ensures runtime == old(runtime) && runtimeIsChild == old(runtimeIsChild) && numRunning == old(numRunning)
      ensures stopOnEntry == old(stopOnEntry) && sent == old(sent) && pendingStops == old(pendingStops)
    {
      thread := t;
    }

    /** A proxied connection's socket closes. */
    method OnProxyClose()
      modifies this
      ensures numRunning == AfterClose(old(numRunning), runtimeIsChild, ProxyClosed).0
      ensures sent == old(sent) + AfterClose(old(numRunning), runtimeIsChild, ProxyClosed).1
      ensures runtime == old(runtime) && runtimeIsChild == old(runtimeIsChild) && thread == old(thread)
      ensures stopOnEntry == old(stopOnEntry) && pendingStops == old(pendingStops)
    {
      numRunning := numRunning - 1;
      if numRunning == 0 {
        sent := sent + [Terminated];
      }
    }

    /** The runtime's socket closes, with or without an error. */
    method OnRuntimeClose(hadError: bool)
      modifies this
      ensures numRunning == AfterClose(old(numRunning), runtimeIsChild, RuntimeClosed(hadError)).0
      ensures sent == old(sent) + AfterClose(old(numRunning), runtimeIsChild, RuntimeClosed(hadError)).1
      ensures runtime == old(runtime) && runtimeIsChild == old(runtimeIsChild) && thread == old(thread)
      ensures stopOnEntry == old(stopOnEntry) && pendingStops == old(pendingStops)
    {
      sent := sent + [Exited(if hadError then 1 else 0)];
      if !runtimeIsChild {
        numRunning := numRunning - 1;
      }
      if runtimeIsChild || numRunning == 0 {
        sent := sent + [Terminated];
      }
    }

    /** `configurationDone`: with `stopOnEntry`, Stopped(`entry`) at once;
      otherwise the runtime continues and Stopped(`breakpoint`) waits for
      the command to resolve (nothing happens without a runtime). */
    method ConfigurationDone(reply: string)
      modifies this, runtime
      ensures runtime == old(runtime) && runtimeIsChild == old(runtimeIsChild)
      ensures numRunning == old(numRunning) && thread == old(thread) && stopOnEntry == old(stopOnEntry)
      ensures stopOnEntry ==>
        && sent == old(sent) + [Stopped(Entry, thread)] && pendingStops == old(pendingStops)
        && (runtime != null ==> runtime.issued == old(runtime.issued))
      ensures !stopOnEntry ==> sent == old(sent)
      ensures !stopOnEntry && runtime != null ==>
        runtime.issued == old(runtime.issued) + ["c"] && pendingStops == old(pendingStops) + [BreakpointHit]
      ensures !stopOnEntry && runtime == null ==> pendingStops == old(pendingStops)
      ensures runtime != null ==>
        runtime.breakpoints == old(runtime.breakpoints) && runtime.functionBreakpoints == old(runtime.functionBreakpoints)
    {
      if stopOnEntry {
        sent := sent + [Stopped(Entry, thread)];
      } else if runtime != null {
        var _ := runtime.Resume("c", reply);
        pendingStops := pendingStops + [BreakpointHit];
      }
    }

    /** `flowControlRequest` for continue, next, stepIn and stepOut: the
      runtime command is run and the response sent at once; the Stopped
      event waits for the command to resolve. Without a runtime the request
      fails before any response. */
    method FlowControl(request: FlowRequest, reply: string) returns (responded: bool)
      modifies this, runtime
      ensures responded <==> runtime != null
      ensures runtime == old(runtime) && runtimeIsChild == old(runtimeIsChild)
      ensures numRunning == old(numRunning) && thread == old(thread) && stopOnEntry == old(stopOnEntry)
      ensures sent == old(sent)
      ensures responded ==>
        && runtime.issued == old(runtime.issued) + [FlowCommand(request)]
        && runtime.breakpoints == old(runtime.breakpoints)
        && runtime.functionBreakpoints == old(runtime.functionBreakpoints)
        && pendingStops == old(pendingStops) + [FlowReason(request)]
      ensures !responded ==> pendingStops == old(pendingStops)
    {
      if runtime == null {
        return false;
      }
      var _ := runtime.Resume(FlowCommand(request), reply);
      pendingStops := pendingStops + [FlowReason(request)];
      responded := true;
    }

    /** The oldest pending runtime command resolves: its Stopped event is sent. */
    method ResumeResolved()
      requires pendingStops != []
      modifies this
      ensures sent == old(sent) + [Stopped(old(pendingStops)[0], thread)]
      ensures pendingStops == old(pendingStops)[1..]
      ensures runtime == old(runtime) && runtimeIsChild == old(runtimeIsChild)
      ensures numRunning == old(numRunning) && thread == old(thread) && stopOnEntry == old(stopOnEntry)
    {
      sent := sent + [Stopped(pendingStops[0], thread)];
      pendingStops := pendingStops[1..];
    }

    /** `evaluateRequest`: a REPL expression is run as a debugger command,
      anything else is evaluated as a variable; without a runtime there is
      no result. */
    method Evaluate(context: string, expression: string, refReply: string, reply: string)
      returns (result: Option<string>)
      modifies runtime
      ensures result.Some? <==> runtime != null
      ensures result.Some? ==> result.value == reply
      ensures runtime != null && context == "repl" ==> runtime.issued == old(runtime.issued) + [expression]
      ensures runtime != null && context != "repl" ==>
        runtime.issued == old(runtime.issued) + EvaluationCommands(expression, refReply)
      ensures runtime != null ==>
        runtime.breakpoints == old(runtime.breakpoints) && runtime.functionBreakpoints == old(runtime.functionBreakpoints)
    {
      if runtime == null {
        return None;
      }
      var value: string;
      if context == "repl" {
        value := runtime.RunCommand(expression, reply);
      } else {
        value := runtime.EvaluateVariable(expression, refReply, reply);
      }
      result := Some(value);
    }

    /** `setBreakpoints`: the line breakpoints are cleared first; without a
      path or without requested breakpoints there is no body; otherwise one
      entry per request, in order, verified as the runtime answers. */
    method SetBreakpoints(path: Option<string>, requested: Option<seq<LineRequest>>, replies: seq<Replies>)
      returns (body: Option<seq<LineEntry>>)
      requires requested.Some? ==> |replies| == |requested.value|
      modifies runtime
      ensures body.None? <==> path.None? || requested.None? || requested.value == []
      ensures body.Some? ==>
        && |body.value| == |requested.value|
        && forall k :: 0 <= k < |body.value| ==>
          body.value[k] == LineEntryFor(runtime != null, path.value, requested.value[k], replies[k])
      ensures runtime != null ==> runtime.functionBreakpoints == old(runtime.functionBreakpoints)
      ensures runtime != null && body.None? ==>
        runtime.breakpoints == [] && runtime.issued == old(runtime.issued) + ClearAllCommands(old(runtime.breakpoints))
      ensures runtime != null && body.Some? ==>
        && runtime.breakpoints == AcceptedBreakpoints(path.value, requested.value, replies)
        && body.value == LineEntries(path.value, requested.value, replies)
        && runtime.issued == old(runtime.issued) + ClearAllCommands(old(runtime.breakpoints)) +
                             SetLineCommands(path.value, requested.value, replies)
    {
      var rt := runtime;
      if rt != null {
        rt.ClearAllBreakpoints();
      }
      if path.None? || requested.None? || requested.value == [] {
        return None;
      }
      var file := path.value;
      var reqs := requested.value;
      ghost var cleared := if rt != null then rt.issued else [];
      var entries: seq<LineEntry> := [];
      for i := 0 to |reqs|
        invariant |entries| == i
        invariant forall k :: 0 <= k < i ==> entries[k] == LineEntryFor(rt != null, file, reqs[k], replies[k])
        invariant rt != null ==>
          && rt.breakpoints == AcceptedBreakpoints(file, reqs[..i], replies[..i])
          && rt.functionBreakpoints == old(rt.functionBreakpoints)
          && rt.issued == cleared + SetLineCommands(file, reqs[..i], replies[..i])
      {
        var verified: Option<bool> := None;
        if rt != null {
          AcceptedBreakpointsSnoc(file, reqs, replies, i);
          SetLineCommandsSnoc(file, reqs, replies, i);
          AppendAssoc(cleared, SetLineCommands(file, reqs[..i], replies[..i]),
                      LineBreakpointCommands(file, reqs[i].line, reqs[i].condition, replies[i].requireReply));
          var ok := rt.SetBreakpoint(file, reqs[i].line, reqs[i].condition,
                                     replies[i].requireReply, replies[i].breakReply);
          verified := Some(ok);
        }
        entries := entries + [LineEntry(verified, reqs[i].line, file)];
      }
      assert reqs[..|reqs|] == reqs && replies[..|reqs|] == replies;
      if rt != null {
        assert entries == LineEntries(file, reqs, replies);
      }
      body := Some(entries);
    }

    /** `setFunctionBreakpoints`: the function breakpoints are cleared first;
      the response lists only the breakpoints whose sub was found, in
      request order, and these are exactly the ones registered. */
    method SetFunctionBreakpoints(requests: seq<FunctionRequest>, replies: seq<FunctionReplies>)
      returns (entries: seq<FunctionEntry>)
      requires |replies| == |requests|
      modifies runtime
      ensures runtime == null ==> entries == []
      ensures runtime != null ==>
        && runtime.functionBreakpoints == RegisteredFunctions(requests, replies)
        && entries == FunctionEntries(runtime.functionBreakpoints)
        && runtime.breakpoints == old(runtime.breakpoints)
        && runtime.issued == old(runtime.issued) + ClearAllCommands(Locations(old(runtime.functionBreakpoints))) +
                             SetFunctionCommands(requests, replies)
      ensures |entries| <= |requests|
    {
      entries := [];
      var rt := runtime;
      if rt == null {
        return;
      }
      rt.ClearAllFunctionBreakpoints();
      ghost var cleared := rt.issued;
      for i := 0 to |requests|
        invariant rt.functionBreakpoints == RegisteredFunctions(requests[..i], replies[..i])
        invariant entries == FunctionEntries(rt.functionBreakpoints)
        invariant rt.breakpoints == old(rt.breakpoints)
        invariant rt.issued == cleared + SetFunctionCommands(requests[..i], replies[..i])
      {
        RegisteredFunctionsSnoc(requests, replies, i);
        SetFunctionCommandsSnoc(requests, replies, i);
        AppendAssoc(cleared, SetFunctionCommands(requests[..i], replies[..i]),
                    FunctionBreakpointCommands(requests[i].name, requests[i].condition,
                                               replies[i].requireReply, replies[i].breakReply));
        ghost var before := rt.functionBreakpoints;
        var location := rt.SetFunctionBreakpoint(requests[i].name, requests[i].condition,
          replies[i].requireReply, replies[i].breakReply, replies[i].location);
        if location.Some? {
          FunctionEntriesSnoc(before, location.value);
          entries := entries + [FunctionEntry(location.value.line, location.value.path)];
        }
      }
      assert requests[..|requests|] == requests && replies[..|requests|] == replies;
    }
  }
}
